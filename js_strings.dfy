/**
 * The JavaScript string built-ins the profile form relies on:
 * `String.prototype.split` on a one-character separator, `String.prototype.trim`,
 * `Array.prototype.join` and decimal `parseInt`.
 */
module JsStrings {
  import opened Wrappers

  /** The characters `trim` removes: ECMAScript WhiteSpace and LineTerminator code points. */
  predicate IsWhitespace(c: char) {
    var n := c as int;
    n == 0x09 || n == 0x0A || n == 0x0B || n == 0x0C || n == 0x0D || n == 0x20 ||
    n == 0xA0 || n == 0x1680 || (0x2000 <= n <= 0x200A) || n == 0x2028 || n == 0x2029 ||
    n == 0x202F || n == 0x205F || n == 0x3000 || n == 0xFEFF
  }

  predicate OnlyWhitespace(s: string) {
    forall i :: 0 <= i < |s| ==> IsWhitespace(s[i])
  }

  /** A string with no whitespace at either end. */
  predicate IsTrimmed(s: string) {
    s == [] || (!IsWhitespace(s[0]) && !IsWhitespace(s[|s| - 1]))
  }

  /** Drops the leading whitespace: the result is the longest suffix that does not start with whitespace. */
  function TrimStart(s: string): (r: string)
    ensures |r| <= |s| && r == s[|s| - |r|..]
    ensures r == [] || !IsWhitespace(r[0])
    ensures forall i :: 0 <= i < |s| - |r| ==> IsWhitespace(s[i])
  {
    if s == [] || !IsWhitespace(s[0]) then s
    else
      var r := TrimStart(s[1..]);
      assert forall i :: 1 <= i < |s| - |r| ==> s[i] == s[1..][i - 1];
      r
  }

  /** Drops the trailing whitespace: the result is the longest prefix that does not end in whitespace. */
  function TrimEnd(s: string): (r: string)
    ensures |r| <= |s| && r == s[..|r|]
    ensures r == [] || !IsWhitespace(r[|r| - 1])
    ensures forall i :: |r| <= i < |s| ==> IsWhitespace(s[i])
  {
    if s == [] || !IsWhitespace(s[|s| - 1]) then s
    else
      var r := TrimEnd(s[..|s| - 1]);
      assert forall i :: |r| <= i < |s| - 1 ==> s[i] == s[..|s| - 1][i];
      r
  }

  /** `r` is `s` with some whitespace removed from its start and some from its end, and nothing else. */
  predicate TrimmedFrom(r: string, s: string) {
    exists k :: 0 <= k <= |s| - |r| && r == s[k..k + |r|] && OnlyWhitespace(s[..k]) && OnlyWhitespace(s[k + |r|..])
  }

  /** Trimming both ends keeps one slice of `s`, with only whitespace before and after it. */
  lemma TrimSlice(s: string)
    ensures TrimmedFrom(TrimEnd(TrimStart(s)), s)
  {
    var t := TrimStart(s);
    var r := TrimEnd(t);
    var k := |s| - |t|;
    assert OnlyWhitespace(s[..k]);
    assert OnlyWhitespace(t[|r|..]) by {
      forall i | 0 <= i < |t| - |r| ensures IsWhitespace(t[|r|..][i]) {
        assert t[|r|..][i] == t[|r| + i];
      }
    }
    SliceBetweenWhitespace(s, k, t, r);
  }

  /** A prefix `r` of a suffix `t` of `s`, each cut off at whitespace, is a slice of `s` between whitespace. */
  lemma SliceBetweenWhitespace(s: string, k: int, t: string, r: string)
    requires 0 <= k <= |s| && t == s[k..] && |r| <= |t| && r == t[..|r|]
    requires OnlyWhitespace(s[..k]) && OnlyWhitespace(t[|r|..])
    ensures TrimmedFrom(r, s)
  {
    assert r == s[k..k + |r|];
    assert s[k + |r|..] == t[|r|..];
  }

  /** `s.trim()`. */
  function Trim(s: string): (r: string)
    ensures IsTrimmed(r)
    ensures |r| <= |s| && forall c :: c in r ==> c in s
    ensures IsTrimmed(s) ==> r == s
    ensures TrimmedFrom(r, s)
  {
    TrimKeepsCharacters(s);
    TrimSlice(s);
    TrimEnd(TrimStart(s))
  }

  /** Trimming both ends leaves a trimmed string made of characters of `s`, and keeps a trimmed `s`. */
  lemma TrimKeepsCharacters(s: string)
    ensures var r := TrimEnd(TrimStart(s));
      IsTrimmed(r) && |r| <= |s| && (forall c :: c in r ==> c in s) && (IsTrimmed(s) ==> r == s)
  {
    var t := TrimStart(s);
    var r := TrimEnd(t);
    assert r != [] ==> r[0] == t[0] && !IsWhitespace(r[|r| - 1]);
    PrefixCharacters(t, r);
    SuffixCharacters(s, t);
  }

  lemma PrefixCharacters(t: string, r: string)
    requires |r| <= |t| && r == t[..|r|]
    ensures forall c :: c in r ==> c in t
  {
    forall c | c in r ensures c in t {
      var i :| 0 <= i < |r| && r[i] == c;
      assert t[i] == c;
    }
  }

  lemma SuffixCharacters(s: string, t: string)
    requires |t| <= |s| && t == s[|s| - |t|..]
    ensures forall c :: c in t ==> c in s
  {
    forall c | c in t ensures c in s {
      var i :| 0 <= i < |t| && t[i] == c;
      assert s[|s| - |t| + i] == c;
    }
  }

  /** `xs.join(sep)`: the elements with `sep` between neighbours. */
  function Join(xs: seq<string>, sep: string): string {
    if |xs| == 0 then ""
    else if |xs| == 1 then xs[0]
    else xs[0] + sep + Join(xs[1..], sep)
  }

  /**
   * `s.split(sep)` for a one-character separator: the maximal separator-free pieces,
   * always at least one (the empty string splits into one empty piece).
   * Joining the pieces back with the separator gives `s` again.
   */
  function Split(s: string, sep: char): (pieces: seq<string>)
    ensures |pieces| >= 1
    ensures forall i :: 0 <= i < |pieces| ==> sep !in pieces[i]
    ensures Join(pieces, [sep]) == s
  {
    if s == [] then [""]
    else
      var rest := Split(s[1..], sep);
      if s[0] == sep then
        assert ([""] + rest)[1..] == rest;
        [""] + rest
      else
        var pieces := [[s[0]] + rest[0]] + rest[1..];
        assert pieces[1..] == rest[1..];
        assert |rest| >= 2 ==> Join(rest, [sep]) == rest[0] + [sep] + Join(rest[1..], [sep]);
        assert s == [s[0]] + s[1..];
        pieces
  }

  /** Splitting a separator-free string gives the string itself as the single piece. */
  lemma {:induction false} SplitSeparatorFree(a: string, sep: char)
    requires sep !in a
    ensures Split(a, sep) == [a]
  {
    if a != [] {
      SplitSeparatorFree(a[1..], sep);
      assert [a[0]] + a[1..] == a;
    }
  }

  /** A separator-free head followed by the separator is split off as one piece. */
  lemma {:induction false} SplitAfterSeparator(a: string, sep: char, t: string)
    requires sep !in a
    ensures Split(a + [sep] + t, sep) == [a] + Split(t, sep)
  {
    var s := a + [sep] + t;
    if a == [] {
      assert s[0] == sep && s[1..] == t;
    } else {
      assert s[0] == a[0] && s[1..] == a[1..] + [sep] + t;
      SplitAfterSeparator(a[1..], sep, t);
      assert [a[0]] + a[1..] == a;
    }
  }

  /** The inverse direction of `Split`'s contract: splitting a join of separator-free pieces recovers them. */
  lemma {:induction false} SplitJoin(xs: seq<string>, sep: char)
    requires |xs| >= 1
    requires forall i :: 0 <= i < |xs| ==> sep !in xs[i]
    ensures Split(Join(xs, [sep]), sep) == xs
  {
    if |xs| == 1 {
      SplitSeparatorFree(xs[0], sep);
    } else {
      SplitJoin(xs[1..], sep);
      SplitAfterSeparator(xs[0], sep, Join(xs[1..], [sep]));
      assert [xs[0]] + xs[1..] == xs;
    }
  }

  predicate IsDigit(c: char) {
    '0' as int <= c as int <= '9' as int
  }

  /** The longest prefix of `s` made of decimal digits. */
  function LeadingDigits(s: string): (ds: string)
    ensures |ds| <= |s| && ds == s[..|ds|]
    ensures forall i :: 0 <= i < |ds| ==> IsDigit(ds[i])
    ensures |ds| == |s| || !IsDigit(s[|ds|])
  {
    if s == [] || !IsDigit(s[0]) then ""
    else
      var ds := LeadingDigits(s[1..]);
      assert s[..|ds| + 1] == [s[0]] + s[1..][..|ds|];
      [s[0]] + ds
  }

  /** The value of a string of decimal digits, most significant first. */
  function DigitsValue(ds: string): nat
    requires forall i :: 0 <= i < |ds| ==> IsDigit(ds[i])
  {
    if ds == [] then 0
    else
      assert IsDigit(ds[|ds| - 1]);
      DigitsValue(ds[..|ds| - 1]) * 10 + (ds[|ds| - 1] as int - '0' as int)
  }

  /**
   * Decimal `parseInt(s)`: leading whitespace is skipped, one optional sign is read,
   * then the longest run of digits; no digits gives NaN, here `None`.
   */
  function ParseInt(s: string): (r: Option<int>)
    ensures r.Some? <==> HasNumber(s)
    ensures r.Some? && r.value < 0 ==> '-' in s
  {
    var t := TrimStart(s);
    var body := Unsigned(t);
    var ds := LeadingDigits(body);
    NumberStart(s);
    assert t != [] ==> t[0] == s[|s| - |t|];
    if ds == [] then None
    else if t[0] == '-' then Some(-(DigitsValue(ds) as int))
    else Some(DigitsValue(ds))
  }

  predicate IsSign(c: char) {
    c == '-' || c == '+'
  }

  /** `t` without its sign, if it starts with one. */
  function Unsigned(t: string): string {
    if t != [] && IsSign(t[0]) then t[1..] else t
  }

  /** What may come before the first digit `parseInt` reads: whitespace, then at most one sign. */
  predicate NumberPrefix(p: string) {
    OnlyWhitespace(p) || (p != [] && IsSign(p[|p| - 1]) && OnlyWhitespace(p[..|p| - 1]))
  }

  /** `s` holds a digit with nothing but whitespace and at most one sign before it. */
  predicate HasNumber(s: string) {
    exists j :: 0 <= j < |s| && IsDigit(s[j]) && NumberPrefix(s[..j])
  }

  /** A number starts right after the leading whitespace and the optional sign, or nowhere. */
  lemma NumberStart(s: string)
    ensures var body := Unsigned(TrimStart(s));
      HasNumber(s) <==> body != [] && IsDigit(body[0])
  {
    var t := TrimStart(s);
    var k := |s| - |t|;
    assert OnlyWhitespace(s[..k]);
    if HasNumber(s) {
      NumberFound(s, t, k);
    }
    if Unsigned(t) != [] && IsDigit(Unsigned(t)[0]) {
      NumberShown(s, t, k);
    }
  }

  /** Where a number is, it starts the suffix `t` after the leading whitespace, perhaps behind a sign. */
  lemma NumberFound(s: string, t: string, k: int)
    requires 0 <= k <= |s| && t == s[k..] && OnlyWhitespace(s[..k]) && (t == [] || !IsWhitespace(t[0]))
    requires HasNumber(s)
    ensures Unsigned(t) != [] && IsDigit(Unsigned(t)[0])
  {
    var j :| 0 <= j < |s| && IsDigit(s[j]) && NumberPrefix(s[..j]);
    NumberPrefixSplit(s, j, k);
    assert t[j - k] == s[j];
  }

  /** A digit right after the leading whitespace and the optional sign is a number. */
  lemma NumberShown(s: string, t: string, k: int)
    requires 0 <= k <= |s| && t == s[k..] && OnlyWhitespace(s[..k])
    requires Unsigned(t) != [] && IsDigit(Unsigned(t)[0])
    ensures HasNumber(s)
  {
    var j := if IsSign(t[0]) then k + 1 else k;
    assert s[j] == Unsigned(t)[0];
    assert s[..j] == s[..k] + s[k..j];
    assert NumberPrefix(s[..j]);
  }

  /**
   * If a digit at `j` follows a number prefix and `s` opens with exactly `k` whitespace
   * characters, the first other character is the digit or a sign just before it.
   */
  lemma NumberPrefixSplit(s: string, j: int, k: int)
    requires 0 <= j < |s| && IsDigit(s[j]) && NumberPrefix(s[..j])
    requires 0 <= k <= |s| && OnlyWhitespace(s[..k]) && (k == |s| || !IsWhitespace(s[k]))
    ensures k < |s| && (j == k || (j == k + 1 && IsSign(s[k])))
  {
    if j > k {
      var p := s[..j];
      assert p[k] == s[k];
    }
  }

  /** The decimal rendering of `n` (as `String(n)` gives for a non-negative integer). */
  function Decimal(n: nat): (s: string)
    ensures |s| > 0
    ensures forall i :: 0 <= i < |s| ==> IsDigit(s[i])
  {
    var d := ['0' + (n % 10) as char];
    if n < 10 then d else Decimal(n / 10) + d
  }

  /** A string of digits is its own leading-digit run. */
  lemma {:induction false} LeadingDigitsOfDigits(s: string)
    requires forall i :: 0 <= i < |s| ==> IsDigit(s[i])
    ensures LeadingDigits(s) == s
  {
    if s != [] {
      LeadingDigitsOfDigits(s[1..]);
      assert [s[0]] + s[1..] == s;
    }
  }

  /** `DigitsValue` reads back what `Decimal` writes. */
  lemma {:induction false} DecimalValue(n: nat)
    ensures DigitsValue(Decimal(n)) == n
  {
    var s := Decimal(n);
    if n >= 10 {
      DecimalValue(n / 10);
      assert s[..|s| - 1] == Decimal(n / 10);
    }
  }

  /**
   * 2^53: up to here every integer is a JavaScript number exactly, so `parseInt` returns it
   * unrounded.
   */
  const MaxExactInteger: int := 0x20_0000_0000_0000

  /** `parseInt(String(n)) == n` for every non-negative integer a JavaScript number holds exactly. */
  lemma ParseIntDecimal(n: nat)
    requires n <= MaxExactInteger
    ensures ParseInt(Decimal(n)) == Some(n)
  {
    var s := Decimal(n);
    assert IsDigit(s[0]);
    assert !IsWhitespace(s[0]) && s[0] != '-' && s[0] != '+';
    assert TrimStart(s) == s;
    LeadingDigitsOfDigits(s);
    DecimalValue(n);
  }
}

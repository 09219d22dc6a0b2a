/**
 * The data logic of the profile page: the comma-separated list inputs
 * (joined with ", " when a profile loads, split / trimmed / filtered on submit),
 * the `||` and `??` defaults applied on submit, and the age input's fallback.
 */
module ProfileForm {
  import opened Wrappers
  import opened JsStrings

  datatype Gender = Male | Female | Other

  datatype DatingPreferences = DatingPreferences(
    preferredGenders: seq<Gender>,
    minAge: int,
    maxAge: int,
    minDistance: int,
    maxDistance: int)

  datatype DatingProfile = DatingProfile(
    firstName: string,
    lastName: string,
    age: int,
    gender: Gender,
    location: string,
    profilePicUrl: string,
    images: seq<string>,
    bioSections: seq<string>,
    interests: seq<string>,
    hobbies: seq<string>,
    personalityTraits: seq<string>,
    languages: seq<string>,
    socialMedia: seq<string>,
    links: seq<string>,
    isVisible: bool,
    hasVideoChatEnabled: bool,
    datingPreferences: DatingPreferences)

  /** The form's `Partial<DatingProfile>`: every field may be absent. */
  datatype ProfileDraft = ProfileDraft(
    firstName: Option<string>,
    lastName: Option<string>,
    age: Option<int>,
    gender: Option<Gender>,
    location: Option<string>,
    profilePicUrl: Option<string>,
    images: Option<seq<string>>,
    bioSections: Option<seq<string>>,
    personalityTraits: Option<seq<string>>,
    socialMedia: Option<seq<string>>,
    links: Option<seq<string>>,
    isVisible: Option<bool>,
    hasVideoChatEnabled: Option<bool>,
    datingPreferences: Option<DatingPreferences>)

  /** Everything `handleSubmit` reads: the draft and the three free-text list inputs. */
  datatype FormInputs = FormInputs(
    draft: ProfileDraft,
    interestsInput: string,
    hobbiesInput: string,
    languagesInput: string)

  const DefaultAge: int := 18

  const DefaultPreferences: DatingPreferences :=
    DatingPreferences([Male, Female, Other], 18, 99, 0, 100)

  /** The separator the loaded lists are joined with. */
  const ListSeparator: string := ", "

  /** An element a parsed list may hold. */
  predicate IsListItem(s: string) {
    s != "" && IsTrimmed(s)
  }

  /** A list that survives being shown as text and parsed back. */
  predicate IsEditableList(xs: seq<string>) {
    forall i :: 0 <= i < |xs| ==> IsListItem(xs[i]) && ',' !in xs[i]
  }

  /** `xs` occurs in `ys` in the same relative order (greedy matching). */
  predicate IsSubsequence(xs: seq<string>, ys: seq<string>)
    decreases |ys|
  {
    xs == [] || (ys != [] && if xs[0] == ys[0] then IsSubsequence(xs[1..], ys[1..]) else IsSubsequence(xs, ys[1..]))
  }

  /** `.map(s => s.trim())`. */
  function TrimEach(xs: seq<string>): (r: seq<string>)
    ensures |r| == |xs| && forall i :: 0 <= i < |xs| ==> r[i] == Trim(xs[i])
  {
    if xs == [] then [] else [Trim(xs[0])] + TrimEach(xs[1..])
  }

  /** `.filter(Boolean)` on strings: drops the empty ones and keeps the order of the rest. */
  function DropEmpty(xs: seq<string>): (r: seq<string>)
    ensures forall x :: x in r <==> x in xs && x != ""
    ensures multiset(r) == multiset(xs)["" := 0]
    ensures IsSubsequence(r, xs)
  {
    if xs == [] then []
    else
      var rest := DropEmpty(xs[1..]);
      assert xs == [xs[0]] + xs[1..];
      if xs[0] == "" then
        assert rest != [] ==> rest[0] in rest;
        rest
      else
        assert ([xs[0]] + rest)[1..] == rest;
        [xs[0]] + rest
  }

  /**
   * `input.split(',').map(s => s.trim()).filter(Boolean)`: every element is non-empty,
   * trimmed and comma-free, and the elements are the non-empty trimmed pieces in input order.
   */
  function ParseList(input: string): (items: seq<string>)
    ensures IsEditableList(items)
    ensures IsSubsequence(items, TrimEach(Split(input, ',')))
    ensures forall x :: x in items <==> x != "" && x in TrimEach(Split(input, ','))
    ensures multiset(items) == multiset(TrimEach(Split(input, ',')))["" := 0]
  {
    var pieces := Split(input, ',');
    TrimmedPiecesClean(pieces);
    DropEmptyEditable(TrimEach(pieces));
    DropEmpty(TrimEach(pieces))
  }

  /** Filtering out the empty strings of trimmed, comma-free strings leaves an editable list. */
  lemma DropEmptyEditable(xs: seq<string>)
    requires forall x :: x in xs ==> IsTrimmed(x) && ',' !in x
    ensures IsEditableList(DropEmpty(xs))
  {
    var r := DropEmpty(xs);
    forall i | 0 <= i < |r| ensures IsListItem(r[i]) && ',' !in r[i] {
      assert r[i] in r;
    }
  }

  /** Trimming comma-free pieces leaves trimmed, comma-free pieces. */
  lemma TrimmedPiecesClean(pieces: seq<string>)
    requires forall i :: 0 <= i < |pieces| ==> ',' !in pieces[i]
    ensures forall x :: x in TrimEach(pieces) ==> IsTrimmed(x) && ',' !in x
  {
    var trimmed := TrimEach(pieces);
    forall x | x in trimmed ensures IsTrimmed(x) && ',' !in x {
      var i :| 0 <= i < |trimmed| && trimmed[i] == x;
      assert x == Trim(pieces[i]);
    }
  }

  /**
   * The list shown in an input when a profile loads: `xs.join(', ')`. No item shows for an
   * empty list; splitting the text of comma-free items on ',' gives the first item and every
   * later one behind a single space.
   */
  function ShowList(xs: seq<string>): (text: string)
    ensures xs == [] ==> text == ""
    ensures xs != [] && (forall i :: 0 <= i < |xs| ==> ',' !in xs[i]) ==>
      Split(text, ',') == [xs[0]] + Spaced(xs[1..])
  {
    SplitShownList(xs);
    Join(xs, ListSeparator)
  }

  function Spaced(xs: seq<string>): (r: seq<string>)
    ensures |r| == |xs| && forall i :: 0 <= i < |xs| ==> r[i] == " " + xs[i]
  {
    if xs == [] then [] else [" " + xs[0]] + Spaced(xs[1..])
  }

  /** Splitting a ", "-joined list on ',' leaves a single leading space on every piece but the first. */
  lemma {:induction false} SplitShownList(xs: seq<string>)
    ensures xs != [] && (forall i :: 0 <= i < |xs| ==> ',' !in xs[i]) ==>
      Split(Join(xs, ListSeparator), ',') == [xs[0]] + Spaced(xs[1..])
  {
    if xs == [] || exists i :: 0 <= i < |xs| && ',' in xs[i] {
    } else if |xs| == 1 {
      SplitSeparatorFree(xs[0], ',');
    } else {
      var t := Join(xs[1..], ListSeparator);
      assert Join(xs, ListSeparator) == xs[0] + [','] + (" " + t);
      SplitAfterSeparator(xs[0], ',', " " + t);
      SplitShownList(xs[1..]);
      var rest := Split(t, ',');
      assert (" " + t)[1..] == t;
      assert Split(" " + t, ',') == [" " + rest[0]] + rest[1..];
      assert Spaced(xs[1..]) == [" " + xs[1]] + Spaced(xs[2..]);
    }
  }

  /** Trimming a list item with one space in front of it gives the item back. */
  lemma TrimLeadingSpace(x: string)
    requires IsListItem(x)
    ensures Trim(" " + x) == x
  {
    var s := " " + x;
    assert s[1..] == x;
    assert TrimStart(s) == TrimStart(x) == x;
  }

  lemma TrimSpaced(xs: seq<string>)
    requires forall i :: 0 <= i < |xs| ==> IsListItem(xs[i])
    ensures TrimEach(Spaced(xs)) == xs
  {
    var r := TrimEach(Spaced(xs));
    forall i | 0 <= i < |xs| ensures r[i] == xs[i] {
      TrimLeadingSpace(xs[i]);
    }
  }

  lemma {:induction false} DropEmptyKeepsNonEmpty(xs: seq<string>)
    requires forall i :: 0 <= i < |xs| ==> xs[i] != ""
    ensures DropEmpty(xs) == xs
  {
    if xs != [] {
      DropEmptyKeepsNonEmpty(xs[1..]);
      assert [xs[0]] + xs[1..] == xs;
    }
  }

  /** Round trip: parsing the text a list is shown as gives the list back. */
  lemma ParseShownList(xs: seq<string>)
    ensures IsEditableList(xs) ==> ParseList(ShowList(xs)) == xs
  {
    if !IsEditableList(xs) {
    } else if xs == [] {
      assert Split("", ',') == [""];
      assert TrimEach([""]) == [""];
    } else {
      var pieces := [xs[0]] + Spaced(xs[1..]);
      TrimSpaced(xs[1..]);
      assert TrimEach(pieces) == [Trim(xs[0])] + TrimEach(Spaced(xs[1..]));
      assert TrimEach(pieces) == xs;
      DropEmptyKeepsNonEmpty(xs);
    }
  }

  /** Parsing is stable: showing a parsed list and parsing it again changes nothing. */
  lemma ParseListIdempotent(input: string)
    ensures ParseList(ShowList(ParseList(input))) == ParseList(input)
  {
    ParseShownList(ParseList(input));
  }

  /** `value || fallback` for a string field. */
  function TextOr(v: Option<string>): string {
    if v.Some? then v.value else ""
  }

  /** `value || fallback` for an array field: arrays are truthy, so only an absent one is replaced. */
  function ListOr<T>(v: Option<seq<T>>, fallback: seq<T>): seq<T> {
    if v.Some? then v.value else fallback
  }

  /** `value ?? fallback`: only an absent value is replaced. */
  function FlagOr(v: Option<bool>, fallback: bool): bool {
    if v.Some? then v.value else fallback
  }

  /**
   * `age || 18`, where an absent age or NaN (`None`) and 0 are falsy: the age is never 0,
   * and any other given age is kept.
   */
  function AgeOrDefault(age: Option<int>): (a: int)
    ensures a != 0
    ensures a == DefaultAge <==> age.None? || age.value == 0 || age.value == DefaultAge
    ensures age.Some? && age.value != 0 ==> a == age.value
  {
    if age.None? || age.value == 0 then DefaultAge else age.value
  }

  /** The age input's change handler: `parseInt(text) || 18`. */
  function AgeFromInput(text: string): (age: int)
    ensures age != 0
    ensures ParseInt(text).None? ==> age == DefaultAge
  {
    AgeOrDefault(ParseInt(text))
  }

  /** Typing the decimal digits of a positive age up to 2^53 yields that age. */
  lemma AgeFromInputDecimal(n: nat)
    requires 0 < n <= MaxExactInteger
    ensures AgeFromInput(Decimal(n)) == n
  {
    ParseIntDecimal(n);
  }

  /** The profile `handleSubmit` sends to the backend. */
  function Submit(inputs: FormInputs): (p: DatingProfile)
    ensures IsEditableList(p.interests) && IsEditableList(p.hobbies) && IsEditableList(p.languages)
    ensures p.interests == ParseList(inputs.interestsInput)
    ensures p.hobbies == ParseList(inputs.hobbiesInput)
    ensures p.languages == ParseList(inputs.languagesInput)
    ensures p.age == AgeOrDefault(inputs.draft.age) && p.age != 0
    ensures p.isVisible == (inputs.draft.isVisible != Some(false))
    ensures p.hasVideoChatEnabled == (inputs.draft.hasVideoChatEnabled == Some(true))
    ensures inputs.draft.datingPreferences.None? ==> p.datingPreferences == DefaultPreferences
  {
    var d := inputs.draft;
    DatingProfile(
      firstName := TextOr(d.firstName),
      lastName := TextOr(d.lastName),
      age := AgeOrDefault(d.age),
      gender := if d.gender.Some? then d.gender.value else Other,
      location := TextOr(d.location),
      profilePicUrl := TextOr(d.profilePicUrl),
      images := ListOr(d.images, []),
      bioSections := ListOr(d.bioSections, [""]),
      interests := ParseList(inputs.interestsInput),
      hobbies := ParseList(inputs.hobbiesInput),
      personalityTraits := ListOr(d.personalityTraits, []),
      languages := ParseList(inputs.languagesInput),
      socialMedia := ListOr(d.socialMedia, []),
      links := ListOr(d.links, []),
      isVisible := FlagOr(d.isVisible, true),
      hasVideoChatEnabled := FlagOr(d.hasVideoChatEnabled, false),
      datingPreferences := PreferencesOr(d.datingPreferences))
  }

  /** `datingPreferences || { all genders, ages 18-99, distance 0-100 }`. */
  function PreferencesOr(v: Option<DatingPreferences>): DatingPreferences {
    if v.Some? then v.value else DefaultPreferences
  }

  /** What the page holds after a stored profile loads: the profile itself and its lists shown as text. */
  function Load(p: DatingProfile): (inputs: FormInputs)
    ensures IsEditableList(p.interests) ==> ParseList(inputs.interestsInput) == p.interests
    ensures IsEditableList(p.hobbies) ==> ParseList(inputs.hobbiesInput) == p.hobbies
    ensures IsEditableList(p.languages) ==> ParseList(inputs.languagesInput) == p.languages
    ensures inputs.draft.firstName == Some(p.firstName) && inputs.draft.lastName == Some(p.lastName)
    ensures inputs.draft.age == Some(p.age) && inputs.draft.gender == Some(p.gender)
    ensures inputs.draft.location == Some(p.location) && inputs.draft.profilePicUrl == Some(p.profilePicUrl)
    ensures inputs.draft.images == Some(p.images) && inputs.draft.bioSections == Some(p.bioSections)
    ensures inputs.draft.personalityTraits == Some(p.personalityTraits)
    ensures inputs.draft.socialMedia == Some(p.socialMedia) && inputs.draft.links == Some(p.links)
    ensures inputs.draft.isVisible == Some(p.isVisible) && inputs.draft.hasVideoChatEnabled == Some(p.hasVideoChatEnabled)
    ensures inputs.draft.datingPreferences == Some(p.datingPreferences)
  {
    ParseShownList(p.interests);
    ParseShownList(p.hobbies);
    ParseShownList(p.languages);
    FormInputs(
      ProfileDraft(
        Some(p.firstName), Some(p.lastName), Some(p.age), Some(p.gender), Some(p.location),
        Some(p.profilePicUrl), Some(p.images), Some(p.bioSections), Some(p.personalityTraits),
        Some(p.socialMedia), Some(p.links), Some(p.isVisible), Some(p.hasVideoChatEnabled),
        Some(p.datingPreferences)),
      ShowList(p.interests),
      ShowList(p.hobbies),
      ShowList(p.languages))
  }

  /**
   * Loading a stored profile and submitting the untouched form saves the same profile,
   * provided its age is not 0 and its three text-edited lists are editable.
   */
  lemma LoadSubmitRoundTrip(p: DatingProfile)
    requires p.age != 0
    requires IsEditableList(p.interests) && IsEditableList(p.hobbies) && IsEditableList(p.languages)
    ensures Submit(Load(p)) == p
  {
  }

  /** Every profile the page submits loads and resubmits unchanged. */
  lemma SubmitIsStable(inputs: FormInputs)
    ensures Submit(Load(Submit(inputs))) == Submit(inputs)
  {
    LoadSubmitRoundTrip(Submit(inputs));
  }
}

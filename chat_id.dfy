/**
 * Chat-id canonicalisation: the order-independent key both participants use
 * to address their shared signaling channel.
 */
module ChatIdentity {

  /** A principal, identified by its textual form (`principal.toString()`). */
  type Principal = string

  /** The backend's `ChatId` record: the two participants, smaller text first. */
  datatype ChatId = ChatId(user1: Principal, user2: Principal)

  /**
   * JavaScript's `<` on strings: lexicographic by character, a proper prefix
   * being smaller than the string it starts.
   */
  predicate TextLess(a: string, b: string)
    decreases |a|
  {
    if a == [] then b != []
    else if b == [] then false
    else if a[0] != b[0] then a[0] < b[0]
    else TextLess(a[1..], b[1..])
  }

  lemma {:induction false} TextLessIrreflexive(a: string)
    ensures !TextLess(a, a)
  {
    if a != [] {
      TextLessIrreflexive(a[1..]);
    }
  }

  lemma {:induction false} TextLessAsymmetric(a: string, b: string)
    ensures TextLess(a, b) ==> !TextLess(b, a)
    decreases |a|
  {
    if a != [] && b != [] && a[0] == b[0] {
      TextLessAsymmetric(a[1..], b[1..]);
    }
  }

  /** Two different texts are always ordered one way or the other. */
  lemma {:induction false} TextLessTotal(a: string, b: string)
    ensures a == b || TextLess(a, b) || TextLess(b, a)
    decreases |a|
  {
    if a != [] && b != [] && a[0] == b[0] {
      TextLessTotal(a[1..], b[1..]);
      if a[1..] == b[1..] {
        assert a == [a[0]] + a[1..] && b == [b[0]] + b[1..];
      }
    }
  }

  lemma {:induction false} TextLessTransitive(a: string, b: string, c: string)
    requires TextLess(a, b) && TextLess(b, c)
    ensures TextLess(a, c)
    decreases |a|
  {
    if a != [] && a[0] == b[0] && b[0] == c[0] {
      TextLessTransitive(a[1..], b[1..], c[1..]);
    }
  }

  /** `computeChatId`: the participant with the smaller text becomes `user1`; on a tie the second argument does. */
  function ComputeChatId(p1: Principal, p2: Principal): (id: ChatId)
    ensures multiset{id.user1, id.user2} == multiset{p1, p2}
    ensures !TextLess(id.user2, id.user1)
    ensures TextLess(p1, p2) <==> id == ChatId(p1, p2) && p1 != p2
  {
    TextLessAsymmetric(p1, p2);
    TextLessIrreflexive(p1);
    if TextLess(p1, p2) then ChatId(p1, p2) else ChatId(p2, p1)
  }

  /** Both participants compute the same channel key, whichever of them starts the call. */
  lemma ComputeChatIdCommutative(a: Principal, b: Principal)
    ensures ComputeChatId(a, b) == ComputeChatId(b, a)
  {
    TextLessTotal(a, b);
    TextLessAsymmetric(a, b);
  }

  /** Recomputing the key from an already canonical pair returns the same pair. */
  lemma ComputeChatIdIdempotent(a: Principal, b: Principal)
    ensures var id := ComputeChatId(a, b); ComputeChatId(id.user1, id.user2) == id
  {
    TextLessTotal(a, b);
    TextLessAsymmetric(a, b);
  }

  /** The chat between "aaaa" and "bbbb" is keyed ("aaaa", "bbbb") from either side. */
  lemma ComputeChatIdExample()
    ensures ComputeChatId("aaaa", "bbbb") == ChatId("aaaa", "bbbb")
    ensures ComputeChatId("bbbb", "aaaa") == ChatId("aaaa", "bbbb")
  {
    assert TextLess("aaaa", "bbbb");
  }
}

// The singly linked lists of tween.c (the engine's active list and a tween's
// chain) hold references in insertion order; here they are sequences. This
// module has the search and the unlink that Tween_StopTween performs.
module ActiveList {

  /** Position of the first entry equal to `x`. */
  function IndexOf<T(==)>(s: seq<T>, x: T): (i: nat)
    requires x in s
    ensures i < |s| && s[i] == x && x !in s[..i]
  {
    if s[0] == x then 0
    else
      assert s == [s[0]] + s[1..];
      1 + IndexOf(s[1..], x)
  }

  /** A position holding `x` with no `x` before it is the one IndexOf finds. */
  lemma FirstOccurrenceIsIndexOf<T>(s: seq<T>, x: T, i: nat)
    requires i < |s| && s[i] == x && x !in s[..i]
    ensures IndexOf(s, x) == i
  {
  }

  /** The list with the entry at `i` unlinked: the entries before it stay where they
      are and the ones after it close up in order. */
  function Splice<T>(s: seq<T>, i: nat): (r: seq<T>)
    requires i < |s|
    ensures |r| == |s| - 1
    ensures forall j | 0 <= j < i :: r[j] == s[j]
    ensures forall j | i <= j < |r| :: r[j] == s[j + 1]
  {
    s[..i] + s[i + 1..]
  }

  /** The list with its first entry equal to `x` unlinked, or unchanged if there is
      none. Exactly one occurrence of `x` leaves, the entries before it stay where they
      were and the rest close up behind them in the same order. */
  function RemoveFirst<T(==)>(s: seq<T>, x: T): (r: seq<T>)
    ensures x !in s ==> r == s
    ensures x in s ==>
      var i := IndexOf(s, x);
      |r| == |s| - 1 &&
      multiset(r) == multiset(s) - multiset{x} &&
      (forall j | 0 <= j < i :: r[j] == s[j] && r[j] != x) &&
      (forall j | i <= j < |r| :: r[j] == s[j + 1])
  {
    if x in s then
      var i := IndexOf(s, x);
      SpliceCount(s, i);
      assert forall j | 0 <= j < i :: s[..i][j] == s[j];
      Splice(s, i)
    else s
  }

  /** Taking out the entry at `i` takes one copy of it out of the multiset. */
  lemma SpliceCount<T>(s: seq<T>, i: nat)
    requires i < |s|
    ensures multiset(Splice(s, i)) == multiset(s) - multiset{s[i]}
  {
    assert s == s[..i] + [s[i]] + s[i + 1..];
  }

  /** The walk of Tween_StopTween: scan from the head for the first entry equal to `x`. */
  method FindEntry<T(==)>(entries: seq<T>, x: T) returns (found: bool, i: nat)
    ensures found <==> x in entries
    ensures found ==> i < |entries| && entries[i] == x && x !in entries[..i]
  {
    i := 0;
    while i < |entries| && entries[i] != x
      invariant i <= |entries|
      invariant x !in entries[..i]
    {
      assert entries[..i + 1] == entries[..i] + [entries[i]];
      i := i + 1;
    }
    found := i < |entries|;
    if !found {
      assert entries[..i] == entries;
    }
  }
}

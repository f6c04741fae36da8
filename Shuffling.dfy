/** The Fisher-Yates shuffle of initializeGame, with its random draws supplied
    by the caller: js[i] is the index drawn when the loop is at position i. */
module Shuffling {

  /** Every draw the loop makes is in range: at position i it picks some j in [0, i].
      js[0] is never drawn, since the loop stops before position 0. */
  predicate ValidDraws(js: seq<int>, n: nat)
  {
    |js| == n && forall i :: 1 <= i < n ==> 0 <= js[i] <= i
  }

  /** Exchanges positions i and j (the destructuring swap of the source). */
  function Swap<T>(s: seq<T>, i: nat, j: nat): (r: seq<T>)
    requires i < |s| && j < |s|
    ensures |r| == |s| && r[i] == s[j] && r[j] == s[i]
    ensures forall k :: 0 <= k < |s| && k != i && k != j ==> r[k] == s[k]
  {
    s[i := s[j]][j := s[i]]
  }

  /** A swap reorders: the multiset of elements is unchanged. */
  lemma SwapPermutes<T>(s: seq<T>, i: nat, j: nat)
    requires i < |s| && j < |s|
    ensures multiset(Swap(s, i, j)) == multiset(s)
  {
  }

  /** The shuffle from position i down to 1: swap position i with the draw
      js[i], then continue at i - 1. */
  function FisherYates<T>(s: seq<T>, js: seq<int>, i: int): (r: seq<T>)
    requires ValidDraws(js, |s|)
    requires i < |s|
    ensures |r| == |s|
    decreases i
  {
    if i <= 0 then s else FisherYates(Swap(s, i, js[i]), js, i - 1)
  }

  /** With in-range draws the shuffle is a reordering of its input. */
  lemma {:induction false} FisherYatesPermutes<T>(s: seq<T>, js: seq<int>, i: int)
    requires ValidDraws(js, |s|)
    requires i < |s|
    ensures multiset(FisherYates(s, js, i)) == multiset(s)
    decreases i
  {
    if i > 0 {
      SwapPermutes(s, i, js[i]);
      FisherYatesPermutes(Swap(s, i, js[i]), js, i - 1);
    }
  }

  /** The in-place shuffle loop over the deck array. */
  method Shuffle<T>(a: array<T>, js: seq<int>)
    requires ValidDraws(js, a.Length)
    modifies a
    ensures a[..] == FisherYates(old(a[..]), js, a.Length - 1)
  {
    var i := a.Length - 1;
    while i > 0
      invariant -1 <= i < a.Length
      invariant FisherYates(a[..], js, i) == FisherYates(old(a[..]), js, a.Length - 1)
      decreases i
    {
      SwapInPlace(a, i, js[i]);
      i := i - 1;
    }
  }

  /** One step of the loop: `[a[i], a[j]] = [a[j], a[i]]`. */
  method SwapInPlace<T>(a: array<T>, i: nat, j: nat)
    requires i < a.Length && j < a.Length
    modifies a
    ensures a[..] == Swap(old(a[..]), i, j)
  {
    var t := a[i];
    a[i] := a[j];
    a[j] := t;
  }

  /** Draws that pick the current position at every step from i down leave the
      sequence as it was. */
  lemma {:induction false} SelfDrawsKeepOrder<T>(s: seq<T>, js: seq<int>, i: int)
    requires ValidDraws(js, |s|)
    requires i < |s|
    requires forall k :: 1 <= k <= i ==> js[k] == k
    ensures FisherYates(s, js, i) == s
    decreases i
  {
    if i > 0 {
      assert js[i] == i;
      SwapSelf(s, i);
      SelfDrawsKeepOrder(s, js, i - 1);
    }
  }

  /** Swapping a position with itself changes nothing. */
  lemma SwapSelf<T>(s: seq<T>, i: nat)
    requires i < |s|
    ensures Swap(s, i, i) == s
  {
    var t := Swap(s, i, i);
    assert forall k :: 0 <= k < |s| ==> t[k] == s[k];
  }
}

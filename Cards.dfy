/** Cards and the freshly dealt deck of the memory-match game (App.js). */
module Cards {

  /** The symbol alphabet; the first NumPairs symbols are dealt, one pair each. */
  const CardValues: seq<char> := ['A', 'B', 'C', 'D', 'E', 'F', 'G', 'H']
  const NumPairs: nat := 4
  const TotalCards: nat := NumPairs * 2

  /** A card: a stable id, its symbol, whether it is face up, whether its pair was found. */
  datatype Card = Card(id: int, value: char, flipped: bool, matched: bool)

  /** The deck before shuffling: positions 2i and 2i+1 hold the two face-down
      cards of symbol CardValues[i], and every card's id is its position. */
  function Dealt(n: nat): (deck: seq<Card>)
    requires n <= |CardValues|
    ensures |deck| == 2 * n
  {
    seq(2 * n, p requires 0 <= p < 2 * n => Card(p, CardValues[p / 2], false, false))
  }

  /** The deal loop of initializeGame: two pushes per pair, in alphabet order. */
  method BuildDeck() returns (deck: seq<Card>)
    ensures deck == Dealt(NumPairs)
  {
    deck := [];
    for i := 0 to NumPairs
      invariant deck == Dealt(i)
    {
      var value := CardValues[i];
      deck := deck + [Card(i * 2, value, false, false)];
      deck := deck + [Card(i * 2 + 1, value, false, false)];
    }
  }

  /** The symbols of a deck, position by position. */
  function Values(deck: seq<Card>): (vs: seq<char>)
    ensures |vs| == |deck|
  {
    seq(|deck|, p requires 0 <= p < |deck| => deck[p].value)
  }

  ghost predicate DistinctIds(deck: seq<Card>)
  {
    forall p, q :: 0 <= p < q < |deck| ==> deck[p].id != deck[q].id
  }

  /** Each of the first n symbols occurs exactly twice, and no other symbol occurs. */
  ghost predicate PairedValues(deck: seq<Card>, n: nat)
    requires n <= |CardValues|
  {
    forall v :: multiset(Values(deck))[v] == if v in CardValues[..n] then 2 else 0
  }

  /** What a deck of n pairs looks like at the start of a round. */
  ghost predicate WellFormed(deck: seq<Card>, n: nat)
    requires n <= |CardValues|
  {
    && |deck| == 2 * n
    && DistinctIds(deck)
    && (forall p :: 0 <= p < |deck| ==> 0 <= deck[p].id < 2 * n)
    && (forall p :: 0 <= p < |deck| ==> !deck[p].flipped && !deck[p].matched)
    && PairedValues(deck, n)
  }

  lemma CardValuesDistinct()
    ensures forall i, j :: 0 <= i < j < |CardValues| ==> CardValues[i] != CardValues[j]
  {
  }

  /** The dealt deck holds exactly one pair of each of the first n symbols. */
  lemma {:induction false} DealtPairs(n: nat)
    requires n <= |CardValues|
    ensures PairedValues(Dealt(n), n)
  {
    if n > 0 {
      DealtPairs(n - 1);
      var v := CardValues[n - 1];
      assert Values(Dealt(n)) == Values(Dealt(n - 1)) + [v, v];
      CardValuesDistinct();
      assert v !in CardValues[..n - 1];
      assert CardValues[..n] == CardValues[..n - 1] + [v];
    }
  }

  /** The freshly built deck has 2n face-down, unmatched cards with distinct
      ids 0 .. 2n-1 and one pair per symbol. */
  lemma DealtWellFormed(n: nat)
    requires n <= |CardValues|
    ensures WellFormed(Dealt(n), n)
  {
    DealtPairs(n);
  }

  /** Two decks with the same multiset of cards have the same multiset of symbols. */
  lemma {:induction false} PermutationKeepsValues(d1: seq<Card>, d2: seq<Card>)
    requires multiset(d1) == multiset(d2)
    ensures multiset(Values(d1)) == multiset(Values(d2))
    decreases |d1|
  {
    if |d1| == 0 {
      assert |multiset(d2)| == 0;
    } else {
      var c := d1[0];
      assert c in multiset(d2);
      var k :| 0 <= k < |d2| && d2[k] == c;
      RemoveAt(d1, 0);
      RemoveAt(d2, k);
      PermutationKeepsValues(d1[..0] + d1[1..], d2[..k] + d2[k + 1..]);
    }
  }

  /** Taking out the card at position k takes out one copy of it and of its symbol. */
  lemma RemoveAt(d: seq<Card>, k: nat)
    requires k < |d|
    ensures multiset(d[..k] + d[k + 1..]) == multiset(d) - multiset{d[k]}
    ensures multiset(Values(d)) == multiset(Values(d[..k] + d[k + 1..])) + multiset{d[k].value}
  {
    assert d == d[..k] + [d[k]] + d[k + 1..];
    assert Values(d) == Values(d[..k]) + [d[k].value] + Values(d[k + 1..]);
    assert Values(d[..k] + d[k + 1..]) == Values(d[..k]) + Values(d[k + 1..]);
  }

  /** With distinct ids no card occurs twice. */
  lemma {:induction false} DistinctIdsNoRepeat(d: seq<Card>, c: Card)
    requires DistinctIds(d)
    ensures multiset(d)[c] <= 1
    decreases |d|
  {
    if |d| > 0 {
      var init := d[..|d| - 1];
      assert d == init + [d[|d| - 1]];
      DistinctIdsNoRepeat(init, c);
      if d[|d| - 1] == c {
        assert c !in init;
      }
    }
  }

  /** Reordering a deck keeps its ids distinct. */
  lemma PermutationKeepsDistinctIds(d1: seq<Card>, d2: seq<Card>)
    requires multiset(d1) == multiset(d2)
    requires DistinctIds(d1)
    ensures DistinctIds(d2)
  {
    forall p, q | 0 <= p < q < |d2|
      ensures d2[p].id != d2[q].id
    {
      assert d2[p] in multiset(d1) && d2[q] in multiset(d1);
      var i :| 0 <= i < |d1| && d1[i] == d2[p];
      var j :| 0 <= j < |d1| && d1[j] == d2[q];
      if i == j {
        TwiceCounted(d2, p, q);
        DistinctIdsNoRepeat(d1, d2[p]);
        assert false;
      }
    }
  }

  /** A card found at two positions occurs at least twice. */
  lemma TwiceCounted(d: seq<Card>, p: nat, q: nat)
    requires p < q < |d| && d[p] == d[q]
    ensures multiset(d)[d[p]] >= 2
  {
    assert d == d[..q] + d[q..];
    assert d[p] in d[..q] && d[q] in d[q..];
  }

  /** Any reordering of a well-formed deck is well formed: same size, distinct
      ids, all cards face down, one pair per symbol. */
  lemma PermutationKeepsWellFormed(d1: seq<Card>, d2: seq<Card>, n: nat)
    requires n <= |CardValues|
    requires WellFormed(d1, n)
    requires multiset(d1) == multiset(d2)
    ensures WellFormed(d2, n)
  {
    assert |d2| == |multiset(d2)| == |multiset(d1)| == |d1|;
    PermutationKeepsDistinctIds(d1, d2);
    PermutationKeepsValues(d1, d2);
    forall p | 0 <= p < |d2|
      ensures 0 <= d2[p].id < 2 * n && !d2[p].flipped && !d2[p].matched
    {
      assert d2[p] in multiset(d1);
    }
  }
}

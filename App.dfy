/** The state engine of the App component: the three pieces of state
    (cards, selected, score), the card-press handler and the delayed
    flip-back callback it schedules after a mismatch. */
module App {
  import opened Cards
  import opened Shuffling

  /** The delayed flip-back a mismatch schedules: the deck as it was when the
      handler ran, and the two selected positions. */
  datatype FlipBackTimer = FlipBackTimer(snapshot: seq<Card>, selection: seq<int>)

  /** What a press asks of the outside world: nothing, the "correct" sound
      (with whether the win alert is raised), or the "incorrect" sound
      together with the flip-back to run one second later. */
  datatype Effect = Quiet | PlayCorrect(won: bool) | PlayIncorrect(pending: FlipBackTimer)

  /** A matched card is always face up. */
  ghost predicate Consistent(cards: seq<Card>)
  {
    forall p :: 0 <= p < |cards| && cards[p].matched ==> cards[p].flipped
  }

  /** The card update of a match: positions i and j become face up and
      matched, nothing else changes. */
  function MarkMatched(cards: seq<Card>, i: nat, j: nat): (r: seq<Card>)
    requires i < |cards| && j < |cards|
    ensures |r| == |cards|
    ensures forall p :: 0 <= p < |r| && (p == i || p == j) ==>
              r[p].flipped && r[p].matched && r[p].id == cards[p].id && r[p].value == cards[p].value
    ensures forall p :: 0 <= p < |r| && p != i && p != j ==> r[p] == cards[p]
    ensures Values(r) == Values(cards)
    ensures DistinctIds(cards) ==> DistinctIds(r)
    ensures Consistent(cards) ==> Consistent(r)
  {
    seq(|cards|, p requires 0 <= p < |cards| =>
      if p == i || p == j then cards[p].(flipped := true, matched := true) else cards[p])
  }

  /** The flip-back callback as written: it turns face down every card of the
      snapshot whose ID occurs among the selected POSITIONS, and keeps the
      id, symbol and matched mark of every card. */
  function FlipBack(snapshot: seq<Card>, selection: seq<int>): (r: seq<Card>)
    ensures |r| == |snapshot|
    ensures forall p :: 0 <= p < |r| ==>
              && r[p].id == snapshot[p].id
              && r[p].value == snapshot[p].value
              && r[p].matched == snapshot[p].matched
              && r[p].flipped == (snapshot[p].flipped && snapshot[p].id !in selection)
    ensures Values(r) == Values(snapshot)
    ensures DistinctIds(snapshot) ==> DistinctIds(r)
  {
    seq(|snapshot|, p requires 0 <= p < |snapshot| =>
      if snapshot[p].id in selection then snapshot[p].(flipped := false) else snapshot[p])
  }

  /** Deals and shuffles a new deck (initializeGame without its state update):
      the result is the dealt deck reordered by the draws, so it has one pair
      per symbol, distinct ids and every card face down. */
  method Deal(js: seq<int>) returns (deck: seq<Card>)
    requires ValidDraws(js, TotalCards)
    ensures deck == FisherYates(Dealt(NumPairs), js, TotalCards - 1)
    ensures WellFormed(deck, NumPairs)
  {
    var built := BuildDeck();
    var a := new Card[|built|](p requires 0 <= p < |built| => built[p]);
    assert a[..] == built;
    Shuffle(a, js);
    deck := a[..];
    FisherYatesPermutes(built, js, TotalCards - 1);
    DealtWellFormed(NumPairs);
    PermutationKeepsWellFormed(built, deck, NumPairs);
  }

  class MemoryGame {
    var cards: seq<Card>
    var selected: seq<int>
    var score: nat

    /** The deck is dealt, keeps one pair per symbol and distinct ids, and
        every selected position addresses a card. The selection holds at most
        one index in every reachable state (see SelectionBounded), but the
        handler's guard against two is kept, so it is not part of Valid. */
    ghost predicate Valid()
      reads this
    {
      && |cards| == TotalCards
      && DistinctIds(cards)
      && PairedValues(cards, NumPairs)
      && forall k :: 0 <= k < |selected| ==> 0 <= selected[k] < |cards|
    }

    /** The selection of a turn in progress: empty, or the first card. */
    ghost predicate SelectionBounded()
      reads this
    {
      |selected| <= 1
    }

    /** The initial state (no selection, score 0) followed by the deal the
        component runs when it is first mounted. */
    constructor (js: seq<int>)
      requires ValidDraws(js, TotalCards)
      ensures Valid() && SelectionBounded()
      ensures cards == FisherYates(Dealt(NumPairs), js, TotalCards - 1)
      ensures WellFormed(cards, NumPairs)
      ensures selected == [] && score == 0
    {
      var deck := Deal(js);
      cards := deck;
      selected := [];
      score := 0;
    }

    /** initializeGame: replaces the deck by a fresh shuffled deal. As in the
        source, it leaves the selection and the score as they are. */
    method InitializeGame(js: seq<int>)
      requires Valid()
      requires ValidDraws(js, TotalCards)
      modifies this
      ensures Valid()
      ensures cards == FisherYates(Dealt(NumPairs), js, TotalCards - 1)
      ensures WellFormed(cards, NumPairs)
      ensures selected == old(selected) && score == old(score)
    {
      cards := Deal(js);
    }

    /** A restart that also clears the selection and the score, as the win
        alert's "OK" evidently intends. */
    method NewRound(js: seq<int>)
      requires ValidDraws(js, TotalCards)
      modifies this
      ensures Valid() && SelectionBounded()
      ensures cards == FisherYates(Dealt(NumPairs), js, TotalCards - 1)
      ensures WellFormed(cards, NumPairs)
      ensures selected == [] && score == 0
    {
      cards := Deal(js);
      selected := [];
      score := 0;
    }

    /** handleCardPress. The caller guarantees the tapped card is face down. */
    method Press(index: int) returns (effect: Effect)
      requires Valid()
      requires 0 <= index < |cards| && !cards[index].flipped
      modifies this
      ensures Valid()
      ensures score >= old(score)
      // Two cards already selected: the press is ignored.
      ensures old(|selected|) == 2 ==>
        cards == old(cards) && selected == old(selected) && score == old(score) && effect == Quiet
      // No evaluation: the index is appended and nothing else changes.
      ensures old(|selected|) != 2 && old(|selected|) != 1 ==>
        && selected == old(selected) + [index]
        && cards == old(cards) && score == old(score) && effect == Quiet
      // Second selection: the pair is evaluated and the selection cleared.
      ensures old(|selected|) == 1 ==>
        var first := old(selected[0]);
        && selected == []
        && if old(cards[first].value == cards[index].value) then
             && cards == MarkMatched(old(cards), first, index)
             && score == old(score) + 1
             && effect == PlayCorrect(score == NumPairs)
           else
             && cards == old(cards)
             && score == old(score)
             && effect == PlayIncorrect(FlipBackTimer(old(cards), [first, index]))
      ensures old(SelectionBounded()) ==> SelectionBounded()
      ensures Consistent(old(cards)) ==> Consistent(cards)
      // The scheduled flip-back carries a deck with the round's pairs and ids.
      ensures effect.PlayIncorrect? ==>
        && |effect.pending.snapshot| == TotalCards
        && DistinctIds(effect.pending.snapshot)
        && PairedValues(effect.pending.snapshot, NumPairs)
    {
      if |selected| == 2 {
        return Quiet;
      }
      var newSelected := selected + [index];
      selected := newSelected;
      effect := Quiet;
      if |newSelected| == 2 {
        var firstIndex, secondIndex := newSelected[0], newSelected[1];
        if cards[firstIndex].value == cards[secondIndex].value {
          var won := score + 1 == NumPairs;
          score := score + 1;
          cards := MarkMatched(cards, firstIndex, secondIndex);
          effect := PlayCorrect(won);
        } else {
          effect := PlayIncorrect(FlipBackTimer(cards, newSelected));
        }
        selected := [];
      }
    }

    /** The timeout callback of a mismatch: the deck becomes the press-time
        snapshot with the flip-back applied, whatever happened in between. */
    method FlipBackTimeout(timer: FlipBackTimer)
      requires Valid()
      requires |timer.snapshot| == TotalCards
      requires DistinctIds(timer.snapshot) && PairedValues(timer.snapshot, NumPairs)
      modifies this
      ensures Valid() && SelectionBounded() == old(SelectionBounded())
      ensures cards == FlipBack(timer.snapshot, timer.selection)
      ensures selected == old(selected) && score == old(score)
    {
      cards := FlipBack(timer.snapshot, timer.selection);
    }
  }

  /** The flip-back as written can turn a matched card face down: here the
      selected positions 0 and 1 hold cards with ids 5 and 6, and the matched
      card with id 0 sits at position 2. */
  lemma FlipBackUnflipsMatchedCard()
    ensures var snapshot := [Card(5, 'C', false, false), Card(6, 'D', false, false),
                             Card(0, 'A', true, true), Card(1, 'A', true, true)];
            && Consistent(snapshot)
            && !snapshot[0].matched && !snapshot[1].matched
            && !Consistent(FlipBack(snapshot, [0, 1]))
  {
    var snapshot := [Card(5, 'C', false, false), Card(6, 'D', false, false),
                     Card(0, 'A', true, true), Card(1, 'A', true, true)];
    var r := FlipBack(snapshot, [0, 1]);
    assert r[2].matched && !r[2].flipped;
  }

  /** The flip-back the callback evidently intends: it turns face down the
      cards at the selected positions and no others. It never breaks
      "matched implies face up" when the selected cards are unmatched. */
  function FlipBackAt(snapshot: seq<Card>, selection: seq<int>): (r: seq<Card>)
    ensures |r| == |snapshot|
    ensures forall p :: 0 <= p < |r| ==>
              && r[p].id == snapshot[p].id
              && r[p].value == snapshot[p].value
              && r[p].matched == snapshot[p].matched
              && r[p].flipped == (snapshot[p].flipped && p !in selection)
    ensures forall p :: 0 <= p < |r| && p !in selection ==> r[p] == snapshot[p]
    ensures Consistent(snapshot)
            && (forall k :: 0 <= k < |selection| && 0 <= selection[k] < |snapshot| ==> !snapshot[selection[k]].matched)
            ==> Consistent(r)
  {
    seq(|snapshot|, p requires 0 <= p < |snapshot| =>
      if p in selection then snapshot[p].(flipped := false) else snapshot[p])
  }
}

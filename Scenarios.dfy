/** Complete turns played against the game engine: most on the deal whose
    draws never move a card (A A B B C C D D), the last ones on the deal of
    MixDraws (C D B B C A A D). */
module Scenarios {
  import opened Cards
  import opened Shuffling
  import opened App

  /** Draws that keep the dealt order. */
  function KeepDraws(): (js: seq<int>)
    ensures ValidDraws(js, TotalCards)
    ensures forall k :: 1 <= k < |js| ==> js[k] == k
  {
    seq(TotalCards, k => k)
  }

  method UnshuffledGame() returns (g: MemoryGame)
    ensures fresh(g) && g.Valid()
    ensures g.cards == Dealt(NumPairs) && g.selected == [] && g.score == 0
  {
    g := new MemoryGame(KeepDraws());
    SelfDrawsKeepOrder(Dealt(NumPairs), KeepDraws(), TotalCards - 1);
  }

  /** Pressing the same face-down card twice counts as a match and scores a
      point, yet marks only that one card: every other card stays as dealt. */
  method SelfMatchScores() returns (score: int, cards: seq<Card>)
    ensures score == 1
    ensures |cards| == TotalCards && cards[0].matched && cards[0].flipped
    ensures forall p :: 1 <= p < |cards| ==> cards[p] == Dealt(NumPairs)[p]
  {
    var g := UnshuffledGame();
    var e1 := g.Press(0);
    var e2 := g.Press(0);
    score := g.score;
    cards := g.cards;
  }

  /** A mismatch followed, within the delay, by a match: when the timer
      fires it restores its snapshot, so the match disappears from the deck
      while the score keeps it. */
  method StaleFlipBackUndoesMatch() returns (score: nat, stillMatched: bool)
    ensures score == 1 && !stillMatched
  {
    var g := UnshuffledGame();
    var e1 := g.Press(0);
    var e2 := g.Press(2);
    assert e2.PlayIncorrect?;
    var e3 := g.Press(4);
    var e4 := g.Press(5);
    assert g.cards[4].matched;
    g.FlipBackTimeout(e2.pending);
    score := g.score;
    stillMatched := g.cards[4].matched;
  }

  /** Plays all four pairs of a round and reports whether the win was raised. */
  method WinRound(g: MemoryGame) returns (won: bool)
    requires g.Valid() && g.cards == Dealt(NumPairs) && g.selected == []
    modifies g
    ensures g.Valid() && g.selected == [] && g.score == old(g.score) + NumPairs
    ensures won == (old(g.score) == 0)
  {
    var e := g.Press(0);
    e := g.Press(1);
    e := g.Press(2);
    e := g.Press(3);
    e := g.Press(4);
    e := g.Press(5);
    e := g.Press(6);
    e := g.Press(7);
    won := e.PlayCorrect? && e.won;
  }

  /** Restarting with InitializeGame keeps the score at NumPairs, so the
      second round is played to the end without a win. */
  method RestartNeverWinsAgain() returns (firstWin: bool, secondWin: bool, finalScore: nat)
    ensures firstWin && !secondWin && finalScore == 2 * NumPairs
  {
    var g := UnshuffledGame();
    firstWin := WinRound(g);
    g.InitializeGame(KeepDraws());
    SelfDrawsKeepOrder(Dealt(NumPairs), KeepDraws(), TotalCards - 1);
    secondWin := WinRound(g);
    finalScore := g.score;
  }

  /** With NewRound the second round is won like the first. */
  method NewRoundWinsAgain() returns (firstWin: bool, secondWin: bool)
    ensures firstWin && secondWin
  {
    var g := UnshuffledGame();
    firstWin := WinRound(g);
    g.NewRound(KeepDraws());
    SelfDrawsKeepOrder(Dealt(NumPairs), KeepDraws(), TotalCards - 1);
    secondWin := WinRound(g);
  }

  /** Draws that move two cards: position 6 swaps with 1, then 5 with 0. */
  function MixDraws(): (js: seq<int>)
    ensures ValidDraws(js, TotalCards)
  {
    [0, 1, 2, 3, 4, 0, 1, 7]
  }

  /** DealtDeck is Dealt(NumPairs) written out as a literal (DealtFour proves
      the two equal); AfterSix and MixedDeck are the decks after each swap
      that moves a card under MixDraws. */
  const DealtDeck: seq<Card> :=
    [Card(0, 'A', false, false), Card(1, 'A', false, false),
     Card(2, 'B', false, false), Card(3, 'B', false, false),
     Card(4, 'C', false, false), Card(5, 'C', false, false),
     Card(6, 'D', false, false), Card(7, 'D', false, false)]
  const AfterSix: seq<Card> :=
    [Card(0, 'A', false, false), Card(6, 'D', false, false),
     Card(2, 'B', false, false), Card(3, 'B', false, false),
     Card(4, 'C', false, false), Card(5, 'C', false, false),
     Card(1, 'A', false, false), Card(7, 'D', false, false)]
  const MixedDeck: seq<Card> :=
    [Card(5, 'C', false, false), Card(6, 'D', false, false),
     Card(2, 'B', false, false), Card(3, 'B', false, false),
     Card(4, 'C', false, false), Card(0, 'A', false, false),
     Card(1, 'A', false, false), Card(7, 'D', false, false)]

  lemma DealtFour()
    ensures Dealt(NumPairs) == DealtDeck
  {
  }

  lemma SwapSixOne()
    ensures Swap(DealtDeck, 6, 1) == AfterSix
  {
    var r := Swap(DealtDeck, 6, 1);
    assert |r| == 8;
    assert r[0] == AfterSix[0];
    assert r[1] == AfterSix[1];
    assert r[6] == AfterSix[6];
    assert forall k :: 2 <= k < 6 || k == 7 ==> r[k] == DealtDeck[k];
  }

  lemma SwapFiveZero()
    ensures Swap(AfterSix, 5, 0) == MixedDeck
  {
    var r := Swap(AfterSix, 5, 0);
    assert forall k :: 0 <= k < 8 ==> r[k] == MixedDeck[k];
  }

  /** MixDraws moves only two cards of any eight-card deck. */
  lemma MixDrawsSwapTwice(s: seq<Card>)
    requires |s| == TotalCards
    ensures FisherYates(s, MixDraws(), TotalCards - 1) == Swap(Swap(s, 6, 1), 5, 0)
  {
    MixDrawsTopSteps(s);
    MixDrawsLowSteps(Swap(Swap(s, 6, 1), 5, 0));
  }

  /** The steps at positions 7, 6 and 5. */
  lemma MixDrawsTopSteps(s: seq<Card>)
    requires |s| == TotalCards
    ensures FisherYates(s, MixDraws(), 7) == FisherYates(Swap(Swap(s, 6, 1), 5, 0), MixDraws(), 4)
  {
    var js := MixDraws();
    SwapSelf(s, 7);
    assert FisherYates(s, js, 7) == FisherYates(s, js, 6);
    var s1 := Swap(s, 6, 1);
    assert FisherYates(s, js, 6) == FisherYates(s1, js, 5);
  }

  /** The steps at positions 4 down to 1 draw their own position. */
  lemma MixDrawsLowSteps(t: seq<Card>)
    requires |t| == TotalCards
    ensures FisherYates(t, MixDraws(), 4) == t
  {
    var js := MixDraws();
    assert js[1] == 1 && js[2] == 2 && js[3] == 3 && js[4] == 4;
    SelfDrawsKeepOrder(t, js, 4);
  }

  /** With MixDraws the deck reads C D B B C A A D: the A pair (ids 0 and 1)
      lies at positions 5 and 6, and positions 0 and 1 hold a C and a D with
      ids 5 and 6. */
  lemma MixedDeal()
    ensures FisherYates(Dealt(NumPairs), MixDraws(), TotalCards - 1) == MixedDeck
  {
    MixDrawsSwapTwice(Dealt(NumPairs));
    DealtFour();
    SwapSixOne();
    SwapFiveZero();
  }

  /** The positions the scenario below taps, read off the mixed deal. */
  lemma MixedDealPositions(d: seq<Card>)
    requires d == FisherYates(Dealt(NumPairs), MixDraws(), TotalCards - 1)
    ensures |d| == TotalCards
    ensures d[5].value == d[6].value && d[5].id == 0 && d[6].id == 1
    ensures d[0].value != d[1].value && d[0].id == 5 && d[1].id == 6
  {
    MixedDeal();
  }

  /** The id/position flip-back on a real deal: the A pair at positions 5 and
      6 (ids 0 and 1) is matched, then a mismatch at positions 0 and 1 fires
      a flip-back that turns the matched A cards face down. */
  method MatchThenStaleFlipBack() returns (g: MemoryGame)
    ensures fresh(g) && g.Valid() && g.selected == [] && g.score == 1
    ensures g.cards[5].matched && g.cards[6].matched && !g.cards[5].flipped && !g.cards[6].flipped
    ensures g.cards[5].value == g.cards[6].value
  {
    g := new MemoryGame(MixDraws());
    MixedDealPositions(g.cards);
    var e := g.Press(5);
    e := g.Press(6);
    e := g.Press(0);
    var mismatch := g.Press(1);
    g.FlipBackTimeout(mismatch.pending);
  }

  /** Continuing from there, tapping the hidden A pair again scores the same
      pair a second time. */
  method MatchedPairScoredTwice() returns (score: nat)
    ensures score == 2
  {
    var g := MatchThenStaleFlipBack();
    var e := g.Press(5);
    e := g.Press(6);
    score := g.score;
  }

  /** A restart does not cancel a pending flip-back: after a mismatch at
      positions 0 and 2 the game restarts on the MixDraws deal, and when the
      old timer fires it writes the previous round's deck over the new one. */
  method RestartKeepsOldTimer() returns (g: MemoryGame)
    ensures fresh(g) && g.Valid() && g.selected == [] && g.score == 0
    ensures g.cards == FlipBack(Dealt(NumPairs), [0, 2])
    ensures forall p :: 0 <= p < |g.cards| ==> g.cards[p].id == p
  {
    g := UnshuffledGame();
    var e1 := g.Press(0);
    var e2 := g.Press(2);
    g.InitializeGame(MixDraws());
    g.FlipBackTimeout(e2.pending);
  }
}

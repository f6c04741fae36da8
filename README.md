# memoryMatch game engine in Dafny

This project models the game state held by the `App` component of the
memoryMatch React Native app (`App.js`). It covers three parts:

- the deal of `initializeGame`: two face-down cards per symbol for the first
  `NUM_PAIRS` symbols of `CARD_VALUES`, with ids `2i` and `2i+1`, followed by
  the in-place Fisher–Yates shuffle;
- the tap handler `handleCardPress` over the three pieces of state `cards`,
  `selected` and `score`;
- the one-second callback a mismatch schedules.

Modules:

- `Cards` holds the constants, the `Card` datatype, the deal loop (`BuildDeck`)
  and its reference definition `Dealt`, and what a well-formed deck is. It
  proves that the dealt deck is well formed and that any reordering keeps it
  well formed. Well formed means one pair per symbol, distinct ids in
  `0..2n-1`, and every card face down and unmatched.
- `Shuffling` holds the shuffle loop over an array (`Shuffle`) and its
  reference definition `FisherYates`, which is proved to be a permutation. The
  random draws are a parameter: `js[i]` is the index drawn at position `i`.
- `App` holds the class `MemoryGame`, whose fields are the component's state.
  `Press` is the tap handler and `FlipBackTimeout` is the delayed callback. The
  pure card updates `MarkMatched` and `FlipBack` are the two `cards.map`
  expressions of the source.
- `Scenarios` plays whole turns against the class. Most use the deal that
  keeps the dealt order (A A B B C C D D). The id/position scenarios use the
  deal of the draws 0,1,2,3,4,0,1,7 (C D B B C A A D). These turns show the
  behaviours below.

The class follows `App.js` as written, including these behaviours:

- The handler never turns a selected card face up. Only a match does.
- Nothing stops a second tap on the same index, so a card can match itself
  (`Scenarios.SelfMatchScores`).
- The callback compares card ids with selected positions.
- The callback writes back the deck as it was at press time, so a match made
  during the delay is undone while the score keeps it
  (`Scenarios.StaleFlipBackUndoesMatch`).
- Restarting through `initializeGame` keeps the score.

The game's evident rules differ from the code in three places, and the model
follows the code:

- A selected card should be revealed. The code leaves it face down until it
  is matched.
- A card already in the selection should not be selectable again. The code
  does not refuse a repeated index. It blocks matched cards only through the
  tap guard on `flipped` (App.js:91), since a match sets `flipped` (App.js:60).
  `Press` has that guard as a precondition and keeps "matched implies face
  up", so matched cards are untappable until the id/position flip-back turns
  them face down (`Scenarios.MatchedPairScoredTwice`).
- A new round should reset the score and cancel a pending timer. The code
  does neither, so a timer left over from the old round writes the old deck
  over the new deal (`Scenarios.RestartKeepsOldTimer`).

`MemoryGame.Valid()` holds throughout play. It says the deck keeps its
`TOTAL_CARDS` cards, one pair per symbol and distinct ids, and that every
selected index addresses a card. `SelectionBounded()` says the selection holds
at most one index. The constructor and `NewRound` establish it.
`InitializeGame` keeps the selection as it is, so the bound survives it.
`Press` and `FlipBackTimeout` preserve it. The handler's guard for a two-card selection is still
modelled, so the bound is kept out of `Valid()`.

## Model

| member | source | states |
|---|---|---|
| `Cards.BuildDeck` | App.js:25-31 | the deal loop yields exactly the reference deck `Dealt(NUM_PAIRS)`: positions 2i and 2i+1 hold face-down, unmatched cards of `CARD_VALUES[i]` with ids 2i and 2i+1 |
| `Cards.DealtPairs` | App.js:27-31 | in the dealt deck each of the first n symbols occurs exactly twice and no other symbol occurs |
| `Cards.DealtWellFormed` | App.js:27-31 | the dealt deck has 2n cards, distinct ids in 0..2n-1, all face down and unmatched, one pair per symbol |
| `Cards.PermutationKeepsValues` | App.js:34-37 | reordering the cards keeps the multiset of symbols, so pair counts survive the shuffle |
| `Cards.PermutationKeepsDistinctIds` | App.js:34-37 | reordering the cards keeps the ids distinct |
| `Cards.PermutationKeepsWellFormed` | App.js:34-37 | any reordering of a well-formed deck is well formed |
| `Shuffling.Swap` | App.js:36 | the destructuring swap exchanges positions i and j and leaves every other position alone |
| `Shuffling.SwapPermutes` | App.js:36 | a swap keeps the multiset of elements |
| `Shuffling.SwapInPlace` | App.js:36 | one loop step leaves the array equal to `Swap` of its old contents |
| `Shuffling.FisherYates` | App.js:34-37 | the shuffle from position i down to 1 with in-range draws keeps the length of the deck |
| `Shuffling.FisherYatesPermutes` | App.js:34-37 | with in-range draws the shuffle keeps the multiset of the deck, so it is a permutation |
| `Shuffling.Shuffle` | App.js:34-37 | the in-place loop leaves the array equal to `FisherYates` of its old contents |
| `Shuffling.SelfDrawsKeepOrder` | App.js:34-37 | when every draw picks the current position, the shuffle leaves the deck unchanged |
| `App.Deal` | App.js:24-39 | the deal then shuffle of `initializeGame` gives the dealt deck reordered by the draws, and that deck is well formed |
| `App.MarkMatched` | App.js:59-61 | exactly positions first and second become face up and matched with id and symbol kept; every other card is unchanged; the symbols by position, distinct ids and "matched implies face up" are preserved |
| `App.FlipBack` | App.js:68 | the callback keeps length, ids, symbols and matched marks (so pairs and distinct ids survive it), and a card ends face up exactly when it was face up and its id is not among the selected indices |
| `App.MemoryGame.constructor` | App.js:12-22 | initial state: a well-formed shuffled deck, no selection, score 0; `Valid` and `SelectionBounded` hold |
| `App.MemoryGame.InitializeGame` | App.js:24-39 | the deck becomes a fresh well-formed shuffled deal, and the selection and the score are left unchanged |
| `App.MemoryGame.Press` | App.js:46-73 | with two selected a tap changes nothing; with none it appends the index and changes nothing else; with one it evaluates and clears the selection. A match marks exactly the two positions, adds exactly 1 to the score and signals the win iff the new score is NUM_PAIRS. A mismatch leaves cards and score alone and schedules a flip-back of the press-time deck with both indices; that deck keeps the round's pairs and distinct ids. The score never decreases. `Valid`, the one-index selection bound and "matched implies face up" are preserved |
| `App.MemoryGame.FlipBackTimeout` | App.js:67-69 | the deck becomes the flip-back of the press-time snapshot; selection and score are unchanged; `Valid` and the selection bound are preserved |
| `App.FlipBackUnflipsMatchedCard` | App.js:68 | a deck where every matched card is face up and both selected cards are unmatched, whose flip-back as written leaves a matched card face down |
| `App.FlipBackAt` | App.js:68 | flip-back by position: only selected positions turn face down, and "matched implies face up" is kept when the selected cards are unmatched |
| `App.MemoryGame.NewRound` | App.js:63 | a restart that deals a fresh well-formed deck and also clears the selection and resets the score to 0 |
| `Scenarios.SelfMatchScores` | App.js:46-61 | tapping the same face-down card twice scores 1 and marks that card matched and face up, while every other card stays as dealt |
| `Scenarios.StaleFlipBackUndoesMatch` | App.js:65-69 | mismatch (0, 2), then match (4, 5), then the timer: the score stays 1 but card 4 is no longer matched |
| `Scenarios.WinRound` | App.js:54-63 | matching all four pairs adds NUM_PAIRS to the score and raises the win iff the score started at 0 |
| `Scenarios.RestartNeverWinsAgain` | App.js:62-63 | after a win and a restart through `initializeGame`, a second full round ends at score 8 with no win |
| `Scenarios.NewRoundWinsAgain` | App.js:62-63 | with `NewRound` as the restart, the second round is won like the first |
| `Scenarios.MixedDeal` | App.js:34-37 | the draws 0,1,2,3,4,0,1,7 shuffle the dealt deck into C D B B C A A D, with ids 5 and 6 at positions 0 and 1 and the A pair (ids 0 and 1) at positions 5 and 6 |
| `Scenarios.MatchThenStaleFlipBack` | App.js:65-69 | on that deal, matching the A pair and then mismatching positions 0 and 1 leaves both A cards matched but face down once the timer fires |
| `Scenarios.MatchedPairScoredTwice` | App.js:56-68 | tapping the hidden A pair again matches it a second time, and the score reaches 2 |
| `Scenarios.RestartKeepsOldTimer` | App.js:24-39 | a mismatch at positions 0 and 2, then a restart on another deal, then the old timer: the deck is the old round's deck flipped back (every id back at its dealt position), and score and selection stay as the restart left them |

## Left out

- Rendering, the `TouchableOpacity` wiring and the style sheet (App.js:83-134) are presentation. Only the tap guard `!card.flipped` (App.js:91) is kept, as a precondition of `Press`.
- Sound loading, playback and unloading (App.js:17-22, 42-43, 75-81) are calls into an audio library whose failures are only logged. `Press` returns which sound would be played.
- `Alert.alert` (App.js:63) is a UI call. It becomes the `won` flag of the `PlayCorrect` effect, and the restart it offers is `InitializeGame`.
- `Math.random` (App.js:35) is replaced by the draws `js`, constrained to `0 <= js[i] <= i`. Fairness of the shuffle is a statistical property and is not modelled.
- `setTimeout` timing is not modelled. The callback is the separate method `FlipBackTimeout`, which the caller may run at any later point.
- React state batching and stale closures are not modelled: each `Press` sees the state left by the previous call. In React, two taps inside one render would both read the older state.
- `App.MemoryGame.FlipBackTimeout` requires the snapshot to have `TOTAL_CARDS` cards, one pair per symbol and distinct ids. `Press` ensures each of these of every snapshot it produces.

## Findings

| source | as written | input that shows it | evidently intended | confidence | as-written member | corrected member |
|---|---|---|---|---|---|---|
| App.js:68 | the flip-back tests `newSelected.includes(card.id)`, comparing card ids with selected positions | the draws 0,1,2,3,4,0,1,7 deal C D B B C A A D; match the A pair at positions 5 and 6 (ids 0 and 1), then mismatch positions 0 and 1: the timer turns both matched A cards face down, and tapping them again scores the pair twice (`Scenarios.MatchedPairScoredTwice`) | turn face down the cards at the selected positions | not executed | `Scenarios.MatchThenStaleFlipBack`, `App.FlipBackUnflipsMatchedCard` | `App.FlipBackAt` |
| App.js:63 | the win alert restarts through `initializeGame`, which deals again but does not reset `score` | win a round, press OK, match all four pairs again: the score reaches 8 and no win is raised | reset the score (and the selection) on restart, so every round can be won | not executed | `Scenarios.RestartNeverWinsAgain` | `App.MemoryGame.NewRound` |

`MemoryGame` keeps the as-written callback and restart so that it models
`App.js` faithfully. The corrected definitions sit beside it. `FlipBackAt`
carries its intended property in its contract. The intended property of
`NewRound` is proved by `Scenarios.NewRoundWinsAgain`.

# Six Takes — a verified model of the game core

This project models the core of the SixTakes card game: the game state and the
rules of a turn, the dealer that starts a game, and two computer strategies.
The rules come from the "6 nimmt!" card game.

- **The deck.** It has the cards 1 to 104.
- **Cows.** Each card carries a number of cows: 7 for 55, 5 for multiples of 11, 3 for multiples of 10, 2 for multiples of 5, and 1 otherwise.
- **The table.** Four lines of at most five cards lie on the table.
- **A turn.** Every player plays one card. The cards are resolved from the lowest to the highest.
- **Routing.** A card goes to the line whose last card is the highest one below it. If that line already holds five cards, the player takes the line: they are charged its cows, and the line restarts with the card.
- **Low cards.** A card below every line's last card goes to a line chosen by its player's selector, or to the cheapest line when there are no selectors. The player takes that line.

The modules follow the source files.

| module | file | source | form |
|---|---|---|---|
| `Wrappers` | wrappers.dfy | — | the `Option` datatype |
| `Rules` | rules.dfy | `Line.CardValue`, `Line.Value`, `Line.InsertCard`, `Game.GetLineToPlay`, `Game.CheapestRow` | pure functions on lists of cards, with their properties as lemmas |
| `Turn` | turn.dfy | `Game.PlayCards` | a turn as a function on a value snapshot (`Table`: lines, points, history) |
| `GameState` | game.dfy | the classes `Line`, `PlayerInfo` and `Game` | classes whose methods update their fields; each is proved against the functions of `Rules` and `Turn` |
| `ClosestValue` | closest.dfy | `ClosestValuePlayer.Play` | the scanning loop as a method, specified by a function whose choice is characterised by lemmas |
| `MonteCarlo` | montecarlo.dfy | `MonteCarloPlayer` | a class holding the random source; the sampling and search loops as methods |
| `Dealer` | dealer.dfy | `Dealer.Deal` | a class whose method builds a fresh `Game` |

How the classes are specified:

- **`Game`.** It keeps its real fields: `lines`, `players` and `history`. Next to them are two ghost fields, `table` and `hands`, that mirror those objects as values. `Valid()` ties the objects to the mirror. Every state-changing method states its new `table` in terms of the `Turn` functions.
- **Randomness.** The random number generator is a parameter of the Monte Carlo player: an `Oracle` from positions to cards, plus a position field that the sampler advances.
- **The shuffle.** The dealer's shuffled deck is passed in as `values`, which may be any arrangement of the cards 1..104.

## Model

| member | source | states |
|---|---|---|
| Rules.CardValue | SixTakes/Game.cs:17-24 | a card carries 1 to 7 cows, and 7 exactly for card 55 (55 is special even though it is a multiple of 11 and of 5) |
| Rules.CardValueExamples | SixTakesUnitTest/GameTest.cs:10-26 | the cow values the unit test expects: 37→1, 55→7, 20→3, 25→2, 66→5, 104→1 |
| Rules.Total | SixTakes/Game.cs:31 | a line of n cards is worth between n and 7n cows |
| Rules.TotalConcat | SixTakes/Game.cs:31 | a line's value is additive over concatenation |
| Rules.TotalExamples | SixTakesUnitTest/GameTest.cs:29-45 | the line values the unit test expects: [1]→1, [10,30,55]→13, [11..15]→10 |
| Rules.Place | SixTakes/Game.cs:54-67 | inserting a card: it is appended exactly when the line has room and the card is above the last one, and then no points are charged; otherwise the line restarts with the card and its whole value is charged; the line invariant (1..5 strictly increasing cards) is kept |
| Rules.IncreasingRunNeverTakes | SixTakes/Game.cs:54-60 | inserting increasing cards into a line, up to five cards in all, appends them all and charges nothing |
| Rules.Route | SixTakes/Game.cs:159-164 | None exactly when no line ends below the card; otherwise the line ends below the card, with the greatest such last card, and on equal last cards it is the later line |
| Rules.RouteExamples | SixTakesUnitTest/GameTest.cs:102-117 | on the test's lines [25],[33,42],[71,72],[80], card 55 goes to line 1, card 41 to line 0, and card 20 has no line |
| Rules.TurnRouteExamples | SixTakesUnitTest/GameTest.cs:133-144 | in the test turn, card 2 has no line and, after 2 takes line 0, card 37 goes to line 0 |
| Rules.TurnPlaceExamples | SixTakesUnitTest/GameTest.cs:133-144 | in the test turn, 2 takes [25] for 2 cows and 37 is then appended to [2] |
| Rules.ScanMin | SixTakes/Game.cs:172-183 | the running minimum that starts from (100, 0) ends at a value no greater than any line's value; below 100 it is the value of the first line of minimal value |
| Rules.CheapestIsFirstMinimum | SixTakes/Game.cs:170-184 | on valid lines, the cheapest row is a line of minimal value and no earlier line has that value |
| Rules.CheapestOf | SixTakes/Game.cs:170-184 | the first line of minimal value is the cheapest row (the converse of CheapestIsFirstMinimum) |
| Rules.CheapestExampleStart | SixTakesUnitTest/GameTest.cs:120-123 | on the test's lines, the cheapest row is 0 |
| Rules.CheapestExampleAfterTake | SixTakesUnitTest/GameTest.cs:124-125 | after 30 joins line 0, the cheapest row is 2 |
| Turn.InsertPair | SixTakes/Game.cs:205 | inserting a (card, player) pair into a sorted list keeps it sorted and adds exactly that pair |
| Turn.HeadBeforeRest | SixTakes/Game.cs:205 | a sorted list stays sorted when a pair that is not below its head is inserted behind the head |
| Turn.Ascending | SixTakes/Game.cs:205 | the sort of the pairs is sorted and a permutation of its input |
| Turn.PlayOrderIsSortedPermutation | SixTakes/Game.cs:200-205 | the play order holds each (card, player) pair exactly once, with ascending cards and each player once |
| Turn.OccursTwice | SixTakes/Game.cs:200-205 | an element found at two positions occurs at least twice in the multiset |
| Turn.IndexedOnce | SixTakes/Game.cs:200-204 | each (card, i) pair occurs exactly once among the indexed cards |
| Turn.Placed | SixTakes/Game.cs:144-148 | placing a card changes only its line and its player's points, charges the points the insertion returns (never negative), and records the card |
| Turn.Step | SixTakes/Game.cs:207-222 | processing one pair keeps the line invariant and records the card in the history, even when the target line does not exist |
| Turn.Resolve | SixTakes/Game.cs:206-223 | resolving pairs in order keeps the line invariant and the numbers of lines and players |
| Turn.PlayTurn | SixTakes/Game.cs:196-224 | a turn keeps the line invariant and the numbers of lines and players |
| Turn.TurnNeverLowersPoints | SixTakes/Game.cs:222 | no player's points go down in a turn |
| Turn.ResolveNeverLowersPoints | SixTakes/Game.cs:206-223 | no player's points go down while pairs are resolved |
| Turn.CardsOf | SixTakes/Game.cs:200-204 | the set of cards of a play order holds exactly the cards of its pairs |
| Turn.TurnRecordsPlayedCards | SixTakes/Game.cs:146 | after a resolved turn, the history is the old history plus exactly the played cards |
| Turn.PlayOrderCardsPlayed | SixTakes/Game.cs:200-205 | every card in the play order was played |
| Turn.PlayedCardsInOrder | SixTakes/Game.cs:200-205 | every played card is in the play order |
| Turn.ResolveRecordsCards | SixTakes/Game.cs:206-223 | a resolved sequence of pairs adds exactly its cards to the history |
| Turn.DefaultTieBreakAlwaysResolves | SixTakes/Game.cs:213-216 | without selectors, a turn with one card per player on a table with lines always completes |
| Turn.CheapestResolves | SixTakes/Game.cs:213-216 | without selectors, every sequence of pairs resolves |
| Turn.CheapestStepResolves | SixTakes/Game.cs:213-216 | without selectors, every single pair is placed |
| Turn.TurnKeepsLinesSeen | SixTakes/Game.cs:146 | if every card on the lines is in the history before a turn, it is afterwards |
| Turn.ResolveKeepsLinesSeen | SixTakes/Game.cs:146 | resolving pairs keeps every card on the lines recorded in the history |
| Turn.TurnExample | SixTakesUnitTest/GameTest.cs:133-144 | the unit test's turn: cards 2 and 37 leave points [2, 0] and line 0 as [2, 37] |
| Turn.TurnFollowsPlayOrder | SixTakes/Game.cs:200-223 | a turn with well-sized arguments resolves the pairs in play order |
| Turn.ResolveFrom | SixTakes/Game.cs:206-223 | resolving from position k is the step at k followed by resolving from k + 1 |
| Turn.ResolveTwo | SixTakes/Game.cs:206-223 | two successful steps make a resolved two-pair turn |
| Turn.PlayOrderExample | SixTakes/Game.cs:200-205 | cards [2, 37] are played in the order (2, player 0), (37, player 1) |
| Turn.FirstStepExample | SixTakesUnitTest/GameTest.cs:139-141 | card 2 takes line 0 for 2 cows |
| Turn.SecondStepExample | SixTakesUnitTest/GameTest.cs:139-143 | card 37 is then appended to line 0 without points |
| Turn.ExampleTableOk | SixTakesUnitTest/GameTest.cs:94-100 | the test's lines keep the line invariant |
| GameState.Line.constructor | SixTakes/Game.cs:37-40 | a new line holds exactly its first card |
| GameState.Line.Copy | SixTakes/Game.cs:42-45 | a copied line holds the same cards |
| GameState.Line.InsertCard | SixTakes/Game.cs:54-67 | the new cards and the returned points are those of Rules.Place; the line invariant is kept |
| GameState.PlayerInfo.constructor | SixTakes/Game.cs:85-88 | a new player holds the hand and 0 points |
| GameState.PlayerInfo.Copy | SixTakes/Game.cs:90-94 | a copied player has the same hand and points |
| GameState.CardsIn | SixTakes/Game.cs:122-128 | a card is among the lines' cards exactly when some line holds it |
| GameState.CopyLines | SixTakes/Game.cs:133 | fresh, distinct line objects, as many as the source's, each holding the cards of the line at the same position |
| GameState.CopyPlayers | SixTakes/Game.cs:134 | fresh, distinct player records, as many as the source's, each with the hand and points of the player at the same position |
| GameState.SeenCards | SixTakes/Game.cs:121-128 | the history of a new game is exactly the set of cards on its lines |
| GameState.AddCards | SixTakes/Game.cs:124-127 | adding cards to a set yields the old set plus exactly those cards |
| GameState.IndexCards | SixTakes/Game.cs:200-204 | the loop pairs each card with its player's index |
| GameState.Game.constructor | SixTakes/Game.cs:117-129 | a game holds the given lines and players; its table has their cards and points and its hands are theirs; its history is the set of cards on the lines |
| GameState.Game.Copy | SixTakes/Game.cs:131-136 | a copy has fresh line and player objects and the same lines, points, hands and history |
| GameState.Game.InsertCard | SixTakes/Game.cs:144-148 | the card is always recorded; an index outside the lines fails (the source throws) and changes nothing else; otherwise the line changes as Rules.Place says and the points it charges are returned |
| GameState.Game.CheapestRow | SixTakes/Game.cs:170-184 | the row is Rules.Cheapest of the lines, and it is a line when there is one |
| GameState.Game.TargetRow | SixTakes/Game.cs:210-221 | the row is the routed line, or else the selector's row, or else the cheapest row |
| GameState.Game.Charge | SixTakes/Game.cs:222 | only the given player's points change, by the amount |
| GameState.Game.PlayCard | SixTakes/Game.cs:207-222 | the new state and the error are those of Turn.Step |
| GameState.Game.PlayCards | SixTakes/Game.cs:196-224 | the new state is that of Turn.PlayTurn, and the call fails exactly when the turn fails, with the same error |
| ClosestValue.Scan | SixTakes/ClosestValuePlayer.cs:19-47 | no pick exactly when no card has a score; otherwise the first card of least score |
| ClosestValue.ScanHand | SixTakes/ClosestValuePlayer.cs:22-47 | the pick is a position in the hand |
| ClosestValue.ScanHandStep | SixTakes/ClosestValuePlayer.cs:22-47 | one loop iteration moves the pick only on a strictly smaller score |
| ClosestValue.ScanHandIsScan | SixTakes/ClosestValuePlayer.cs:22-47 | scoring each card as the loop goes picks the same card as scanning all the scores |
| ClosestValue.ScanHandPicks | SixTakes/ClosestValuePlayer.cs:19-47 | the loop picks nothing exactly when no card has a score; otherwise it picks the first card of least score |
| ClosestValue.MaxOf | SixTakes/ClosestValuePlayer.cs:49 | the highest card of the hand |
| ClosestValue.ChoiceInHand | SixTakes/ClosestValuePlayer.cs:15-50 | a card is played exactly when the hand is non-empty, and it is a card of the hand |
| ClosestValue.FullLineOnlyAsFallback | SixTakes/ClosestValuePlayer.cs:27-49 | a card whose line is full is played only when every card's line is full, and then the highest card is played |
| ClosestValue.RoutableBeatsUnroutable | SixTakes/ClosestValuePlayer.cs:17-40 | with deck cards, if some card goes onto a line with room, the played card goes onto a line (the offset 400 ranks the cards with no line last) |
| ClosestValue.HighestUnroutable | SixTakes/ClosestValuePlayer.cs:39-45 | when no card goes onto a line with room but some card has no line, the highest card with no line is played |
| ClosestValue.EarliestOnTies | SixTakes/ClosestValuePlayer.cs:30 | of two cards with equal scores, the later one is never picked |
| ClosestValue.Play | SixTakes/ClosestValuePlayer.cs:15-50 | the played card is ClosestValue.Choice of the game's lines and the player's hand |
| MonteCarlo.DistinctCard | SixTakes/MonteCarloPlayer.cs:20 | a list without repeats has as many elements as its set |
| MonteCarlo.SeqSetCard | SixTakes/MonteCarloPlayer.cs:20 | a list's set has at most as many elements as the list |
| MonteCarlo.DifferenceCard | SixTakes/MonteCarloPlayer.cs:20 | removing b from a removes at most the elements of b |
| MonteCarlo.UnseenShrinks | SixTakes/MonteCarloPlayer.cs:37-38 | playing n cards removes at most n cards from the unseen cards |
| MonteCarlo.Demand | SixTakes/MonteCarloPlayer.cs:35-46 | a search of depth d > 0 draws at least one card per player |
| MonteCarlo.InsertAt | SixTakes/MonteCarloPlayer.cs:36 | inserting at k shifts the later elements by one |
| MonteCarlo.SeatedSample | SixTakes/MonteCarloPlayer.cs:35-36 | inserting the own card into the drawn cards seats it at the player's index and every other seat holds an unseen deck card, no two alike |
| MonteCarlo.RemoveAt | SixTakes/MonteCarloPlayer.cs:44-45 | removing at k shifts the later elements back by one |
| MonteCarlo.GapsSum | SixTakes/MonteCarloPlayer.cs:41 | the sum of the player's gaps to everyone equals count × own points − total points |
| MonteCarlo.GapsSign | SixTakes/MonteCarloPlayer.cs:41 | the gaps are ≤ 0 for the fewest points, ≥ 0 for the most, and 0 when all are equal |
| MonteCarlo.DifferentialIsLead | SixTakes/MonteCarloPlayer.cs:41 | the score difference is the sum of the player's gaps; ≤ 0 when they have the fewest points, ≥ 0 when the most, 0 when all are equal |
| MonteCarlo.Aggregate | SixTakes/MonteCarloPlayer.cs:28-48 | the worst case of a card's samples, starting from 0: at least 0 and every sample; 0 or one of the samples |
| MonteCarlo.MinOf | SixTakes/MonteCarloPlayer.cs:52 | the least worst case |
| MonteCarlo.IndexOf | SixTakes/MonteCarloPlayer.cs:53 | the first position holding a value |
| MonteCarlo.Min | SixTakes/MonteCarloPlayer.cs:58 | the smaller of the hand size and the requested depth |
| MonteCarlo.MoreSamples | SixTakes/MonteCarloPlayer.cs:33-48 | one more scored sample extends a card's scored samples |
| MonteCarlo.PlayOnCopy | SixTakes/MonteCarloPlayer.cs:37-38 | a fresh copy plays the sampled turn with the cheapest-line tie-break; its state is Turn.PlayTurn of the game's; at most the played cards leave the unseen set |
| MonteCarlo.MonteCarloPlayer.constructor | SixTakes/MonteCarloPlayer.cs:9-11 | a player with a seat, a random source and position 0 |
| MonteCarlo.MonteCarloPlayer.ChooseRemainingCards | SixTakes/MonteCarloPlayer.cs:13-23 | count distinct cards from 1..104, none in the history, each one a draw of the random source since the call began; the random source is consumed in order and every draw skipped was a repeat or already seen |
| MonteCarlo.MonteCarloPlayer.NextWanted | SixTakes/MonteCarloPlayer.cs:17-21 | a fair source will still draw a wanted card, so the rejection loop ends |
| MonteCarlo.MonteCarloPlayer.SampleTurn | SixTakes/MonteCarloPlayer.cs:35-38 | one sample: the own card at the own seat and distinct unseen deck cards elsewhere, played on a fresh copy whose state is Turn.PlayTurn of the game's |
| MonteCarlo.MonteCarloPlayer.SampleScore | SixTakes/MonteCarloPlayer.cs:35-47 | the sampled turn seats the card at the player's index and distinct unseen deck cards elsewhere (`ScoredSample`); at depth 1 the score is playerCount × own points − total points after that turn on the game's table; deeper, it is the worst case of the first least card of a search one turn deeper on the table after the turn and the rest of the hand, with 100 iterations (`Settles`), and never negative |
| MonteCarlo.MonteCarloPlayer.SampleCard | SixTakes/MonteCarloPlayer.cs:33-49 | iterations scored samples for one card, each with its sampled turn, and their running maximum from 0 |
| MonteCarlo.MonteCarloPlayer.MonteCarlo | SixTakes/MonteCarloPlayer.cs:25-54 | `SearchResult`: iterations samples per card, each the score of a sampled turn for that card (`ScoredSample`); the returned index is the first card whose aggregate (maximum of its samples and 0) is least, and the returned value is that aggregate |
| MonteCarlo.MonteCarloPlayer.Search | SixTakes/MonteCarloPlayer.cs:56-59 | a card index comes back exactly when the hand is non-empty and the depth positive; it is the `SearchResult` of a search of depth Math.Min(hand size, depth) with 100 iterations on the player's own hand |
| MonteCarlo.MonteCarloPlayer.Play | SixTakes/MonteCarloPlayer.cs:62-65 | a card is played exactly when the hand is non-empty; it is Hand[index] for the index of a depth Math.Min(hand size, 2) search with 100 iterations |
| Dealer.LineCardsSeen | SixTakes/Dealer.cs:38-39 | the cards on the dealt lines are exactly the first four cards of the deck |
| Dealer.Carried | SixTakes/Dealer.cs:47-50 | the players start with the previous game's points, or with 0 |
| Dealer.SliceDistinct | SixTakes/Dealer.cs:36-45 | a slice of a shuffled deck has no repeated card |
| Dealer.DealtCardsDisjoint | SixTakes/Dealer.cs:24-46 | on a shuffled deck, the four line cards are distinct deck cards; every dealt hand has ten distinct deck cards; no card is in two hands or in a hand and a line |
| Dealer.DealLines | SixTakes/Dealer.cs:38-39 | four fresh distinct lines, line i holding card i of the deck |
| Dealer.DealHand | SixTakes/Dealer.cs:44-45 | no hand exactly when the deck runs out (the source throws); otherwise the ten cards of Hands |
| Dealer.DealPlayers | SixTakes/Dealer.cs:40-51 | fails exactly when the deck runs out or fewer points are carried than there are players; otherwise fresh players with the hands of Hands and the points of Carried |
| Dealer.NewGame | SixTakes/Dealer.cs:53 | a fresh valid game on the dealt lines and players, whose history is the four line cards |
| Dealer.Dealer.constructor | SixTakes/Dealer.cs:16-19 | the dealer's player count |
| Dealer.Dealer.Deal | SixTakes/Dealer.cs:31-54 | fails exactly when the hands do not fit the deck or the previous game has fewer players; otherwise a fresh valid game whose lines hold the first four cards, whose history is those four cards, whose hands are dealt in order and whose points are carried over |

## Left out

- `Player`, `GameController`, `RandomPlayer`, `UserPlayer`, `InputHandler` and `Program`: console I/O, the game loop and the human and random players are not part of this model. The `ID`, `Game`, `Hand` and `Lines` accessors of `Player` (SixTakes/Player.cs:15-21) become the strategies' parameters `game` and `id`.
- `MinLineTakePlayer.SelectRow` (SixTakes/Player.cs:42-45) has no method of its own. It is the cheapest-line tie-break, which is `Turn.Target` with no selectors.
- Row selectors: the source passes closures over the game that receive the played cards. Here a `Selector` is a function of the current lines and the played cards.
- Randomness:
  - `Random.Next` in the Monte Carlo player is an `Oracle` from positions to cards together with a position field. Termination of the rejection loop needs the source to be fair (`Fair`: every card recurs after every position).
  - The dealer's shuffle is the `values` argument, any arrangement of 1..104.
- Integers are unbounded: 32-bit overflow of points and score differences cannot happen in a real game and is not modelled.
- Exceptions are modelled as `Option` or as `Outcome.Failed`. This covers:
  - the count checks in `PlayCards`;
  - a selector row outside the lines, after the card has been recorded;
  - an index outside the lines in `Game.InsertCard`;
  - the deck running out in `Deal`;
  - a previous game with fewer players in `Deal`;
  - `Hand.Max()` on an empty hand in the closest-value strategy.
- GameState.Game.constructor: requires distinct line and player objects, so that the object model can state per-object updates. It also requires every line to hold 1 to 5 increasing cards. The source does not check either; every game the dealer and the copy constructor build meets both.
- The null `players` list that the unit tests pass to `Game` is not modelled. The tests' turns are stated on `Table` values instead.
- `List.Sort` on (card, player) tuples is modelled by `Turn.Ascending`, an insertion sort proved sorted and a permutation. The .NET algorithm itself is not modelled.
- MonteCarlo.MonteCarloPlayer.MonteCarlo: requires 1 ≤ depth ≤ hand size. Outside that range the source fails: with depth 0 or a depth above the hand size, each level removes one card (SixTakes/MonteCarloPlayer.cs:44-46) until the hand is empty, where `worstCaseScore.Min()` (SixTakes/MonteCarloPlayer.cs:52) throws. `Search` clamps the depth as the source does.
- MonteCarlo.MonteCarloPlayer.MonteCarlo: also requires that enough unseen cards remain for every sampled turn down to the search depth (`Demand`). Otherwise the source's rejection loop may never end. `Demand` is a sufficient bound, not a necessary one: a drawn card can equal the player's own card, so a turn can add fewer cards to the history.
- MonteCarlo.MonteCarloPlayer.ChooseRemainingCards: states the count, distinctness, range and history exclusion of the drawn cards and that each came from the random source, not their order or the exact list for a given random source.
- Three parts of the source are split out as methods of their own, each proved with its own contract:
  - the body of the Monte Carlo sampling loop and its inner loop (`SampleTurn`, `SampleScore`, `PlayOnCopy`, `SampleCard`);
  - the dealer's loops and the final construction (`DealLines`, `DealHand`, `DealPlayers`, `NewGame`); `Deal` reads the previous game's points once, before the loop, and hands them to `DealPlayers` as a list, which gives the same points since nothing changes them in between;
  - the scoring in the closest-value loop (`ClosestValue.Score`), which makes the same three-way decision as the source's branches.
- Dealer.Dealer.constructor: the player count is a natural number; a negative count, which the source accepts and which deals no hands, is not modelled.
- Two facts about the Monte Carlo player that the model keeps as the code has them:
  - the recursive search (SixTakes/MonteCarloPlayer.cs:46) runs with the default 100 iterations, whatever the caller's count;
  - `ChooseRemainingCards` (SixTakes/MonteCarloPlayer.cs:20) rejects only cards in the history, not the cards of the player's own hand.

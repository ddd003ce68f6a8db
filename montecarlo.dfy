/**
 * The Monte Carlo player (SixTakes/MonteCarloPlayer.cs): for every card of its hand
 * it plays sampled turns on copies of the game, scores each outcome by how many more
 * cows it holds than the others, keeps the worst score per card, and plays the card
 * whose worst score is least. Two turns are looked ahead by recursion.
 *
 * The random generator is an oracle: a stream of draws in 1..104, read from the
 * position `pos` on, which the player advances.
 */
module MonteCarlo {
  import opened Wrappers
  import opened Turn
  import opened GameState

  /** A value of rng.Next(1, 105): a card of the deck. */
  type Draw = x: int | 1 <= x <= 104 witness 1

  /** The random generator, as the stream of the draws it would make. */
  type Oracle = nat -> Draw

  /** The value x is drawn again at or after position `from`. */
  ghost predicate DrawnFrom(rng: Oracle, from: nat, x: int)
  {
    exists k: nat :: from <= k && rng(k) == x
  }

  /** The value x is drawn at some position from `lo` up to, not including, `hi`. */
  ghost predicate DrawnBetween(rng: Oracle, lo: nat, hi: nat, x: int)
  {
    exists k: nat :: lo <= k < hi && rng(k) == x
  }

  /**
   * Every card keeps being drawn: the one assumption under which the rejection
   * sampling of ChooseRemainingCards ends.
   */
  ghost predicate Fair(rng: Oracle)
  {
    forall from: nat, x: int :: 1 <= x <= 104 ==> DrawnFrom(rng, from, x)
  }

  /** The cards of the deck that are not in the history. */
  function Unseen(history: set<int>): set<int>
  {
    set x | 1 <= x <= 104 && x !in history
  }

  /** A list without repeated elements has as many distinct elements as entries. */
  lemma {:induction false} DistinctCard(s: seq<int>)
    requires Distinct(s)
    ensures |set x | x in s| == |s|
    decreases |s|
  {
    if |s| > 0 {
      var n := |s| - 1;
      assert Distinct(s[..n]);
      DistinctCard(s[..n]);
      assert (set x | x in s) == (set x | x in s[..n]) + {s[n]};
      assert s[n] !in (set x | x in s[..n]);
    }
  }

  /** A list has at most as many distinct elements as entries. */
  lemma {:induction false} SeqSetCard(s: seq<int>)
    ensures |set x | x in s| <= |s|
    decreases |s|
  {
    if |s| > 0 {
      var n := |s| - 1;
      SeqSetCard(s[..n]);
      assert (set x | x in s) == (set x | x in s[..n]) + {s[n]};
    }
  }

  /** Removing a set of cards from another removes at most that many. */
  lemma DifferenceCard(a: set<int>, b: set<int>)
    ensures |a - b| >= |a| - |b|
  {
    assert a == (a - b) + (a * b);
    assert a * b <= b;
    assert |b| == |b - a| + |a * b|;
  }

  /** After cards are added to the history, at most that many fewer cards are unseen. */
  lemma UnseenShrinks(before: set<int>, cards: seq<int>, after: set<int>)
    requires forall c :: c in after <==> c in before || c in cards
    ensures |Unseen(after)| + |cards| >= |Unseen(before)|
  {
    var played := set x | x in cards;
    assert Unseen(after) == Unseen(before) - played;
    DifferenceCard(Unseen(before), played);
    SeqSetCard(cards);
  }

  /**
   * The number of cards a search `depth` turns deep adds to the history at most, plus
   * one: each turn adds the candidate and one card per opponent.
   */
  function Demand(depth: nat, playerCount: nat): (r: nat)
    ensures depth > 0 ==> r >= playerCount
  {
    if depth == 0 then 0 else playerCount + Demand(depth - 1, playerCount)
  }

  /** The list with x inserted at position k (List.Insert). */
  function InsertAt(s: seq<int>, k: nat, x: int): (r: seq<int>)
    requires k <= |s|
    ensures |r| == |s| + 1 && r[k] == x
    ensures forall j :: 0 <= j < k ==> r[j] == s[j]
    ensures forall j :: k < j < |r| ==> r[j] == s[j - 1]
  {
    s[..k] + [x] + s[k..]
  }

  /**
   * A sampled turn: the candidate card at the player's seat, and drawn cards of the
   * deck outside the history at every other seat, no two of them alike. The seat's
   * own card may equal a drawn one, since the draw does not exclude the hand.
   */
  predicate Sampled(played: seq<int>, id: nat, card: int, history: set<int>)
  {
    id < |played| && played[id] == card &&
    (forall k :: 0 <= k < |played| && k != id ==> 1 <= played[k] <= 104 && played[k] !in history) &&
    forall k, m :: 0 <= k < m < |played| && k != id && m != id ==> played[k] != played[m]
  }

  /** Inserting the candidate card at the player's seat into drawn cards gives a sampled turn. */
  lemma SeatedSample(drawn: seq<int>, id: nat, card: int, history: set<int>)
    requires id <= |drawn| && Distinct(drawn)
    requires forall k :: 0 <= k < |drawn| ==> 1 <= drawn[k] <= 104 && drawn[k] !in history
    ensures |InsertAt(drawn, id, card)| == |drawn| + 1 && Sampled(InsertAt(drawn, id, card), id, card, history)
  {
  }

  /** The list without its entry at position k (List.RemoveAt). */
  function RemoveAt(s: seq<int>, k: nat): (r: seq<int>)
    requires k < |s|
    ensures |r| == |s| - 1
    ensures forall j :: 0 <= j < k ==> r[j] == s[j]
    ensures forall j :: k <= j < |r| ==> r[j] == s[j + 1]
  {
    s[..k] + s[k + 1..]
  }

  /** The sum of a list of points. */
  function Sum(points: seq<int>): int
  {
    if |points| == 0 then 0 else points[0] + Sum(points[1..])
  }

  /** The sum of the gaps between one player's points and each player's points. */
  function Gaps(points: seq<int>, own: int): int
  {
    if |points| == 0 then 0 else (own - points[0]) + Gaps(points[1..], own)
  }

  /**
   * The score of an outcome for player `id`: playerCount times its points minus the
   * points of all players, i.e. playerCount times its lead over the average.
   */
  function Differential(points: seq<int>, id: nat): int
    requires id < |points|
  {
    |points| * points[id] - Sum(points)
  }

  lemma {:induction false} GapsSum(points: seq<int>, own: int)
    ensures Gaps(points, own) == |points| * own - Sum(points)
    decreases |points|
  {
    if |points| > 0 {
      GapsSum(points[1..], own);
    }
  }

  lemma {:induction false} GapsSign(points: seq<int>, own: int)
    ensures (forall j :: 0 <= j < |points| ==> own <= points[j]) ==> Gaps(points, own) <= 0
    ensures (forall j :: 0 <= j < |points| ==> own >= points[j]) ==> Gaps(points, own) >= 0
    ensures (forall j :: 0 <= j < |points| ==> own == points[j]) ==> Gaps(points, own) == 0
    decreases |points|
  {
    if |points| > 0 {
      GapsSign(points[1..], own);
      assert forall j :: 1 <= j < |points| ==> points[1..][j - 1] == points[j];
    }
  }

  /**
   * The score of an outcome is the sum of the player's gaps to every player: it is
   * at most 0 when the player holds the fewest cows, at least 0 when it holds the
   * most, and 0 when all hold the same.
   */
  lemma DifferentialIsLead(points: seq<int>, id: nat)
    requires id < |points|
    ensures Differential(points, id) == Gaps(points, points[id])
    ensures (forall j :: 0 <= j < |points| ==> points[id] <= points[j]) ==> Differential(points, id) <= 0
    ensures (forall j :: 0 <= j < |points| ==> points[id] >= points[j]) ==> Differential(points, id) >= 0
    ensures (forall j :: 0 <= j < |points| ==> points[id] == points[j]) ==> Differential(points, id) == 0
  {
    GapsSum(points, points[id]);
    GapsSign(points, points[id]);
  }

  /** The aggregate of a card's samples: a running maximum that starts at 0. */
  function Aggregate(samples: seq<int>): (r: int)
    ensures r >= 0 && forall j :: 0 <= j < |samples| ==> samples[j] <= r
    ensures r == 0 || r in samples
    decreases |samples|
  {
    if |samples| == 0 then 0
    else
      var n := |samples| - 1;
      var before := Aggregate(samples[..n]);
      assert forall j :: 0 <= j < n ==> samples[..n][j] == samples[j];
      if before >= samples[n] then before else samples[n]
  }

  /** The least element of a non-empty list (Min). */
  function MinOf(s: seq<int>): (m: int)
    requires |s| > 0
    ensures m in s && forall j :: 0 <= j < |s| ==> m <= s[j]
    decreases |s|
  {
    if |s| == 1 then s[0]
    else
      var rest := MinOf(s[1..]);
      assert forall j :: 1 <= j < |s| ==> s[j] == s[1..][j - 1];
      if s[0] < rest then s[0] else rest
  }

  /** The position of the first occurrence of x (IndexOf). */
  function IndexOf(s: seq<int>, x: int): (k: nat)
    requires x in s
    ensures k < |s| && s[k] == x && forall j :: 0 <= j < k ==> s[j] != x
    decreases |s|
  {
    if s[0] == x then 0 else 1 + IndexOf(s[1..], x)
  }

  /** Math.Min on the hand size and the requested depth. */
  function Min(a: nat, b: nat): (m: nat)
    ensures m <= a && m <= b && (m == a || m == b)
  {
    if a < b then a else b
  }

  /**
   * What a sample for the card hand[i] scores, on table t: the turn `play` puts the
   * card at the player's seat and unseen deck cards elsewhere; at depth 1 the score
   * is the points differential after that turn; deeper, it is what a search one
   * turn deeper settles on, on the table after the turn and the rest of the hand.
   */
  ghost predicate ScoredSample(t: Table, id: nat, hand: seq<int>, i: nat, depth: nat, play: seq<int>, score: int)
    decreases depth, 0
  {
    TableOk(t) && i < |hand| && |play| == |t.points| && Sampled(play, id, hand[i], t.history) &&
    var after := PlayTurn(t, play, None).table;
    if depth <= 1 then score == Differential(after.points, id)
    else Settles(after, id, RemoveAt(hand, i), depth - 1, score)
  }

  /**
   * Some search on table t, `depth` turns deep with the default 100 iterations,
   * picks a card whose aggregate is `score`.
   */
  ghost predicate Settles(t: Table, id: nat, hand: seq<int>, depth: nat, score: int)
    decreases depth, 3
  {
    exists index: nat, samples: seq<seq<int>>, plays: seq<seq<seq<int>>> ::
      SearchResult(t, id, hand, depth, 100, index, samples, plays) && score == Aggregate(samples[index])
  }

  /** Each score of `scores` is that of the sampled turn at the same position of `plays`, for the card hand[i]. */
  ghost predicate CardSamples(t: Table, id: nat, hand: seq<int>, i: nat, depth: nat, scores: seq<int>, plays: seq<seq<int>>)
    decreases depth, 1
  {
    |scores| == |plays| &&
    forall m :: 0 <= m < |scores| ==> ScoredSample(t, id, hand, i, depth, plays[m], scores[m])
  }

  /**
   * The outcome of a search on table t: `iterations` scored samples per card of the
   * hand, the turns they were drawn from, and `index`, the first card whose
   * aggregate is least.
   */
  ghost predicate SearchResult(t: Table, id: nat, hand: seq<int>, depth: nat, iterations: nat,
                               index: nat, samples: seq<seq<int>>, plays: seq<seq<seq<int>>>)
    decreases depth, 2
  {
    |samples| == |hand| && |plays| == |hand| && index < |hand| &&
    (forall k :: 0 <= k < |hand| ==> |samples[k]| == iterations && CardSamples(t, id, hand, k, depth, samples[k], plays[k])) &&
    (forall k :: 0 <= k < |hand| ==> Aggregate(samples[index]) <= Aggregate(samples[k])) &&
    (forall k :: 0 <= k < index ==> Aggregate(samples[index]) < Aggregate(samples[k]))
  }

  /** One more scored sample extends a card's samples. */
  lemma MoreSamples(t: Table, id: nat, hand: seq<int>, i: nat, depth: nat, scores: seq<int>, plays: seq<seq<int>>, play: seq<int>, score: int)
    requires CardSamples(t, id, hand, i, depth, scores, plays) && ScoredSample(t, id, hand, i, depth, play, score)
    ensures CardSamples(t, id, hand, i, depth, scores + [score], plays + [play])
  {
    var s, p := scores + [score], plays + [play];
    assert forall m :: 0 <= m < |scores| ==> s[m] == scores[m] && p[m] == plays[m];
  }

  /**
   * A simulated turn: the cards are played on a deep copy of the game, which the
   * copy's turn leaves untouched.
   */
  method PlayOnCopy(game: Game, played: seq<int>) returns (newGame: Game)
    requires game.Valid() && |game.lines| > 0 && |played| == |game.players|
    ensures fresh(newGame) && newGame.Valid()
    ensures newGame.table == PlayTurn(game.table, played, None).table
    ensures |newGame.lines| == |game.lines| && |newGame.players| == |game.players|
    ensures |Unseen(newGame.history)| + |played| >= |Unseen(game.history)|
  {
    newGame := new Game.Copy(game);
    DefaultTieBreakAlwaysResolves(newGame.table, played);
    assert forall i :: 0 <= i < |newGame.lines| ==> newGame.lines[i] in newGame.lines;
    assert forall i :: 0 <= i < |newGame.players| ==> newGame.players[i] in newGame.players;
    var error := newGame.PlayCards(played, None);
    TurnRecordsPlayedCards(game.table, played, None);
    UnseenShrinks(game.history, played, newGame.history);
  }

  /** The player: its seat, its random generator and how far the generator has been read. */
  class MonteCarloPlayer {
    const id: nat
    const rng: Oracle
    var pos: nat

    constructor(id: nat, rng: Oracle)
      ensures this.id == id && this.rng == rng && pos == 0
    {
      this.id := id;
      this.rng := rng;
      pos := 0;
    }

    /**
     * Draws `count` cards for the opponents by rejection: a draw already taken or
     * already in the history is thrown away. The loop ends only when enough cards
     * are unseen, and the generator keeps drawing every card.
     */
    method ChooseRemainingCards(game: Game, count: nat) returns (result: seq<int>)
      requires Fair(rng) && count <= |Unseen(game.history)|
      modifies this
      ensures |result| == count && Distinct(result)
      ensures forall k :: 0 <= k < |result| ==> 1 <= result[k] <= 104 && result[k] !in game.history
      ensures old(pos) <= pos
      ensures forall k :: old(pos) <= k < pos ==> rng(k) in result || rng(k) in game.history
      ensures forall k :: 0 <= k < |result| ==> DrawnBetween(rng, old(pos), pos, result[k])
    {
      result := [];
      ghost var drawnAt: seq<nat> := [];
      ghost var target: int := 0;
      ghost var deadline: nat := pos;
      if count > 0 {
        target, deadline := NextWanted(game.history, result, count);
      }
      while |result| != count
        invariant |result| <= count && Distinct(result)
        invariant forall k :: 0 <= k < |result| ==> 1 <= result[k] <= 104 && result[k] !in game.history
        invariant old(pos) <= pos
        invariant forall k :: old(pos) <= k < pos ==> rng(k) in result || rng(k) in game.history
        invariant |drawnAt| == |result|
        invariant forall k :: 0 <= k < |result| ==> old(pos) <= drawnAt[k] < pos && rng(drawnAt[k]) == result[k]
        invariant |result| < count ==> target !in result && target !in game.history && pos <= deadline && rng(deadline) == target
        decreases count - |result|, deadline - pos
      {
        var x := rng(pos);
        pos := pos + 1;
        if x !in result && x !in game.history {
          result := result + [x];
          drawnAt := drawnAt + [pos - 1];
          if |result| < count {
            target, deadline := NextWanted(game.history, result, count);
          }
        }
      }
      forall k | 0 <= k < |result|
        ensures DrawnBetween(rng, old(pos), pos, result[k])
      {
        var j: nat := drawnAt[k];
        assert old(pos) <= j < pos && rng(j) == result[k];
      }
    }

    /**
     * A card that could still be drawn, and the position where the generator next
     * draws it: it exists because fewer than `count` cards are taken.
     */
    ghost method NextWanted(history: set<int>, result: seq<int>, count: nat) returns (target: int, deadline: nat)
      requires Fair(rng) && count <= |Unseen(history)| && |result| < count && Distinct(result)
      ensures target !in result && target !in history && pos <= deadline && rng(deadline) == target
    {
      var taken := set x | x in result;
      DistinctCard(result);
      DifferenceCard(Unseen(history), taken);
      var rest := Unseen(history) - taken;
      assert |rest| > 0;
      target :| target in rest;
      assert DrawnFrom(rng, pos, target);
      var k: nat :| pos <= k && rng(k) == target;
      deadline := k;
    }

    /**
     * The sampled turn for the card hand[i]: opponents' cards are drawn, the card is
     * put at the player's own seat, and the turn is played on a copy of the game.
     */
    method SampleTurn(hand: seq<int>, game: Game, i: nat) returns (played: seq<int>, newGame: Game)
      requires game.Valid() && |game.lines| > 0 && id < |game.players| && Fair(rng)
      requires i < |hand| && |game.players| <= |Unseen(game.history)| + 1
      modifies this
      ensures |played| == |game.players| && Sampled(played, id, hand[i], game.history)
      ensures fresh(newGame) && newGame.Valid()
      ensures newGame.table == PlayTurn(game.table, played, None).table
      ensures |newGame.lines| == |game.lines| && |newGame.players| == |game.players|
      ensures |Unseen(newGame.history)| + |played| >= |Unseen(game.history)|
    {
      var drawn := ChooseRemainingCards(game, |game.players| - 1);
      played := InsertAt(drawn, id, hand[i]);
      SeatedSample(drawn, id, hand[i], game.history);
      newGame := PlayOnCopy(game, played);
    }

    /**
     * The score of one sample for the card hand[i]: the outcome of the sampled turn
     * scored directly (depth 1), or the worst score of a search one turn deeper on
     * the rest of the hand.
     */
    method SampleScore(hand: seq<int>, game: Game, depth: nat, i: nat) returns (score: int, ghost played: seq<int>)
      requires game.Valid() && |game.lines| > 0 && id < |game.players| && Fair(rng)
      requires 1 <= depth <= |hand| && i < |hand|
      requires Demand(depth, |game.players|) <= |Unseen(game.history)| + 1
      modifies this
      decreases depth, 0
      ensures ScoredSample(game.table, id, hand, i, depth, played, score)
      ensures depth > 1 ==> score >= 0
    {
      var playerCount := |game.players|;
      var newGame, turn;
      turn, newGame := SampleTurn(hand, game, i);
      played := turn;
      if depth == 1 {
        assert PointsOf(newGame.players) == newGame.table.points;
        score := playerCount * newGame.players[id].points - Sum(PointsOf(newGame.players));
      } else {
        var newHand := RemoveAt(hand, i);
        var index, worst, samples, plays := MonteCarlo(newHand, newGame, depth - 1, 100);
        score := worst;
      }
    }

    /**
     * The inner loop of the search for the card hand[i]: `iterations` sampled
     * turns, and the greatest of their scores or 0.
     */
    method SampleCard(hand: seq<int>, game: Game, depth: nat, iterations: nat, i: nat)
      returns (worst: int, ghost scores: seq<int>, ghost plays: seq<seq<int>>)
      requires game.Valid() && |game.lines| > 0 && id < |game.players| && Fair(rng)
      requires 1 <= depth <= |hand| && i < |hand|
      requires Demand(depth, |game.players|) <= |Unseen(game.history)| + 1
      modifies this
      decreases depth, 1
      ensures |scores| == iterations && CardSamples(game.table, id, hand, i, depth, scores, plays)
      ensures worst == Aggregate(scores)
    {
      worst, scores, plays := 0, [], [];
      for j := 0 to iterations
        invariant |scores| == j && worst == Aggregate(scores)
        invariant CardSamples(game.table, id, hand, i, depth, scores, plays)
      {
        var scoreDifference, played := SampleScore(hand, game, depth, i);
        assert (scores + [scoreDifference])[..j] == scores;
        MoreSamples(game.table, id, hand, i, depth, scores, plays, played, scoreDifference);
        worst := if worst >= scoreDifference then worst else scoreDifference;
        scores, plays := scores + [scoreDifference], plays + [played];
      }
    }

    /**
     * The search: for each card of the hand, `iterations` samples, the card's
     * aggregate being the greatest sample score or 0; the result is the first card
     * of least aggregate and that aggregate.
     */
    method MonteCarlo(hand: seq<int>, game: Game, depth: nat, iterations: nat)
      returns (index: nat, worst: int, ghost samples: seq<seq<int>>, ghost plays: seq<seq<seq<int>>>)
      requires game.Valid() && |game.lines| > 0 && id < |game.players| && Fair(rng)
      requires 1 <= depth <= |hand|
      requires Demand(depth, |game.players|) <= |Unseen(game.history)| + 1
      modifies this
      decreases depth, 2
      ensures SearchResult(game.table, id, hand, depth, iterations, index, samples, plays)
      ensures worst == Aggregate(samples[index]) && worst >= 0
    {
      var worstCaseScore := seq(|hand|, _ => 0);
      samples := seq(|hand|, _ => []);
      plays := seq(|hand|, _ => []);
      for i := 0 to |hand|
        invariant |worstCaseScore| == |hand| && |samples| == |hand| && |plays| == |hand|
        invariant forall k :: 0 <= k < i ==> worstCaseScore[k] == Aggregate(samples[k]) && |samples[k]| == iterations
        invariant forall k :: 0 <= k < i ==> CardSamples(game.table, id, hand, k, depth, samples[k], plays[k])
        invariant forall k :: i <= k < |hand| ==> worstCaseScore[k] == 0 && samples[k] == []
      {
        var cardWorst, cardSamples, cardPlays := SampleCard(hand, game, depth, iterations, i);
        worstCaseScore := worstCaseScore[i := cardWorst];
        samples := samples[i := cardSamples];
        plays := plays[i := cardPlays];
      }
      worst := MinOf(worstCaseScore);
      index := IndexOf(worstCaseScore, worst);
    }

    /**
     * The top-level search on the player's own hand, Math.Min(hand size, depth)
     * turns deep with 100 iterations. None where the source throws: an empty hand
     * or a depth of 0.
     */
    method Search(game: Game, depth: nat) returns (index: Option<nat>, ghost samples: seq<seq<int>>, ghost plays: seq<seq<seq<int>>>)
      requires game.Valid() && |game.lines| > 0 && id < |game.players| && Fair(rng)
      requires Demand(Min(|game.hands[id]|, depth), |game.players|) <= |Unseen(game.history)| + 1
      modifies this
      ensures index.Some? <==> |game.hands[id]| > 0 && depth > 0
      ensures index.Some? ==> SearchResult(game.table, id, game.hands[id], Min(|game.hands[id]|, depth), 100, index.value, samples, plays)
    {
      var hand := game.players[id].hand;
      var clamped := Min(|hand|, depth);
      if clamped == 0 {
        return None, [], [];
      }
      var i, _, s, p := MonteCarlo(hand, game, clamped, 100);
      index, samples, plays := Some(i), s, p;
    }

    /**
     * The card to play: Hand[index] for the index the two-turn search picks. None
     * for an empty hand.
     */
    method Play(game: Game) returns (card: Option<int>, ghost index: nat, ghost samples: seq<seq<int>>, ghost plays: seq<seq<seq<int>>>)
      requires game.Valid() && |game.lines| > 0 && id < |game.players| && Fair(rng)
      requires Demand(Min(|game.hands[id]|, 2), |game.players|) <= |Unseen(game.history)| + 1
      modifies this
      ensures card.Some? <==> |game.hands[id]| > 0
      ensures card.Some? ==> index < |game.hands[id]| && card.value == game.hands[id][index]
      ensures card.Some? ==> SearchResult(game.table, id, game.hands[id], Min(|game.hands[id]|, 2), 100, index, samples, plays)
    {
      var found;
      found, samples, plays := Search(game, 2);
      if found.None? {
        return None, 0, samples, plays;
      }
      index := found.value;
      card := Some(game.players[id].hand[found.value]);
    }
  }
}

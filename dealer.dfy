/**
 * Dealing a new game (SixTakes/Dealer.cs): the shuffled deck 1..104 is cut into
 * four one-card lines and a hand of ten cards per player, and the players keep the
 * points of the previous game when there is one.
 *
 * The shuffle is a parameter: any arrangement of the deck.
 */
module Dealer {
  import opened Wrappers
  import opened Rules
  import opened GameState

  /** The number of lines, and the number of cards in a hand. */
  const LineCount := 4
  const HandSize := 10

  /** An arrangement of the deck: each of the cards 1..104 exactly once. */
  predicate Deck(values: seq<int>)
  {
    |values| == 104 && Distinct(values) && forall k :: 0 <= k < |values| ==> 1 <= values[k] <= 104
  }

  /** Enough cards for the lines and `players` hands. */
  predicate Fits(players: nat)
  {
    LineCount + HandSize * players <= 104
  }

  /** The cards that start the lines. */
  function LineCards(values: seq<int>): seq<seq<int>>
    requires |values| >= LineCount
  {
    [[values[0]], [values[1]], [values[2]], [values[3]]]
  }

  /** The history of a new game: the four cards of the lines. */
  lemma LineCardsSeen(values: seq<int>)
    requires |values| >= LineCount
    ensures CardsIn(LineCards(values)) == {values[0], values[1], values[2], values[3]}
  {
    var lines := LineCards(values);
    assert values[0] in lines[0] && values[1] in lines[1] && values[2] in lines[2] && values[3] in lines[3];
    forall c | c in CardsIn(lines)
      ensures c in {values[0], values[1], values[2], values[3]}
    {
      var i :| 0 <= i < |lines| && c in lines[i];
      assert lines[i] == [values[i]];
    }
  }

  /** The hand of player i: the ten cards after the lines and the earlier hands. */
  function HandOf(values: seq<int>, i: nat): seq<int>
    requires LineCount + HandSize * (i + 1) <= |values|
  {
    values[LineCount + HandSize * i .. LineCount + HandSize * (i + 1)]
  }

  /** The hands of `players` players, in seat order. */
  function Hands(values: seq<int>, players: nat): seq<seq<int>>
    requires LineCount + HandSize * players <= |values|
  {
    seq(players, i requires 0 <= i < players => HandOf(values, i))
  }

  /** The points the players start with: those of the previous game, or 0. */
  function Carried(previous: Option<seq<int>>, players: nat): (points: seq<int>)
    requires previous.Some? ==> players <= |previous.value|
    ensures |points| == players
  {
    if previous.Some? then previous.value[..players] else seq(players, _ => 0)
  }

  /** A slice of a list without repeats has no repeats. */
  lemma SliceDistinct(s: seq<int>, lo: nat, hi: nat)
    requires Distinct(s) && lo <= hi <= |s|
    ensures Distinct(s[lo..hi])
  {
    var t := s[lo..hi];
    assert forall p :: 0 <= p < |t| ==> t[p] == s[lo + p];
  }

  /**
   * On an arrangement of the deck, the dealt cards are cards of the deck, and no
   * card is dealt twice: the lines and the hands are pairwise disjoint.
   */
  lemma DealtCardsDisjoint(values: seq<int>, players: nat)
    requires Deck(values) && Fits(players)
    ensures forall i: nat, c :: i < players && c in HandOf(values, i) ==> 1 <= c <= 104
    ensures forall i: nat, c :: i < players && c in HandOf(values, i) ==> forall k :: 0 <= k < LineCount ==> c != values[k]
    ensures forall i: nat, j: nat, c :: i < j < players && c in HandOf(values, i) ==> c !in HandOf(values, j)
    ensures forall i :: 0 <= i < players ==> |HandOf(values, i)| == HandSize
    ensures forall i :: 0 <= i < players ==> Distinct(HandOf(values, i))
    ensures Distinct(values[..LineCount]) && forall k :: 0 <= k < LineCount ==> 1 <= values[k] <= 104
  {
    SliceDistinct(values, 0, LineCount);
    forall i | 0 <= i < players
      ensures Distinct(HandOf(values, i))
    {
      SliceDistinct(values, LineCount + HandSize * i, LineCount + HandSize * (i + 1));
    }
    forall i: nat, c | i < players && c in HandOf(values, i)
      ensures 1 <= c <= 104 && forall k :: 0 <= k < LineCount ==> c != values[k]
    {
      var p :| LineCount + HandSize * i <= p < LineCount + HandSize * (i + 1) && values[p] == c;
    }
    forall i: nat, j: nat, c | i < j < players && c in HandOf(values, i)
      ensures c !in HandOf(values, j)
    {
      var p :| LineCount + HandSize * i <= p < LineCount + HandSize * (i + 1) && values[p] == c;
      forall q | LineCount + HandSize * j <= q < LineCount + HandSize * (j + 1)
        ensures values[q] != c
      {
        assert p < q;
      }
    }
  }

  /** The four lines, each a fresh line holding one card of the deck. */
  method DealLines(values: seq<int>) returns (lines: seq<Line>)
    requires |values| >= LineCount
    ensures Distinct(lines) && forall k :: 0 <= k < |lines| ==> fresh(lines[k])
    ensures CardsOfLines(lines) == LineCards(values)
    ensures forall k :: 0 <= k < |lines| ==> LineOk(lines[k].cards)
  {
    lines := [];
    for i := 0 to LineCount
      invariant |lines| == i && Distinct(lines)
      invariant forall k :: 0 <= k < i ==> fresh(lines[k]) && lines[k].cards == [values[k]] && LineOk(lines[k].cards)
    {
      var line := new Line(values[i]);
      lines := lines + [line];
    }
  }

  /** The hand of player i, read card by card; None when the deck runs out (the source throws). */
  method DealHand(values: seq<int>, i: nat) returns (hand: Option<seq<int>>)
    ensures hand.None? <==> LineCount + HandSize * (i + 1) > |values|
    ensures hand.Some? ==> hand.value == HandOf(values, i)
  {
    var cards: seq<int> := [];
    for j := 0 to HandSize
      invariant |cards| == j
      invariant forall k :: 0 <= k < j ==> LineCount + HandSize * i + k < |values| && cards[k] == values[LineCount + HandSize * i + k]
    {
      if LineCount + j + HandSize * i >= |values| {
        return None;
      }
      cards := cards + [values[LineCount + j + HandSize * i]];
    }
    assert cards[HandSize - 1] == values[LineCount + HandSize * i + (HandSize - 1)];
    assert cards == HandOf(values, i);
    hand := Some(cards);
  }

  /**
   * The players, each with a fresh record holding its hand and the points carried
   * over (`carried` holds the previous game's points, in seat order); None where
   * the source throws.
   */
  method DealPlayers(carried: Option<seq<int>>, values: seq<int>, players: nat) returns (dealt: Option<seq<PlayerInfo>>)
    requires |values| >= LineCount
    ensures dealt.None? <==> LineCount + HandSize * players > |values| || (carried.Some? && |carried.value| < players)
    ensures dealt.Some? ==> |dealt.value| == players && Distinct(dealt.value)
    ensures dealt.Some? ==> forall k :: 0 <= k < players ==> fresh(dealt.value[k])
    ensures dealt.Some? ==> HandsOf(dealt.value) == Hands(values, players)
    ensures dealt.Some? ==> PointsOf(dealt.value) == Carried(carried, players)
  {
    var infos: seq<PlayerInfo> := [];
    for i := 0 to players
      invariant |infos| == i && Distinct(infos) && LineCount + HandSize * i <= |values|
      invariant carried.Some? ==> i <= |carried.value|
      invariant forall k :: 0 <= k < i ==> fresh(infos[k]) && infos[k].hand == HandOf(values, k)
      invariant forall k :: 0 <= k < i ==> infos[k].points == if carried.Some? then carried.value[k] else 0
    {
      var hand := DealHand(values, i);
      if hand.None? {
        return None;
      }
      var info := new PlayerInfo(hand.value);
      infos := infos + [info];
      if carried.Some? {
        if i >= |carried.value| {
          return None;
        }
        info.points := carried.value[i];
      }
    }
    assert HandsOf(infos) == Hands(values, players);
    assert PointsOf(infos) == Carried(carried, players);
    dealt := Some(infos);
  }

  /** The game on the dealt lines and players; its history is the four line cards. */
  method NewGame(lines: seq<Line>, players: seq<PlayerInfo>, values: seq<int>) returns (game: Game)
    requires |values| >= LineCount && Distinct(lines) && Distinct(players)
    requires CardsOfLines(lines) == LineCards(values) && forall k :: 0 <= k < |lines| ==> LineOk(lines[k].cards)
    ensures fresh(game) && game.Valid()
    ensures game.table.lines == LineCards(values) && game.history == {values[0], values[1], values[2], values[3]}
    ensures game.hands == HandsOf(players) && game.table.points == PointsOf(players)
  {
    game := new Game(lines, players);
    LineCardsSeen(values);
  }

  /** The dealer of a table of `players` players. */
  class Dealer {
    const players: nat

    constructor(players: nat)
      ensures this.players == players
    {
      this.players := players;
    }

    /**
     * A new game from the shuffled deck `values`: four lines of one card, and ten
     * cards per player, with the points of `previous` carried over. None where the
     * source throws: more hands than the deck holds, or a previous game with fewer
     * players.
     */
    method Deal(previous: Option<Game>, values: seq<int>) returns (game: Option<Game>)
      requires Deck(values)
      ensures game.None? <==> !Fits(players) || (previous.Some? && |previous.value.players| < players)
      ensures game.Some? ==> fresh(game.value) && game.value.Valid()
      ensures game.Some? ==> game.value.table.lines == LineCards(values)
      ensures game.Some? ==> game.value.history == {values[0], values[1], values[2], values[3]}
      ensures game.Some? ==> game.value.hands == Hands(values, players)
      ensures game.Some? ==> game.value.table.points == Carried(if previous.Some? then Some(old(PointsOf(previous.value.players))) else None, players)
    {
      var carried := if previous.Some? then Some(PointsOf(previous.value.players)) else None;
      var lines := DealLines(values);
      var dealt := DealPlayers(carried, values, players);
      if dealt.None? {
        return None;
      }
      var newGame := NewGame(lines, dealt.value, values);
      game := Some(newGame);
    }
  }
}

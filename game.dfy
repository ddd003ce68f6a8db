/**
 * The mutable game state of Six Takes (SixTakes/Game.cs): a `Line` object per line
 * of cards, a `PlayerInfo` object per player, and the `Game` that owns them
 * together with the set of cards played so far. Every method is proved against the
 * value-level rules of modules Rules and Turn, read through the snapshot `Snapshot()`.
 */
module GameState {
  import opened Wrappers
  import opened Rules
  import opened Turn

  /** One line of cards on the table. */
  class Line {
    var cards: seq<int>

    /** A line holding only its first card. */
    constructor(first: int)
      ensures cards == [first] && LineOk(cards)
    {
      cards := [first];
    }

    /** A copy of another line, sharing nothing with it. */
    constructor Copy(line: Line)
      ensures cards == line.cards
    {
      cards := line.cards;
    }

    /**
     * Inserts `card`: appended when the line has room and the card is above the last
     * one; otherwise the line is taken and restarts with `card`, and its value is
     * returned as the points charged.
     */
    method InsertCard(card: int) returns (points: int)
      requires |cards| > 0
      modifies this
      ensures Placement(cards, points) == Place(old(cards), card)
      ensures LineOk(old(cards)) ==> LineOk(cards)
    {
      if |cards| < MaxLine && card > cards[|cards| - 1] {
        cards := cards + [card];
        points := 0;
      } else {
        points := Total(cards);
        cards := [card];
      }
    }
  }

  /** What the game knows about one player: the hand and the points so far. */
  class PlayerInfo {
    var hand: seq<int>
    var points: int

    constructor(hand: seq<int>)
      ensures this.hand == hand && points == 0
    {
      this.hand := hand;
      points := 0;
    }

    /** A copy of another player's record, sharing nothing with it. */
    constructor Copy(info: PlayerInfo)
      ensures hand == info.hand && points == info.points
    {
      hand := info.hand;
      points := info.points;
    }
  }

  /** Every card of every line of `lines`. */
  function CardsIn(lines: seq<seq<int>>): (r: set<int>)
    ensures forall c :: c in r <==> exists i :: 0 <= i < |lines| && c in lines[i]
    decreases |lines|
  {
    if |lines| == 0 then {}
    else
      var n := |lines| - 1;
      var init := CardsIn(lines[..n]);
      assert forall i :: 0 <= i < n ==> lines[..n][i] == lines[i];
      init + set c | c in lines[n]
  }

  /** The cards of a list of line objects. */
  function CardsOfLines(lines: seq<Line>): seq<seq<int>>
    reads lines
  {
    seq(|lines|, i reads lines requires 0 <= i < |lines| => lines[i].cards)
  }

  /** The points of a list of player records. */
  function PointsOf(players: seq<PlayerInfo>): seq<int>
    reads players
  {
    seq(|players|, i reads players requires 0 <= i < |players| => players[i].points)
  }

  /** The hands of a list of player records. */
  function HandsOf(players: seq<PlayerInfo>): seq<seq<int>>
    reads players
  {
    seq(|players|, i reads players requires 0 <= i < |players| => players[i].hand)
  }

  predicate Distinct<T(==)>(s: seq<T>)
  {
    forall i, j :: 0 <= i < j < |s| ==> s[i] != s[j]
  }

  /** Fresh copies of the given lines (ConvertAll with the copy constructor). */
  method CopyLines(source: seq<Line>) returns (copies: seq<Line>)
    ensures Distinct(copies) && forall l :: l in copies ==> fresh(l)
    ensures |copies| == |source| && forall k :: 0 <= k < |source| ==> copies[k].cards == source[k].cards
  {
    copies := [];
    var i := 0;
    while i < |source|
      invariant 0 <= i <= |source|
      invariant |copies| == i && Distinct(copies)
      invariant forall l :: l in copies ==> fresh(l)
      invariant forall k :: 0 <= k < i ==> copies[k].cards == source[k].cards
    {
      var line := new Line.Copy(source[i]);
      copies := copies + [line];
      i := i + 1;
    }
  }

  /** Fresh copies of the given player records. */
  method CopyPlayers(source: seq<PlayerInfo>) returns (copies: seq<PlayerInfo>)
    ensures Distinct(copies) && forall p :: p in copies ==> fresh(p)
    ensures |copies| == |source|
    ensures forall k :: 0 <= k < |source| ==> copies[k].hand == source[k].hand && copies[k].points == source[k].points
  {
    copies := [];
    var i := 0;
    while i < |source|
      invariant 0 <= i <= |source|
      invariant |copies| == i && Distinct(copies)
      invariant forall p :: p in copies ==> fresh(p)
      invariant forall k :: 0 <= k < i ==> copies[k].hand == source[k].hand && copies[k].points == source[k].points
    {
      var player := new PlayerInfo.Copy(source[i]);
      copies := copies + [player];
      i := i + 1;
    }
  }

  /** The cards of all lines, gathered line by line and card by card. */
  method SeenCards(lines: seq<Line>) returns (seen: set<int>)
    ensures seen == CardsIn(CardsOfLines(lines))
  {
    seen := {};
    var i := 0;
    while i < |lines|
      invariant 0 <= i <= |lines|
      invariant seen == CardsIn(CardsOfLines(lines)[..i])
    {
      seen := AddCards(seen, lines[i].cards);
      assert CardsOfLines(lines)[..i + 1][..i] == CardsOfLines(lines)[..i];
      i := i + 1;
    }
    assert CardsOfLines(lines)[..i] == CardsOfLines(lines);
  }

  /** `seen` with every card of `cards` added, one at a time. */
  method AddCards(seen: set<int>, cards: seq<int>) returns (r: set<int>)
    ensures r == seen + set c | c in cards
  {
    r := seen;
    var j := 0;
    while j < |cards|
      invariant 0 <= j <= |cards|
      invariant r == seen + set c | c in cards[..j]
    {
      assert cards[..j + 1] == cards[..j] + [cards[j]];
      r := r + {cards[j]};
      j := j + 1;
    }
    assert cards[..j] == cards;
  }

  /** The (card, player) pairs of a turn, built in player order. */
  method IndexCards(cards: seq<int>) returns (indexed: seq<(int, nat)>)
    ensures indexed == Indexed(cards)
  {
    indexed := [];
    var i := 0;
    while i < |cards|
      invariant 0 <= i <= |cards|
      invariant indexed == Indexed(cards)[..i]
    {
      indexed := indexed + [(cards[i], i)];
      i := i + 1;
    }
    assert indexed == Indexed(cards);
  }

  /** The whole state of a game. */
  class Game {
    var lines: seq<Line>
    var players: seq<PlayerInfo>
    var history: set<int>

    /** The value of the game that the rules of module Turn work on: cards of the lines, points, history. */
    ghost var table: Table
    /** The players' hands, which no operation here changes. */
    ghost var hands: seq<seq<int>>

    /**
     * The game's line objects are distinct, and so are its player objects; `table`
     * and `hands` mirror the objects; every line keeps the line invariant, and every
     * card lying in a line has been recorded in the history.
     */
    ghost predicate Valid()
      reads this, lines, players
    {
      Distinct(lines) && Distinct(players) &&
      |table.lines| == |lines| && (forall i :: 0 <= i < |lines| ==> table.lines[i] == lines[i].cards) &&
      |table.points| == |players| && (forall i :: 0 <= i < |players| ==> table.points[i] == players[i].points) &&
      |hands| == |players| && (forall i :: 0 <= i < |players| ==> hands[i] == players[i].hand) &&
      table.history == history && TableOk(table) && LinesSeen(table)
    }

    /** A game on the given lines and players, whose history holds every card of the lines. */
    constructor(lines: seq<Line>, players: seq<PlayerInfo>)
      requires Distinct(lines) && Distinct(players)
      requires forall i :: 0 <= i < |lines| ==> LineOk(lines[i].cards)
      ensures Valid()
      ensures this.lines == lines && this.players == players
      ensures table.lines == CardsOfLines(lines) && table.points == PointsOf(players) && hands == HandsOf(players)
      ensures history == CardsIn(table.lines)
    {
      var seen := SeenCards(lines);
      this.lines := lines;
      this.players := players;
      history := seen;
      table := Table(CardsOfLines(lines), PointsOf(players), seen);
      hands := HandsOf(players);
    }

    /** A deep copy: fresh line and player objects holding the same values. */
    constructor Copy(game: Game)
      requires game.Valid()
      ensures Valid()
      ensures (forall l :: l in lines ==> fresh(l)) && (forall p :: p in players ==> fresh(p))
      ensures table == game.table && hands == game.hands
    {
      var newLines := CopyLines(game.lines);
      var newPlayers := CopyPlayers(game.players);
      lines := newLines;
      players := newPlayers;
      history := game.history;
      table := game.table;
      hands := game.hands;
    }

    /**
     * Records `card` in the history and inserts it into line `line`, returning the
     * points charged; None when there is no such line (the source throws there, after
     * recording the card).
     */
    method InsertCard(line: int, card: int) returns (points: Option<int>)
      requires Valid()
      modifies this, lines
      ensures Valid() && lines == old(lines) && players == old(players) && hands == old(hands)
      ensures points.None? <==> !(0 <= line < |lines|)
      ensures points.None? ==> table == old(table).(history := old(table.history) + {card})
      ensures points.Some? ==> (0 <= line < |lines| &&
                var placed := Place(old(table.lines)[line], card);
                points.value == placed.points &&
                table == Table(old(table.lines)[line := placed.cards], old(table.points), old(table.history) + {card}))
    {
      history := history + {card};
      table := table.(history := history);
      if 0 <= line < |lines| {
        var p := lines[line].InsertCard(card);
        table := table.(lines := table.lines[line := lines[line].cards]);
        points := Some(p);
      } else {
        points := None;
      }
    }

    /**
     * The index of the line of least value, scanning from the first line with a
     * running minimum that starts at 100 and moves only on a strictly smaller value.
     */
    method CheapestRow() returns (row: nat)
      requires Valid()
      ensures row == Cheapest(table.lines)
      ensures |lines| > 0 ==> row < |lines|
    {
      var best := NoRowYet;
      row := 0;
      ghost var values := Totals(table.lines);
      var i := 0;
      while i < |lines|
        invariant 0 <= i <= |lines|
        invariant (best, row) == ScanMin(values[..i])
      {
        var value := Total(lines[i].cards);
        assert values[..i + 1] == values[..i] + [value];
        if value < best {
          best := value;
          row := i;
        }
        i := i + 1;
      }
      assert values[..i] == values;
      if |lines| > 0 {
        CheapestIsFirstMinimum(table.lines);
      }
    }

    /** The line the card of player `index` goes to (the source's GetLineToPlay, then CheapestRow or the selector). */
    method TargetRow(value: int, index: nat, cards: seq<int>, selectors: Option<seq<Selector>>) returns (row: int)
      requires Valid()
      requires selectors.Some? ==> index < |selectors.value|
      ensures row == Target(table, value, index, cards, selectors)
    {
      var current := CardsOfLines(lines);
      assert current == table.lines;
      var route := Route(current, value);
      if route.Some? {
        row := route.value;
      } else if selectors.None? {
        row := CheapestRow();
      } else {
        row := selectors.value[index](current, cards);
      }
    }

    /** Adds `amount` to the points of player `index`; nothing else changes. */
    method Charge(index: nat, amount: int)
      requires Valid() && index < |players|
      modifies this, players[index]
      ensures Valid() && lines == old(lines) && players == old(players) && hands == old(hands)
      ensures table == old(table).(points := old(table.points)[index := old(table.points)[index] + amount])
    {
      players[index].points := players[index].points + amount;
      table := table.(points := table.points[index := players[index].points]);
    }

    /**
     * Processes one (card, player) pair of a turn: the card goes to the line it is
     * routed to, or else to the cheapest line or the line the player's selector picks,
     * and the player is charged what the insertion returns.
     */
    method PlayCard(p: (int, nat), cards: seq<int>, selectors: Option<seq<Selector>>) returns (error: Option<TurnError>)
      requires Valid() && p.1 < |players|
      requires selectors.Some? ==> p.1 < |selectors.value|
      modifies this, lines, players
      ensures Valid() && lines == old(lines) && players == old(players) && hands == old(hands)
      ensures Step(old(table), p, cards, selectors) == if error.None? then Resolved(table) else Failed(table, error.value)
    {
      var value, index := p.0, p.1;
      ghost var before := table;
      var row := TargetRow(value, index, cards, selectors);
      var points := InsertCard(row, value);
      if points.None? {
        assert Step(before, p, cards, selectors) == Failed(table, RowOutOfRange(index, row));
        return Some(RowOutOfRange(index, row));
      }
      Charge(index, points.value);
      assert table == Placed(before, row, p);
      error := None;
    }

    /**
     * One turn: `cards[i]` is the card of player i and `selectors`, when present,
     * holds each player's choice of line for a card that no line takes. The turn does
     * what PlayTurn says on the game's table; the error says why it stopped early.
     */
    method PlayCards(cards: seq<int>, selectors: Option<seq<Selector>>) returns (error: Option<TurnError>)
      requires Valid()
      modifies this, lines, players
      ensures Valid() && lines == old(lines) && players == old(players) && hands == old(hands)
      ensures table == PlayTurn(old(table), cards, selectors).table
      ensures error.None? <==> PlayTurn(old(table), cards, selectors).Resolved?
      ensures error.Some? ==> error.value == PlayTurn(old(table), cards, selectors).error
    {
      if |cards| != |players| {
        return Some(CardCountMismatch);
      }
      if selectors.Some? && |selectors.value| != |players| {
        return Some(SelectorCountMismatch);
      }
      var indexed := IndexCards(cards);
      var order := Ascending(indexed);
      ghost var t0 := table;
      TurnFollowsPlayOrder(t0, cards, selectors);
      ghost var goal := PlayTurn(t0, cards, selectors);
      var k := 0;
      assert order[k..] == order;
      while k < |order|
        invariant 0 <= k <= |order|
        invariant Valid() && lines == old(lines) && players == old(players) && hands == old(hands)
        invariant |table.points| == |t0.points| && PlayersIn(order[k..], |table.points|)
        invariant goal == PlayTurn(t0, cards, selectors) && goal == Resolve(table, order[k..], cards, selectors)
      {
        ghost var current := table;
        ResolveFrom(current, order, k, cards, selectors);
        error := PlayCard(order[k], cards, selectors);
        if error.Some? {
          return;
        }
        assert Step(current, order[k], cards, selectors) == Resolved(table);
        assert Resolve(current, order[k..], cards, selectors) == Resolve(table, order[k + 1..], cards, selectors);
        k := k + 1;
      }
      assert order[k..] == [];
      error := None;
    }
  }
}

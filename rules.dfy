/**
 * The card and line rules of Six Takes (SixTakes/Game.cs): the number of cows on
 * a card, the value of a line, what inserting a card into a line does, which line
 * a played card is routed to, and which line is the cheapest to take.
 *
 * A line is represented here by its list of cards; the `Line` objects of the game
 * state (module GameState) are proved to behave as these functions say.
 */
module Rules {
  import opened Wrappers

  /** A line holds at most this many cards; a sixth card takes the line. */
  const MaxLine := 5

  /** The initial value of the running minimum in CheapestRow. */
  const NoRowYet := 100

  /** The number of cows on a card. The card 55 is special even though it is also a multiple of 11 and of 5. */
  function CardValue(card: int): (cows: int)
    ensures 1 <= cows <= 7
    ensures cows == 7 <==> card == 55
  {
    if card == 55 then 7
    else if card % 11 == 0 then 5
    else if card % 10 == 0 then 3
    else if card % 5 == 0 then 2
    else 1
  }

  /** The cow values that the unit tests of the penalty table expect. */
  lemma CardValueExamples()
    ensures CardValue(37) == 1 && CardValue(55) == 7 && CardValue(20) == 3
    ensures CardValue(25) == 2 && CardValue(66) == 5 && CardValue(104) == 1
    ensures CardValue(22) == 5 && CardValue(30) == 3
  {
  }

  /** The value of a line: the sum of the cows on its cards. */
  function Total(cards: seq<int>): (cows: int)
    ensures |cards| <= cows <= 7 * |cards|
  {
    if |cards| == 0 then 0 else CardValue(cards[0]) + Total(cards[1..])
  }

  /** The value of a line is additive: appending cards adds their cows. */
  lemma {:induction false} TotalConcat(a: seq<int>, b: seq<int>)
    ensures Total(a + b) == Total(a) + Total(b)
    decreases |a|
  {
    if |a| == 0 {
      assert a + b == b;
    } else {
      assert (a + b)[1..] == a[1..] + b;
      TotalConcat(a[1..], b);
    }
  }

  /** The line values that the unit tests expect. */
  lemma TotalExamples()
    ensures Total([1]) == 1
    ensures Total([10, 30, 55]) == 13
    ensures Total([11, 12, 13, 14, 15]) == 10
  {
    assert CardValue(10) == 3 && CardValue(30) == 3 && CardValue(55) == 7;
    assert CardValue(11) == 5 && CardValue(15) == 2;
  }

  /** The invariant of a line: one to five cards, strictly increasing. */
  predicate LineOk(cards: seq<int>)
  {
    1 <= |cards| <= MaxLine && forall i, j :: 0 <= i < j < |cards| ==> cards[i] < cards[j]
  }

  function Last(cards: seq<int>): int
    requires |cards| > 0
  {
    cards[|cards| - 1]
  }

  /** The new cards of a line after an insertion, and the points the insertion charges. */
  datatype Placement = Placement(cards: seq<int>, points: int)

  /**
   * Inserting `card` into a line: it is appended when the line has room and the card
   * is above the last one; otherwise the line is taken, its value is charged and the
   * line restarts with `card` alone.
   */
  function Place(cards: seq<int>, card: int): (r: Placement)
    requires |cards| > 0
    ensures |r.cards| > 0 && Last(r.cards) == card
    ensures forall c :: c in r.cards ==> c in cards || c == card
    ensures LineOk(cards) ==> LineOk(r.cards)
    ensures r.cards == cards + [card] <==> |cards| < MaxLine && card > Last(cards)
    ensures r.points == 0 <==> r.cards == cards + [card]
    ensures r.points != 0 ==> r.cards == [card] && r.points == Total(cards)
    ensures r.points >= 0
  {
    if |cards| < MaxLine && card > Last(cards) then Placement(cards + [card], 0)
    else Placement([card], Total(cards))
  }

  /** Inserting the cards of `run` one after another, adding up the points charged. */
  function PlaceAll(cards: seq<int>, run: seq<int>): Placement
    requires |cards| > 0
    decreases |run|
  {
    if |run| == 0 then Placement(cards, 0)
    else
      var first := Place(cards, run[0]);
      var rest := PlaceAll(first.cards, run[1..]);
      Placement(rest.cards, first.points + rest.points)
  }

  /** Extending a line by increasing cards, up to five in all, never takes it. */
  lemma {:induction false} IncreasingRunNeverTakes(cards: seq<int>, run: seq<int>)
    requires |cards| > 0 && LineOk(cards + run)
    ensures PlaceAll(cards, run) == Placement(cards + run, 0)
    decreases |run|
  {
    if |run| > 0 {
      var whole := cards + run;
      assert whole[|cards| - 1] == Last(cards) && whole[|cards|] == run[0];
      assert Place(cards, run[0]).cards == cards + [run[0]];
      assert (cards + [run[0]]) + run[1..] == whole;
      IncreasingRunNeverTakes(cards + [run[0]], run[1..]);
    } else {
      assert cards + run == cards;
    }
  }

  /** Every line of a table has at least one card, so it has a last card. */
  predicate Nonempty(lines: seq<seq<int>>)
  {
    forall i :: 0 <= i < |lines| ==> |lines[i]| > 0
  }

  /**
   * The line a card is routed to: among the lines whose last card is below `card`,
   * the one whose last card is greatest (on equal last cards, the later line, as the
   * source's stable ordering followed by Last() picks); None when no line qualifies.
   */
  function Route(lines: seq<seq<int>>, card: int): (r: Option<nat>)
    requires Nonempty(lines)
    ensures r.None? <==> forall i :: 0 <= i < |lines| ==> Last(lines[i]) >= card
    ensures r.Some? ==> r.value < |lines| && Last(lines[r.value]) < card
    ensures r.Some? ==> forall i :: 0 <= i < |lines| && Last(lines[i]) < card ==> Last(lines[i]) <= Last(lines[r.value])
    ensures r.Some? ==> forall i :: r.value < i < |lines| && Last(lines[i]) < card ==> Last(lines[i]) < Last(lines[r.value])
    decreases |lines|
  {
    if |lines| == 0 then None
    else
      var n := |lines| - 1;
      var r := Route(lines[..n], card);
      if Last(lines[n]) < card && (r.None? || Last(lines[r.value]) <= Last(lines[n])) then Some(n) else r
  }

  /** The routes that the unit tests expect on lines ending in 25, 42, 72 and 80. */
  lemma RouteExamples()
    ensures Route([[25], [33, 42], [71, 72], [80]], 55) == Some(1)
    ensures Route([[25], [33, 42], [71, 72], [80]], 41) == Some(0)
    ensures Route([[25], [33, 42], [71, 72], [80]], 20) == None
  {
    var lines := [[25], [33, 42], [71, 72], [80]];
    assert Last(lines[0]) == 25 && Last(lines[1]) == 42 && Last(lines[2]) == 72 && Last(lines[3]) == 80;
  }

  /** The routes of the unit-test turn: the 2 finds no line, and the 37 follows the 2 on line 0. */
  lemma TurnRouteExamples()
    ensures Route([[25], [33, 42], [71, 72], [80]], 2) == None
    ensures Route([[2], [33, 42], [71, 72], [80]], 37) == Some(0)
  {
    var lines := [[2], [33, 42], [71, 72], [80]];
    assert Last(lines[0]) == 2 && Last(lines[1]) == 42 && Last(lines[2]) == 72 && Last(lines[3]) == 80;
  }

  /** The insertions of the unit-test turn: the 2 takes the line [25] (two cows), the 37 extends [2]. */
  lemma TurnPlaceExamples()
    ensures Place([25], 2) == Placement([2], 2)
    ensures Place([2], 37) == Placement([2, 37], 0)
  {
    assert Total([25]) == 2;
  }

  /** The values of the lines, in line order. */
  function Totals(lines: seq<seq<int>>): seq<int>
  {
    seq(|lines|, i requires 0 <= i < |lines| => Total(lines[i]))
  }

  /**
   * The pair (best, bestline) after scanning `values` from left to right, starting
   * from (100, 0) and moving only on a strictly smaller value.
   */
  function ScanMin(values: seq<int>): (r: (int, nat))
    ensures r.0 <= NoRowYet && forall i :: 0 <= i < |values| ==> r.0 <= values[i]
    ensures r.0 < NoRowYet ==> r.1 < |values| && values[r.1] == r.0
    ensures r.0 < NoRowYet ==> forall i :: 0 <= i < r.1 ==> values[i] > r.0
    ensures r.0 == NoRowYet ==> r.1 == 0
    decreases |values|
  {
    if |values| == 0 then (NoRowYet, 0)
    else
      var n := |values| - 1;
      var p := ScanMin(values[..n]);
      if values[n] < p.0 then (values[n], n) else p
  }

  /** The index of the cheapest line, as CheapestRow computes it. */
  function Cheapest(lines: seq<seq<int>>): nat
  {
    ScanMin(Totals(lines)).1
  }

  /**
   * On lines that keep their invariant (values at most 35, below the scan's start of
   * 100), Cheapest is the first line of minimal value.
   */
  lemma CheapestIsFirstMinimum(lines: seq<seq<int>>)
    requires |lines| > 0 && forall i :: 0 <= i < |lines| ==> LineOk(lines[i])
    ensures Cheapest(lines) < |lines|
    ensures forall i :: 0 <= i < |lines| ==> Total(lines[Cheapest(lines)]) <= Total(lines[i])
    ensures forall i :: 0 <= i < Cheapest(lines) ==> Total(lines[i]) > Total(lines[Cheapest(lines)])
  {
    var values := Totals(lines);
    assert |values| == |lines| && forall i :: 0 <= i < |lines| ==> values[i] == Total(lines[i]);
    assert values[0] == Total(lines[0]) <= 7 * |lines[0]| <= 35;
  }

  /** The cheapest line that the unit test expects on lines worth 2, 6, 2 and 3 cows. */
  lemma CheapestExampleStart()
    ensures Cheapest([[25], [33, 42], [71, 72], [80]]) == 0
  {
    var lines := [[25], [33, 42], [71, 72], [80]];
    assert Total(lines[0]) == 2 && Total(lines[1]) == 6 && Total(lines[2]) == 2 && Total(lines[3]) == 3;
    CheapestOf(lines, 0);
  }

  /** Once line 0 holds 25 and 30 (5 cows), the cheapest line moves to line 2. */
  lemma CheapestExampleAfterTake()
    ensures Cheapest([[25, 30], [33, 42], [71, 72], [80]]) == 2
  {
    var lines := [[25, 30], [33, 42], [71, 72], [80]];
    assert Total(lines[0]) == 5 && Total(lines[1]) == 6 && Total(lines[2]) == 2 && Total(lines[3]) == 3;
    CheapestOf(lines, 2);
  }

  /** Pins Cheapest down on concrete lines: `row` is the first line of minimal value. */
  lemma CheapestOf(lines: seq<seq<int>>, row: nat)
    requires |lines| > 0 && forall i :: 0 <= i < |lines| ==> LineOk(lines[i])
    requires row < |lines|
    requires forall i :: 0 <= i < |lines| ==> Total(lines[row]) <= Total(lines[i])
    requires forall i :: 0 <= i < row ==> Total(lines[i]) > Total(lines[row])
    ensures Cheapest(lines) == row
  {
    CheapestIsFirstMinimum(lines);
  }
}

/**
 * One turn of Six Takes as a function on a value snapshot of the game
 * (SixTakes/Game.cs, PlayCards): the played cards are paired with their
 * players, the pairs are sorted ascending, and each card in that order is routed
 * to a line, or to a line chosen by its player's selector (the cheapest line when
 * there are no selectors), and inserted there; the player is charged what the
 * insertion returns.
 */
module Turn {
  import opened Wrappers
  import opened Rules

  /** The state a turn reads and changes: the lines, each player's points, and the cards seen so far. */
  datatype Table = Table(lines: seq<seq<int>>, points: seq<int>, history: set<int>)

  /** A table whose lines all keep the line invariant. */
  predicate TableOk(t: Table)
  {
    forall i :: 0 <= i < |t.lines| ==> LineOk(t.lines[i])
  }

  /** Every card lying in a line has been recorded in the history. */
  predicate LinesSeen(t: Table)
  {
    forall i, c :: 0 <= i < |t.lines| && c in t.lines[i] ==> c in t.history
  }

  /**
   * A player's row selector: given the current lines and the cards played this turn,
   * the index of the line the player takes. The source's selectors are closures over
   * the game; here the lines they may look at are passed explicitly.
   */
  type Selector = (seq<seq<int>>, seq<int>) -> int

  datatype TurnError =
    | CardCountMismatch
    | SelectorCountMismatch
    | RowOutOfRange(player: nat, row: int)

  /** The result of a turn: the table after it, and the error that stopped it, if any. */
  datatype Outcome = Resolved(table: Table) | Failed(table: Table, error: TurnError)

  /** (card, player) pairs in lexicographic order, the order of C# value tuples. */
  predicate Before(a: (int, nat), b: (int, nat))
  {
    a.0 < b.0 || (a.0 == b.0 && a.1 <= b.1)
  }

  predicate SortedPairs(s: seq<(int, nat)>)
  {
    forall i, j :: 0 <= i < j < |s| ==> Before(s[i], s[j])
  }

  /** Inserting one pair into a sorted list of pairs. */
  function InsertPair(p: (int, nat), s: seq<(int, nat)>): (r: seq<(int, nat)>)
    requires SortedPairs(s)
    ensures SortedPairs(r) && multiset(r) == multiset(s) + multiset{p}
    decreases |s|
  {
    if |s| == 0 then [p]
    else if Before(p, s[0]) then [p] + s
    else
      var rest := InsertPair(p, s[1..]);
      assert s == [s[0]] + s[1..];
      HeadBeforeRest(s[0], p, s[1..], rest);
      [s[0]] + rest
  }

  /** `x` stays before every pair of `rest` when `rest` holds `p` and the pairs of `tail`, all after `x`. */
  lemma HeadBeforeRest(x: (int, nat), p: (int, nat), tail: seq<(int, nat)>, rest: seq<(int, nat)>)
    requires !Before(p, x) && SortedPairs([x] + tail) && SortedPairs(rest)
    requires multiset(rest) == multiset(tail) + multiset{p}
    ensures SortedPairs([x] + rest)
  {
    forall j | 0 <= j < |rest| ensures Before(x, rest[j]) {
      assert rest[j] in multiset(rest);
      if rest[j] != p {
        assert rest[j] in multiset(tail);
        var k :| 0 <= k < |tail| && tail[k] == rest[j];
        assert ([x] + tail)[0] == x && ([x] + tail)[k + 1] == tail[k];
      }
    }
    var full := [x] + rest;
    forall i, j | 0 <= i < j < |full| ensures Before(full[i], full[j]) {
      if i > 0 {
        assert full[i] == rest[i - 1] && full[j] == rest[j - 1];
      }
    }
  }

  /** The pairs sorted ascending (the source's List.Sort on value tuples). */
  function Ascending(ps: seq<(int, nat)>): (r: seq<(int, nat)>)
    ensures SortedPairs(r) && multiset(r) == multiset(ps)
    decreases |ps|
  {
    if |ps| == 0 then []
    else
      assert ps == [ps[0]] + ps[1..];
      InsertPair(ps[0], Ascending(ps[1..]))
  }

  /** Each played card paired with the index of the player who played it. */
  function Indexed(cards: seq<int>): seq<(int, nat)>
  {
    seq(|cards|, i requires 0 <= i < |cards| => (cards[i], i))
  }

  /** The order in which a turn processes the played cards. */
  function PlayOrder(cards: seq<int>): seq<(int, nat)>
  {
    Ascending(Indexed(cards))
  }

  /**
   * The turn processes every player's card exactly once, in ascending card order
   * (equal cards by ascending player index).
   */
  lemma {:induction false} PlayOrderIsSortedPermutation(cards: seq<int>)
    ensures |PlayOrder(cards)| == |cards|
    ensures forall k :: 0 <= k < |cards| ==> PlayOrder(cards)[k].1 < |cards| && PlayOrder(cards)[k].0 == cards[PlayOrder(cards)[k].1]
    ensures forall i :: 0 <= i < |cards| ==> (cards[i], i) in PlayOrder(cards)
    ensures forall k, m :: 0 <= k < m < |cards| ==> PlayOrder(cards)[k].0 <= PlayOrder(cards)[m].0
    ensures forall k, m :: 0 <= k < m < |cards| ==> PlayOrder(cards)[k].1 != PlayOrder(cards)[m].1
  {
    var order := PlayOrder(cards);
    var pairs := Indexed(cards);
    assert |order| == |multiset(order)| == |multiset(pairs)| == |pairs|;
    forall k | 0 <= k < |order|
      ensures order[k] in pairs
    {
      assert order[k] in multiset(order);
    }
    forall i | 0 <= i < |cards|
      ensures (cards[i], i) in order
    {
      assert pairs[i] in multiset(pairs);
    }
    forall k, m | 0 <= k < m < |order|
      ensures order[k].1 != order[m].1
    {
      if order[k].1 == order[m].1 {
        var i := order[k].1;
        assert order[k] in pairs && order[m] in pairs;
        assert order[k] == pairs[i] && order[m] == pairs[i];
        IndexedOnce(cards, i);
        OccursTwice(order, k, m);
        assert false;
      }
    }
  }

  /** An element found at two positions of a list occurs at least twice in its multiset. */
  lemma OccursTwice<T>(s: seq<T>, k: nat, m: nat)
    requires k < m < |s| && s[k] == s[m]
    ensures multiset(s)[s[k]] >= 2
  {
    assert s == s[..m] + s[m..];
    assert s[k] in s[..m];
    assert s[m] in s[m..];
    assert multiset(s)[s[k]] == multiset(s[..m])[s[k]] + multiset(s[m..])[s[k]];
  }

  /** Every pair of Indexed(cards) occurs in it once, because the player indices are distinct. */
  lemma {:induction false} IndexedOnce(cards: seq<int>, i: nat)
    requires i < |cards|
    ensures multiset(Indexed(cards))[(cards[i], i)] == 1
    decreases |cards|
  {
    var n := |cards| - 1;
    var pairs := Indexed(cards);
    assert pairs == Indexed(cards[..n]) + [(cards[n], n)];
    if i < n {
      IndexedOnce(cards[..n], i);
    } else {
      assert (cards[i], i) !in Indexed(cards[..n]);
    }
  }

  /** Where the card of `player` goes when it is its turn. */
  function Target(t: Table, card: int, player: nat, cards: seq<int>, selectors: Option<seq<Selector>>): int
    requires TableOk(t)
    requires selectors.Some? ==> player < |selectors.value|
  {
    match Route(t.lines, card)
    case Some(row) => row
    case None =>
      if selectors.None? then Cheapest(t.lines) else selectors.value[player](t.lines, cards)
  }

  /**
   * The table once card `p.0` has gone into line `row` and player `p.1` has been
   * charged what the insertion returned; the card is recorded in the history.
   */
  function Placed(t: Table, row: nat, p: (int, nat)): (r: Table)
    requires row < |t.lines| && |t.lines[row]| > 0 && p.1 < |t.points|
    ensures |r.lines| == |t.lines| && |r.points| == |t.points| && r.history == t.history + {p.0}
    ensures forall i :: 0 <= i < |t.lines| && i != row ==> r.lines[i] == t.lines[i]
    ensures forall i :: 0 <= i < |t.points| && i != p.1 ==> r.points[i] == t.points[i]
    ensures r.points[p.1] - t.points[p.1] == Place(t.lines[row], p.0).points >= 0
  {
    var placed := Place(t.lines[row], p.0);
    Table(t.lines[row := placed.cards], t.points[p.1 := t.points[p.1] + placed.points], t.history + {p.0})
  }

  /**
   * Processing one (card, player) pair: the card is recorded in the history; if its
   * target line exists the card is inserted there and the player is charged; a
   * target outside the lines stops the turn (the source throws after recording).
   */
  function Step(t: Table, p: (int, nat), cards: seq<int>, selectors: Option<seq<Selector>>): (o: Outcome)
    requires TableOk(t) && p.1 < |t.points|
    requires selectors.Some? ==> p.1 < |selectors.value|
    ensures TableOk(o.table) && |o.table.lines| == |t.lines| && |o.table.points| == |t.points|
    ensures o.table.history == t.history + {p.0}
  {
    var row := Target(t, p.0, p.1, cards, selectors);
    if 0 <= row < |t.lines| then
      Resolved(Placed(t, row, p))
    else
      Failed(Table(t.lines, t.points, t.history + {p.0}), RowOutOfRange(p.1, row))
  }

  predicate PlayersIn(order: seq<(int, nat)>, players: nat)
  {
    forall k :: 0 <= k < |order| ==> order[k].1 < players
  }

  /** Processing the pairs of `order` one after another, stopping at the first error. */
  function Resolve(t: Table, order: seq<(int, nat)>, cards: seq<int>, selectors: Option<seq<Selector>>): (o: Outcome)
    requires TableOk(t) && PlayersIn(order, |t.points|)
    requires selectors.Some? ==> |selectors.value| == |t.points|
    ensures TableOk(o.table) && |o.table.lines| == |t.lines| && |o.table.points| == |t.points|
    decreases |order|
  {
    if |order| == 0 then Resolved(t)
    else
      var first := Step(t, order[0], cards, selectors);
      if first.Failed? then first else Resolve(first.table, order[1..], cards, selectors)
  }

  /**
   * A whole turn: `cards[i]` is the card of player i; `selectors` is None when every
   * player takes the cheapest line. Wrong counts are refused before anything changes.
   */
  function PlayTurn(t: Table, cards: seq<int>, selectors: Option<seq<Selector>>): (o: Outcome)
    requires TableOk(t)
    ensures TableOk(o.table) && |o.table.lines| == |t.lines| && |o.table.points| == |t.points|
  {
    if |cards| != |t.points| then Failed(t, CardCountMismatch)
    else if selectors.Some? && |selectors.value| != |t.points| then Failed(t, SelectorCountMismatch)
    else
      PlayOrderIsSortedPermutation(cards);
      Resolve(t, PlayOrder(cards), cards, selectors)
  }

  /** A turn never lowers any player's points. */
  lemma TurnNeverLowersPoints(t: Table, cards: seq<int>, selectors: Option<seq<Selector>>)
    requires TableOk(t)
    ensures forall i :: 0 <= i < |t.points| ==> PlayTurn(t, cards, selectors).table.points[i] >= t.points[i]
  {
    if |cards| == |t.points| && (selectors.None? || |selectors.value| == |t.points|) {
      PlayOrderIsSortedPermutation(cards);
      ResolveNeverLowersPoints(t, PlayOrder(cards), cards, selectors);
    }
  }

  lemma {:induction false} ResolveNeverLowersPoints(t: Table, order: seq<(int, nat)>, cards: seq<int>, selectors: Option<seq<Selector>>)
    requires TableOk(t) && PlayersIn(order, |t.points|)
    requires selectors.Some? ==> |selectors.value| == |t.points|
    ensures forall i :: 0 <= i < |t.points| ==> Resolve(t, order, cards, selectors).table.points[i] >= t.points[i]
    decreases |order|
  {
    if |order| > 0 {
      var first := Step(t, order[0], cards, selectors);
      if first.Resolved? {
        ResolveNeverLowersPoints(first.table, order[1..], cards, selectors);
      }
    }
  }

  /** The set of cards of a list of (card, player) pairs. */
  function CardsOf(order: seq<(int, nat)>): (r: set<int>)
    ensures forall k :: 0 <= k < |order| ==> order[k].0 in r
    ensures forall c :: c in r ==> exists k :: 0 <= k < |order| && order[k].0 == c
    decreases |order|
  {
    if |order| == 0 then {}
    else
      var rest := CardsOf(order[1..]);
      assert forall k :: 1 <= k < |order| ==> order[1..][k - 1] == order[k];
      {order[0].0} + rest
  }

  /** A turn that completes records exactly the played cards in the history. */
  lemma TurnRecordsPlayedCards(t: Table, cards: seq<int>, selectors: Option<seq<Selector>>)
    requires TableOk(t)
    requires PlayTurn(t, cards, selectors).Resolved?
    ensures forall c :: c in PlayTurn(t, cards, selectors).table.history <==> c in t.history || c in cards
  {
    TurnFollowsPlayOrder(t, cards, selectors);
    var order := PlayOrder(cards);
    ResolveRecordsCards(t, order, cards, selectors);
    PlayOrderCardsPlayed(cards);
    PlayedCardsInOrder(cards);
  }

  /** Every card of the play order was played this turn. */
  lemma PlayOrderCardsPlayed(cards: seq<int>)
    ensures forall c :: c in CardsOf(PlayOrder(cards)) ==> c in cards
  {
    PlayOrderIsSortedPermutation(cards);
    var order := PlayOrder(cards);
    forall c | c in CardsOf(order) ensures c in cards {
      var k :| 0 <= k < |order| && order[k].0 == c;
      assert cards[order[k].1] == c;
    }
  }

  /** Every card played this turn is in the play order. */
  lemma PlayedCardsInOrder(cards: seq<int>)
    ensures forall c :: c in cards ==> c in CardsOf(PlayOrder(cards))
  {
    PlayOrderIsSortedPermutation(cards);
    var order := PlayOrder(cards);
    forall c | c in cards ensures c in CardsOf(order) {
      var i :| 0 <= i < |cards| && cards[i] == c;
      assert (cards[i], i) in order;
      var k :| 0 <= k < |order| && order[k] == (cards[i], i);
    }
  }

  lemma {:induction false} ResolveRecordsCards(t: Table, order: seq<(int, nat)>, cards: seq<int>, selectors: Option<seq<Selector>>)
    requires TableOk(t) && PlayersIn(order, |t.points|)
    requires selectors.Some? ==> |selectors.value| == |t.points|
    requires Resolve(t, order, cards, selectors).Resolved?
    ensures Resolve(t, order, cards, selectors).table.history == t.history + CardsOf(order)
    decreases |order|
  {
    if |order| > 0 {
      ResolveRecordsCards(Step(t, order[0], cards, selectors).table, order[1..], cards, selectors);
    }
  }

  /**
   * Without selectors (every player takes the cheapest line) a turn with one card per
   * player always completes, provided there is a line to take.
   */
  lemma DefaultTieBreakAlwaysResolves(t: Table, cards: seq<int>)
    requires TableOk(t) && |t.lines| > 0 && |cards| == |t.points|
    ensures PlayTurn(t, cards, None).Resolved?
  {
    PlayOrderIsSortedPermutation(cards);
    CheapestResolves(t, PlayOrder(cards), cards);
  }

  lemma {:induction false} CheapestResolves(t: Table, order: seq<(int, nat)>, cards: seq<int>)
    requires TableOk(t) && |t.lines| > 0 && PlayersIn(order, |t.points|)
    ensures Resolve(t, order, cards, None).Resolved?
    decreases |order|
  {
    if |order| > 0 {
      var first := Step(t, order[0], cards, None);
      CheapestStepResolves(t, order[0], cards);
      assert PlayersIn(order[1..], |first.table.points|);
      CheapestResolves(first.table, order[1..], cards);
    }
  }

  /** Without selectors a single card always finds a line, provided there is one. */
  lemma CheapestStepResolves(t: Table, p: (int, nat), cards: seq<int>)
    requires TableOk(t) && |t.lines| > 0 && p.1 < |t.points|
    ensures Step(t, p, cards, None).Resolved?
  {
    CheapestIsFirstMinimum(t.lines);
  }

  /** A turn keeps every card lying in a line recorded in the history. */
  lemma TurnKeepsLinesSeen(t: Table, cards: seq<int>, selectors: Option<seq<Selector>>)
    requires TableOk(t) && LinesSeen(t)
    ensures LinesSeen(PlayTurn(t, cards, selectors).table)
  {
    if |cards| == |t.points| && (selectors.None? || |selectors.value| == |t.points|) {
      PlayOrderIsSortedPermutation(cards);
      ResolveKeepsLinesSeen(t, PlayOrder(cards), cards, selectors);
    }
  }

  lemma {:induction false} ResolveKeepsLinesSeen(t: Table, order: seq<(int, nat)>, cards: seq<int>, selectors: Option<seq<Selector>>)
    requires TableOk(t) && PlayersIn(order, |t.points|) && LinesSeen(t)
    requires selectors.Some? ==> |selectors.value| == |t.points|
    ensures LinesSeen(Resolve(t, order, cards, selectors).table)
    decreases |order|
  {
    if |order| > 0 {
      ResolveKeepsLinesSeen(Step(t, order[0], cards, selectors).table, order[1..], cards, selectors);
    }
  }

  /**
   * The unit-test turn: lines ending in 25, 42, 72 and 80, player 0 plays 2 and
   * player 1 plays 37. The 2 has no route and takes the cheapest line (line 0, two
   * cows); the 37 then extends that line.
   */
  lemma TurnExample(t: Table, cards: seq<int>)
    requires t == Table([[25], [33, 42], [71, 72], [80]], [0, 0], {25, 33, 42, 71, 72, 80}) && cards == [2, 37]
    ensures PlayTurn(t, cards, None).Resolved?
    ensures PlayTurn(t, cards, None).table.points == [2, 0] && PlayTurn(t, cards, None).table.lines[0] == [2, 37]
  {
    var u := Table([[2], [33, 42], [71, 72], [80]], [2, 0], t.history + {2});
    var v := Table([[2, 37], [33, 42], [71, 72], [80]], [2, 0], u.history + {37});
    FirstStepExample(t, u, cards);
    SecondStepExample(u, v, cards);
    ResolveTwo(t, (2, 0), (37, 1), cards, u, v);
    PlayOrderExample(cards);
    TurnFollowsPlayOrder(t, cards, None);
    assert PlayTurn(t, cards, None) == Resolved(v);
  }

  /** A turn with the right counts resolves the pairs of the play order. */
  lemma TurnFollowsPlayOrder(t: Table, cards: seq<int>, selectors: Option<seq<Selector>>)
    requires TableOk(t) && |cards| == |t.points|
    requires selectors.Some? ==> |selectors.value| == |t.points|
    ensures PlayersIn(PlayOrder(cards), |t.points|)
    ensures PlayTurn(t, cards, selectors) == Resolve(t, PlayOrder(cards), cards, selectors)
  {
    PlayOrderIsSortedPermutation(cards);
  }

  /** Resolving the pairs of `order` from position `k` on starts with a step on `order[k]`. */
  lemma ResolveFrom(t: Table, order: seq<(int, nat)>, k: nat, cards: seq<int>, selectors: Option<seq<Selector>>)
    requires TableOk(t) && k < |order| && PlayersIn(order[k..], |t.points|)
    requires selectors.Some? ==> |selectors.value| == |t.points|
    ensures order[k].1 < |t.points| && PlayersIn(order[k + 1..], |t.points|)
    ensures var first := Step(t, order[k], cards, selectors);
            Resolve(t, order[k..], cards, selectors) ==
              if first.Failed? then first else Resolve(first.table, order[k + 1..], cards, selectors)
  {
    assert order[k..][0] == order[k] && order[k..][1..] == order[k + 1..];
  }

  /** Resolving two pairs is two steps. */
  lemma ResolveTwo(t: Table, p: (int, nat), q: (int, nat), cards: seq<int>, u: Table, v: Table)
    requires TableOk(t) && p.1 < |t.points| && q.1 < |t.points|
    requires Step(t, p, cards, None) == Resolved(u)
    requires Step(u, q, cards, None) == Resolved(v)
    ensures Resolve(t, [p, q], cards, None) == Resolved(v)
  {
    var last: seq<(int, nat)> := [q];
    var none: seq<(int, nat)> := [];
    assert [p, q][1..] == last && last[1..] == none;
    assert Resolve(v, none, cards, None) == Resolved(v);
    assert Resolve(u, last, cards, None) == Resolved(v);
  }

  lemma PlayOrderExample(cards: seq<int>)
    requires cards == [2, 37]
    ensures PlayOrder(cards) == [(2, 0), (37, 1)]
  {
    assert Indexed(cards) == [(2, 0), (37, 1)];
    assert Ascending([(37, 1)]) == [(37, 1)];
  }

  /** The 2 has no route and goes to the cheapest line, line 0 (two cows). */
  lemma FirstStepExample(t: Table, u: Table, cards: seq<int>)
    requires t.lines == [[25], [33, 42], [71, 72], [80]] && t.points == [0, 0]
    requires u == Table([[2], [33, 42], [71, 72], [80]], [2, 0], t.history + {2})
    ensures TableOk(t) && Step(t, (2, 0), cards, None) == Resolved(u)
  {
    ExampleTableOk(t, 25);
    CheapestExampleStart();
    TurnRouteExamples();
    TurnPlaceExamples();
    assert Target(t, 2, 0, cards, None) == 0;
    assert t.lines[0 := [2]] == u.lines;
  }

  /** The 37 then follows the 2 on line 0. */
  lemma SecondStepExample(u: Table, v: Table, cards: seq<int>)
    requires u.lines == [[2], [33, 42], [71, 72], [80]] && u.points == [2, 0]
    requires v == Table([[2, 37], [33, 42], [71, 72], [80]], [2, 0], u.history + {37})
    ensures TableOk(u) && Step(u, (37, 1), cards, None) == Resolved(v)
  {
    ExampleTableOk(u, 2);
    TurnRouteExamples();
    TurnPlaceExamples();
    assert Target(u, 37, 1, cards, None) == 0;
    assert u.lines[0 := [2, 37]] == v.lines;
  }

  /** A table of the unit-test turn keeps the line invariant. */
  lemma ExampleTableOk(t: Table, first: int)
    requires t.lines == [[first], [33, 42], [71, 72], [80]]
    ensures TableOk(t)
  {
    forall i | 0 <= i < |t.lines|
      ensures LineOk(t.lines[i])
    {
      assert i == 0 || i == 1 || i == 2 || i == 3;
    }
  }
}

/**
 * The "closest value" strategy (SixTakes/ClosestValuePlayer.cs): play the card that
 * lands closest above the last card of its line without taking that line; a card
 * that no line takes is scored 400 minus its value, so among those the highest is
 * preferred; when every card would take a full line, play the highest card.
 */
module ClosestValue {
  import opened Wrappers
  import opened Rules
  import opened GameState

  /** The offset that ranks cards with no route after every card that has one. */
  const UnassignableOffset := 400

  /**
   * The score of a card: its distance above the last card of the line it is routed
   * to, when that line has room; 400 minus the card when no line takes it; None
   * when its line is full (such a card is never picked by the scan).
   */
  function Score(lines: seq<seq<int>>, card: int): Option<int>
    requires Nonempty(lines)
  {
    match Route(lines, card)
    case Some(row) => if |lines[row]| < MaxLine then Some(card - Last(lines[row])) else None
    case None => Some(UnassignableOffset - card)
  }

  /** The scores of the cards of a hand, in hand order. */
  function Scores(lines: seq<seq<int>>, hand: seq<int>): seq<Option<int>>
    requires Nonempty(lines)
  {
    seq(|hand|, i requires 0 <= i < |hand| => Score(lines, hand[i]))
  }

  /** The best score seen so far and the position in the hand of the card that has it. */
  datatype Pick = Pick(score: int, index: nat)

  /**
   * The scan over the scores from left to right, moving only on a strictly smaller
   * score: None when no card has a score, otherwise the first card of least score.
   */
  function Scan(scores: seq<Option<int>>): (r: Option<Pick>)
    ensures r.None? <==> forall i :: 0 <= i < |scores| ==> scores[i].None?
    ensures r.Some? ==> r.value.index < |scores| && scores[r.value.index] == Some(r.value.score)
    ensures r.Some? ==> forall i :: 0 <= i < |scores| && scores[i].Some? ==> r.value.score <= scores[i].value
    ensures r.Some? ==> forall i :: 0 <= i < r.value.index && scores[i].Some? ==> scores[i].value > r.value.score
    decreases |scores|
  {
    if |scores| == 0 then None
    else
      var n := |scores| - 1;
      var p := Scan(scores[..n]);
      if scores[n].Some? && (p.None? || p.value.score > scores[n].value) then Some(Pick(scores[n].value, n)) else p
  }

  /** The same scan, scoring the cards of the hand as it goes, as Play does. */
  function ScanHand(lines: seq<seq<int>>, hand: seq<int>): (r: Option<Pick>)
    requires Nonempty(lines)
    ensures r.Some? ==> r.value.index < |hand|
    decreases |hand|
  {
    if |hand| == 0 then None
    else
      var n := |hand| - 1;
      var p := ScanHand(lines, hand[..n]);
      var s := Score(lines, hand[n]);
      if s.Some? && (p.None? || p.value.score > s.value) then Some(Pick(s.value, n)) else p
  }

  /** One step of the scan: the pick after the first i + 1 cards. */
  lemma ScanHandStep(lines: seq<seq<int>>, hand: seq<int>, i: nat)
    requires Nonempty(lines) && i < |hand|
    ensures var p := ScanHand(lines, hand[..i]);
            var s := Score(lines, hand[i]);
            ScanHand(lines, hand[..i + 1]) ==
              if s.Some? && (p.None? || p.value.score > s.value) then Some(Pick(s.value, i)) else p
  {
    assert hand[..i + 1][..i] == hand[..i] && hand[..i + 1][i] == hand[i];
  }

  /** Scoring as the scan goes picks what scanning the scores picks. */
  lemma {:induction false} ScanHandIsScan(lines: seq<seq<int>>, hand: seq<int>)
    requires Nonempty(lines)
    ensures ScanHand(lines, hand) == Scan(Scores(lines, hand))
    decreases |hand|
  {
    if |hand| > 0 {
      var n := |hand| - 1;
      ScanHandIsScan(lines, hand[..n]);
      assert Scores(lines, hand)[..n] == Scores(lines, hand[..n]);
    }
  }

  /**
   * What the loop picks: nothing exactly when no card has a score; otherwise the
   * first card of least score.
   */
  lemma ScanHandPicks(lines: seq<seq<int>>, hand: seq<int>)
    requires Nonempty(lines)
    ensures ScanHand(lines, hand).None? <==> forall i :: 0 <= i < |hand| ==> Score(lines, hand[i]).None?
    ensures var r := ScanHand(lines, hand);
            r.Some? ==> r.value.index < |hand| && Score(lines, hand[r.value.index]) == Some(r.value.score)
    ensures var r := ScanHand(lines, hand);
            r.Some? ==> forall i :: 0 <= i < |hand| && Score(lines, hand[i]).Some? ==> r.value.score <= Score(lines, hand[i]).value
    ensures var r := ScanHand(lines, hand);
            r.Some? ==> forall i :: 0 <= i < r.value.index && Score(lines, hand[i]).Some? ==> Score(lines, hand[i]).value > r.value.score
  {
    ScanHandIsScan(lines, hand);
    var scores := Scores(lines, hand);
    assert |scores| == |hand| && forall i :: 0 <= i < |hand| ==> scores[i] == Score(lines, hand[i]);
  }

  /** The highest card of a non-empty hand. */
  function MaxOf(hand: seq<int>): (m: int)
    requires |hand| > 0
    ensures m in hand && forall i :: 0 <= i < |hand| ==> hand[i] <= m
    decreases |hand|
  {
    if |hand| == 1 then hand[0]
    else
      var rest := MaxOf(hand[1..]);
      assert forall i :: 1 <= i < |hand| ==> hand[i] == hand[1..][i - 1];
      if hand[0] > rest then hand[0] else rest
  }

  /**
   * The card the strategy plays: the scan's pick, or the highest card when no card
   * has a score. None for an empty hand, where the source's Max throws.
   */
  function Choice(lines: seq<seq<int>>, hand: seq<int>): Option<int>
    requires Nonempty(lines)
  {
    if |hand| == 0 then None
    else
      match ScanHand(lines, hand)
      case Some(p) => Some(hand[p.index])
      case None => Some(MaxOf(hand))
  }

  /** The strategy plays a card exactly when the hand is non-empty, and it is a card of the hand. */
  lemma ChoiceInHand(lines: seq<seq<int>>, hand: seq<int>)
    requires Nonempty(lines)
    ensures Choice(lines, hand).Some? <==> |hand| > 0
    ensures Choice(lines, hand).Some? ==> Choice(lines, hand).value in hand
  {
    ScanHandPicks(lines, hand);
  }

  /** A card routed to a full line is played only when every card of the hand is. */
  lemma FullLineOnlyAsFallback(lines: seq<seq<int>>, hand: seq<int>)
    requires Nonempty(lines) && |hand| > 0
    ensures var c := Choice(lines, hand).value;
            Score(lines, c).None? ==> forall i :: 0 <= i < |hand| ==> Score(lines, hand[i]).None?
    ensures (forall i :: 0 <= i < |hand| ==> Score(lines, hand[i]).None?) ==> Choice(lines, hand) == Some(MaxOf(hand))
  {
    ScanHandPicks(lines, hand);
  }

  /** The cards on the lines and in the hand are cards of the deck, 1 to 104. */
  predicate CardsInDeck(lines: seq<seq<int>>, hand: seq<int>)
  {
    (forall i, j :: 0 <= i < |lines| && 0 <= j < |lines[i]| ==> 1 <= lines[i][j] <= 104) &&
    (forall i :: 0 <= i < |hand| ==> 1 <= hand[i] <= 104)
  }

  /**
   * With deck cards, a card that goes onto a line with room (score at most 103)
   * always beats every card that no line takes (score at least 296): the strategy
   * then plays a card that has a route.
   */
  lemma {:induction false} RoutableBeatsUnroutable(lines: seq<seq<int>>, hand: seq<int>, k: nat)
    requires Nonempty(lines) && CardsInDeck(lines, hand)
    requires k < |hand| && Route(lines, hand[k]).Some? && |lines[Route(lines, hand[k]).value]| < MaxLine
    ensures Choice(lines, hand).Some? && Route(lines, Choice(lines, hand).value).Some?
  {
    ScanHandPicks(lines, hand);
    var p := ScanHand(lines, hand).value;
    var row := Route(lines, hand[k]).value;
    assert 1 <= Last(lines[row]);
    assert Score(lines, hand[k]).value <= 103;
    var c := hand[p.index];
    if Route(lines, c).None? {
      assert false;
    }
  }

  /**
   * When no card goes onto a line with room, but some card has no route, the
   * strategy plays the highest card that has no route.
   */
  lemma {:induction false} HighestUnroutable(lines: seq<seq<int>>, hand: seq<int>, k: nat)
    requires Nonempty(lines)
    requires forall i :: 0 <= i < |hand| && Route(lines, hand[i]).Some? ==> |lines[Route(lines, hand[i]).value]| >= MaxLine
    requires k < |hand| && Route(lines, hand[k]).None?
    ensures Choice(lines, hand).Some?
    ensures var c := Choice(lines, hand).value;
            Route(lines, c).None? && forall i :: 0 <= i < |hand| && Route(lines, hand[i]).None? ==> hand[i] <= c
  {
    ScanHandPicks(lines, hand);
    var p := ScanHand(lines, hand).value;
    var c := hand[p.index];
    forall i | 0 <= i < |hand| && Route(lines, hand[i]).None?
      ensures hand[i] <= c
    {
      assert Score(lines, hand[i]) == Some(UnassignableOffset - hand[i]);
    }
  }

  /** Equal scores go to the card that comes first in the hand. */
  lemma EarliestOnTies(lines: seq<seq<int>>, hand: seq<int>, i: nat, j: nat)
    requires Nonempty(lines) && i < j < |hand|
    requires Score(lines, hand[i]).Some? && Score(lines, hand[i]) == Score(lines, hand[j])
    ensures ScanHand(lines, hand).Some? && ScanHand(lines, hand).value.index != j
  {
    ScanHandPicks(lines, hand);
  }

  /**
   * The strategy of player `id`: scans the hand, scoring each card against the
   * game's lines, and falls back to the highest card. It only reads the game.
   */
  method Play(game: Game, id: nat) returns (card: Option<int>)
    requires game.Valid() && id < |game.players|
    ensures card == Choice(game.table.lines, game.hands[id])
  {
    var hand := game.players[id].hand;
    var lines := CardsOfLines(game.lines);
    assert lines == game.table.lines;
    var best: Option<int> := None;
    var bestValue: Option<int> := None;
    ghost var index: nat := 0;
    for i := 0 to |hand|
      invariant best.None? ==> bestValue.None?
      invariant best.Some? ==> index < i && bestValue == Some(hand[index])
      invariant ScanHand(lines, hand[..i]) == if best.None? then None else Some(Pick(best.value, index))
    {
      ScanHandStep(lines, hand, i);
      var c := hand[i];
      var diff := Score(lines, c);
      if diff.Some? && (best.None? || best.value > diff.value) {
        best, bestValue, index := diff, Some(c), i;
      }
    }
    assert hand[..|hand|] == hand;
    if bestValue.Some? {
      card := bestValue;
    } else if |hand| == 0 {
      card := None;
    } else {
      card := Some(MaxOf(hand));
    }
  }
}

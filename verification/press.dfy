/**
 * What pressing the mouse does (src/main.js:260-300), as functions on game values: the pass over
 * the tableaus, the pass over the deck cards, then the click on the deck face. The class
 * GameState (module Solitaire) runs the two passes as loops proved against these folds.
 */
module Press {
  import opened Cards
  import opened Geometry
  import opened Piles
  import opened Board
  import opened Selection
  import opened Invariants
  import opened Moves

  /** A game together with what is held. */
  datatype Pressed = Pressed(g: Game, d: Dragged)

  /** A press at p on tableau i with cards: all face-down turns its top card up; otherwise the
      unit under the mouse is picked up (the previous unit is dropped from the hand). */
  function TableauPress(g: Game, d: Dragged, lay: Layout, p: Point, i: nat): (r: Pressed)
    requires AttrsTotal(g) && i < |g.tableaus| && i < |lay.tableauPoints|
    ensures AttrsTotal(r.g) && r.g == g.(hidden := r.g.hidden)
    ensures FlipsAt(g, r.g, lay, p, i)
  {
    var t := g.tableaus[i];
    if IsClicked(p, TableauRect(lay.tableauPoints[i], |t|)) && |t| != 0 then
      if |Shown(t, g.hidden)| == 0 then Pressed(ShowCard(g, i), d)
      else Pressed(g, TableauSelection(t, g.hidden, g.point, p))
    else Pressed(g, d)
  }

  /** The tableau pass over tableaus 0 .. n-1, in order. */
  function TableausPressed(g: Game, d: Dragged, lay: Layout, p: Point, n: nat): (r: Pressed)
    requires AttrsTotal(g) && n <= |g.tableaus| && |g.tableaus| <= |lay.tableauPoints|
    ensures AttrsTotal(r.g) && r.g == g.(hidden := r.g.hidden)
  {
    if n == 0 then Pressed(g, d)
    else
      var q := TableausPressed(g, d, lay, p, n - 1);
      TableauPress(q.g, q.d, lay, p, n - 1)
  }

  /** A tableau pass that hits no non-empty tableau changes nothing and keeps what is held. */
  lemma {:induction false} TableausMissed(g: Game, d: Dragged, lay: Layout, p: Point, n: nat)
    requires AttrsTotal(g) && n <= |g.tableaus| && |g.tableaus| <= |lay.tableauPoints|
    requires forall i :: 0 <= i < n ==> !IsClicked(p, TableauRect(lay.tableauPoints[i], |g.tableaus[i]|)) || g.tableaus[i] == []
    ensures TableausPressed(g, d, lay, p, n) == Pressed(g, d)
  {
    if n > 0 {
      TableausMissed(g, d, lay, p, n - 1);
    }
  }

  /** The deck-card pass over deck[..n]: the last card under the mouse is picked up; when none
      is, what was held stays held. */
  function DeckCardsPressed(deck: seq<Card>, point: map<Card, Point>, p: Point, d: Dragged, n: nat): Dragged
    requires n <= |deck| && forall c :: c in deck ==> c in point
  {
    if n == 0 then d
    else if Hit(p, point, deck[n - 1]) then Single(deck[n - 1])
    else DeckCardsPressed(deck, point, p, d, n - 1)
  }

  /** The deck-card pass keeps what was held when it hits no card of deck[..n]; otherwise it
      picks up the hit card with the highest index. */
  lemma {:induction false} DeckCardsPicked(deck: seq<Card>, point: map<Card, Point>, p: Point, d: Dragged, n: nat)
    requires n <= |deck| && forall c :: c in deck ==> c in point
    ensures var r := DeckCardsPressed(deck, point, p, d, n);
      && ((forall k :: 0 <= k < n ==> !Hit(p, point, deck[k])) ==> r == d)
      && ((exists k :: 0 <= k < n && Hit(p, point, deck[k])) ==>
            exists k :: 0 <= k < n && Hit(p, point, deck[k]) && r == Single(deck[k]) &&
                        forall m :: k < m < n ==> !Hit(p, point, deck[m]))
  {
    if n > 0 && !Hit(p, point, deck[n - 1]) {
      DeckCardsPicked(deck, point, p, d, n - 1);
    }
  }

  /** A game, what is held, and whether the button counts as down. */
  datatype PressOutcome = PressOutcome(g: Game, d: Dragged, isDown: bool)

  /** handleMouseDown at p: both passes, then a click on the deck face recycles the deck when
      the draw source is empty (and returns before isDown is set) or draws a card. */
  function MouseDownEffect(g: Game, d: Dragged, isDown: bool, lay: Layout, p: Point): (r: PressOutcome)
    requires AttrsTotal(g) && |g.tableaus| == 7 && |lay.tableauPoints| == 7
    ensures r.g.foundations == g.foundations && r.g.nextNumber == g.nextNumber && r.g.tableaus == g.tableaus
  {
    var q := TableausPressed(g, d, lay, p, 7);
    var d2 := DeckCardsPressed(q.g.deck, q.g.point, p, q.d, |q.g.deck|);
    if IsClicked(p, DeckRect(lay.deckPoint)) then
      if q.g.source == [] then PressOutcome(DeckReset(q.g), d2, isDown)
      else PressOutcome(Draw(q.g, lay), d2, true)
    else PressOutcome(q.g, d2, true)
  }

  // ---------------------------------------------------------------- what a press keeps

  /** The tableau pass keeps the game well-formed and leaves something held. */
  lemma {:induction false} TableausPressedOk(g: Game, d: Dragged, lay: Layout, p: Point, n: nat)
    requires GameOk(g, lay) && Held(g, d) && n <= 7
    ensures var r := TableausPressed(g, d, lay, p, n); GameOk(r.g, lay) && Held(r.g, r.d)
  {
    if n > 0 {
      TableausPressedOk(g, d, lay, p, n - 1);
      var q := TableausPressed(g, d, lay, p, n - 1);
      TableauPressOk(q.g, q.d, lay, p, n - 1);
    }
  }

  /** One turn of the tableau pass keeps the game well-formed and leaves something held. */
  lemma {:induction false} TableauPressOk(g: Game, d: Dragged, lay: Layout, p: Point, i: nat)
    requires GameOk(g, lay) && Held(g, d) && i < 7
    ensures var r := TableauPress(g, d, lay, p, i); GameOk(r.g, lay) && Held(r.g, r.d)
  {
    var t := g.tableaus[i];
    if IsClicked(p, TableauRect(lay.tableauPoints[i], |t|)) && |t| != 0 {
      if |Shown(t, g.hidden)| == 0 {
        ShowCardOk(g, lay, i, d);
      } else {
        assert TableauOk(t, g.hidden);
        SelectOk(g, i, p);
      }
    }
  }

  /** Card c is the top card of tableau i, the press hits that tableau, and no card of the
      tableau is face-up. */
  predicate FlippedBy(g: Game, lay: Layout, p: Point, i: nat, c: Card)
    requires AttrsTotal(g)
  {
    && i < |g.tableaus| && i < |lay.tableauPoints| && g.tableaus[i] != []
    && g.tableaus[i][|g.tableaus[i]| - 1] == c
    && IsClicked(p, TableauRect(lay.tableauPoints[i], |g.tableaus[i]|))
    && |Shown(g.tableaus[i], g.hidden)| == 0
  }

  /** From g to rg the only change of face state is the top card of tableau i, hit by the
      press, turned face-up. */
  ghost predicate FlipsAt(g: Game, rg: Game, lay: Layout, p: Point, i: nat)
    requires AttrsTotal(g) && AttrsTotal(rg)
  {
    forall c :: rg.hidden[c] != g.hidden[c] ==> g.hidden[c] && !rg.hidden[c] && FlippedBy(g, lay, p, i, c)
  }

  /** The deck-card pass leaves something held: a picked deck card is a face-up deck card. */
  lemma {:induction false} DeckCardsPressedOk(g: Game, lay: Layout, p: Point, d: Dragged)
    requires GameOk(g, lay) && Held(g, d)
    ensures Held(g, DeckCardsPressed(g.deck, g.point, p, d, |g.deck|))
  {
    var r := DeckCardsPressed(g.deck, g.point, p, d, |g.deck|);
    DeckCardsPicked(g.deck, g.point, p, d, |g.deck|);
    if exists k :: 0 <= k < |g.deck| && Hit(p, g.point, g.deck[k]) {
      var k :| 0 <= k < |g.deck| && Hit(p, g.point, g.deck[k]) && r == Single(g.deck[k]);
      assert g.deck[k] in g.deck;
    }
  }

  /** A whole press keeps the game well-formed, leaves something held, and moves no card on or
      off a foundation or a tableau (so the win state stays right). */
  lemma {:induction false} MouseDownOk(g: Game, d: Dragged, isDown: bool, lay: Layout, p: Point)
    requires GameOk(g, lay) && Held(g, d)
    ensures var r := MouseDownEffect(g, d, isDown, lay, p); GameOk(r.g, lay) && Held(r.g, r.d)
  {
    TableausPressedOk(g, d, lay, p, 7);
    var q := TableausPressed(g, d, lay, p, 7);
    DeckCardsPressedOk(q.g, lay, p, q.d);
    var d2 := DeckCardsPressed(q.g.deck, q.g.point, p, q.d, |q.g.deck|);
    if IsClicked(p, DeckRect(lay.deckPoint)) {
      if q.g.source == [] {
        RecycleOk(q.g, lay, d2);
      } else {
        DrawOk(q.g, lay, d2);
      }
    }
  }
}

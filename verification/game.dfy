/**
 * The game object and the three mouse handlers (src/main.js:10, 17-20, 51-53, 65-192, 194-235,
 * 260-362). GameState holds every pile and every card attribute as fields that its methods
 * update in place; each method is proved against the function on game values that says what
 * it does, and the handlers keep Valid(): the invariant of a game in progress.
 */
module Solitaire {
  import opened Cards
  import opened Geometry
  import opened Piles
  import opened Board
  import opened Selection
  import opened Invariants
  import opened Deal
  import opened Moves
  import opened Drops
  import opened Press
  import opened Release

  /** The four per-card maps of a game, as the deal writes them. */
  function AttrsOf(g: Game): (a: Attrs)
    ensures AttrsTotal(g) ==> Complete(a)
  {
    Attrs(g.hidden, g.point, g.origPoint, g.parent)
  }

  /** The tableaus and card attributes as the deal leaves them: tableau i holds i + 1 cards,
      each Placed at its position. */
  ghost predicate DealtShape(g: Game, lay: Layout)
    requires AttrsTotal(g)
  {
    && |g.tableaus| == 7 && |lay.tableauPoints| == 7
    && (forall i :: 0 <= i < 7 ==> |g.tableaus[i]| == i + 1)
    && forall i, j :: 0 <= i < 7 && 0 <= j <= i ==>
         Placed(g.tableaus[i][j], i, j, lay.tableauPoints[i], AttrsOf(g))
  }

  /** The four foundation spots: the first at (250, 10), each next one 140 px to the right. */
  method FoundationPoints() returns (fps: seq<Point>)
    ensures |fps| == 4 && fps[0] == Point(250.0, 10.0)
    ensures forall f :: 0 < f < 4 ==> fps[f] == Translate(fps[f - 1], 140.0, 0.0)
  {
    fps := [];
    var nextFoundationPoint := Point(250.0, 10.0);
    for f := 0 to 4
      invariant |fps| == f
      invariant f == 0 ==> nextFoundationPoint == Point(250.0, 10.0)
      invariant 0 < f ==> fps[0] == Point(250.0, 10.0) && nextFoundationPoint == Translate(fps[f - 1], 140.0, 0.0)
      invariant forall k :: 0 < k < f ==> fps[k] == Translate(fps[k - 1], 140.0, 0.0)
    {
      fps := fps + [nextFoundationPoint];
      nextFoundationPoint := Translate(nextFoundationPoint, 140.0, 0.0);
    }
  }

  /**
   * Setup as a game value: the four foundation spots, the deal into seven tableaus from
   * (width / 12, height / 3.5) with the random indices picks, and the deck face.
   */
  method NewGame(canvasWidth: real, canvasHeight: real, picks: seq<nat>) returns (g: Game, lay: Layout)
    requires |picks| == 28 && forall n :: 0 <= n < 28 ==> picks[n] < 52 - n
    ensures GameOk(g, lay) && DealtShape(g, lay)
    ensures g.deck == [] && |g.source| == 24 && g.foundations == [[], [], [], []] && g.nextNumber == [1, 1, 1, 1]
    ensures lay.foundationPoints[0] == Point(250.0, 10.0)
    ensures forall f :: 0 < f < 4 ==> lay.foundationPoints[f] == Translate(lay.foundationPoints[f - 1], 140.0, 0.0)
    ensures lay.tableauPoints[0] == Point(canvasWidth / 12.0, canvasHeight / 3.5)
    ensures forall i :: 0 < i < 7 ==> lay.tableauPoints[i] == Translate(lay.tableauPoints[i - 1], CardWidth + 30.0, 0.0)
    ensures lay.deckPoint == Point(canvasWidth - (canvasWidth - 70.0), canvasHeight - 200.0)
    ensures (g.tableaus, g.source) == Deals(AllCards(), picks, 7)
  {
    var fps := FoundationPoints();
    var cards, ts, tps, src, a := Setup(picks, Point(canvasWidth / 12.0, canvasHeight / 3.5));
    var dp := Point(canvasWidth - (canvasWidth - 70.0), canvasHeight - 200.0);
    g := Game(src, [], [[], [], [], []], [1, 1, 1, 1], ts, a.hidden, a.point, a.origPoint, a.parent);
    lay := Layout(dp, fps, tps);
    DealtShapeOf(g, lay, a);
    SetupOk(g, lay, cards);
  }

  /** A game whose attributes are the deal's has the tableaus the deal laid out. */
  lemma {:induction false} DealtShapeOf(g: Game, lay: Layout, a: Attrs)
    requires AttrsOf(g) == a && Complete(a)
    requires |g.tableaus| == 7 && |lay.tableauPoints| == 7
    requires forall i :: 0 <= i < 7 ==> |g.tableaus[i]| == i + 1
    requires forall i, j :: 0 <= i < 7 && 0 <= j <= i ==> Placed(g.tableaus[i][j], i, j, lay.tableauPoints[i], a)
    ensures AttrsTotal(g) && DealtShape(g, lay)
  {
  }

  /** The game Setup deals is well-formed: empty deck and foundations, tableau i holding i + 1
      cards with only its top card face-up, the other 24 cards in the draw source. */
  lemma {:induction false} SetupOk(g: Game, lay: Layout, cards: seq<Card>)
    requires AttrsTotal(g) && OwnersInRange(g.parent) && DealtShape(g, lay)
    requires g.deck == [] && g.foundations == [[], [], [], []] && g.nextNumber == [1, 1, 1, 1]
    requires |lay.foundationPoints| == 4
    requires EachOnce(cards) && multiset(g.source) + multiset(Flatten(g.tableaus)) == multiset(cards)
    ensures GameOk(g, lay)
  {
    forall f | 0 <= f < 4 ensures g.foundations[f] == SuitRun(f, 0) { }
    SetupTableaus(g, lay);
    SetupLayout(g, lay);
    SetupConserved(g.source, g.foundations, g.tableaus, cards);
  }

  lemma {:induction false} SetupTableaus(g: Game, lay: Layout)
    requires AttrsTotal(g) && DealtShape(g, lay)
    ensures TableausOk(g.tableaus, g.hidden, g.parent)
  {
    forall i | 0 <= i < 7 ensures TableauOk(g.tableaus[i], g.hidden) {
      var t := g.tableaus[i];
      forall k | 0 <= k < |t| ensures g.hidden[t[k]] == (k != i) {
        assert Placed(t[k], i, k, lay.tableauPoints[i], AttrsOf(g));
      }
    }
    forall i, c | 0 <= i < 7 && c in g.tableaus[i] ensures g.parent[c] == TableauOwner(i) {
      var k :| 0 <= k < |g.tableaus[i]| && g.tableaus[i][k] == c;
      assert Placed(g.tableaus[i][k], i, k, lay.tableauPoints[i], AttrsOf(g));
    }
  }

  lemma {:induction false} SetupLayout(g: Game, lay: Layout)
    requires AttrsTotal(g) && DealtShape(g, lay)
    requires g.deck == [] && g.foundations == [[], [], [], []]
    ensures LayoutOk(g, lay)
  {
    forall i, k | 0 <= i < 7 && 0 <= k < |g.tableaus[i]|
      ensures g.origPoint[g.tableaus[i][k]] == TableauSlot(lay.tableauPoints[i], k)
    {
      assert Placed(g.tableaus[i][k], i, k, lay.tableauPoints[i], AttrsOf(g));
    }
  }

  lemma {:induction false} SetupConserved(source: seq<Card>, foundations: seq<seq<Card>>, tableaus: seq<seq<Card>>, cards: seq<Card>)
    requires foundations == [[], [], [], []]
    requires EachOnce(cards) && multiset(source) + multiset(Flatten(tableaus)) == multiset(cards)
    ensures Conserved(source, [], foundations, tableaus)
  {
    var e: seq<Card> := [];
    assert foundations[..3] == [e, e, e] && foundations[..3][..2] == [e, e] && foundations[..3][..2][..1] == [e];
    assert Flatten([e]) == [] by { assert [e][..0] == []; }
    assert Flatten([e, e]) == [] by { assert [e, e][..1] == [e]; }
    assert Flatten([e, e, e]) == [] by { assert [e, e, e][..2] == [e, e]; }
    assert Flatten(foundations) == [];
    var all := Everything(source, [], foundations, tableaus);
    assert all == source + Flatten(tableaus);
    forall c: Card ensures multiset(all)[c] == 1 {
      assert multiset(all)[c] == multiset(cards)[c];
    }
  }

  class GameState {
    /** Where the deck face, the four foundations and the seven tableaus sit. */
    const deckPoint: Point
    const foundationPoints: seq<Point>
    const tableauPoints: seq<Point>

    /** GameState.cards: the draw source. */
    var source: seq<Card>
    /** GameState.deck.cards: the face-up drawn cards. */
    var deck: seq<Card>
    /** The cards and the next expected number of each foundation. */
    var foundations: seq<seq<Card>>
    var nextNumber: seq<int>
    /** The cards of each tableau, bottom to top. */
    var tableaus: seq<seq<Card>>
    /** card.hidden, card.point, card.origPoint and card.parent, for every card. */
    var hidden: map<Card, bool>
    var point: map<Card, Point>
    var origPoint: map<Card, Point>
    var parent: map<Card, Owner>
    /** GameState.win */
    var win: bool
    /** The module-level mouse state. */
    var draggedCard: Dragged
    var isDown: bool
    var lastMousePoint: Point

    /** The piles and card attributes as a game value. */
    function Snap(): Game
      reads this`source, this`deck, this`foundations, this`nextNumber, this`tableaus
      reads this`hidden, this`point, this`origPoint, this`parent
    {
      Game(source, deck, foundations, nextNumber, tableaus, hidden, point, origPoint, parent)
    }

    function Lay(): Layout
    {
      Layout(deckPoint, foundationPoints, tableauPoints)
    }

    /** A game in progress: well-formed, the win flag up to date, and the hand holding what a
        press can leave in it. */
    ghost predicate Valid()
      reads this
    {
      GameOk(Snap(), Lay()) && win == Won(foundations) && Held(Snap(), draggedCard)
    }

    /** The state is valid when its game value is well-formed, holds what is in the hand, and
        the win flag is up to date. */
    lemma ValidFrom(g: Game, d: Dragged)
      requires GameOk(g, Lay()) && Held(g, d)
      requires Snap() == g && draggedCard == d && win == Won(g.foundations)
      ensures Valid()
    {
    }

    /**
     * Setup on a canvas of the given size: the 52 cards, the four foundation spots 140 px
     * apart from (250, 10), the deal into seven tableaus from (width / 12, height / 3.5), and
     * the deck face. picks are the random indices of the deal.
     */
    constructor (canvasWidth: real, canvasHeight: real, picks: seq<nat>)
      requires |picks| == 28 && forall n :: 0 <= n < 28 ==> picks[n] < 52 - n
      ensures Valid()
      ensures deck == [] && |source| == 24 && foundations == [[], [], [], []] && nextNumber == [1, 1, 1, 1]
      ensures !win && draggedCard == Nothing && !isDown
      ensures DealtShape(Snap(), Lay())
      ensures foundationPoints[0] == Point(250.0, 10.0)
      ensures forall f :: 0 < f < 4 ==> foundationPoints[f] == Translate(foundationPoints[f - 1], 140.0, 0.0)
      ensures tableauPoints[0] == Point(canvasWidth / 12.0, canvasHeight / 3.5)
      ensures forall i :: 0 < i < 7 ==> tableauPoints[i] == Translate(tableauPoints[i - 1], CardWidth + 30.0, 0.0)
      ensures deckPoint == Point(canvasWidth - (canvasWidth - 70.0), canvasHeight - 200.0)
      ensures (tableaus, source) == Deals(AllCards(), picks, 7)
    {
      var g, lay := NewGame(canvasWidth, canvasHeight, picks);
      deckPoint, foundationPoints, tableauPoints := lay.deckPoint, lay.foundationPoints, lay.tableauPoints;
      source, deck, foundations, nextNumber, tableaus := g.source, g.deck, g.foundations, g.nextNumber, g.tableaus;
      hidden, point, origPoint, parent := g.hidden, g.point, g.origPoint, g.parent;
      win, draggedCard, isDown := false, Nothing, false;
      lastMousePoint := Point(0.0, 0.0);
      new;
      assert Snap() == g && Lay() == lay;
    }

    // ------------------------------------------------------------ the mouse handlers

    /**
     * handleMouseDown at p: the pass over the tableaus (flip an all-face-down tableau that is
     * hit, or pick up what is under the mouse), the pass over the deck cards (the last one hit
     * is picked up), then a click on the deck face recycles an exhausted draw source and
     * returns, or draws its last card. The game stays well-formed and the hand holds what a
     * press may leave in it.
     */
    method MouseDown(p: Point)
      requires Valid()
      modifies this
      ensures Valid()
      ensures lastMousePoint == p && win == old(win)
      ensures var r := MouseDownEffect(old(Snap()), old(draggedCard), old(isDown), Lay(), p);
              Snap() == r.g && draggedCard == r.d && isDown == r.isDown
    {
      ghost var g0, d0, down0 := Snap(), draggedCard, isDown;
      Press(p);
      PressedValid(g0, d0, down0, p);
    }

    /** The state a press leaves from a valid one is valid. */
    lemma PressedValid(g0: Game, d0: Dragged, down0: bool, p: Point)
      requires GameOk(g0, Lay()) && Held(g0, d0) && win == Won(g0.foundations)
      requires var r := MouseDownEffect(g0, d0, down0, Lay(), p); Snap() == r.g && draggedCard == r.d
      ensures Valid()
    {
      MouseDownOk(g0, d0, down0, Lay(), p);
      ghost var r := MouseDownEffect(g0, d0, down0, Lay(), p);
      assert r.g.foundations == g0.foundations;
      ValidFrom(r.g, r.d);
    }

    /** The state changes of a press, proved against MouseDownEffect. */
    method Press(p: Point)
      requires AttrsTotal(Snap()) && |tableaus| == 7 && |tableauPoints| == 7
      modifies this`source, this`deck, this`hidden, this`point, this`origPoint, this`parent
      modifies this`draggedCard, this`isDown, this`lastMousePoint
      ensures lastMousePoint == p
      ensures var r := MouseDownEffect(old(Snap()), old(draggedCard), old(isDown), Lay(), p);
              Snap() == r.g && draggedCard == r.d && isDown == r.isDown
    {
      lastMousePoint := p;
      PressTableaus(p);
      PressDeckCards(p);
      if IsClicked(p, DeckRect(deckPoint)) {
        if |source| == 0 {
          ResetDeck();
          return;
        }
        var c := source[|source| - 1];
        source := source[..|source| - 1];
        PushOnDeck(c);
      }
      isDown := true;
    }

    /** The tableau pass of a press, tableau by tableau. */
    method PressTableaus(p: Point)
      requires AttrsTotal(Snap()) && |tableaus| == 7 && |tableauPoints| == 7
      modifies this`hidden, this`draggedCard
      ensures Pressed(Snap(), draggedCard) == TableausPressed(old(Snap()), old(draggedCard), Lay(), p, 7)
    {
      ghost var g0, d0 := Snap(), draggedCard;
      for i := 0 to 7
        invariant Pressed(Snap(), draggedCard) == TableausPressed(g0, d0, Lay(), p, i)
      {
        ghost var q := TableausPressed(g0, d0, Lay(), p, i);
        PressTableau(p, i);
        assert TableausPressed(g0, d0, Lay(), p, i + 1) == TableauPress(q.g, q.d, Lay(), p, i);
      }
    }

    /** The press on tableau i: flip its top card when none is face-up, otherwise pick up what
        is under the mouse. */
    method PressTableau(p: Point, i: nat)
      requires AttrsTotal(Snap()) && i < |tableaus| && i < |tableauPoints|
      modifies this`hidden, this`draggedCard
      ensures Pressed(Snap(), draggedCard) == TableauPress(old(Snap()), old(draggedCard), Lay(), p, i)
    {
      ghost var g0, d0 := Snap(), draggedCard;
      ghost var r := TableauPress(g0, d0, Lay(), p, i);
      var t := tableaus[i];
      if IsClicked(p, TableauRect(tableauPoints[i], |t|)) && |t| != 0 {
        if |Shown(t, hidden)| == 0 {
          assert r == Pressed(ShowCard(g0, i), d0);
          ShowTopCard(i);
        } else {
          assert r == Pressed(g0, TableauSelection(t, hidden, point, p));
          draggedCard := TableauSelection(t, hidden, point, p);
        }
      } else {
        assert r == Pressed(g0, d0);
      }
    }

    /** The deck-card pass of a press: each deck card under the mouse is picked up in turn. */
    method PressDeckCards(p: Point)
      requires forall c :: c in deck ==> c in point
      modifies this`draggedCard
      ensures draggedCard == DeckCardsPressed(deck, point, p, old(draggedCard), |deck|)
    {
      ghost var d0 := draggedCard;
      for k := 0 to |deck|
        invariant draggedCard == DeckCardsPressed(deck, point, p, d0, k)
      {
        if Hit(p, point, deck[k]) {
          draggedCard := Single(deck[k]);
        }
      }
    }

    /**
     * handleMouseMove to p: while the button is down and something is held, every held card
     * moves by the mouse's displacement since the last event and p becomes the last point;
     * otherwise nothing happens. No pile changes, so the game stays well-formed.
     */
    method MouseMove(p: Point)
      requires Valid()
      modifies this`point, this`lastMousePoint
      ensures Valid()
      ensures !old(isDown) || draggedCard.Nothing? ==> point == old(point) && lastMousePoint == old(lastMousePoint)
      ensures old(isDown) && !draggedCard.Nothing? ==>
                var d := Displacement(old(lastMousePoint), p);
                && lastMousePoint == p
                && (forall c :: c in Unit(draggedCard) ==> point[c] == Translate(old(point)[c], d.x, d.y))
                && (forall c :: c !in Unit(draggedCard) ==> point[c] == old(point)[c])
    {
      ghost var g0 := Snap();
      HeldDistinct(g0, Lay(), draggedCard);
      Drag(p);
      MovedValid(g0);
    }

    /** Moving cards on screen keeps a valid state valid. */
    lemma MovedValid(g0: Game)
      requires GameOk(g0, Lay()) && Held(g0, draggedCard) && win == Won(g0.foundations)
      requires Snap() == g0.(point := point) && point.Keys == g0.point.Keys
      ensures Valid()
    {
      PointsOnlyOk(g0, Lay(), point, draggedCard);
      ValidFrom(g0.(point := point), draggedCard);
    }

    /** The state changes of a move: the held cards follow the mouse. */
    method Drag(p: Point)
      requires forall c :: c in Unit(draggedCard) ==> c in point
      requires Distinct(Unit(draggedCard))
      modifies this`point, this`lastMousePoint
      ensures point.Keys == old(point).Keys
      ensures !isDown || draggedCard.Nothing? ==> point == old(point) && lastMousePoint == old(lastMousePoint)
      ensures isDown && !draggedCard.Nothing? ==>
                var d := Displacement(old(lastMousePoint), p);
                && lastMousePoint == p
                && (forall c :: c in Unit(draggedCard) ==> point[c] == Translate(old(point)[c], d.x, d.y))
                && (forall c :: c in old(point) && c !in Unit(draggedCard) ==> point[c] == old(point)[c])
    {
      if !isDown || draggedCard.Nothing? {
        return;
      }
      var d := Displacement(lastMousePoint, p);
      lastMousePoint := Point(p.x, p.y);
      MoveHeld(d.x, d.y);
      MovedBy(old(point), point, Unit(draggedCard), d);
    }

    /** Every held card moved by (dx, dy). */
    method MoveHeld(dx: real, dy: real)
      requires forall c :: c in Unit(draggedCard) ==> c in point
      modifies this`point
      ensures point == MoveAll(old(point), Unit(draggedCard), dx, dy)
    {
      match draggedCard {
        case Nothing =>
        case Run(cs) =>
          MoveCards(cs, dx, dy);
        case Single(c) =>
          MoveCard(c, dx, dy);
      }
    }

    /** The single held card moved by (dx, dy). */
    method MoveCard(c: Card, dx: real, dy: real)
      requires c in point
      modifies this`point
      ensures point == MoveAll(old(point), [c], dx, dy)
    {
      ghost var point0 := point;
      point := point[c := Translate(point[c], dx, dy)];
      assert [c][..0] == [];
    }

    /** Each card of a held run moved by (dx, dy), in order. */
    method MoveCards(cs: seq<Card>, dx: real, dy: real)
      requires forall c :: c in cs ==> c in point
      modifies this`point
      ensures point == MoveAll(old(point), cs, dx, dy)
    {
      ghost var point0 := point;
      for k := 0 to |cs|
        invariant point == MoveAll(point0, cs[..k], dx, dy)
      {
        assert cs[..k + 1][..k] == cs[..k];
        point := point[cs[k] := Translate(point[cs[k]], dx, dy)];
      }
      assert cs[..|cs|] == cs;
    }

    /**
     * handleMouseUp: a held single card is dropped as DropSingle says (and the win state is
     * recomputed when it lands), a held run as DropRun says; the hand is emptied and the button
     * is up. Holding the empty run makes the handler fail (crashed) before it changes anything.
     * The game stays well-formed, except when a stale deck card lands: that duplicates it.
     */
    method MouseUp() returns (crashed: bool)
      requires Valid()
      modifies this
      ensures crashed <==> old(draggedCard) == Run([])
      ensures crashed ==> Snap() == old(Snap()) && draggedCard == old(draggedCard) && isDown == old(isDown)
      ensures !crashed ==> Snap() == MouseUpEffect(old(Snap()), Lay(), old(draggedCard))
      ensures !crashed ==> draggedCard == Nothing && !isDown
      ensures win == Won(foundations) && lastMousePoint == old(lastMousePoint)
      ensures !old(StaleLands(Snap(), Lay(), draggedCard)) ==> Valid()
      ensures old(StaleLands(Snap(), Lay(), draggedCard)) ==> !Conserved(source, deck, foundations, tableaus)
    {
      ghost var g0, d0 := Snap(), draggedCard;
      if d0.Run? && d0.cards != [] {
        RunReadyHolds(g0, Lay(), d0.cards);
      }
      crashed := ReleaseHeld();
      if !crashed {
        MouseUpOk(g0, Lay(), d0);
        if !StaleLands(g0, Lay(), d0) {
          ValidFrom(Snap(), Nothing);
        }
      }
    }

    /** The state changes of a release, proved against MouseUpEffect. */
    method ReleaseHeld() returns (crashed: bool)
      requires Sized(Snap(), Lay()) && Held(Snap(), draggedCard) && win == Won(foundations)
      requires draggedCard.Run? && draggedCard.cards != [] ==> RunReady(Snap(), draggedCard.cards)
      modifies this`deck, this`tableaus, this`foundations, this`nextNumber, this`point, this`origPoint, this`parent
      modifies this`win, this`draggedCard, this`isDown
      ensures crashed <==> old(draggedCard) == Run([])
      ensures crashed ==> Snap() == old(Snap()) && draggedCard == old(draggedCard) && isDown == old(isDown)
      ensures !crashed ==> Snap() == MouseUpEffect(old(Snap()), Lay(), old(draggedCard))
      ensures !crashed ==> draggedCard == Nothing && !isDown
      ensures win == Won(foundations)
    {
      crashed := false;
      match draggedCard {
        case Nothing =>
          isDown := false;
        case Single(c) =>
          ReleaseSingle(c);
        case Run(cs) =>
          if cs == [] {
            crashed := true;
            return;
          }
          ReleaseRun(cs);
      }
    }

    /** Releasing a held single card: it is dropped, the hand is emptied, the button is up. */
    method ReleaseSingle(c: Card)
      requires Sized(Snap(), Lay())
      requires parent[c].DeckOwner? || (parent[c].TableauOwner? && parent[c].index < 7)
      requires win == Won(foundations)
      modifies this`deck, this`tableaus, this`foundations, this`nextNumber, this`point, this`origPoint, this`parent
      modifies this`win, this`draggedCard, this`isDown
      ensures Snap() == DropSingle(old(Snap()), Lay(), c)
      ensures draggedCard == Nothing && !isDown && win == Won(foundations)
    {
      DropCard(c);
      draggedCard := Nothing;
      isDown := false;
    }

    /** Releasing a held run: it is dropped, the hand is emptied, the button is up. */
    method ReleaseRun(cs: seq<Card>)
      requires Sized(Snap(), Lay()) && DragOk(Snap(), Run(cs)) && cs != [] && RunReady(Snap(), cs)
      modifies this`deck, this`tableaus, this`point, this`origPoint, this`parent, this`draggedCard, this`isDown
      ensures Snap() == DropRun(old(Snap()), Lay(), cs)
      ensures draggedCard == Nothing && !isDown
    {
      DropRunCards(cs);
      draggedCard := Nothing;
      isDown := false;
    }

    /** The single-card branch of handleMouseUp. */
    method DropCard(c: Card)
      requires Sized(Snap(), Lay())
      requires parent[c].DeckOwner? || (parent[c].TableauOwner? && parent[c].index < 7)
      requires win == Won(foundations)
      modifies this`deck, this`tableaus, this`foundations, this`nextNumber, this`point, this`origPoint, this`parent, this`win
      ensures Snap() == DropSingle(old(Snap()), Lay(), c)
      ensures win == Won(foundations)
    {
      var target := SingleTarget(Snap(), Lay(), c);
      if target.Some? && Accepts(Snap(), target.value, c) {
        RemoveFromItsParent(c);
        match target.value {
          case FoundationRef(f) => PushOnFoundation(f, c);
          case TableauRef(j) => PushOnTableau(j, c);
        }
        SetWinState();
      } else {
        ResetCard(c);
      }
    }

    /** The run branch of handleMouseUp. */
    method DropRunCards(cs: seq<Card>)
      requires Sized(Snap(), Lay()) && DragOk(Snap(), Run(cs)) && cs != [] && RunReady(Snap(), cs)
      modifies this`deck, this`tableaus, this`point, this`origPoint, this`parent
      ensures Snap() == DropRun(old(Snap()), Lay(), cs)
    {
      var i := parent[cs[0]].index;
      var target := RunTarget(Snap(), Lay(), cs[0]);
      if target.Some? && TableauIsPushable(tableaus[target.value], cs[0]) {
        MoveRun(i, target.value, cs);
      } else {
        ResetCards(cs);
      }
    }

    /** Each card of the run leaves its parent, tableau i, and is pushed onto tableau j. */
    method MoveRun(i: nat, j: nat, cs: seq<Card>)
      requires RunMovable(Snap(), Lay(), i, j, cs)
      modifies this`deck, this`tableaus, this`point, this`origPoint, this`parent
      ensures Snap() == RunFold(old(Snap()), Lay(), i, j, cs, |cs|)
    {
      ghost var g0 := Snap();
      for k := 0 to |cs|
        invariant Snap() == RunFold(g0, Lay(), i, j, cs, k)
      {
        MoveRunCard(g0, i, j, cs, k);
      }
    }

    /** One turn of the run loop: card k of the run leaves tableau i and goes onto tableau j. */
    method MoveRunCard(ghost g0: Game, i: nat, j: nat, cs: seq<Card>, k: nat)
      requires RunMovable(g0, Lay(), i, j, cs) && k < |cs| && Snap() == RunFold(g0, Lay(), i, j, cs, k)
      modifies this`deck, this`tableaus, this`point, this`origPoint, this`parent
      ensures Snap() == RunFold(g0, Lay(), i, j, cs, k + 1)
    {
      RunFoldParent(g0, Lay(), i, j, cs, k);
      RemoveFromItsParent(cs[k]);
      PushOnTableau(j, cs[k]);
    }

    /** Each card of a run back at its home position, in order. */
    method ResetCards(cs: seq<Card>)
      requires forall c :: c in cs ==> c in point && c in origPoint
      modifies this`point
      ensures point == ResetAll(old(point), origPoint, cs)
    {
      ghost var point0 := point;
      for k := 0 to |cs|
        invariant point == ResetAll(point0, origPoint, cs[..k])
      {
        assert cs[..k + 1][..k] == cs[..k];
        point := point[cs[k] := origPoint[cs[k]]];
      }
      assert cs[..|cs|] == cs;
    }

    // ------------------------------------------------------------ pile methods

    /** Deck.reset */
    method ResetDeck()
      modifies this`source, this`deck
      ensures Snap() == DeckReset(old(Snap()))
    {
      source := deck;
      deck := [];
    }

    /** Deck.remove */
    method RemoveFromDeck(c: Card)
      modifies this`deck
      ensures Snap() == DeckRemove(old(Snap()), c)
    {
      deck := Remove(deck, c);
    }

    /** Deck.push */
    method PushOnDeck(c: Card)
      modifies this`deck, this`parent, this`hidden, this`point, this`origPoint
      ensures Snap() == DeckPush(old(Snap()), Lay(), c)
    {
      parent := parent[c := DeckOwner];
      hidden := hidden[c := false];
      point := point[c := DeckSlot(deckPoint)];
      origPoint := origPoint[c := point[c]];
      deck := deck + [c];
    }

    /** Card.reset */
    method ResetCard(c: Card)
      requires c in origPoint
      modifies this`point
      ensures Snap() == CardReset(old(Snap()), c)
    {
      point := point[c := origPoint[c]];
    }

    /** Foundation.push */
    method PushOnFoundation(f: nat, c: Card)
      requires f < |foundations| && f < |nextNumber| && f < |foundationPoints|
      modifies this`foundations, this`nextNumber, this`point, this`origPoint
      ensures Snap() == FoundationPush(old(Snap()), Lay(), f, c)
    {
      nextNumber := nextNumber[f := nextNumber[f] + 1];
      point := point[c := foundationPoints[f]];
      origPoint := origPoint[c := point[c]];
      foundations := foundations[f := foundations[f] + [c]];
    }

    /** Tableau.push */
    method PushOnTableau(i: nat, c: Card)
      requires i < |tableaus| && i < |tableauPoints|
      modifies this`tableaus, this`parent, this`point, this`origPoint
      ensures Snap() == TableauPush(old(Snap()), Lay(), i, c)
    {
      point := point[c := TableauSlot(tableauPoints[i], |tableaus[i]|)];
      origPoint := origPoint[c := point[c]];
      parent := parent[c := TableauOwner(i)];
      tableaus := tableaus[i := tableaus[i] + [c]];
    }

    /** Tableau.remove */
    method RemoveFromTableau(i: nat, c: Card)
      requires i < |tableaus|
      modifies this`tableaus
      ensures Snap() == TableauRemove(old(Snap()), i, c)
    {
      tableaus := tableaus[i := Remove(tableaus[i], c)];
    }

    /** Tableau.showCard */
    method ShowTopCard(i: nat)
      requires i < |tableaus| && tableaus[i] != []
      modifies this`hidden
      ensures Snap() == ShowCard(old(Snap()), i)
    {
      hidden := hidden[tableaus[i][|tableaus[i]| - 1] := false];
    }

    /** A card taken out of the deck or the tableau that is its parent. */
    method RemoveFromItsParent(c: Card)
      requires c in parent
      requires parent[c].DeckOwner? || (parent[c].TableauOwner? && parent[c].index < |tableaus|)
      modifies this`deck, this`tableaus
      ensures Snap() == RemoveFromParent(old(Snap()), c)
    {
      match parent[c]
      case DeckOwner => RemoveFromDeck(c);
      case TableauOwner(i) => RemoveFromTableau(i, c);
    }

    /** setWinState: the flag says whether every foundation is topped by a king, which in a
        well-formed game means every card is on a foundation. */
    method SetWinState()
      modifies this`win
      ensures win == Won(foundations)
      ensures FoundationsOk(foundations, nextNumber) && Conserved(source, deck, foundations, tableaus) ==>
                (win <==> forall f :: 0 <= f < 4 ==> nextNumber[f] == 14) &&
                (win <==> source == [] && deck == [] && Flatten(tableaus) == [])
    {
      win := Won(foundations);
      if FoundationsOk(foundations, nextNumber) && Conserved(source, deck, foundations, tableaus) {
        WonIffAllOnFoundations(source, deck, foundations, nextNumber, tableaus);
      }
    }
  }
}

/**
 * The whole game as a value, the pile operations of Deck, Foundation, Tableau and Card
 * (src/main.js:65-192) as functions on it, the invariant a game keeps, and the lemmas that
 * each step of a mouse press preserves it. The class GameState (module Solitaire) performs
 * these steps in place and is proved against these functions.
 */
module Moves {
  import opened Cards
  import opened Geometry
  import opened Piles
  import opened Board
  import opened Selection
  import opened Invariants

  /** The mutable part of a game: the draw source (GameState.cards), the deck's face-up cards,
      four foundations with their next expected numbers, seven tableaus, and per card its face
      state, position, home position and parent pile. */
  datatype Game = Game(
    source: seq<Card>,
    deck: seq<Card>,
    foundations: seq<seq<Card>>,
    nextNumber: seq<int>,
    tableaus: seq<seq<Card>>,
    hidden: map<Card, bool>,
    point: map<Card, Point>,
    origPoint: map<Card, Point>,
    parent: map<Card, Owner>)

  /** Where the deck, the four foundations and the seven tableaus sit; fixed after setup. */
  datatype Layout = Layout(deckPoint: Point, foundationPoints: seq<Point>, tableauPoints: seq<Point>)

  ghost predicate AttrsTotal(g: Game)
  {
    Total(g.hidden, g.point, g.origPoint, g.parent)
  }

  /** Each card of a pile has its home position at that pile's slot for it. */
  ghost predicate LayoutOk(g: Game, lay: Layout)
    requires AttrsTotal(g)
  {
    && (forall i, k :: 0 <= i < |g.tableaus| && i < |lay.tableauPoints| && 0 <= k < |g.tableaus[i]| ==>
          g.origPoint[g.tableaus[i][k]] == TableauSlot(lay.tableauPoints[i], k))
    && (forall c :: c in g.deck ==> g.origPoint[c] == DeckSlot(lay.deckPoint))
    && (forall f, c :: 0 <= f < |g.foundations| && f < |lay.foundationPoints| && c in g.foundations[f] ==>
          g.origPoint[c] == lay.foundationPoints[f])
  }

  /** The invariant of a game in progress. */
  ghost predicate GameOk(g: Game, lay: Layout)
  {
    && |lay.foundationPoints| == 4 && |lay.tableauPoints| == 7
    && AttrsTotal(g)
    && OwnersInRange(g.parent)
    && FoundationsOk(g.foundations, g.nextNumber)
    && TableausOk(g.tableaus, g.hidden, g.parent)
    && DeckOk(g.deck, g.hidden, g.parent)
    && Conserved(g.source, g.deck, g.foundations, g.tableaus)
    && LayoutOk(g, lay)
  }

  // ---------------------------------------------------------------- pile operations

  /** Deck.reset: the deck's cards become the draw source again, in the same order. */
  function DeckReset(g: Game): Game
  {
    g.(source := g.deck, deck := [])
  }

  /** Deck.remove. */
  function DeckRemove(g: Game, c: Card): Game
  {
    g.(deck := Remove(g.deck, c))
  }

  /** Deck.push: the card becomes face-up, owned by the deck, at (and at home on) the deck slot. */
  function DeckPush(g: Game, lay: Layout, c: Card): Game
  {
    var q := DeckSlot(lay.deckPoint);
    g.(deck := g.deck + [c], parent := g.parent[c := DeckOwner], hidden := g.hidden[c := false],
       point := g.point[c := q], origPoint := g.origPoint[c := q])
  }

  /** Drawing: the last card of the draw source goes onto the deck. */
  function Draw(g: Game, lay: Layout): Game
    requires g.source != []
  {
    var n := |g.source| - 1;
    DeckPush(g.(source := g.source[..n]), lay, g.source[n])
  }

  /** Card.reset: back to its home position. */
  function CardReset(g: Game, c: Card): Game
    requires c in g.origPoint
  {
    g.(point := g.point[c := g.origPoint[c]])
  }

  /** Foundation.push: the next number advances and the card goes to the foundation's point.
      The card's parent is left as it was. */
  function FoundationPush(g: Game, lay: Layout, f: nat, c: Card): Game
    requires f < |g.foundations| && f < |g.nextNumber| && f < |lay.foundationPoints|
  {
    var q := lay.foundationPoints[f];
    g.(foundations := g.foundations[f := g.foundations[f] + [c]], nextNumber := g.nextNumber[f := g.nextNumber[f] + 1],
       point := g.point[c := q], origPoint := g.origPoint[c := q])
  }

  /** Tableau.push: the card goes to the tableau's next 25-px slot and the tableau becomes its parent. */
  function TableauPush(g: Game, lay: Layout, i: nat, c: Card): Game
    requires i < |g.tableaus| && i < |lay.tableauPoints|
  {
    var q := TableauSlot(lay.tableauPoints[i], |g.tableaus[i]|);
    g.(tableaus := g.tableaus[i := g.tableaus[i] + [c]], parent := g.parent[c := TableauOwner(i)],
       point := g.point[c := q], origPoint := g.origPoint[c := q])
  }

  /** Tableau.remove. */
  function TableauRemove(g: Game, i: nat, c: Card): Game
    requires i < |g.tableaus|
  {
    g.(tableaus := g.tableaus[i := Remove(g.tableaus[i], c)])
  }

  /** Tableau.showCard: the top card turns face-up. */
  function ShowCard(g: Game, i: nat): Game
    requires i < |g.tableaus| && g.tableaus[i] != []
  {
    g.(hidden := g.hidden[g.tableaus[i][|g.tableaus[i]| - 1] := false])
  }

  // ---------------------------------------------------------------- the dragged unit

  /** What a press can leave in draggedCard: a face-up deck card, the face-up top card of its
      tableau, the empty run, or a face-up run of at least two cards ending at its tableau's top. */
  ghost predicate DragOk(g: Game, d: Dragged)
    requires AttrsTotal(g)
  {
    match d
    case Nothing => true
    case Single(c) =>
      || (g.parent[c] == DeckOwner && c in g.deck)
      || (g.parent[c].TableauOwner? && g.parent[c].index < |g.tableaus| &&
          var t := g.tableaus[g.parent[c].index];
          t != [] && t[|t| - 1] == c && !g.hidden[c])
    case Run(cs) =>
      || cs == []
      || (g.parent[cs[0]].TableauOwner? && g.parent[cs[0]].index < |g.tableaus| &&
          var t := g.tableaus[g.parent[cs[0]].index];
          2 <= |cs| <= |t| && cs == t[|t| - |cs|..] && !g.hidden[cs[0]])
  }

  /** A deck card still held after a later press recycled the deck into the draw source: the
      source never clears draggedCard on a press, so the card stays held while it is in the source. */
  ghost predicate StaleDeckDrag(g: Game, d: Dragged)
    requires AttrsTotal(g)
  {
    d.Single? && g.parent[d.card] == DeckOwner && d.card in g.source
  }

  /** Every state of draggedCard that presses can produce. */
  ghost predicate Held(g: Game, d: Dragged)
    requires AttrsTotal(g)
  {
    DragOk(g, d) || StaleDeckDrag(g, d)
  }

  // ---------------------------------------------------------------- steps of a press

  /** Turning up the top card of a hit tableau whose cards are all face-down keeps the game
      well-formed and leaves whatever is held still held. */
  lemma {:induction false} ShowCardOk(g: Game, lay: Layout, i: nat, d: Dragged)
    requires GameOk(g, lay) && i < 7 && g.tableaus[i] != []
    requires Shown(g.tableaus[i], g.hidden) == []
    ensures GameOk(ShowCard(g, i), lay)
    ensures Held(g, d) ==> Held(ShowCard(g, i), d)
  {
    var t := g.tableaus[i];
    var top := t[|t| - 1];
    var g' := ShowCard(g, i);
    ShownEmptyIffAllHidden(t, g.hidden);
    ConservedDistinct(g.source, g.deck, g.foundations, g.tableaus);
    FlattenDistinctPile(g.tableaus, i);
    FlipKeepsTableauOk(t, g.hidden);
    forall k | 0 <= k < 7 && k != i ensures TableauOk(g.tableaus[k], g'.hidden) {
      forall c | c in g.tableaus[k] ensures c != top {
        TableausDisjoint(g.tableaus, i, k, top);
      }
      TableauOkFrame(g.tableaus[k], g.hidden, g'.hidden);
    }
    InFlatten(g.tableaus, i, top);
    assert TableausOk(g'.tableaus, g'.hidden, g'.parent);
    assert DeckOk(g'.deck, g'.hidden, g'.parent);
    if Held(g, d) && !d.Nothing? {
      ShowCardHeld(g, i, d);
    }
  }

  lemma {:induction false} ShowCardHeld(g: Game, i: nat, d: Dragged)
    requires AttrsTotal(g) && OwnersInRange(g.parent)
    requires |g.tableaus| == 7 && TableausOk(g.tableaus, g.hidden, g.parent) && Distinct(Flatten(g.tableaus))
    requires i < 7 && g.tableaus[i] != []
    requires forall c :: c in g.tableaus[i] ==> g.hidden[c]
    requires Held(g, d)
    ensures Held(ShowCard(g, i), d)
  {
    var t := g.tableaus[i];
    var top := t[|t| - 1];
    var g' := ShowCard(g, i);
    match d
    case Nothing =>
    case Single(c) =>
      if g.parent[c].TableauOwner? && !(g.parent[c] == DeckOwner && c in g.deck) {
        var k := g.parent[c].index;
        if k != i {
          var tk := g.tableaus[k];
          if tk != [] && tk[|tk| - 1] == c {
            assert c in tk;
            TableausDisjoint(g.tableaus, k, i, c);
          }
        }
      }
    case Run(cs) =>
      if cs != [] {
        var k := g.parent[cs[0]].index;
        if k < 7 && k != i {
          var tk := g.tableaus[k];
          if 2 <= |cs| <= |tk| && cs == tk[|tk| - |cs|..] {
            assert cs[0] in tk;
            TableausDisjoint(g.tableaus, k, i, cs[0]);
          }
        }
      }
  }

  /** A press that picks a unit out of a tableau with face-up cards leaves something DragOk. */
  lemma {:induction false} SelectOk(g: Game, i: nat, p: Point)
    requires AttrsTotal(g) && i < |g.tableaus| && HiddenPrefix(g.tableaus[i], g.hidden)
    requires forall c :: c in g.tableaus[i] ==> g.parent[c] == TableauOwner(i)
    requires Shown(g.tableaus[i], g.hidden) != []
    ensures DragOk(g, TableauSelection(g.tableaus[i], g.hidden, g.point, p))
  {
    var t := g.tableaus[i];
    FaceUpFrom(t, g.hidden);
    SelectionSpec(t, g.hidden, g.point, p);
    SelectedIsHeld(g, i, |Shown(t, g.hidden)|, TableauSelection(t, g.hidden, g.point, p), p);
  }

  /** The cards from the first face-up one to the top are face-up. */
  lemma {:induction false} FaceUpFrom(t: seq<Card>, hidden: map<Card, bool>)
    requires forall c :: c in t ==> c in hidden
    requires HiddenPrefix(t, hidden)
    ensures forall k :: |t| - |Shown(t, hidden)| <= k < |t| ==> !hidden[t[k]]
  {
    var s := Shown(t, hidden);
    var b := |t| - |s|;
    ShownIsSuffix(t, hidden);
    forall k | b <= k < |t| ensures !hidden[t[k]] {
      assert t[k] == s[k - b];
      assert t[k] in s;
    }
  }

  lemma {:induction false} SelectedIsHeld(g: Game, i: nat, n: nat, d: Dragged, p: Point)
    requires AttrsTotal(g) && i < |g.tableaus|
    requires forall c :: c in g.tableaus[i] ==> g.parent[c] == TableauOwner(i)
    requires 0 < n <= |g.tableaus[i]|
    requires forall k :: |g.tableaus[i]| - n <= k < |g.tableaus[i]| ==> !g.hidden[g.tableaus[i][k]]
    requires PicksTopmostHit(g.tableaus[i], n, d, g.point, p)
    ensures DragOk(g, d)
  {
    var t := g.tableaus[i];
    if d.Single? {
      assert d.card in t;
    } else if d.Run? && d.cards != [] {
      assert d.cards[0] == t[|t| - |d.cards|];
      assert d.cards[0] in t;
    }
  }

  /** Drawing a card onto the deck keeps the game well-formed and what is held still held. */
  lemma {:induction false} DrawOk(g: Game, lay: Layout, d: Dragged)
    requires GameOk(g, lay) && g.source != []
    ensures GameOk(Draw(g, lay), lay)
    ensures Held(g, d) ==> Held(Draw(g, lay), d)
  {
    var n := |g.source| - 1;
    var c := g.source[n];
    var g' := Draw(g, lay);
    ConservedDistinct(g.source, g.deck, g.foundations, g.tableaus);
    DrawConserved(g.source, g.deck, g.foundations, g.tableaus);
    forall i | 0 <= i < 7 ensures c !in g.tableaus[i] {
      if c in g.tableaus[i] {
        InFlatten(g.tableaus, i, c);
      }
    }
    forall f | 0 <= f < 4 ensures c !in g.foundations[f] {
      if c in g.foundations[f] {
        InFlatten(g.foundations, f, c);
      }
    }
    DrawShape(g, lay);
    if Held(g, d) && !d.Nothing? {
      DrawHeld(g, lay, d);
    }
  }

  /** Moving the source's last card onto the deck keeps every card accounted for once. */
  lemma {:induction false} DrawConserved(source: seq<Card>, deck: seq<Card>, foundations: seq<seq<Card>>, tableaus: seq<seq<Card>>)
    requires source != [] && Conserved(source, deck, foundations, tableaus)
    ensures Conserved(source[..|source| - 1], deck + [source[|source| - 1]], foundations, tableaus)
  {
    var n := |source| - 1;
    assert source == source[..n] + [source[n]];
    assert multiset(source[..n] + (deck + [source[n]])) == multiset(source + deck);
    assert Everything(source[..n], deck + [source[n]], foundations, tableaus)
        == source[..n] + (deck + [source[n]]) + Flatten(foundations) + Flatten(tableaus);
    assert multiset(Everything(source[..n], deck + [source[n]], foundations, tableaus))
        == multiset(Everything(source, deck, foundations, tableaus));
  }

  lemma {:induction false} DrawShape(g: Game, lay: Layout)
    requires GameOk(g, lay) && g.source != []
    requires forall i :: 0 <= i < 7 ==> g.source[|g.source| - 1] !in g.tableaus[i]
    requires forall f :: 0 <= f < 4 ==> g.source[|g.source| - 1] !in g.foundations[f]
    requires Conserved(Draw(g, lay).source, Draw(g, lay).deck, g.foundations, g.tableaus)
    ensures GameOk(Draw(g, lay), lay)
  {
    var g' := Draw(g, lay);
    forall i | 0 <= i < 7 ensures TableauOk(g.tableaus[i], g'.hidden) {
      TableauOkFrame(g.tableaus[i], g.hidden, g'.hidden);
    }
    assert TableausOk(g'.tableaus, g'.hidden, g'.parent);
    assert LayoutOk(g', lay);
  }

  lemma {:induction false} DrawHeld(g: Game, lay: Layout, d: Dragged)
    requires AttrsTotal(g) && g.source != []
    requires |g.tableaus| == 7 && TableausOk(g.tableaus, g.hidden, g.parent)
    requires forall i :: 0 <= i < 7 ==> g.source[|g.source| - 1] !in g.tableaus[i]
    requires Distinct(g.source)
    requires Held(g, d)
    ensures Held(Draw(g, lay), d)
  {
    var n := |g.source| - 1;
    var c := g.source[n];
    var g' := Draw(g, lay);
    match d
    case Nothing =>
    case Single(e) =>
      if StaleDeckDrag(g, d) && e != c {
        assert g.source == g.source[..n] + [c];
        assert e in g'.source;
      } else if !StaleDeckDrag(g, d) && g.parent[e].TableauOwner? && !(g.parent[e] == DeckOwner && e in g.deck) {
        var k := g.parent[e].index;
        if k < 7 && g.tableaus[k] != [] && g.tableaus[k][|g.tableaus[k]| - 1] == e {
          assert e in g.tableaus[k];
        }
      }
    case Run(cs) =>
      if cs != [] {
        var k := g.parent[cs[0]].index;
        if k < 7 {
          var tk := g.tableaus[k];
          if 2 <= |cs| <= |tk| && cs == tk[|tk| - |cs|..] {
            assert cs[0] in tk;
          }
        }
      }
  }

  /** Clicking the deck face with an empty draw source turns the deck back into the source; the
      game stays well-formed, and a deck card that was held becomes a stale drag. */
  lemma {:induction false} RecycleOk(g: Game, lay: Layout, d: Dragged)
    requires GameOk(g, lay) && g.source == []
    ensures GameOk(DeckReset(g), lay)
    ensures Held(g, d) ==> Held(DeckReset(g), d)
    ensures d.Single? && d.card in g.deck ==> StaleDeckDrag(DeckReset(g), d)
  {
    RecycleGameOk(g, lay);
    RecycleHeld(g, d);
  }

  /** Recycling keeps the game well-formed: the same cards, now in the draw source. */
  lemma {:induction false} RecycleGameOk(g: Game, lay: Layout)
    requires GameOk(g, lay) && g.source == []
    ensures GameOk(DeckReset(g), lay)
  {
    var g' := DeckReset(g);
    assert Everything(g'.source, g'.deck, g'.foundations, g'.tableaus) == Everything(g.source, g.deck, g.foundations, g.tableaus);
    assert LayoutOk(g', lay);
  }

  /** After recycling, a held deck card is a stale drag; anything else held stays held. */
  lemma {:induction false} RecycleHeld(g: Game, d: Dragged)
    requires AttrsTotal(g) && DeckOk(g.deck, g.hidden, g.parent) && g.source == []
    ensures Held(g, d) ==> Held(DeckReset(g), d)
    ensures d.Single? && d.card in g.deck ==> StaleDeckDrag(DeckReset(g), d)
  {
    if d.Single? && d.card in g.deck {
      assert g.parent[d.card] == DeckOwner;
    }
  }
}

/**
 * What releasing the mouse does with the dragged unit (src/main.js:328-362), on game values:
 * the pile it lands on (the first colliding pile), whether that pile accepts it, the
 * move of a single card or of a run, and the return of everything else to its home position.
 */
module Drops {
  import opened Cards
  import opened Geometry
  import opened Piles
  import opened Board
  import opened Selection
  import opened Invariants
  import opened Moves

  /** A pile a released card can land on. */
  datatype PileRef = FoundationRef(f: nat) | TableauRef(i: nat)

  /** Pile counts and layout as setup makes them, every card with all four attributes. */
  ghost predicate Sized(g: Game, lay: Layout)
  {
    && |g.foundations| == 4 && |g.nextNumber| == 4 && |g.tableaus| == 7
    && |lay.foundationPoints| == 4 && |lay.tableauPoints| == 7
    && AttrsTotal(g)
  }

  /** The boxes of the foundations, in order. */
  function FoundationBoxes(fps: seq<Point>): (r: seq<Rect>)
    ensures |r| == |fps| && forall f :: 0 <= f < |fps| ==> r[f] == FoundationRect(fps[f])
  {
    if fps == [] then [] else FoundationBoxes(fps[..|fps| - 1]) + [FoundationRect(fps[|fps| - 1])]
  }

  /** The boxes of the tableaus, in order; each grows with its number of cards. */
  function TableauBoxes(tps: seq<Point>, ts: seq<seq<Card>>): (r: seq<Rect>)
    requires |tps| == |ts|
    ensures |r| == |ts| && forall i :: 0 <= i < |ts| ==> r[i] == TableauRect(tps[i], |ts[i]|)
  {
    if ts == [] then []
    else TableauBoxes(tps[..|tps| - 1], ts[..|ts| - 1]) + [TableauRect(tps[|tps| - 1], |ts[|ts| - 1]|)]
  }

  /** Array find over the pile boxes by collision: the first index whose box overlaps, or -1. */
  function FirstColliding(box: Rect, boxes: seq<Rect>): (i: int)
    ensures -1 <= i < |boxes|
    ensures i == -1 <==> forall k :: 0 <= k < |boxes| ==> !IsColliding(box, boxes[k])
    ensures 0 <= i ==> IsColliding(box, boxes[i]) && forall k :: 0 <= k < i ==> !IsColliding(box, boxes[k])
  {
    if boxes == [] then -1
    else if IsColliding(box, boxes[0]) then 0
    else
      var j := FirstColliding(box, boxes[1..]);
      if j == -1 then -1 else j + 1
  }

  /** Where a released single card lands: the first foundation it overlaps; only when it overlaps
      none, the first tableau it overlaps. */
  function SingleTarget(g: Game, lay: Layout, c: Card): (r: Option<PileRef>)
    requires c in g.point && |lay.tableauPoints| == |g.tableaus|
    ensures var box := CardRect(g.point[c]);
      && (r.Some? && r.value.FoundationRef? ==>
            && r.value.f < |lay.foundationPoints|
            && IsColliding(box, FoundationRect(lay.foundationPoints[r.value.f]))
            && forall f :: 0 <= f < r.value.f ==> !IsColliding(box, FoundationRect(lay.foundationPoints[f])))
      && (!(r.Some? && r.value.FoundationRef?) ==>
            forall f :: 0 <= f < |lay.foundationPoints| ==> !IsColliding(box, FoundationRect(lay.foundationPoints[f])))
      && (r.Some? && r.value.TableauRef? ==>
            && r.value.i < |g.tableaus|
            && IsColliding(box, TableauRect(lay.tableauPoints[r.value.i], |g.tableaus[r.value.i]|))
            && forall i :: 0 <= i < r.value.i ==> !IsColliding(box, TableauRect(lay.tableauPoints[i], |g.tableaus[i]|)))
      && (r.None? ==> forall i :: 0 <= i < |g.tableaus| ==> !IsColliding(box, TableauRect(lay.tableauPoints[i], |g.tableaus[i]|)))
  {
    var box := CardRect(g.point[c]);
    var f := FirstColliding(box, FoundationBoxes(lay.foundationPoints));
    if f >= 0 then Some(FoundationRef(f))
    else
      var i := FirstColliding(box, TableauBoxes(lay.tableauPoints, g.tableaus));
      if i >= 0 then Some(TableauRef(i)) else None
  }

  /** Where a released run lands: the first tableau its first card overlaps. */
  function RunTarget(g: Game, lay: Layout, c: Card): (r: Option<nat>)
    requires c in g.point && |lay.tableauPoints| == |g.tableaus|
    ensures var box := CardRect(g.point[c]);
      && (r.Some? ==>
            && r.value < |g.tableaus|
            && IsColliding(box, TableauRect(lay.tableauPoints[r.value], |g.tableaus[r.value]|))
            && forall i :: 0 <= i < r.value ==> !IsColliding(box, TableauRect(lay.tableauPoints[i], |g.tableaus[i]|)))
      && (r.None? ==> forall i :: 0 <= i < |g.tableaus| ==> !IsColliding(box, TableauRect(lay.tableauPoints[i], |g.tableaus[i]|)))
  {
    var i := FirstColliding(CardRect(g.point[c]), TableauBoxes(lay.tableauPoints, g.tableaus));
    if i >= 0 then Some(i) else None
  }

  /** Whether the pile a card was released over accepts it. */
  predicate Accepts(g: Game, r: PileRef, c: Card)
  {
    match r
    case FoundationRef(f) => f < 4 && f < |g.nextNumber| && FoundationIsPushable(f, g.nextNumber[f], c)
    case TableauRef(i) => i < |g.tableaus| && TableauIsPushable(g.tableaus[i], c)
  }

  /** A card leaving its parent: the deck or the tableau the card names as its parent. */
  function RemoveFromParent(g: Game, c: Card): Game
    requires c in g.parent
    requires g.parent[c].DeckOwner? || (g.parent[c].TableauOwner? && g.parent[c].index < |g.tableaus|)
  {
    match g.parent[c]
    case DeckOwner => DeckRemove(g, c)
    case TableauOwner(i) => TableauRemove(g, i, c)
  }

  /** The card pushed on the pile it was released over. */
  function PutOn(g: Game, lay: Layout, r: PileRef, c: Card): Game
    requires r.FoundationRef? ==> r.f < |g.foundations| && r.f < |g.nextNumber| && r.f < |lay.foundationPoints|
    requires r.TableauRef? ==> r.i < |g.tableaus| && r.i < |lay.tableauPoints|
  {
    match r
    case FoundationRef(f) => FoundationPush(g, lay, f, c)
    case TableauRef(i) => TableauPush(g, lay, i, c)
  }

  /** Releasing a single card: onto the pile it lands on when that pile accepts it (judged before
      the card leaves its parent), otherwise back to its home position. */
  function DropSingle(g: Game, lay: Layout, c: Card): Game
    requires Sized(g, lay)
    requires g.parent[c].DeckOwner? || (g.parent[c].TableauOwner? && g.parent[c].index < 7)
  {
    var target := SingleTarget(g, lay, c);
    if target.Some? && Accepts(g, target.value, c) then PutOn(RemoveFromParent(g, c), lay, target.value, c)
    else CardReset(g, c)
  }

  /** The released single card lands somewhere that accepts it. */
  predicate SingleLands(g: Game, lay: Layout, c: Card)
    requires c in g.point && |lay.tableauPoints| == |g.tableaus|
  {
    var target := SingleTarget(g, lay, c);
    target.Some? && Accepts(g, target.value, c)
  }

  /** The cards the hand moves: none, the single card, or the run. */
  function Unit(d: Dragged): (r: seq<Card>)
    ensures d.Single? ==> r == [d.card]
    ensures d.Run? ==> r == d.cards
    ensures d.Nothing? ==> r == []
  {
    match d
    case Nothing => []
    case Single(c) => [c]
    case Run(cs) => cs
  }

  /** Each card of cs back at its home position, in order (Card.reset on each). */
  function ResetAll(point: map<Card, Point>, origPoint: map<Card, Point>, cs: seq<Card>): (r: map<Card, Point>)
    requires forall c :: c in cs ==> c in point && c in origPoint
    ensures r.Keys == point.Keys
    ensures forall c :: c in r ==> r[c] == if c in cs then origPoint[c] else point[c]
  {
    if cs == [] then point
    else
      var n := |cs| - 1;
      assert forall c :: c in cs ==> c in cs[..n] || c == cs[n];
      ResetAll(point, origPoint, cs[..n])[cs[n] := origPoint[cs[n]]]
  }

  /** Moving distinct cards by (dx, dy) translates each of them once and leaves the others. */
  lemma {:induction false} MovedBy(point0: map<Card, Point>, point: map<Card, Point>, cs: seq<Card>, d: Point)
    requires forall c :: c in cs ==> c in point0
    requires Distinct(cs) && point == MoveAll(point0, cs, d.x, d.y)
    ensures forall c :: c in cs ==> point[c] == Translate(point0[c], d.x, d.y)
    ensures forall c :: c in point0 && c !in cs ==> point[c] == point0[c]
  {
  }

  /** Each card of cs moved by (dx, dy), in order: a card listed twice would move twice. */
  function MoveAll(point: map<Card, Point>, cs: seq<Card>, dx: real, dy: real): (r: map<Card, Point>)
    requires forall c :: c in cs ==> c in point
    ensures r.Keys == point.Keys
    ensures forall c :: c in r && c !in cs ==> r[c] == point[c]
    ensures Distinct(cs) ==> forall c :: c in cs ==> r[c] == Translate(point[c], dx, dy)
  {
    if cs == [] then point
    else
      var n := |cs| - 1;
      var r' := MoveAll(point, cs[..n], dx, dy);
      DistinctLast(cs);
      assert forall c :: c in cs ==> c in cs[..n] || c == cs[n];
      r'[cs[n] := Translate(r'[cs[n]], dx, dy)]
  }

  lemma {:induction false} DistinctLast(cs: seq<Card>)
    requires cs != []
    ensures Distinct(cs) ==> Distinct(cs[..|cs| - 1]) && cs[|cs| - 1] !in cs[..|cs| - 1]
  {
    var n := |cs| - 1;
    if Distinct(cs) {
      assert cs == cs[..n] + [cs[n]];
      DistinctSplit(cs[..n], [cs[n]]);
    }
  }

  // ---------------------------------------------------------------- a single card

  /** The game with card c lifted out of its pile: every invariant but conservation holds, and
      conservation holds once c is counted. */
  ghost predicate Lifted(g: Game, lay: Layout, c: Card)
  {
    && |lay.foundationPoints| == 4 && |lay.tableauPoints| == 7
    && AttrsTotal(g) && OwnersInRange(g.parent)
    && FoundationsOk(g.foundations, g.nextNumber)
    && TableausOk(g.tableaus, g.hidden, g.parent)
    && DeckOk(g.deck, g.hidden, g.parent)
    && EachOnce(Everything(g.source, g.deck, g.foundations, g.tableaus) + [c])
    && LayoutOk(g, lay)
    && !g.hidden[c]
  }

  /** A lifted card is on no pile, and the piles are pairwise disjoint. */
  lemma {:induction false} LiftedApart(source: seq<Card>, deck: seq<Card>, foundations: seq<seq<Card>>, tableaus: seq<seq<Card>>, c: Card)
    requires EachOnce(Everything(source, deck, foundations, tableaus) + [c])
    ensures c !in source && c !in deck
    ensures forall f :: 0 <= f < |foundations| ==> c !in foundations[f]
    ensures forall i :: 0 <= i < |tableaus| ==> c !in tableaus[i]
    ensures Distinct(Flatten(tableaus)) && Distinct(Flatten(foundations)) && Distinct(deck)
    ensures forall x :: x in deck ==> x !in Flatten(foundations) && x !in Flatten(tableaus)
  {
    var all := Everything(source, deck, foundations, tableaus);
    LiftedDistinct(all, c);
    PartsDistinct(source, deck, foundations, tableaus);
    assert all == source + deck + Flatten(foundations) + Flatten(tableaus);
    NotInPiles(foundations, c);
    NotInPiles(tableaus, c);
  }

  lemma {:induction false} LiftedDistinct(all: seq<Card>, c: Card)
    requires EachOnce(all + [c])
    ensures Distinct(all) && c !in all
  {
    EachOnceIffAllCards(all + [c]);
    DistinctSplit(all, [c]);
  }

  lemma {:induction false} NotInPiles(ss: seq<seq<Card>>, c: Card)
    requires c !in Flatten(ss)
    ensures forall i :: 0 <= i < |ss| ==> c !in ss[i]
  {
    forall i | 0 <= i < |ss| ensures c !in ss[i] {
      if c in ss[i] {
        InFlatten(ss, i, c);
      }
    }
  }

  /** Taking a card off the deck leaves the others counted once and c counted apart. */
  lemma {:induction false} DeckOutConserved(source: seq<Card>, deck: seq<Card>, foundations: seq<seq<Card>>, tableaus: seq<seq<Card>>, c: Card)
    requires Conserved(source, deck, foundations, tableaus) && c in deck
    ensures EachOnce(Everything(source, Remove(deck, c), foundations, tableaus) + [c])
  {
    RemovePresent(deck, c);
    var a := Everything(source, deck, foundations, tableaus);
    var b := Everything(source, Remove(deck, c), foundations, tableaus) + [c];
    forall x: Card ensures multiset(b)[x] == 1 {
      assert multiset(a)[x] == 1;
      assert multiset(Remove(deck, c))[x] + multiset([c])[x] == multiset(deck)[x];
    }
  }

  /** Taking the top card off a tableau leaves the others counted once and c counted apart. */
  lemma {:induction false} TableauOutConserved(source: seq<Card>, deck: seq<Card>, foundations: seq<seq<Card>>, tableaus: seq<seq<Card>>, i: nat, rest: seq<Card>, c: Card)
    requires Conserved(source, deck, foundations, tableaus) && i < |tableaus| && tableaus[i] == rest + [c]
    ensures EachOnce(Everything(source, deck, foundations, tableaus[i := rest]) + [c])
  {
    FlattenUpdate(tableaus, i, rest);
    var a := Everything(source, deck, foundations, tableaus);
    var b := Everything(source, deck, foundations, tableaus[i := rest]) + [c];
    var m1, m2 := multiset(Flatten(tableaus[i := rest])), multiset(Flatten(tableaus));
    assert m1 + multiset(tableaus[i]) == m2 + multiset(rest);
    forall x: Card ensures multiset(b)[x] == 1 {
      assert multiset(a)[x] == 1;
      assert (m1 + multiset(tableaus[i]))[x] == (m2 + multiset(rest))[x];
      assert multiset(tableaus[i])[x] == multiset(rest)[x] + multiset([c])[x];
    }
  }

  /** Putting a lifted card on a foundation counts it once again. */
  lemma {:induction false} FoundationInConserved(source: seq<Card>, deck: seq<Card>, foundations: seq<seq<Card>>, tableaus: seq<seq<Card>>, f: nat, c: Card)
    requires EachOnce(Everything(source, deck, foundations, tableaus) + [c]) && f < |foundations|
    ensures Conserved(source, deck, foundations[f := foundations[f] + [c]], tableaus)
  {
    FlattenUpdate(foundations, f, foundations[f] + [c]);
    var a := Everything(source, deck, foundations, tableaus) + [c];
    var b := Everything(source, deck, foundations[f := foundations[f] + [c]], tableaus);
    var m1, m2 := multiset(Flatten(foundations[f := foundations[f] + [c]])), multiset(Flatten(foundations));
    assert m1 + multiset(foundations[f]) == m2 + multiset(foundations[f] + [c]);
    forall x: Card ensures multiset(b)[x] == 1 {
      assert multiset(a)[x] == 1;
      assert (m1 + multiset(foundations[f]))[x] == (m2 + multiset(foundations[f] + [c]))[x];
    }
  }

  /** Putting a lifted card on a tableau counts it once again. */
  lemma {:induction false} TableauInConserved(source: seq<Card>, deck: seq<Card>, foundations: seq<seq<Card>>, tableaus: seq<seq<Card>>, j: nat, c: Card)
    requires EachOnce(Everything(source, deck, foundations, tableaus) + [c]) && j < |tableaus|
    ensures Conserved(source, deck, foundations, tableaus[j := tableaus[j] + [c]])
  {
    FlattenUpdate(tableaus, j, tableaus[j] + [c]);
    var a := Everything(source, deck, foundations, tableaus) + [c];
    var b := Everything(source, deck, foundations, tableaus[j := tableaus[j] + [c]]);
    var m1, m2 := multiset(Flatten(tableaus[j := tableaus[j] + [c]])), multiset(Flatten(tableaus));
    assert m1 + multiset(tableaus[j]) == m2 + multiset(tableaus[j] + [c]);
    forall x: Card ensures multiset(b)[x] == 1 {
      assert multiset(a)[x] == 1;
      assert (m1 + multiset(tableaus[j]))[x] == (m2 + multiset(tableaus[j] + [c]))[x];
    }
  }

  /** Removing a deck card lifts it: the deck keeps its other cards in order. */
  lemma {:induction false} TakeFromDeck(g: Game, lay: Layout, c: Card)
    requires GameOk(g, lay) && c in g.deck
    ensures Lifted(DeckRemove(g, c), lay, c)
    ensures var k := IndexOf(g.deck, c); DeckRemove(g, c).deck == g.deck[..k] + g.deck[k + 1..]
  {
    RemovePresent(g.deck, c);
    DeckOutConserved(g.source, g.deck, g.foundations, g.tableaus, c);
    var g' := DeckRemove(g, c);
    assert forall x :: x in g'.deck ==> x in g.deck;
    assert LayoutOk(g', lay);
  }

  /** Removing the face-up top card of a tableau lifts it: the tableau keeps the cards below. */
  lemma {:induction false} TakeFromTableau(g: Game, lay: Layout, i: nat, c: Card)
    requires GameOk(g, lay) && i < 7
    requires g.tableaus[i] != [] && g.tableaus[i][|g.tableaus[i]| - 1] == c && !g.hidden[c]
    ensures Lifted(TableauRemove(g, i, c), lay, c)
    ensures TableauRemove(g, i, c).tableaus[i] == g.tableaus[i][..|g.tableaus[i]| - 1]
  {
    var t := g.tableaus[i];
    var n := |t| - 1;
    ConservedDistinct(g.source, g.deck, g.foundations, g.tableaus);
    FlattenDistinctPile(g.tableaus, i);
    RemoveTop(t);
    TableauOutConserved(g.source, g.deck, g.foundations, g.tableaus, i, t[..n], c);
    TableauOkPrefix(t, g.hidden, n);
    var g' := TableauRemove(g, i, c);
    assert g'.tableaus == g.tableaus[i := t[..n]];
    TopOffShape(g, lay, i, g');
  }

  /** Removing the top card of a distinct pile leaves the cards below it. */
  lemma {:induction false} RemoveTop(t: seq<Card>)
    requires t != [] && Distinct(t)
    ensures Remove(t, t[|t| - 1]) == t[..|t| - 1]
    ensures t == t[..|t| - 1] + [t[|t| - 1]]
  {
    var n := |t| - 1;
    assert t == t[..n] + [t[n]];
    DistinctSplit(t[..n], [t[n]]);
    RemoveAfter(t[..n], t[n], []);
    assert t[..n] + [t[n]] + [] == t;
  }

  lemma {:induction false} TopOffShape(g: Game, lay: Layout, i: nat, g': Game)
    requires GameOk(g, lay) && i < 7 && g.tableaus[i] != []
    requires g' == g.(tableaus := g.tableaus[i := g.tableaus[i][..|g.tableaus[i]| - 1]])
    requires TableauOk(g'.tableaus[i], g.hidden)
    ensures TableausOk(g'.tableaus, g'.hidden, g'.parent) && LayoutOk(g', lay)
  {
    forall m, x | 0 <= m < 7 && x in g'.tableaus[m] ensures g'.parent[x] == TableauOwner(m) {
      assert x in g.tableaus[m];
    }
    forall m, k | 0 <= m < 7 && 0 <= k < |g'.tableaus[m]|
      ensures g'.origPoint[g'.tableaus[m][k]] == TableauSlot(lay.tableauPoints[m], k)
    {
      assert g'.tableaus[m][k] == g.tableaus[m][k];
    }
  }

  /** Pushing a lifted card onto a foundation that accepts it restores the invariant. */
  lemma {:induction false} PutOnFoundationOk(g: Game, lay: Layout, f: nat, c: Card)
    requires Lifted(g, lay, c) && f < 4 && FoundationIsPushable(f, g.nextNumber[f], c)
    ensures GameOk(FoundationPush(g, lay, f, c), lay)
  {
    var g' := FoundationPush(g, lay, f, c);
    LiftedApart(g.source, g.deck, g.foundations, g.tableaus, c);
    FoundationInConserved(g.source, g.deck, g.foundations, g.tableaus, f, c);
    FoundationPushGrows(f, g.nextNumber[f] - 1, c);
    assert FoundationsOk(g'.foundations, g'.nextNumber);
    assert TableausOk(g'.tableaus, g'.hidden, g'.parent);
    assert LayoutOk(g', lay) by {
      forall m, x | 0 <= m < 4 && x in g'.foundations[m] ensures g'.origPoint[x] == lay.foundationPoints[m] {
        if m != f || x != c {
          assert x in g.foundations[m] || x == c;
        }
      }
      forall m, k | 0 <= m < 7 && 0 <= k < |g'.tableaus[m]|
        ensures g'.origPoint[g'.tableaus[m][k]] == TableauSlot(lay.tableauPoints[m], k)
      {
        assert g.tableaus[m][k] in g.tableaus[m];
      }
    }
  }

  /** Pushing a lifted, face-up card onto a tableau that accepts it restores the invariant. */
  lemma {:induction false} PutOnTableauOk(g: Game, lay: Layout, j: nat, c: Card)
    requires Lifted(g, lay, c) && j < 7 && TableauIsPushable(g.tableaus[j], c)
    ensures GameOk(TableauPush(g, lay, j, c), lay)
  {
    var g' := TableauPush(g, lay, j, c);
    var t := g.tableaus[j];
    LiftedApart(g.source, g.deck, g.foundations, g.tableaus, c);
    TableauInConserved(g.source, g.deck, g.foundations, g.tableaus, j, c);
    AppendRunKeepsTableauOk(t, [c], g.hidden);
    assert TableausOk(g'.tableaus, g'.hidden, g'.parent) by {
      forall m | 0 <= m < 7 ensures TableauOk(g'.tableaus[m], g'.hidden) {
      }
      forall m, x | 0 <= m < 7 && x in g'.tableaus[m] ensures g'.parent[x] == TableauOwner(m) {
        if x != c {
          assert x in g.tableaus[m];
        }
      }
    }
    assert DeckOk(g'.deck, g'.hidden, g'.parent);
    PushedLayout(g, lay, j, c);
  }

  /** Pushing a card that is on no pile onto tableau j keeps every home position right. */
  lemma {:induction false} PushedLayout(g: Game, lay: Layout, j: nat, c: Card)
    requires AttrsTotal(g) && LayoutOk(g, lay) && |g.tableaus| == 7 && |lay.tableauPoints| == 7 && j < 7
    requires c !in g.deck && (forall f :: 0 <= f < |g.foundations| ==> c !in g.foundations[f])
    requires forall i :: 0 <= i < 7 ==> c !in g.tableaus[i]
    ensures LayoutOk(TableauPush(g, lay, j, c), lay)
  {
    var g' := TableauPush(g, lay, j, c);
    var t := g.tableaus[j];
    forall m, k | 0 <= m < 7 && 0 <= k < |g'.tableaus[m]|
      ensures g'.origPoint[g'.tableaus[m][k]] == TableauSlot(lay.tableauPoints[m], k)
    {
      if m != j || k < |t| {
        assert g'.tableaus[m][k] == g.tableaus[m][k];
        assert g.tableaus[m][k] in g.tableaus[m];
      }
    }
  }

  /** Releasing a card picked up by a press keeps the game well-formed, legal drop or not. */
  lemma {:induction false} DropSingleOk(g: Game, lay: Layout, c: Card)
    requires GameOk(g, lay) && DragOk(g, Single(c))
    ensures g.parent[c].DeckOwner? || (g.parent[c].TableauOwner? && g.parent[c].index < 7)
    ensures GameOk(DropSingle(g, lay, c), lay)
  {
    var target := SingleTarget(g, lay, c);
    if target.Some? && Accepts(g, target.value, c) {
      LandsOk(g, lay, c, target.value);
    } else {
      assert LayoutOk(CardReset(g, c), lay);
    }
  }

  /** A legally held single card taken from its parent and pushed on a pile that accepts it
      leaves the game well-formed. */
  lemma {:induction false} LandsOk(g: Game, lay: Layout, c: Card, r: PileRef)
    requires GameOk(g, lay) && DragOk(g, Single(c)) && Accepts(g, r, c)
    ensures g.parent[c].DeckOwner? || (g.parent[c].TableauOwner? && g.parent[c].index < 7)
    ensures GameOk(PutOn(RemoveFromParent(g, c), lay, r, c), lay)
  {
    if g.parent[c] == DeckOwner {
      TakeFromDeck(g, lay, c);
      var g1 := DeckRemove(g, c);
      match r
      case FoundationRef(f) => PutOnFoundationOk(g1, lay, f, c);
      case TableauRef(j) => PutOnTableauOk(g1, lay, j, c);
    } else {
      var i := g.parent[c].index;
      TakeFromTableau(g, lay, i, c);
      var g1 := TableauRemove(g, i, c);
      match r
      case FoundationRef(f) => PutOnFoundationOk(g1, lay, f, c);
      case TableauRef(j) =>
        if j == i {
          TableauRejectsOwnTop(g.tableaus[i]);
          assert false;
        }
        PutOnTableauOk(g1, lay, j, c);
    }
  }

  /** A legal drop of a card picked up by a press moves exactly that card: it leaves its pile
      (never the tableau it lands on), which keeps its other cards in order, and it becomes the
      top of the pile it lands on, at home there. */
  lemma {:induction false} SingleMoveEffect(g: Game, lay: Layout, c: Card)
    requires Sized(g, lay) && DragOk(g, Single(c))
    requires g.parent[c].DeckOwner? || (g.parent[c].TableauOwner? && g.parent[c].index < 7)
    requires g.parent[c].TableauOwner? ==> Distinct(g.tableaus[g.parent[c].index])
    requires SingleLands(g, lay, c)
    ensures var r := SingleTarget(g, lay, c).value; var g' := DropSingle(g, lay, c);
      && (r.TableauRef? ==> g.parent[c] != TableauOwner(r.i))
      && (g.parent[c] == DeckOwner ==>
            var k := IndexOf(g.deck, c); g.deck[k] == c && g'.deck == g.deck[..k] + g.deck[k + 1..])
      && (g.parent[c].TableauOwner? ==>
            var t := g.tableaus[g.parent[c].index]; g'.tableaus[g.parent[c].index] == t[..|t| - 1])
      && (r.FoundationRef? ==> g'.foundations[r.f] == g.foundations[r.f] + [c] && g'.origPoint[c] == lay.foundationPoints[r.f])
      && (r.TableauRef? ==> g'.tableaus[r.i] == g.tableaus[r.i] + [c] && g'.parent[c] == TableauOwner(r.i)
                            && g'.origPoint[c] == TableauSlot(lay.tableauPoints[r.i], |g.tableaus[r.i]|))
      && g'.point[c] == g'.origPoint[c]
    ensures var r := SingleTarget(g, lay, c).value; var g' := DropSingle(g, lay, c);
      && g'.source == g.source && g'.hidden == g.hidden
      && (g.parent[c].TableauOwner? ==> g'.deck == g.deck)
      && |g'.tableaus| == |g.tableaus| && |g'.foundations| == |g.foundations| && |g'.nextNumber| == |g.nextNumber|
      && (forall k :: 0 <= k < |g.tableaus| && g.parent[c] != TableauOwner(k) && r != TableauRef(k) ==>
            g'.tableaus[k] == g.tableaus[k])
      && (forall f :: 0 <= f < |g.foundations| && r != FoundationRef(f) ==>
            g'.foundations[f] == g.foundations[f] && g'.nextNumber[f] == g.nextNumber[f])
      && (r.FoundationRef? ==> g'.nextNumber[r.f] == g.nextNumber[r.f] + 1 && g'.parent[c] == g.parent[c])
      && g'.point == g.point[c := g'.point[c]]
      && g'.origPoint == g.origPoint[c := g'.origPoint[c]]
      && g'.parent == g.parent[c := g'.parent[c]]
  {
    SingleMoveFrame(g, lay, c);
    var r := SingleTarget(g, lay, c).value;
    var g1 := RemoveFromParent(g, c);
    assert DropSingle(g, lay, c) == PutOn(g1, lay, r, c);
    if g.parent[c] == DeckOwner {
      RemovePresent(g.deck, c);
      assert g1 == DeckRemove(g, c);
    } else {
      var i := g.parent[c].index;
      var t := g.tableaus[i];
      TableauRejectsOwnTop(t);
      RemoveTop(t);
      assert g1 == TableauRemove(g, i, c);
    }
  }
  /** A legal drop of a single card changes nothing but that card's pile, the pile it lands on
      and that card's own attributes. */
  lemma {:induction false} SingleMoveFrame(g: Game, lay: Layout, c: Card)
    requires Sized(g, lay) && DragOk(g, Single(c))
    requires g.parent[c].DeckOwner? || (g.parent[c].TableauOwner? && g.parent[c].index < 7)
    requires SingleLands(g, lay, c)
    ensures var r := SingleTarget(g, lay, c).value; var g' := DropSingle(g, lay, c);
      && g'.source == g.source && g'.hidden == g.hidden
      && (g.parent[c].TableauOwner? ==> g'.deck == g.deck)
      && |g'.tableaus| == |g.tableaus| && |g'.foundations| == |g.foundations| && |g'.nextNumber| == |g.nextNumber|
      && (forall k :: 0 <= k < |g.tableaus| && g.parent[c] != TableauOwner(k) && r != TableauRef(k) ==>
            g'.tableaus[k] == g.tableaus[k])
      && (forall f :: 0 <= f < |g.foundations| && r != FoundationRef(f) ==>
            g'.foundations[f] == g.foundations[f] && g'.nextNumber[f] == g.nextNumber[f])
      && (r.FoundationRef? ==> g'.nextNumber[r.f] == g.nextNumber[r.f] + 1 && g'.parent[c] == g.parent[c])
      && g'.point == g.point[c := g'.point[c]]
      && g'.origPoint == g.origPoint[c := g'.origPoint[c]]
      && g'.parent == g.parent[c := g'.parent[c]]
  {
    var g1 := RemoveFromParent(g, c);
    assert DropSingle(g, lay, c) == PutOn(g1, lay, SingleTarget(g, lay, c).value, c);
  }


  /** The flaw of releasing a stale deck card: its parent is still the deck, so Deck.remove finds
      nothing (and, through indexOf's -1, takes the deck's last card away), while the push puts
      the card on a pile although it is still in the draw source: it is then counted twice. */
  lemma {:induction false} StaleDropDuplicates(g: Game, lay: Layout, c: Card)
    requires GameOk(g, lay) && StaleDeckDrag(g, Single(c))
    requires Sized(g, lay) && var r := SingleTarget(g, lay, c); r.Some? && Accepts(g, r.value, c)
    ensures DropSingle(g, lay, c).deck == if g.deck == [] then [] else g.deck[..|g.deck| - 1]
    ensures var g' := DropSingle(g, lay, c); !Conserved(g'.source, g'.deck, g'.foundations, g'.tableaus)
  {
    ConservedDistinct(g.source, g.deck, g.foundations, g.tableaus);
    StaleDropLands(g, lay, c);
  }

  /** StaleDropDuplicates once the card is known to be in the draw source and not in the deck. */
  lemma {:induction false} StaleDropLands(g: Game, lay: Layout, c: Card)
    requires Sized(g, lay) && g.parent[c] == DeckOwner && c in g.source && c !in g.deck
    requires var r := SingleTarget(g, lay, c); r.Some? && Accepts(g, r.value, c)
    ensures DropSingle(g, lay, c).deck == if g.deck == [] then [] else g.deck[..|g.deck| - 1]
    ensures var g' := DropSingle(g, lay, c); !Conserved(g'.source, g'.deck, g'.foundations, g'.tableaus)
  {
    RemoveAbsent(g.deck, c);
    var r := SingleTarget(g, lay, c).value;
    var g1 := DeckRemove(g, c);
    var g' := PutOn(g1, lay, r, c);
    assert DropSingle(g, lay, c) == g';
    match r
    case FoundationRef(f) =>
      assert g'.foundations[f] == g1.foundations[f] + [c];
      InFlatten(g'.foundations, f, c);
      TwiceNotConserved(g'.source, g'.deck, g'.foundations, g'.tableaus, c);
    case TableauRef(j) =>
      assert g'.tableaus[j] == g1.tableaus[j] + [c];
      InFlatten(g'.tableaus, j, c);
      TwiceNotConserved(g'.source, g'.deck, g'.foundations, g'.tableaus, c);
  }

  /** A card both in the draw source and on a pile occurs twice. */
  lemma {:induction false} TwiceNotConserved(source: seq<Card>, deck: seq<Card>, foundations: seq<seq<Card>>, tableaus: seq<seq<Card>>, c: Card)
    requires c in source && (c in Flatten(foundations) || c in Flatten(tableaus))
    ensures !Conserved(source, deck, foundations, tableaus)
  {
    var rest := deck + Flatten(foundations) + Flatten(tableaus);
    assert Everything(source, deck, foundations, tableaus) == source + rest;
    assert c in rest;
    assert multiset(source + rest)[c] == multiset(source)[c] + multiset(rest)[c];
  }

  // ---------------------------------------------------------------- a run

  /** Partway through moving run (the top |run| cards of tableau i) onto tableau j, card by card:
      the first k cards sit on j, at its next slots and owned by it; the rest are still on i; no
      other pile and no other card has changed. */
  ghost predicate RunMoved(g: Game, g': Game, lay: Layout, i: nat, j: nat, run: seq<Card>, k: nat)
    requires AttrsTotal(g) && AttrsTotal(g')
    requires i < |g.tableaus| && j < |g.tableaus| && j < |lay.tableauPoints|
    requires |run| <= |g.tableaus[i]| && k <= |run|
  {
    RunPiles(g, g', i, j, run, k) && RunAttrs(g, g', lay, j, run, k)
  }

  /** The pile part of RunMoved. */
  ghost predicate RunPiles(g: Game, g': Game, i: nat, j: nat, run: seq<Card>, k: nat)
    requires i < |g.tableaus| && j < |g.tableaus|
    requires |run| <= |g.tableaus[i]| && k <= |run|
  {
    var t := g.tableaus[i];
    && g'.source == g.source && g'.deck == g.deck && g'.foundations == g.foundations
    && g'.nextNumber == g.nextNumber && g'.hidden == g.hidden
    && |g'.tableaus| == |g.tableaus|
    && g'.tableaus[i] == t[..|t| - |run|] + run[k..]
    && g'.tableaus[j] == g.tableaus[j] + run[..k]
    && (forall m :: 0 <= m < |g.tableaus| && m != i && m != j ==> g'.tableaus[m] == g.tableaus[m])
  }

  /** The card part of RunMoved. */
  ghost predicate RunAttrs(g: Game, g': Game, lay: Layout, j: nat, run: seq<Card>, k: nat)
    requires AttrsTotal(g) && AttrsTotal(g')
    requires j < |g.tableaus| && j < |lay.tableauPoints| && k <= |run|
  {
    && (forall m :: 0 <= m < k ==>
          && g'.parent[run[m]] == TableauOwner(j)
          && g'.point[run[m]] == TableauSlot(lay.tableauPoints[j], |g.tableaus[j]| + m)
          && g'.origPoint[run[m]] == g'.point[run[m]])
    && (forall c :: c !in run[..k] ==> g'.parent[c] == g.parent[c] && g'.point[c] == g.point[c] && g'.origPoint[c] == g.origPoint[c])
  }

  /** A run from the top of a distinct tableau holds distinct cards, none of them below it. */
  lemma {:induction false} RunApart(t: seq<Card>, run: seq<Card>)
    requires Distinct(t) && |run| <= |t| && run == t[|t| - |run|..]
    ensures forall a, b :: 0 <= a < b < |run| ==> run[a] != run[b]
    ensures forall a, m :: 0 <= a < |run| && 0 <= m < |t| - |run| ==> t[m] != run[a]
  {
    var b0 := |t| - |run|;
    forall a, b | 0 <= a < b < |run| ensures run[a] != run[b] {
      DistinctIndices(t, b0 + a, b0 + b);
    }
    forall a, m | 0 <= a < |run| && 0 <= m < b0 ensures t[m] != run[a] {
      DistinctIndices(t, m, b0 + a);
    }
  }

  /** One card of the run moves: it is still owned by tableau i, remove takes exactly it off i,
      and push puts it on j at the next slot. */
  lemma {:induction false} RunStep(g: Game, g': Game, lay: Layout, i: nat, j: nat, run: seq<Card>, k: nat)
    requires AttrsTotal(g) && AttrsTotal(g')
    requires i < |g.tableaus| && j < |g.tableaus| && j < |lay.tableauPoints| && i != j
    requires |run| <= |g.tableaus[i]| && run == g.tableaus[i][|g.tableaus[i]| - |run|..]
    requires forall a, b :: 0 <= a < b < |run| ==> run[a] != run[b]
    requires forall a, m :: 0 <= a < |run| && 0 <= m < |g.tableaus[i]| - |run| ==> g.tableaus[i][m] != run[a]
    requires k < |run| && g.parent[run[k]] == TableauOwner(i) && RunMoved(g, g', lay, i, j, run, k)
    ensures g'.parent[run[k]] == TableauOwner(i)
    ensures AttrsTotal(TableauPush(TableauRemove(g', i, run[k]), lay, j, run[k]))
    ensures RunMoved(g, TableauPush(TableauRemove(g', i, run[k]), lay, j, run[k]), lay, i, j, run, k + 1)
  {
    RunStepPiles(g, g', lay, i, j, run, k);
    RunNextOwned(g, g', lay, i, j, run, k);
    var n := |g'.tableaus[j]|;
    assert n == |g.tableaus[j]| + k;
    PushedMaps(g', lay, i, j, run[k]);
    RunStepAttrs(g, g', TableauPush(TableauRemove(g', i, run[k]), lay, j, run[k]), lay, j, run, k, TableauSlot(lay.tableauPoints[j], n));
  }

  lemma {:induction false} RunStepPiles(g: Game, g': Game, lay: Layout, i: nat, j: nat, run: seq<Card>, k: nat)
    requires i < |g.tableaus| && j < |g.tableaus| && j < |lay.tableauPoints| && i != j
    requires |run| <= |g.tableaus[i]| && run == g.tableaus[i][|g.tableaus[i]| - |run|..]
    requires forall a, b :: 0 <= a < b < |run| ==> run[a] != run[b]
    requires forall a, m :: 0 <= a < |run| && 0 <= m < |g.tableaus[i]| - |run| ==> g.tableaus[i][m] != run[a]
    requires k < |run| && RunPiles(g, g', i, j, run, k)
    ensures RunPiles(g, TableauPush(TableauRemove(g', i, run[k]), lay, j, run[k]), i, j, run, k + 1)
  {
    var t := g.tableaus[i];
    var c := run[k];
    var ts := g'.tableaus;
    RunRemoveNext(t, run, k);
    PushedPiles(g', lay, i, j, c);
    var g2 := TableauPush(TableauRemove(g', i, c), lay, j, c);
    assert g2.tableaus[j] == g.tableaus[j] + run[..k + 1] by {
      assert run[..k + 1] == run[..k] + [c];
    }
    forall m | 0 <= m < |g.tableaus| && m != i && m != j ensures g2.tableaus[m] == g.tableaus[m] {
      assert g2.tableaus[m] == ts[m];
    }
  }

  /** Removing the next card of a run that sits on top of t takes it off the bottom of what is
      left of the run. */
  lemma {:induction false} RunRemoveNext(t: seq<Card>, run: seq<Card>, k: nat)
    requires |run| <= |t| && run == t[|t| - |run|..]
    requires forall a, m :: 0 <= a < |run| && 0 <= m < |t| - |run| ==> t[m] != run[a]
    requires k < |run|
    ensures Remove(t[..|t| - |run|] + run[k..], run[k]) == t[..|t| - |run|] + run[k + 1..]
  {
    var below := t[..|t| - |run|];
    var c := run[k];
    RunNotBelow(t, run, k);
    RemoveAfter(below, c, run[k + 1..]);
    assert below + [c] + run[k + 1..] == below + run[k..] by {
      assert run[k..] == [c] + run[k + 1..];
    }
  }

  /** No card of a run on top of t lies below the run. */
  lemma {:induction false} RunNotBelow(t: seq<Card>, run: seq<Card>, k: nat)
    requires |run| <= |t|
    requires forall a, m :: 0 <= a < |run| && 0 <= m < |t| - |run| ==> t[m] != run[a]
    requires k < |run|
    ensures run[k] !in t[..|t| - |run|]
  {
    var below := t[..|t| - |run|];
    forall m | 0 <= m < |below| ensures below[m] != run[k] {
      assert below[m] == t[m];
    }
  }

  /** What moving card c from tableau i onto another tableau j does to the piles. */
  lemma {:induction false} PushedPiles(g: Game, lay: Layout, i: nat, j: nat, c: Card)
    requires i < |g.tableaus| && j < |g.tableaus| && j < |lay.tableauPoints| && i != j
    ensures var g2 := TableauPush(TableauRemove(g, i, c), lay, j, c);
      && g2.source == g.source && g2.deck == g.deck && g2.foundations == g.foundations
      && g2.nextNumber == g.nextNumber && g2.hidden == g.hidden
      && g2.tableaus == g.tableaus[i := Remove(g.tableaus[i], c)][j := g.tableaus[j] + [c]]
  {
    var g1 := TableauRemove(g, i, c);
    assert g1.tableaus[j] == g.tableaus[j];
  }

  /** The card about to move has kept its owner, tableau i. */
  lemma {:induction false} RunNextOwned(g: Game, g': Game, lay: Layout, i: nat, j: nat, run: seq<Card>, k: nat)
    requires k < |run|
    requires AttrsTotal(g) && AttrsTotal(g')
    requires j < |g.tableaus| && j < |lay.tableauPoints|
    requires forall m :: 0 <= m < k ==> run[m] != run[k]
    requires g.parent[run[k]] == TableauOwner(i)
    requires RunAttrs(g, g', lay, j, run, k)
    ensures g'.parent[run[k]] == TableauOwner(i)
  {
    NotInPrefix(run, k);
  }

  /** Moving card k of the run onto j extends the card part of RunMoved by that card. */
  lemma {:induction false} RunStepAttrs(g: Game, g': Game, g2: Game, lay: Layout, j: nat, run: seq<Card>, k: nat, q: Point)
    requires k < |run|
    requires AttrsTotal(g) && AttrsTotal(g') && AttrsTotal(g2)
    requires j < |g.tableaus| && j < |lay.tableauPoints|
    requires forall m :: 0 <= m < k ==> run[m] != run[k]
    requires RunAttrs(g, g', lay, j, run, k)
    requires q == TableauSlot(lay.tableauPoints[j], |g.tableaus[j]| + k)
    requires g2.parent == g'.parent[run[k] := TableauOwner(j)] && g2.point == g'.point[run[k] := q] && g2.origPoint == g'.origPoint[run[k] := q]
    ensures RunAttrs(g, g2, lay, j, run, k + 1)
  {
    RunAttrsOn(g, g', g2, lay, j, run, k);
    RunAttrsOff(g, g', g2, run, k, TableauOwner(j), q);
    RunAttrsIntro(g, g2, lay, j, run, k + 1);
  }

  lemma {:induction false} NotInPrefix(run: seq<Card>, k: nat)
    requires k < |run|
    requires forall m :: 0 <= m < k ==> run[m] != run[k]
    ensures run[k] !in run[..k]
  {
    forall m | 0 <= m < k ensures run[..k][m] != run[k] {
      assert run[..k][m] == run[m];
    }
  }

  /** What moving card c from tableau i onto another tableau j does to the card attributes. */
  lemma {:induction false} PushedMaps(g: Game, lay: Layout, i: nat, j: nat, c: Card)
    requires AttrsTotal(g) && i < |g.tableaus| && j < |g.tableaus| && j < |lay.tableauPoints| && i != j
    ensures var g2 := TableauPush(TableauRemove(g, i, c), lay, j, c);
      var q := TableauSlot(lay.tableauPoints[j], |g.tableaus[j]|);
      && AttrsTotal(g2)
      && g2.parent == g.parent[c := TableauOwner(j)] && g2.point == g.point[c := q] && g2.origPoint == g.origPoint[c := q]
  {
    var g1 := TableauRemove(g, i, c);
    assert g1.tableaus[j] == g.tableaus[j];
  }

  /** The cards already moved, and the one moving now, are at their slots on j. */
  lemma {:induction false} RunAttrsOn(g: Game, g': Game, g2: Game, lay: Layout, j: nat, run: seq<Card>, k: nat)
    requires k < |run| && j < |g.tableaus| && j < |lay.tableauPoints|
    requires AttrsTotal(g') && AttrsTotal(g2)
    requires forall m :: 0 <= m < k ==> run[m] != run[k]
    requires forall m :: 0 <= m < k ==>
          && g'.parent[run[m]] == TableauOwner(j)
          && g'.point[run[m]] == TableauSlot(lay.tableauPoints[j], |g.tableaus[j]| + m)
          && g'.origPoint[run[m]] == g'.point[run[m]]
    requires var q := TableauSlot(lay.tableauPoints[j], |g.tableaus[j]| + k);
      g2.parent == g'.parent[run[k] := TableauOwner(j)] && g2.point == g'.point[run[k] := q] && g2.origPoint == g'.origPoint[run[k] := q]
    ensures forall m :: 0 <= m < k + 1 ==>
          && g2.parent[run[m]] == TableauOwner(j)
          && g2.point[run[m]] == TableauSlot(lay.tableauPoints[j], |g.tableaus[j]| + m)
          && g2.origPoint[run[m]] == g2.point[run[m]]
  {
    forall m | 0 <= m < k + 1
      ensures g2.parent[run[m]] == TableauOwner(j)
      ensures g2.point[run[m]] == TableauSlot(lay.tableauPoints[j], |g.tableaus[j]| + m)
      ensures g2.origPoint[run[m]] == g2.point[run[m]]
    {
      if m < k {
        assert run[m] != run[k];
      }
    }
  }

  /** Every card outside the moved part still has its attributes of before the move. */
  lemma {:induction false} RunAttrsOff(g: Game, g': Game, g2: Game, run: seq<Card>, k: nat, o: Owner, q: Point)
    requires k < |run|
    requires AttrsTotal(g) && AttrsTotal(g') && AttrsTotal(g2)
    requires forall x :: x !in run[..k] ==> g'.parent[x] == g.parent[x] && g'.point[x] == g.point[x] && g'.origPoint[x] == g.origPoint[x]
    requires g2.parent == g'.parent[run[k] := o] && g2.point == g'.point[run[k] := q] && g2.origPoint == g'.origPoint[run[k] := q]
    ensures forall x :: x !in run[..k + 1] ==> g2.parent[x] == g.parent[x] && g2.point[x] == g.point[x] && g2.origPoint[x] == g.origPoint[x]
  {
    assert run[..k + 1] == run[..k] + [run[k]];
    forall x | x !in run[..k + 1]
      ensures g2.parent[x] == g.parent[x] && g2.point[x] == g.point[x] && g2.origPoint[x] == g.origPoint[x]
    {
      assert x != run[k] && x !in run[..k];
    }
  }

  lemma {:induction false} RunAttrsIntro(g: Game, g': Game, lay: Layout, j: nat, run: seq<Card>, k: nat)
    requires AttrsTotal(g) && AttrsTotal(g')
    requires j < |g.tableaus| && j < |lay.tableauPoints| && k <= |run|
    requires forall m :: 0 <= m < k ==>
          && g'.parent[run[m]] == TableauOwner(j)
          && g'.point[run[m]] == TableauSlot(lay.tableauPoints[j], |g.tableaus[j]| + m)
          && g'.origPoint[run[m]] == g'.point[run[m]]
    requires forall x :: x !in run[..k] ==> g'.parent[x] == g.parent[x] && g'.point[x] == g.point[x] && g'.origPoint[x] == g.origPoint[x]
    ensures RunAttrs(g, g', lay, j, run, k)
  {
  }

  /** Where a run's cards are not: in no other pile, and not below the run in its own tableau. */
  ghost predicate RunOutside(g: Game, i: nat, run: seq<Card>)
    requires i < |g.tableaus| && |run| <= |g.tableaus[i]|
  {
    var t := g.tableaus[i];
    && (forall c :: c in run ==> c !in g.deck && c !in g.source)
    && (forall m, c :: 0 <= m < |g.tableaus| && m != i && c in g.tableaus[m] ==> c !in run)
    && (forall f, c :: 0 <= f < |g.foundations| && c in g.foundations[f] ==> c !in run)
    && (forall k :: 0 <= k < |t| - |run| ==> t[k] !in run)
  }

  /** In a well-formed game, a run at the top of a tableau is distinct and lies in no other pile. */
  lemma {:induction false} RunOutsideHolds(g: Game, lay: Layout, i: nat, run: seq<Card>)
    requires GameOk(g, lay) && i < 7
    requires |run| <= |g.tableaus[i]| && run == g.tableaus[i][|g.tableaus[i]| - |run|..]
    ensures Distinct(g.tableaus[i]) && RunOutside(g, i, run)
    ensures forall c :: c in run ==> g.parent[c] == TableauOwner(i)
  {
    var t := g.tableaus[i];
    ConservedDistinct(g.source, g.deck, g.foundations, g.tableaus);
    FlattenDistinctPile(g.tableaus, i);
    RunApart(t, run);
    forall c | c in run ensures c in t && c in Flatten(g.tableaus) {
      InFlatten(g.tableaus, i, c);
    }
    forall m, c | 0 <= m < |g.tableaus| && m != i && c in g.tableaus[m] ensures c !in run {
      FlattenDisjoint(g.tableaus, m, i, c);
    }
    forall f, c | 0 <= f < |g.foundations| && c in g.foundations[f] ensures c !in run {
      InFlatten(g.foundations, f, c);
    }
    forall k | 0 <= k < |t| - |run| ensures t[k] !in run {
      forall a | 0 <= a < |run| ensures run[a] != t[k] {
        DistinctIndices(t, k, |t| - |run| + a);
      }
    }
  }

  /** The run is the face-up top part (two cards or more) of tableau i, and tableau j != i
      accepts its first card. */
  ghost predicate RunCond(g: Game, i: nat, j: nat, run: seq<Card>)
    requires AttrsTotal(g)
  {
    && |g.tableaus| == 7 && i < 7 && j < 7 && i != j
    && 2 <= |run| <= |g.tableaus[i]| && run == g.tableaus[i][|g.tableaus[i]| - |run|..] && !g.hidden[run[0]]
    && TableauIsPushable(g.tableaus[j], run[0])
  }

  /** The piles once the whole run has moved from tableau i to tableau j. */
  ghost predicate RunPilesDone(g: Game, g': Game, i: nat, j: nat, run: seq<Card>)
    requires i < |g.tableaus| && j < |g.tableaus| && |run| <= |g.tableaus[i]|
  {
    && g'.source == g.source && g'.deck == g.deck && g'.foundations == g.foundations
    && g'.nextNumber == g.nextNumber && g'.hidden == g.hidden
    && |g'.tableaus| == |g.tableaus|
    && g'.tableaus[i] == g.tableaus[i][..|g.tableaus[i]| - |run|] && g'.tableaus[j] == g.tableaus[j] + run
    && forall m :: 0 <= m < |g.tableaus| && m != i && m != j ==> g'.tableaus[m] == g.tableaus[m]
  }

  /** The card attributes once the whole run has moved onto tableau j. */
  ghost predicate RunCardsDone(g: Game, g': Game, lay: Layout, j: nat, run: seq<Card>)
    requires AttrsTotal(g) && AttrsTotal(g') && j < |g.tableaus| && j < |lay.tableauPoints|
  {
    && (forall m :: 0 <= m < |run| ==> g'.parent[run[m]] == TableauOwner(j))
    && (forall m :: 0 <= m < |run| ==> g'.origPoint[run[m]] == TableauSlot(lay.tableauPoints[j], |g.tableaus[j]| + m))
    && (forall c :: c !in run ==> g'.parent[c] == g.parent[c] && g'.origPoint[c] == g.origPoint[c])
  }

  lemma {:induction false} RunMovedDone(g: Game, g': Game, lay: Layout, i: nat, j: nat, run: seq<Card>)
    requires AttrsTotal(g) && AttrsTotal(g')
    requires i < |g.tableaus| && j < |g.tableaus| && j < |lay.tableauPoints| && |run| <= |g.tableaus[i]|
    requires RunMoved(g, g', lay, i, j, run, |run|)
    ensures RunPilesDone(g, g', i, j, run) && RunCardsDone(g, g', lay, j, run)
  {
    assert run[|run|..] == [] && run[..|run|] == run;
    assert g.tableaus[i][..|g.tableaus[i]| - |run|] + [] == g.tableaus[i][..|g.tableaus[i]| - |run|];
  }

  /** Moving a whole run that tableau j accepts keeps the game well-formed. */
  lemma {:induction false} RunMoveOk(g: Game, g': Game, lay: Layout, i: nat, j: nat, run: seq<Card>)
    requires GameOk(g, lay) && RunCond(g, i, j, run)
    requires AttrsTotal(g') && RunMoved(g, g', lay, i, j, run, |run|)
    ensures GameOk(g', lay)
  {
    RunOutsideHolds(g, lay, i, run);
    RunMovedDone(g, g', lay, i, j, run);
    RunMoveTableaus(g, g', lay, i, j, run);
    RunMoveConserved(g, g', i, j, run);
    RunMoveLayout(g, g', lay, i, j, run);
  }

  lemma {:induction false} RunMoveTableaus(g: Game, g': Game, lay: Layout, i: nat, j: nat, run: seq<Card>)
    requires AttrsTotal(g) && AttrsTotal(g') && OwnersInRange(g.parent)
    requires TableausOk(g.tableaus, g.hidden, g.parent) && DeckOk(g.deck, g.hidden, g.parent)
    requires RunCond(g, i, j, run) && RunOutside(g, i, run) && |lay.tableauPoints| == 7
    requires RunPilesDone(g, g', i, j, run) && RunCardsDone(g, g', lay, j, run)
    ensures OwnersInRange(g'.parent) && DeckOk(g'.deck, g'.hidden, g'.parent)
    ensures TableausOk(g'.tableaus, g'.hidden, g'.parent)
  {
    RunOwners(g, g', j, run);
    RunShapes(g, g', i, j, run);
    RunParents(g, g', i, j, run);
  }

  lemma {:induction false} RunOwners(g: Game, g': Game, j: nat, run: seq<Card>)
    requires AttrsTotal(g) && AttrsTotal(g') && OwnersInRange(g.parent) && j < 7
    requires DeckOk(g.deck, g.hidden, g.parent) && g'.deck == g.deck && g'.hidden == g.hidden
    requires forall c :: c in run ==> c !in g.deck
    requires forall m :: 0 <= m < |run| ==> g'.parent[run[m]] == TableauOwner(j)
    requires forall c :: c !in run ==> g'.parent[c] == g.parent[c]
    ensures OwnersInRange(g'.parent) && DeckOk(g'.deck, g'.hidden, g'.parent)
  {
    forall c | c in g'.parent && g'.parent[c].TableauOwner? ensures g'.parent[c].index < 7 {
      if c in run {
        var a :| 0 <= a < |run| && run[a] == c;
      }
    }
  }

  lemma {:induction false} RunShapes(g: Game, g': Game, i: nat, j: nat, run: seq<Card>)
    requires AttrsTotal(g) && TableausOk(g.tableaus, g.hidden, g.parent)
    requires i < 7 && j < 7 && i != j
    requires 2 <= |run| <= |g.tableaus[i]| && run == g.tableaus[i][|g.tableaus[i]| - |run|..] && !g.hidden[run[0]]
    requires TableauIsPushable(g.tableaus[j], run[0])
    requires g'.hidden == g.hidden && |g'.tableaus| == 7
    requires g'.tableaus[i] == g.tableaus[i][..|g.tableaus[i]| - |run|] && g'.tableaus[j] == g.tableaus[j] + run
    requires forall m :: 0 <= m < 7 && m != i && m != j ==> g'.tableaus[m] == g.tableaus[m]
    ensures forall m :: 0 <= m < 7 ==> TableauOk(g'.tableaus[m], g.hidden)
  {
    var t := g.tableaus[i];
    var b := |t| - |run|;
    TableauOkPrefix(t, g.hidden, b);
    TableauOkSuffix(t, g.hidden, b);
    AppendRunKeepsTableauOk(g.tableaus[j], run, g.hidden);
  }

  lemma {:induction false} RunParents(g: Game, g': Game, i: nat, j: nat, run: seq<Card>)
    requires AttrsTotal(g) && AttrsTotal(g') && TableausOk(g.tableaus, g.hidden, g.parent)
    requires i < 7 && j < 7 && i != j
    requires |run| <= |g.tableaus[i]| && RunOutside(g, i, run)
    requires |g'.tableaus| == 7
    requires g'.tableaus[i] == g.tableaus[i][..|g.tableaus[i]| - |run|] && g'.tableaus[j] == g.tableaus[j] + run
    requires forall m :: 0 <= m < 7 && m != i && m != j ==> g'.tableaus[m] == g.tableaus[m]
    requires forall m :: 0 <= m < |run| ==> g'.parent[run[m]] == TableauOwner(j)
    requires forall c :: c !in run ==> g'.parent[c] == g.parent[c]
    ensures forall m, c :: 0 <= m < 7 && c in g'.tableaus[m] ==> g'.parent[c] == TableauOwner(m)
  {
    var t := g.tableaus[i];
    var b := |t| - |run|;
    forall m, c | 0 <= m < 7 && c in g'.tableaus[m] ensures g'.parent[c] == TableauOwner(m) {
      if m == j && c in run {
        var a :| 0 <= a < |run| && run[a] == c;
      } else if m == i {
        var k :| 0 <= k < b && t[..b][k] == c;
        assert t[k] == c;
      }
    }
  }

  lemma {:induction false} RunMoveConserved(g: Game, g': Game, i: nat, j: nat, run: seq<Card>)
    requires Conserved(g.source, g.deck, g.foundations, g.tableaus)
    requires i < |g.tableaus| && j < |g.tableaus| && i != j
    requires |run| <= |g.tableaus[i]| && run == g.tableaus[i][|g.tableaus[i]| - |run|..]
    requires RunPilesDone(g, g', i, j, run)
    ensures Conserved(g'.source, g'.deck, g'.foundations, g'.tableaus)
  {
    var t := g.tableaus[i];
    var below := t[..|t| - |run|];
    assert t == below + run;
    assert g'.tableaus == g.tableaus[i := below][j := g.tableaus[j] + run];
    FlattenMoveRun(g.tableaus, i, j, below, run);
    var pre := g.source + g.deck + Flatten(g.foundations);
    assert Everything(g.source, g.deck, g.foundations, g.tableaus) == pre + Flatten(g.tableaus);
    assert Everything(g'.source, g'.deck, g'.foundations, g'.tableaus) == pre + Flatten(g'.tableaus);
    assert multiset(pre + Flatten(g'.tableaus)) == multiset(pre + Flatten(g.tableaus));
  }

  /** Moving the top part of pile i onto pile j keeps the multiset of all their cards. */
  lemma {:induction false} FlattenMoveRun(ts: seq<seq<Card>>, i: nat, j: nat, below: seq<Card>, run: seq<Card>)
    requires i < |ts| && j < |ts| && i != j && ts[i] == below + run
    ensures multiset(Flatten(ts[i := below][j := ts[j] + run])) == multiset(Flatten(ts))
  {
    var ts1 := ts[i := below];
    FlattenUpdate(ts, i, below);
    FlattenUpdate(ts1, j, ts[j] + run);
    var m0, m1, m2 := multiset(Flatten(ts)), multiset(Flatten(ts1)), multiset(Flatten(ts1[j := ts[j] + run]));
    var mb, mr, mj := multiset(below), multiset(run), multiset(ts[j]);
    assert m1 + (mb + mr) == m0 + mb;
    assert m2 + mj == m1 + (mj + mr);
    forall x ensures m2[x] == m0[x] {
      assert (m1 + (mb + mr))[x] == (m0 + mb)[x];
      assert (m2 + mj)[x] == (m1 + (mj + mr))[x];
    }
  }

  lemma {:induction false} RunMoveLayout(g: Game, g': Game, lay: Layout, i: nat, j: nat, run: seq<Card>)
    requires AttrsTotal(g) && AttrsTotal(g') && LayoutOk(g, lay)
    requires |g.tableaus| == 7 && |lay.tableauPoints| == 7 && i < 7 && j < 7 && i != j
    requires |run| <= |g.tableaus[i]| && RunOutside(g, i, run)
    requires RunPilesDone(g, g', i, j, run) && RunCardsDone(g, g', lay, j, run)
    ensures LayoutOk(g', lay)
  {
    forall m | 0 <= m < 7 ensures AtSlots(g'.tableaus[m], g'.origPoint, lay.tableauPoints[m]) {
      var t := g.tableaus[m];
      AtSlotsOf(g, lay, m);
      if m == i {
        SlotsPrefix(t, g.origPoint, lay.tableauPoints[m], |t| - |run|);
        SlotsFrame(t[..|t| - |run|], g.origPoint, g'.origPoint, lay.tableauPoints[m]);
      } else {
        SlotsFrame(t, g.origPoint, g'.origPoint, lay.tableauPoints[m]);
        if m == j {
          SlotsAppend(t, run, g'.origPoint, lay.tableauPoints[m]);
        }
      }
    }
    SlotsLayout(g', lay);
    assert forall c :: c in g.deck ==> c !in run;
    assert forall f, c :: 0 <= f < |g.foundations| && c in g.foundations[f] ==> c !in run;
  }

  /** Card k of pile t is at home at slot k of a tableau at tp. */
  ghost predicate AtSlots(t: seq<Card>, origPoint: map<Card, Point>, tp: Point)
  {
    forall k :: 0 <= k < |t| ==> t[k] in origPoint && origPoint[t[k]] == TableauSlot(tp, k)
  }

  lemma {:induction false} AtSlotsOf(g: Game, lay: Layout, m: nat)
    requires AttrsTotal(g) && LayoutOk(g, lay) && m < |g.tableaus| && m < |lay.tableauPoints|
    ensures AtSlots(g.tableaus[m], g.origPoint, lay.tableauPoints[m])
  {
  }

  lemma {:induction false} SlotsLayout(g: Game, lay: Layout)
    requires AttrsTotal(g)
    requires forall m :: 0 <= m < |g.tableaus| && m < |lay.tableauPoints| ==> AtSlots(g.tableaus[m], g.origPoint, lay.tableauPoints[m])
    ensures forall m, k :: 0 <= m < |g.tableaus| && m < |lay.tableauPoints| && 0 <= k < |g.tableaus[m]| ==>
          g.origPoint[g.tableaus[m][k]] == TableauSlot(lay.tableauPoints[m], k)
  {
    forall m, k | 0 <= m < |g.tableaus| && m < |lay.tableauPoints| && 0 <= k < |g.tableaus[m]|
      ensures g.origPoint[g.tableaus[m][k]] == TableauSlot(lay.tableauPoints[m], k)
    {
      assert AtSlots(g.tableaus[m], g.origPoint, lay.tableauPoints[m]);
    }
  }

  lemma {:induction false} SlotsPrefix(t: seq<Card>, o: map<Card, Point>, tp: Point, n: nat)
    requires AtSlots(t, o, tp) && n <= |t|
    ensures AtSlots(t[..n], o, tp)
  {
    forall k | 0 <= k < n ensures t[..n][k] == t[k] { }
  }

  lemma {:induction false} SlotsFrame(t: seq<Card>, o: map<Card, Point>, o': map<Card, Point>, tp: Point)
    requires AtSlots(t, o, tp)
    requires forall c :: c in t ==> c in o' && o'[c] == o[c]
    ensures AtSlots(t, o', tp)
  {
    forall k | 0 <= k < |t| ensures t[k] in t { }
  }

  lemma {:induction false} SlotsAppend(t: seq<Card>, run: seq<Card>, o: map<Card, Point>, tp: Point)
    requires AtSlots(t, o, tp)
    requires forall m :: 0 <= m < |run| ==> run[m] in o && o[run[m]] == TableauSlot(tp, |t| + m)
    ensures AtSlots(t + run, o, tp)
  {
    forall k | 0 <= k < |t + run| ensures (t + run)[k] in o && o[(t + run)[k]] == TableauSlot(tp, k) {
      if k >= |t| {
        assert (t + run)[k] == run[k - |t|];
      }
    }
  }

  /** A held run is never accepted by its own tableau, so a legal run drop moves it elsewhere. */
  lemma {:induction false} RunNotOnOwn(g: Game, lay: Layout, run: seq<Card>)
    requires GameOk(g, lay) && DragOk(g, Run(run)) && run != []
    ensures g.parent[run[0]].TableauOwner? && g.parent[run[0]].index < 7
    ensures !TableauIsPushable(g.tableaus[g.parent[run[0]].index], run[0])
  {
    var i := g.parent[run[0]].index;
    var t := g.tableaus[i];
    assert t[|t| - |run|] == run[0];
    OwnTableauRejects(t, g.hidden, |t| - |run|);
  }

  // ---------------------------------------------------------------- positions only

  /** Card.reset puts a card back on its original spot and keeps the game well-formed. */
  lemma {:induction false} CardResetOk(g: Game, lay: Layout, c: Card, d: Dragged)
    requires GameOk(g, lay)
    ensures GameOk(CardReset(g, c), lay) && CardReset(g, c).point[c] == g.origPoint[c]
    ensures Held(g, d) <==> Held(CardReset(g, c), d)
  {
    PointsOnlyOk(g, lay, g.point[c := g.origPoint[c]], d);
  }

  /** Current positions play no part in the invariant or in what may be held. */
  lemma {:induction false} PointsOnlyOk(g: Game, lay: Layout, point': map<Card, Point>, d: Dragged)
    requires GameOk(g, lay) && forall c: Card :: c in point'
    ensures GameOk(g.(point := point'), lay)
    ensures Held(g, d) <==> Held(g.(point := point'), d)
  {
    var g' := g.(point := point');
    assert LayoutOk(g', lay);
    assert TableausOk(g'.tableaus, g'.hidden, g'.parent);
    PointsOnlyHeld(g, point', d);
  }

  /** What is held does not depend on where the cards are drawn. */
  lemma {:induction false} PointsOnlyHeld(g: Game, point': map<Card, Point>, d: Dragged)
    requires AttrsTotal(g) && forall c: Card :: c in point'
    ensures Held(g, d) <==> Held(g.(point := point'), d)
  {
    var g' := g.(point := point');
    assert g'.parent == g.parent && g'.deck == g.deck && g'.tableaus == g.tableaus && g'.hidden == g.hidden;
  }

  /** What a press leaves in the hand holds distinct cards, so moving them moves each once. */
  lemma {:induction false} HeldDistinct(g: Game, lay: Layout, d: Dragged)
    requires GameOk(g, lay) && Held(g, d)
    ensures Distinct(Unit(d))
  {
    match d
    case Nothing =>
    case Single(c) =>
      assert multiset([c]) == multiset{c};
    case Run(cs) =>
      if cs != [] {
        var i := g.parent[cs[0]].index;
        var t := g.tableaus[i];
        ConservedDistinct(g.source, g.deck, g.foundations, g.tableaus);
        FlattenDistinctPile(g.tableaus, i);
        assert t == t[..|t| - |cs|] + cs;
        DistinctSplit(t[..|t| - |cs|], cs);
      }
  }
}


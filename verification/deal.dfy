/**
 * The dealing part of Setup (src/main.js:207-235): build the 52 cards, then pick cards at
 * random indices out of the remaining ones into seven tableaus of 1..7 cards. The random
 * indices are an input: `picks[n]` is the n-th index Math.random produced, below the number
 * of cards still undealt at that moment.
 */
module Deal {
  import opened Cards
  import opened Geometry
  import opened Piles
  import opened Board
  import opened Invariants

  /** The nested setup loop creates the cards suit by suit, ranks 1..13: the 52 distinct cards. */
  method NewCards() returns (cards: seq<Card>)
    ensures cards == AllCards()
    ensures |cards| == 52 && Distinct(cards) && EachOnce(cards)
    ensures forall c: Card :: c in cards
  {
    cards := [];
    for i := 0 to 4
      invariant cards == AllCards()[..13 * i]
    {
      for j := 0 to 13
        invariant cards == AllCards()[..13 * i + j]
      {
        assert AllCards()[..13 * i + j + 1] == AllCards()[..13 * i + j] + [Card(j + 1, i)];
        cards := cards + [Card(j + 1, i)];
      }
    }
    assert cards == AllCards();
    AllCardsUniverse();
    forall c: Card ensures c in cards {
      assert multiset(cards)[c] == 1;
    }
    EachOnceIffAllCards(cards);
  }

  /** The number of picks made before tableau i (0..7): 1 + 2 + ... + i. */
  function Dealt(i: nat): nat
    requires i <= 7
  {
    [0, 1, 3, 6, 10, 15, 21, 28][i]
  }

  lemma {:induction false} DealtStep(i: nat)
    requires i < 7
    ensures Dealt(i + 1) == Dealt(i) + i + 1 <= 28
  {
  }

  /** The random indices ps applied in turn to the undealt cards source0, each taking the card
      at that index out: the cards taken, in order, and the cards left. Every card of source0
      ends up in exactly one of the two. */
  function Picked(source0: seq<Card>, ps: seq<nat>): (r: (seq<Card>, seq<Card>))
    requires forall m :: 0 <= m < |ps| ==> ps[m] < |source0| - m
    ensures |r.0| == |ps| && |r.1| == |source0| - |ps|
    ensures multiset(r.1) + multiset(r.0) == multiset(source0)
    decreases |ps|
  {
    if ps == [] then ([], source0)
    else
      var r := Picked(source0, ps[..|ps| - 1]);
      var k := ps[|ps| - 1];
      assert r.1 == r.1[..k] + [r.1[k]] + r.1[k + 1..];
      (r.0 + [r.1[k]], r.1[..k] + r.1[k + 1..])
  }

  /** One more pick takes the card at its index out of what the earlier picks left. */
  lemma {:induction false} PickedStep(source0: seq<Card>, ps: seq<nat>, j: nat, t: seq<Card>, source: seq<Card>)
    requires forall m :: 0 <= m < |ps| ==> ps[m] < |source0| - m
    requires j < |ps| && (t, source) == Picked(source0, ps[..j])
    ensures ps[j] < |source|
    ensures Picked(source0, ps[..j + 1]) == (t + [source[ps[j]]], source[..ps[j]] + source[ps[j] + 1..])
  {
    var qs := ps[..j + 1];
    assert qs[..|qs| - 1] == ps[..j] && qs[|qs| - 1] == ps[j];
  }

  /** The tableaus 0 .. i-1 the random picks deal out of cards, and the cards left undealt:
      tableau k is the next k + 1 picks taken from what the earlier tableaus left. */
  function Deals(cards: seq<Card>, picks: seq<nat>, i: nat): (r: (seq<seq<Card>>, seq<Card>))
    requires |cards| == 52 && i <= 7
    requires |picks| == 28 && forall n :: 0 <= n < 28 ==> picks[n] < 52 - n
    ensures |r.0| == i && |r.1| == 52 - Dealt(i)
    decreases i
  {
    if i == 0 then ([], cards)
    else
      var r := Deals(cards, picks, i - 1);
      var p := Picked(r.1, TableauPicks(picks, i - 1));
      DealtStep(i - 1);
      (r.0 + [p.0], p.1)
  }

  /** Dealing tableau i appends the cards its picks take out of what the earlier tableaus left. */
  lemma {:induction false} DealsStep(cards: seq<Card>, picks: seq<nat>, i: nat)
    requires |cards| == 52 && i < 7
    requires |picks| == 28 && forall n :: 0 <= n < 28 ==> picks[n] < 52 - n
    ensures var r := Deals(cards, picks, i); var p := Picked(r.1, TableauPicks(picks, i));
      Deals(cards, picks, i + 1) == (r.0 + [p.0], p.1)
  {
  }

  /** The deal gives tableau k exactly k + 1 cards, and every card ends up either in one of
      the tableaus or among the undealt cards, exactly as often as it was among the cards. */
  lemma {:induction false} DealsCounts(cards: seq<Card>, picks: seq<nat>, i: nat)
    requires |cards| == 52 && i <= 7
    requires |picks| == 28 && forall n :: 0 <= n < 28 ==> picks[n] < 52 - n
    ensures var r := Deals(cards, picks, i);
      && (forall k :: 0 <= k < i ==> |r.0[k]| == k + 1)
      && multiset(r.1) + multiset(Flatten(r.0)) == multiset(cards)
    decreases i
  {
    if i > 0 {
      DealsCounts(cards, picks, i - 1);
      DealsStep(cards, picks, i - 1);
      var r := Deals(cards, picks, i - 1);
      var p := Picked(r.1, TableauPicks(picks, i - 1));
      DealtAppendCounts(cards, r.0, r.1, p.0, p.1);
    }
  }

  /** One more tableau of i + 1 cards taken out of the undealt ones keeps the counts. */
  lemma {:induction false} DealtAppendCounts(cards: seq<Card>, ts: seq<seq<Card>>, s: seq<Card>, t: seq<Card>, s': seq<Card>)
    requires forall k :: 0 <= k < |ts| ==> |ts[k]| == k + 1
    requires |t| == |ts| + 1
    requires multiset(s) + multiset(Flatten(ts)) == multiset(cards) && multiset(s') + multiset(t) == multiset(s)
    ensures forall k :: 0 <= k < |ts| + 1 ==> |(ts + [t])[k]| == k + 1
    ensures multiset(s') + multiset(Flatten(ts + [t])) == multiset(cards)
  {
    FlattenSnoc(ts, t);
  }

  /** The random indices the inner loop of tableau i uses: the i + 1 picks after the earlier
      tableaus' ones, each below the number of cards still undealt when it is drawn. */
  function TableauPicks(picks: seq<nat>, i: nat): (ps: seq<nat>)
    requires i < 7
    requires |picks| == 28 && forall n :: 0 <= n < 28 ==> picks[n] < 52 - n
    ensures |ps| == i + 1
    ensures forall m :: 0 <= m < |ps| ==> ps[m] < 52 - Dealt(i) - m
  {
    DealtStep(i);
    picks[Dealt(i)..Dealt(i) + i + 1]
  }

  /** Flattening one more pile appends its cards. */
  lemma {:induction false} FlattenSnoc(ss: seq<seq<Card>>, t: seq<Card>)
    ensures Flatten(ss + [t]) == Flatten(ss) + t
  {
    assert (ss + [t])[..|ss|] == ss;
  }

  /** The four per-card maps the deal writes: face state, position, home position and parent. */
  datatype Attrs = Attrs(hidden: map<Card, bool>, point: map<Card, Point>, origPoint: map<Card, Point>, parent: map<Card, Owner>)

  /** Every card has all four attributes. */
  ghost predicate Complete(a: Attrs)
  {
    Total(a.hidden, a.point, a.origPoint, a.parent)
  }

  /** Tableau.push of card c onto tableau i at slot point q, face-down exactly when hidden: the
      card's position and home become q and its parent the tableau. */
  function Push(a: Attrs, c: Card, i: nat, hidden: bool, q: Point): Attrs
  {
    Attrs(a.hidden[c := hidden], a.point[c := q], a.origPoint[c := q], a.parent[c := TableauOwner(i)])
  }

  /** Card c lies in tableau i at position j as the deal leaves it: face-down unless it is the
      tableau's last card (position i), at the tableau's j-th slot, owned by tableau i. */
  predicate Placed(c: Card, i: nat, j: nat, tp: Point, a: Attrs)
    requires Complete(a)
  {
    && a.hidden[c] == (j != i)
    && a.point[c] == TableauSlot(tp, j) && a.origPoint[c] == a.point[c]
    && a.parent[c] == TableauOwner(i)
  }

  /** Card c has the same attributes in both states. */
  predicate Untouched(c: Card, a0: Attrs, a: Attrs)
    requires Complete(a0) && Complete(a)
  {
    a.hidden[c] == a0.hidden[c] && a.point[c] == a0.point[c] && a.origPoint[c] == a0.origPoint[c] && a.parent[c] == a0.parent[c]
  }

  /** The deal after tableaus 0 .. i-1: the tableau points so far start at `start`, each one
      card width plus 30 px right of the last, and nextPoint is the next one; tableau k holds
      k + 1 cards laid out as Placed says; the undealt cards are the rest of `cards`, untouched. */
  ghost predicate DealtSoFar(i: nat, cards: seq<Card>, start: Point,
                             tableaus: seq<seq<Card>>, tableauPoints: seq<Point>, nextPoint: Point, source: seq<Card>, a0: Attrs, a: Attrs)
    requires i <= 7
  {
    && |tableaus| == i && |tableauPoints| == i && |source| == 52 - Dealt(i)
    && (i == 0 ==> nextPoint == start)
    && (0 < i ==> tableauPoints[0] == start && nextPoint == Translate(tableauPoints[i - 1], CardWidth + 30.0, 0.0))
    && (forall k :: 0 < k < i ==> tableauPoints[k] == Translate(tableauPoints[k - 1], CardWidth + 30.0, 0.0))
    && multiset(source) + multiset(Flatten(tableaus)) == multiset(cards)
    && Complete(a0) && Complete(a) && OwnersInRange(a.parent)
    && (forall k :: 0 <= k < i ==> |tableaus[k]| == k + 1)
    && (forall k, j :: 0 <= k < i && 0 <= j <= k ==> Placed(tableaus[k][j], k, j, tableauPoints[k], a))
    && (forall c :: c in source ==> Untouched(c, a0, a))
  }

  /**
   * The seven tableau points start at `start`, each one card width plus 30 px right of the last;
   * tableau i (0..6) gets i + 1 cards, each taken out of the undealt cards at the next random
   * index and laid out as Placed says; the 24 cards left over are the draw source, untouched.
   */
  method DealTableaus(cards: seq<Card>, picks: seq<nat>, start: Point, a0: Attrs)
    returns (tableaus: seq<seq<Card>>, tableauPoints: seq<Point>, source: seq<Card>, a: Attrs)
    requires |cards| == 52 && Distinct(cards)
    requires |picks| == 28 && forall n :: 0 <= n < 28 ==> picks[n] < 52 - n
    requires Complete(a0) && OwnersInRange(a0.parent)
    ensures Complete(a) && OwnersInRange(a.parent)
    ensures |tableaus| == 7 && |tableauPoints| == 7 && |source| == 24
    ensures multiset(source) + multiset(Flatten(tableaus)) == multiset(cards)
    ensures tableauPoints[0] == start
    ensures forall i :: 0 < i < 7 ==> tableauPoints[i] == Translate(tableauPoints[i - 1], CardWidth + 30.0, 0.0)
    ensures forall i :: 0 <= i < 7 ==> |tableaus[i]| == i + 1
    ensures forall i, j :: 0 <= i < 7 && 0 <= j <= i ==> Placed(tableaus[i][j], i, j, tableauPoints[i], a)
    ensures forall c :: c in source ==> Untouched(c, a0, a)
    ensures (tableaus, source) == Deals(cards, picks, 7)
  {
    tableaus, tableauPoints, source := [], [], cards;
    a := a0;
    var nextTableauPoint := start;
    var n := 0;
    for i := 0 to 7
      invariant n == Dealt(i)
      invariant DealtSoFar(i, cards, start, tableaus, tableauPoints, nextTableauPoint, source, a0, a)
      invariant (tableaus, source) == Deals(cards, picks, i)
    {
      tableaus, tableauPoints, source, a :=
        DealNext(cards, picks, start, i, n, tableaus, tableauPoints, nextTableauPoint, source, a0, a);
      DealtStep(i);
      n := n + i + 1;
      nextTableauPoint := Translate(nextTableauPoint, CardWidth + 30.0, 0.0);
    }
  }

  /** One turn of the deal loop: tableau i is laid out at tp and dealt its i + 1 cards. */
  method DealNext(cards: seq<Card>, picks: seq<nat>, start: Point, i: nat, n: nat,
                  tableaus: seq<seq<Card>>, tableauPoints: seq<Point>, tp: Point, source: seq<Card>, a0: Attrs, a: Attrs)
    returns (tableaus': seq<seq<Card>>, tableauPoints': seq<Point>, source': seq<Card>, a': Attrs)
    requires |cards| == 52 && Distinct(cards)
    requires |picks| == 28 && forall m :: 0 <= m < 28 ==> picks[m] < 52 - m
    requires i < 7 && n == Dealt(i)
    requires DealtSoFar(i, cards, start, tableaus, tableauPoints, tp, source, a0, a)
    requires (tableaus, source) == Deals(cards, picks, i)
    ensures DealtSoFar(i + 1, cards, start, tableaus', tableauPoints', Translate(tp, CardWidth + 30.0, 0.0), source', a0, a')
    ensures (tableaus', source') == Deals(cards, picks, i + 1)
  {
    DealtStep(i);
    var ps := TableauPicks(picks, i);
    UndealtDistinct(cards, source, tableaus);
    var t;
    t, source', a' := DealTableau(ps, i, tp, source, a);
    DealtAppend(cards, start, i, tableaus, tableauPoints, tp, source, t, source', a0, a, a');
    tableaus', tableauPoints' := tableaus + [t], tableauPoints + [tp];
  }

  /** Tableau i, dealt out of the undealt cards as DealTableau says, extends the deal so far. */
  lemma {:induction false} DealtAppend(cards: seq<Card>, start: Point, i: nat,
                                       tableaus: seq<seq<Card>>, tableauPoints: seq<Point>, tp: Point, source: seq<Card>,
                                       t: seq<Card>, source': seq<Card>, a0: Attrs, a: Attrs, a': Attrs)
    requires |cards| == 52 && Distinct(cards) && i < 7
    requires DealtSoFar(i, cards, start, tableaus, tableauPoints, tp, source, a0, a)
    requires Complete(a') && OwnersInRange(a'.parent)
    requires |t| == i + 1 && |source'| == |source| - (i + 1)
    requires multiset(source') + multiset(t) == multiset(source)
    requires forall j :: 0 <= j <= i ==> Placed(t[j], i, j, tp, a')
    requires forall c :: c !in t ==> Untouched(c, a, a')
    ensures DealtSoFar(i + 1, cards, start, tableaus + [t], tableauPoints + [tp], Translate(tp, CardWidth + 30.0, 0.0), source', a0, a')
  {
    DealtStep(i);
    NotDealtAgain(cards, source, tableaus, t, source');
    DealFrame(tableaus, tableauPoints, t, source, source', a0, a, a');
    PlacedAppend(tableaus, tableauPoints, t, tp, a');
  }

  /** The dealing part of Setup from scratch: the 52 cards, all face-down, unpositioned and
      without a parent, dealt into seven tableaus from start; the rest is the draw source. */
  method Setup(picks: seq<nat>, start: Point)
    returns (cards: seq<Card>, tableaus: seq<seq<Card>>, tableauPoints: seq<Point>, source: seq<Card>, a: Attrs)
    requires |picks| == 28 && forall n :: 0 <= n < 28 ==> picks[n] < 52 - n
    ensures EachOnce(cards)
    ensures Complete(a) && OwnersInRange(a.parent)
    ensures |tableaus| == 7 && |tableauPoints| == 7 && |source| == 24
    ensures multiset(source) + multiset(Flatten(tableaus)) == multiset(cards)
    ensures tableauPoints[0] == start
    ensures forall i :: 0 < i < 7 ==> tableauPoints[i] == Translate(tableauPoints[i - 1], CardWidth + 30.0, 0.0)
    ensures forall i :: 0 <= i < 7 ==> |tableaus[i]| == i + 1
    ensures forall i, j :: 0 <= i < 7 && 0 <= j <= i ==> Placed(tableaus[i][j], i, j, tableauPoints[i], a)
    ensures forall c :: c in source ==> a.hidden[c] && a.parent[c] == Unowned
    ensures cards == AllCards() && (tableaus, source) == Deals(cards, picks, 7)
  {
    cards := NewCards();
    var a0 := Attrs(map c | c in cards :: true, map c | c in cards :: Point(0.0, 0.0),
                    map c | c in cards :: Point(0.0, 0.0), map c | c in cards :: Unowned);
    tableaus, tableauPoints, source, a := DealTableaus(cards, picks, start, a0);
  }

  /** The inner loop of the deal for tableau i: i + 1 picks starting at picks[n0]. */
  method DealTableau(ps: seq<nat>, i: nat, tp: Point, source0: seq<Card>, a0: Attrs)
    returns (t: seq<Card>, source: seq<Card>, a: Attrs)
    requires |ps| == i + 1 && i < 7
    requires forall m :: 0 <= m < |ps| ==> ps[m] < |source0| - m
    requires Distinct(source0)
    requires Complete(a0) && OwnersInRange(a0.parent)
    ensures Complete(a) && OwnersInRange(a.parent)
    ensures |t| == i + 1 && |source| == |source0| - (i + 1)
    ensures multiset(source) + multiset(t) == multiset(source0)
    ensures forall j :: 0 <= j <= i ==> Placed(t[j], i, j, tp, a)
    ensures forall c :: c !in t ==> Untouched(c, a0, a)
    ensures (t, source) == Picked(source0, ps)
  {
    t, source := [], source0;
    a := a0;
    for j := 0 to i + 1
      invariant DealingSoFar(j, i, tp, source0, a0, t, source, a)
      invariant (t, source) == Picked(source0, ps[..j])
    {
      t, source, a := DealCard(ps[j], i, j, tp, source0, a0, ps, t, source, a);
    }
    assert ps[..i + 1] == ps;
  }

  /** Tableau i after its first j cards: they are laid out as Placed says and taken out of the
      undealt cards; every other card is untouched. */
  ghost predicate DealingSoFar(j: nat, i: nat, tp: Point, source0: seq<Card>, a0: Attrs,
                               t: seq<Card>, source: seq<Card>, a: Attrs)
  {
    && Distinct(source0) && Complete(a0)
    && |t| == j && |source| == |source0| - j
    && multiset(source) + multiset(t) == multiset(source0)
    && Complete(a) && OwnersInRange(a.parent)
    && (forall j' :: 0 <= j' < j ==> Placed(t[j'], i, j', tp, a))
    && (forall c :: c !in t ==> Untouched(c, a0, a))
  }

  /** One turn of the inner deal loop: the card at `index` of the undealt cards becomes card j
      of tableau i, face-up only when it is the last one. */
  method DealCard(index: nat, i: nat, j: nat, tp: Point, ghost source0: seq<Card>,
                  ghost a0: Attrs, ghost ps: seq<nat>,
                  t: seq<Card>, source: seq<Card>, a: Attrs)
    returns (t': seq<Card>, source': seq<Card>, a': Attrs)
    requires i < 7
    requires forall m :: 0 <= m < |ps| ==> ps[m] < |source0| - m
    requires j < |ps| && index == ps[j] && (t, source) == Picked(source0, ps[..j])
    requires DealingSoFar(j, i, tp, source0, a0, t, source, a)
    ensures t' == t + [source[index]] && source' == source[..index] + source[index + 1..]
    ensures a' == Push(a, source[index], i, j != i, TableauSlot(tp, j))
    ensures DealingSoFar(j + 1, i, tp, source0, a0, t', source', a')
    ensures (t', source') == Picked(source0, ps[..j + 1])
  {
    PickedStep(source0, ps, j, t, source);
    var randomCard := source[index];
    DealPick(source0, source, t, index);
    a' := a.(hidden := a.hidden[randomCard := j != i]);
    source' := source[..index] + source[index + 1..];
    // Tableau.push
    var q := TableauSlot(tp, |t|);
    a' := a'.(point := a'.point[randomCard := q], origPoint := a'.origPoint[randomCard := q],
              parent := a'.parent[randomCard := TableauOwner(i)]);
    t' := t + [randomCard];
    DealtCardPlaced(i, j, tp, t, randomCard, a, a');
    DealtCardOthers(t, randomCard, i, j != i, TableauSlot(tp, |t|), a0, a, a');
  }

  /** Card j just pushed onto tableau i is placed, and the cards pushed before it stay placed. */
  lemma {:induction false} DealtCardPlaced(i: nat, j: nat, tp: Point, t: seq<Card>, c: Card, a: Attrs, a': Attrs)
    requires Complete(a) && |t| == j && c !in t
    requires forall j' :: 0 <= j' < j ==> Placed(t[j'], i, j', tp, a)
    requires a' == Push(a, c, i, j != i, TableauSlot(tp, j))
    ensures Complete(a')
    ensures forall j' :: 0 <= j' < j + 1 ==> Placed((t + [c])[j'], i, j', tp, a')
  {
    forall j' | 0 <= j' < j + 1 ensures Placed((t + [c])[j'], i, j', tp, a') {
      if j' < j {
        assert (t + [c])[j'] == t[j'] && t[j'] != c;
      }
    }
  }

  /** Pushing c changes nothing about the cards other than those now in t + [c]. */
  lemma {:induction false} DealtCardOthers(t: seq<Card>, c: Card, i: nat, h: bool, q: Point, a0: Attrs, a: Attrs, a': Attrs)
    requires Complete(a0) && Complete(a) && OwnersInRange(a.parent)
    requires forall d :: d !in t ==> Untouched(d, a0, a)
    requires a' == Push(a, c, i, h, q) && i < 7
    ensures Complete(a') && OwnersInRange(a'.parent)
    ensures forall d :: d !in t + [c] ==> Untouched(d, a0, a')
  {
  }

  /** Appending tableau i, laid out at tp one step right of the last point, to the i tableaus
      already laid out. */
  lemma {:induction false} PlacedAppend(tableaus: seq<seq<Card>>, tableauPoints: seq<Point>, t: seq<Card>, tp: Point, a: Attrs)
    requires Complete(a)
    requires |tableauPoints| == |tableaus| && forall k :: 0 <= k < |tableaus| ==> |tableaus[k]| == k + 1
    requires |t| == |tableaus| + 1
    requires forall k, j :: 0 <= k < |tableaus| && 0 <= j <= k ==> Placed(tableaus[k][j], k, j, tableauPoints[k], a)
    requires forall j :: 0 <= j <= |tableaus| ==> Placed(t[j], |tableaus|, j, tp, a)
    requires forall k :: 0 < k < |tableauPoints| ==> tableauPoints[k] == Translate(tableauPoints[k - 1], CardWidth + 30.0, 0.0)
    requires 0 < |tableauPoints| ==> tp == Translate(tableauPoints[|tableauPoints| - 1], CardWidth + 30.0, 0.0)
    ensures forall k :: 0 <= k <= |tableaus| ==> |(tableaus + [t])[k]| == k + 1
    ensures forall k :: 0 < k <= |tableaus| ==>
              (tableauPoints + [tp])[k] == Translate((tableauPoints + [tp])[k - 1], CardWidth + 30.0, 0.0)
    ensures forall k, j :: 0 <= k <= |tableaus| && 0 <= j <= k ==>
              Placed((tableaus + [t])[k][j], k, j, (tableauPoints + [tp])[k], a)
  {
    var ts, tps := tableaus + [t], tableauPoints + [tp];
    forall k | 0 <= k <= |tableaus| ensures |ts[k]| == k + 1 {
      if k < |tableaus| {
        assert ts[k] == tableaus[k];
      }
    }
    forall k | 0 < k <= |tableaus| ensures tps[k] == Translate(tps[k - 1], CardWidth + 30.0, 0.0) {
      assert tps[k - 1] == tableauPoints[k - 1];
    }
    forall k, j | 0 <= k <= |tableaus| && 0 <= j <= k
      ensures Placed(ts[k][j], k, j, tps[k], a)
    {
      if k < |tableaus| {
        assert ts[k] == tableaus[k] && tps[k] == tableauPoints[k];
      }
    }
  }

  /** The undealt cards of a distinct deck are distinct. */
  lemma {:induction false} UndealtDistinct(cards: seq<Card>, source: seq<Card>, tableaus: seq<seq<Card>>)
    requires Distinct(cards)
    requires multiset(source) + multiset(Flatten(tableaus)) == multiset(cards)
    ensures Distinct(source)
  {
    DistinctSameMultiset(source + Flatten(tableaus), cards);
    DistinctSplit(source, Flatten(tableaus));
  }

  /** Dealing t changes nothing about the cards already dealt or still undealt. */
  lemma {:induction false} DealFrame(tableaus: seq<seq<Card>>, tableauPoints: seq<Point>, t: seq<Card>, source: seq<Card>, source': seq<Card>, a0: Attrs, a1: Attrs, a2: Attrs)
    requires Complete(a0) && Complete(a1) && Complete(a2)
    requires |tableauPoints| == |tableaus| && forall k :: 0 <= k < |tableaus| ==> |tableaus[k]| == k + 1
    requires forall k, j :: 0 <= k < |tableaus| && 0 <= j < |tableaus[k]| ==> tableaus[k][j] !in t
    requires forall c :: c !in t ==> Untouched(c, a1, a2)
    requires forall k, j :: 0 <= k < |tableaus| && 0 <= j <= k ==> Placed(tableaus[k][j], k, j, tableauPoints[k], a1)
    requires forall c :: c in source' ==> c in source && c !in t
    requires forall c :: c in source ==> Untouched(c, a0, a1)
    ensures forall k, j :: 0 <= k < |tableaus| && 0 <= j <= k ==> Placed(tableaus[k][j], k, j, tableauPoints[k], a2)
    ensures forall c :: c in source' ==> Untouched(c, a0, a2)
  {
    forall k, j | 0 <= k < |tableaus| && 0 <= j <= k
      ensures Placed(tableaus[k][j], k, j, tableauPoints[k], a2)
    {
      assert Untouched(tableaus[k][j], a1, a2);
    }
    forall c | c in source'
      ensures Untouched(c, a0, a2)
    {
      assert Untouched(c, a1, a2);
    }
  }

  /** The card picked from the undealt cards is not yet in the tableau being dealt, and moving it
      over keeps every card accounted for. */
  lemma {:induction false} DealPick(source0: seq<Card>, source: seq<Card>, t: seq<Card>, index: int)
    requires Distinct(source0)
    requires multiset(source) + multiset(t) == multiset(source0)
    requires 0 <= index < |source|
    ensures source[index] !in t
    ensures multiset(source[..index] + source[index + 1..]) + multiset(t + [source[index]]) == multiset(source0)
  {
    DistinctSameMultiset(source + t, source0);
    DistinctSplit(source, t);
    var c := source[index];
    assert source == source[..index] + [c] + source[index + 1..];
    assert multiset(source) == multiset(source[..index] + source[index + 1..]) + multiset{c};
  }

  /** After dealing t out of source (leaving source'), no earlier tableau's card is in t, the
      cards left are undealt ones not in t, and every card is still accounted for. */
  lemma {:induction false} NotDealtAgain(cards: seq<Card>, source: seq<Card>, tableaus: seq<seq<Card>>, t: seq<Card>, source': seq<Card>)
    requires Distinct(cards)
    requires multiset(source) + multiset(Flatten(tableaus)) == multiset(cards)
    requires multiset(source') + multiset(t) == multiset(source)
    ensures forall k, j :: 0 <= k < |tableaus| && 0 <= j < |tableaus[k]| ==> tableaus[k][j] !in t
    ensures forall c :: c in source' ==> c in source && c !in t
    ensures multiset(source') + multiset(Flatten(tableaus + [t])) == multiset(cards)
  {
    DistinctSameMultiset(source' + t + Flatten(tableaus), cards);
    DistinctSplit(source' + t, Flatten(tableaus));
    DistinctSplit(source', t);
    forall k, j | 0 <= k < |tableaus| && 0 <= j < |tableaus[k]| ensures tableaus[k][j] !in t {
      InFlatten(tableaus, k, tableaus[k][j]);
      assert tableaus[k][j] in Flatten(tableaus);
    }
    forall c | c in source' ensures c in source {
      assert multiset(source)[c] >= multiset(source')[c];
    }
    FlattenSnoc(tableaus, t);
  }
}

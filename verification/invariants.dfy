/**
 * The invariants a game keeps, stated on the values of its piles and per-card maps, and the
 * lemmas that each kind of pile change preserves them. The class GameState (module
 * Solitaire) bundles them into its Valid().
 */
module Invariants {
  import opened Cards
  import opened Geometry
  import opened Piles
  import opened Selection

  /** card.parent: no pile yet (an empty object for a card never pushed), the deck, or tableau index.
      Foundation.push leaves it unchanged, so a foundation is never a card's parent. */
  datatype Owner = Unowned | DeckOwner | TableauOwner(index: nat)

  /** Every card has a face state, a position, a home position and a parent. */
  ghost predicate Total(hidden: map<Card, bool>, point: map<Card, Point>, origPoint: map<Card, Point>, parent: map<Card, Owner>)
  {
    forall c: Card :: c in hidden && c in point && c in origPoint && c in parent
  }

  /** A tableau parent always names one of the seven tableaus. */
  ghost predicate OwnersInRange(parent: map<Card, Owner>)
  {
    forall c :: c in parent && parent[c].TableauOwner? ==> parent[c].index < 7
  }

  /** upper may lie directly on lower in a tableau: other colour, one rank lower. */
  predicate Stacks(lower: Card, upper: Card)
  {
    ColorOf(lower) != ColorOf(upper) && lower.number == upper.number + 1
  }

  /** Adjacent face-up cards of a tableau descend by one and alternate colour. */
  ghost predicate FaceUpStacked(t: seq<Card>, hidden: map<Card, bool>)
    requires forall c :: c in t ==> c in hidden
  {
    forall k :: 0 <= k < |t| - 1 && !hidden[t[k]] ==> Stacks(t[k], t[k + 1])
  }

  /** The shape of a tableau: a face-down prefix under a stacked face-up part. */
  ghost predicate TableauOk(t: seq<Card>, hidden: map<Card, bool>)
    requires forall c :: c in t ==> c in hidden
  {
    HiddenPrefix(t, hidden) && FaceUpStacked(t, hidden)
  }

  /** Foundation f holds exactly the cards (1, f) .. (k, f) in order, and nextNumber[f] == k + 1. */
  ghost predicate FoundationsOk(foundations: seq<seq<Card>>, nextNumber: seq<int>)
  {
    && |foundations| == 4 && |nextNumber| == 4
    && forall f :: 0 <= f < 4 ==> 1 <= nextNumber[f] <= 14 && foundations[f] == SuitRun(f, nextNumber[f] - 1)
  }

  /** Seven well-shaped tableaus, each card's parent being its tableau. */
  ghost predicate TableausOk(tableaus: seq<seq<Card>>, hidden: map<Card, bool>, parent: map<Card, Owner>)
    requires forall c: Card :: c in hidden && c in parent
  {
    && |tableaus| == 7
    && (forall i :: 0 <= i < 7 ==> TableauOk(tableaus[i], hidden))
    && forall i, c :: 0 <= i < 7 && c in tableaus[i] ==> parent[c] == TableauOwner(i)
  }

  /** Deck cards are face-up and have the deck as parent. */
  ghost predicate DeckOk(deck: seq<Card>, hidden: map<Card, bool>, parent: map<Card, Owner>)
    requires forall c: Card :: c in hidden && c in parent
  {
    forall c :: c in deck ==> !hidden[c] && parent[c] == DeckOwner
  }

  /** Every card of the game, pile by pile. */
  function Everything(source: seq<Card>, deck: seq<Card>, foundations: seq<seq<Card>>, tableaus: seq<seq<Card>>): seq<Card>
  {
    source + deck + Flatten(foundations) + Flatten(tableaus)
  }

  /** The 52 cards are shared out between draw source, deck, foundations and tableaus, once each. */
  ghost predicate Conserved(source: seq<Card>, deck: seq<Card>, foundations: seq<seq<Card>>, tableaus: seq<seq<Card>>)
  {
    EachOnce(Everything(source, deck, foundations, tableaus))
  }

  /** setWinState: every foundation has a top card and it is a king. */
  predicate Won(foundations: seq<seq<Card>>)
  {
    forall f :: 0 <= f < |foundations| ==> foundations[f] != [] && foundations[f][|foundations[f]| - 1].number == 13
  }

  // ---------------------------------------------------------------- distinctness

  /** Conservation makes every part of the game distinct and the parts pairwise disjoint. */
  lemma {:induction false} ConservedDistinct(source: seq<Card>, deck: seq<Card>, foundations: seq<seq<Card>>, tableaus: seq<seq<Card>>)
    requires Conserved(source, deck, foundations, tableaus)
    ensures Distinct(source) && Distinct(deck) && Distinct(Flatten(foundations)) && Distinct(Flatten(tableaus))
    ensures forall c :: c in source ==> c !in deck && c !in Flatten(foundations) && c !in Flatten(tableaus)
    ensures forall c :: c in deck ==> c !in Flatten(foundations) && c !in Flatten(tableaus)
    ensures forall c :: c in Flatten(foundations) ==> c !in Flatten(tableaus)
  {
    EachOnceIffAllCards(Everything(source, deck, foundations, tableaus));
    PartsDistinct(source, deck, foundations, tableaus);
  }

  /** When the game's cards are distinct, so is each part, and the parts are pairwise disjoint. */
  lemma {:induction false} PartsDistinct(source: seq<Card>, deck: seq<Card>, foundations: seq<seq<Card>>, tableaus: seq<seq<Card>>)
    requires Distinct(Everything(source, deck, foundations, tableaus))
    ensures Distinct(source) && Distinct(deck) && Distinct(Flatten(foundations)) && Distinct(Flatten(tableaus))
    ensures forall c :: c in source ==> c !in deck && c !in Flatten(foundations) && c !in Flatten(tableaus)
    ensures forall c :: c in deck ==> c !in Flatten(foundations) && c !in Flatten(tableaus)
    ensures forall c :: c in Flatten(foundations) ==> c !in Flatten(tableaus)
  {
    var all := Everything(source, deck, foundations, tableaus);
    var ff, tt := Flatten(foundations), Flatten(tableaus);
    assert all == (source + deck + ff) + tt;
    DistinctSplit(source + deck + ff, tt);
    DistinctSplit(source + deck, ff);
    DistinctSplit(source, deck);
  }

  /** A card on one tableau is on no other. */
  lemma {:induction false} TableausDisjoint(tableaus: seq<seq<Card>>, i: int, j: int, c: Card)
    requires Distinct(Flatten(tableaus))
    requires 0 <= i < |tableaus| && 0 <= j < |tableaus| && i != j && c in tableaus[i]
    ensures c !in tableaus[j]
  {
    FlattenDisjoint(tableaus, i, j, c);
  }

  // ---------------------------------------------------------------- winning

  /** The foundations hold 4 runs whose lengths add up to |Flatten|. */
  lemma {:induction false} FoundationsSize(foundations: seq<seq<Card>>, nextNumber: seq<int>, n: nat)
    requires FoundationsOk(foundations, nextNumber) && n <= 4
    ensures |Flatten(foundations[..n])| == SumPrefix(nextNumber, n)
  {
    if n > 0 {
      assert foundations[..n][..n - 1] == foundations[..n - 1];
      FoundationsSize(foundations, nextNumber, n - 1);
    }
  }

  /** Sum of nextNumber[f] - 1 over f < n: the number of cards on the first n foundations. */
  function SumPrefix(nextNumber: seq<int>, n: nat): int
    requires n <= |nextNumber|
  {
    if n == 0 then 0 else SumPrefix(nextNumber, n - 1) + nextNumber[n - 1] - 1
  }

  /** With well-formed foundations, the game is won exactly when every nextNumber has reached 14. */
  lemma {:induction false} WonIffKings(foundations: seq<seq<Card>>, nextNumber: seq<int>)
    requires FoundationsOk(foundations, nextNumber)
    ensures Won(foundations) <==> forall f :: 0 <= f < 4 ==> nextNumber[f] == 14
  {
    forall f | 0 <= f < 4
      ensures (foundations[f] != [] && foundations[f][|foundations[f]| - 1].number == 13) <==> nextNumber[f] == 14
    {
      assert |foundations[f]| == nextNumber[f] - 1;
    }
  }

  /** Four counts of at most 13 add up to 52 exactly when each is 13. */
  lemma {:induction false} SumPrefixFull(nextNumber: seq<int>)
    requires |nextNumber| == 4 && forall f :: 0 <= f < 4 ==> 1 <= nextNumber[f] <= 14
    ensures SumPrefix(nextNumber, 4) == 52 <==> forall f :: 0 <= f < 4 ==> nextNumber[f] == 14
    ensures SumPrefix(nextNumber, 4) <= 52
  {
    assert SumPrefix(nextNumber, 1) == nextNumber[0] - 1;
    assert SumPrefix(nextNumber, 2) == nextNumber[0] + nextNumber[1] - 2;
    assert SumPrefix(nextNumber, 3) == nextNumber[0] + nextNumber[1] + nextNumber[2] - 3;
    assert SumPrefix(nextNumber, 4) == nextNumber[0] + nextNumber[1] + nextNumber[2] + nextNumber[3] - 4;
  }

  /** A game is won exactly when all 52 cards are on the foundations: nothing is left in the draw
      source, the deck or the tableaus, and each foundation has reached its king. */
  lemma {:induction false} WonIffAllOnFoundations(source: seq<Card>, deck: seq<Card>, foundations: seq<seq<Card>>, nextNumber: seq<int>, tableaus: seq<seq<Card>>)
    requires FoundationsOk(foundations, nextNumber)
    requires Conserved(source, deck, foundations, tableaus)
    ensures Won(foundations) <==> forall f :: 0 <= f < 4 ==> nextNumber[f] == 14
    ensures Won(foundations) <==> source == [] && deck == [] && Flatten(tableaus) == []
  {
    WonIffKings(foundations, nextNumber);
    SumPrefixFull(nextNumber);
    FoundationsSize(foundations, nextNumber, 4);
    assert foundations[..4] == foundations;
    ConservedSize(source, deck, foundations, tableaus);
  }

  /** Conservation fixes the total number of cards in the piles at 52. */
  lemma {:induction false} ConservedSize(source: seq<Card>, deck: seq<Card>, foundations: seq<seq<Card>>, tableaus: seq<seq<Card>>)
    requires Conserved(source, deck, foundations, tableaus)
    ensures |source| + |deck| + |Flatten(foundations)| + |Flatten(tableaus)| == 52
  {
    EachOnceIffAllCards(Everything(source, deck, foundations, tableaus));
  }

  // ---------------------------------------------------------------- tableau shape

  /** Changing the face state of cards outside a tableau does not affect its shape. */
  lemma {:induction false} TableauOkFrame(t: seq<Card>, hidden: map<Card, bool>, hidden': map<Card, bool>)
    requires forall c :: c in t ==> c in hidden && c in hidden' && hidden'[c] == hidden[c]
    requires TableauOk(t, hidden)
    ensures TableauOk(t, hidden')
  {
  }

  /** Taking cards off the top keeps a tableau's shape. */
  lemma {:induction false} TableauOkPrefix(t: seq<Card>, hidden: map<Card, bool>, m: int)
    requires forall c :: c in t ==> c in hidden
    requires TableauOk(t, hidden) && 0 <= m <= |t|
    ensures TableauOk(t[..m], hidden)
  {
    var s := t[..m];
    assert forall k :: 0 <= k < m ==> s[k] == t[k];
  }

  /** A run of face-up cards taken from the top of a tableau is itself stacked. */
  lemma {:induction false} TableauOkSuffix(t: seq<Card>, hidden: map<Card, bool>, m: int)
    requires forall c :: c in t ==> c in hidden
    requires TableauOk(t, hidden) && 0 <= m < |t| && !hidden[t[m]]
    ensures TableauOk(t[m..], hidden)
    ensures forall c :: c in t[m..] ==> !hidden[c]
  {
    var s := t[m..];
    assert forall k :: 0 <= k < |s| ==> s[k] == t[m + k];
    forall k | 0 <= k < |s| ensures !hidden[s[k]] {
      assert s[k] == t[m + k];
    }
  }

  /** Flipping the top card of a tableau whose cards are all face-down keeps its shape. */
  lemma {:induction false} FlipKeepsTableauOk(t: seq<Card>, hidden: map<Card, bool>)
    requires forall c :: c in t ==> c in hidden
    requires t != [] && TableauOk(t, hidden)
    requires forall c :: c in t ==> hidden[c]
    requires Distinct(t)
    ensures TableauOk(t, hidden[t[|t| - 1] := false])
  {
    var h' := hidden[t[|t| - 1] := false];
    forall k | 0 <= k < |t| - 1 ensures h'[t[k]] {
      DistinctIndices(t, k, |t| - 1);
    }
  }

  /** Pushing a face-up run whose first card the tableau accepts keeps the tableau's shape. */
  lemma {:induction false} AppendRunKeepsTableauOk(t: seq<Card>, run: seq<Card>, hidden: map<Card, bool>)
    requires forall c :: c in t + run ==> c in hidden
    requires TableauOk(t, hidden) && TableauOk(run, hidden)
    requires run != [] && forall c :: c in run ==> !hidden[c]
    requires TableauIsPushable(t, run[0])
    ensures TableauOk(t + run, hidden)
  {
    var s := t + run;
    assert forall k :: 0 <= k < |t| ==> s[k] == t[k];
    assert forall k :: |t| <= k < |s| ==> s[k] == run[k - |t|];
    forall j, k | 0 <= j < k < |s| && hidden[s[k]] ensures hidden[s[j]] {
      assert k < |t|;
    }
    forall k | 0 <= k < |s| - 1 && !hidden[s[k]] ensures Stacks(s[k], s[k + 1]) {
      if k == |t| - 1 {
        assert s[k] == t[|t| - 1] && s[k + 1] == run[0];
      }
    }
  }

  /** The cards of a stacked face-up run descend by one rank each. */
  lemma {:induction false} RunDescends(run: seq<Card>, hidden: map<Card, bool>, j: int)
    requires forall c :: c in run ==> c in hidden && !hidden[c]
    requires FaceUpStacked(run, hidden) && 0 <= j < |run|
    ensures run[j].number == run[0].number - j
  {
    if j > 0 {
      RunDescends(run, hidden, j - 1);
      assert Stacks(run[j - 1], run[j]);
    }
  }

  /** Dropping a face-up run back onto the tableau it came from is always rejected: its first
      card is never accepted by that tableau. */
  lemma {:induction false} OwnTableauRejects(t: seq<Card>, hidden: map<Card, bool>, m: int)
    requires forall c :: c in t ==> c in hidden
    requires TableauOk(t, hidden) && 0 <= m < |t| && !hidden[t[m]]
    ensures !TableauIsPushable(t, t[m])
  {
    var run := t[m..];
    TableauOkSuffix(t, hidden, m);
    RunDescends(run, hidden, |run| - 1);
    assert run[|run| - 1] == t[|t| - 1] && run[0] == t[m];
  }
}

/**
 * handleMouseUp (src/main.js:328-362) on game values: what releasing the mouse does with what is
 * held. A single card is dropped as DropSingle says; a run is moved card by card onto the
 * tableau its first card lands on when that tableau accepts it, or every card of it goes back
 * home. The class GameState (module Solitaire) performs these steps in place.
 */
module Release {
  import opened Cards
  import opened Geometry
  import opened Piles
  import opened Board
  import opened Selection
  import opened Invariants
  import opened Moves
  import opened Drops

  /** The first k cards of the run, one by one, taken from their parent and pushed on the hit
      tableau, the parent being tableau i and the hit element tableau j. */
  function RunFold(g: Game, lay: Layout, i: nat, j: nat, run: seq<Card>, k: nat): (r: Game)
    requires i < |g.tableaus| && j < |g.tableaus| && j < |lay.tableauPoints| && k <= |run|
    ensures |r.tableaus| == |g.tableaus|
  {
    if k == 0 then g
    else
      var q := RunFold(g, lay, i, j, run, k - 1);
      TableauPush(TableauRemove(q, i, run[k - 1]), lay, j, run[k - 1])
  }

  /** Releasing a run picked up from tableau i: when the first tableau its first card overlaps
      accepts that card, the whole run moves there; otherwise each card goes back home. */
  function DropRun(g: Game, lay: Layout, run: seq<Card>): Game
    requires Sized(g, lay) && DragOk(g, Run(run)) && run != []
  {
    var i := g.parent[run[0]].index;
    var target := RunTarget(g, lay, run[0]);
    if target.Some? && TableauIsPushable(g.tableaus[target.value], run[0]) then RunFold(g, lay, i, target.value, run, |run|)
    else g.(point := ResetAll(g.point, g.origPoint, run))
  }

  /** A stale deck card (see StaleDeckDrag) is held and lands where it is accepted. */
  ghost predicate StaleLands(g: Game, lay: Layout, d: Dragged)
    requires AttrsTotal(g) && |lay.tableauPoints| == |g.tableaus|
  {
    StaleDeckDrag(g, d) && SingleLands(g, lay, d.card)
  }

  /** handleMouseUp on the piles and cards, for everything a press can leave held except the
      empty run (whose release fails reading the point of a missing first card). */
  function MouseUpEffect(g: Game, lay: Layout, d: Dragged): Game
    requires Sized(g, lay) && Held(g, d) && d != Run([])
  {
    match d
    case Nothing => g
    case Single(c) => DropSingle(g, lay, c)
    case Run(cs) => DropRun(g, lay, cs)
  }

  /** What moving a held run needs of its tableau i: distinct cards, all of the run owned by i,
      and i itself rejecting the run's first card. */
  ghost predicate RunReady(g: Game, run: seq<Card>)
    requires AttrsTotal(g) && DragOk(g, Run(run)) && run != []
  {
    var i := g.parent[run[0]].index;
    && Distinct(g.tableaus[i])
    && (forall c :: c in run ==> g.parent[c] == TableauOwner(i))
    && !TableauIsPushable(g.tableaus[i], run[0])
  }

  // ---------------------------------------------------------------- what a release keeps

  /** In a well-formed game every held run is ready to move. */
  lemma {:induction false} RunReadyHolds(g: Game, lay: Layout, run: seq<Card>)
    requires GameOk(g, lay) && DragOk(g, Run(run)) && run != []
    ensures RunReady(g, run)
  {
    RunNotOnOwn(g, lay, run);
    RunOutsideHolds(g, lay, g.parent[run[0]].index, run);
  }

  /** Before any card has moved, the run is entirely on tableau i. */
  lemma {:induction false} RunMovedStart(g: Game, lay: Layout, i: nat, j: nat, run: seq<Card>)
    requires AttrsTotal(g)
    requires i < |g.tableaus| && j < |g.tableaus| && j < |lay.tableauPoints|
    requires |run| <= |g.tableaus[i]| && run == g.tableaus[i][|g.tableaus[i]| - |run|..]
    ensures RunMoved(g, g, lay, i, j, run, 0)
  {
    var t := g.tableaus[i];
    assert t == t[..|t| - |run|] + run[0..];
    assert g.tableaus[j] + run[..0] == g.tableaus[j];
  }

  /** Moving the first k cards of a run, one at a time, from tableau i onto another tableau j
      puts exactly them on j in order, at its next slots, and changes nothing else. */
  lemma {:induction false} RunFoldMoved(g: Game, lay: Layout, i: nat, j: nat, run: seq<Card>, k: nat)
    requires AttrsTotal(g)
    requires i < |g.tableaus| && j < |g.tableaus| && j < |lay.tableauPoints| && i != j
    requires |run| <= |g.tableaus[i]| && run == g.tableaus[i][|g.tableaus[i]| - |run|..] && Distinct(g.tableaus[i])
    requires forall c :: c in run ==> g.parent[c] == TableauOwner(i)
    requires k <= |run|
    ensures AttrsTotal(RunFold(g, lay, i, j, run, k))
    ensures RunMoved(g, RunFold(g, lay, i, j, run, k), lay, i, j, run, k)
  {
    if k == 0 {
      RunMovedStart(g, lay, i, j, run);
    } else {
      RunFoldMoved(g, lay, i, j, run, k - 1);
      RunApart(g.tableaus[i], run);
      assert run[k - 1] in run;
      RunStep(g, RunFold(g, lay, i, j, run, k - 1), lay, i, j, run, k - 1);
    }
  }

  /** run is the top of tableau i, whose cards are distinct and all owned by it, and j is
      another tableau. */
  ghost predicate RunMovable(g: Game, lay: Layout, i: nat, j: nat, run: seq<Card>)
  {
    && AttrsTotal(g)
    && i < |g.tableaus| && j < |g.tableaus| && j < |lay.tableauPoints| && i != j
    && |run| <= |g.tableaus[i]| && run == g.tableaus[i][|g.tableaus[i]| - |run|..] && Distinct(g.tableaus[i])
    && forall c :: c in run ==> g.parent[c] == TableauOwner(i)
  }

  /** The next card of the run to move is still owned by tableau i. */
  lemma {:induction false} RunFoldParent(g: Game, lay: Layout, i: nat, j: nat, run: seq<Card>, k: nat)
    requires RunMovable(g, lay, i, j, run) && k < |run|
    ensures AttrsTotal(RunFold(g, lay, i, j, run, k))
    ensures RunFold(g, lay, i, j, run, k).parent[run[k]] == TableauOwner(i)
  {
    RunFoldMoved(g, lay, i, j, run, k);
    RunApart(g.tableaus[i], run);
    assert run[k] in run;
    RunNextOwned(g, RunFold(g, lay, i, j, run, k), lay, i, j, run, k);
  }

  /** A released run either moves whole onto another tableau (it never lands on its own), as
      RunMoved says, or only the positions of its cards change, back to their home positions. */
  lemma {:induction false} DropRunEffect(g: Game, lay: Layout, run: seq<Card>)
    requires GameOk(g, lay) && DragOk(g, Run(run)) && run != []
    ensures var i := g.parent[run[0]].index; var target := RunTarget(g, lay, run[0]);
      if target.Some? && TableauIsPushable(g.tableaus[target.value], run[0]) then
        && target.value != i && AttrsTotal(DropRun(g, lay, run))
        && RunMoved(g, DropRun(g, lay, run), lay, i, target.value, run, |run|)
      else DropRun(g, lay, run) == g.(point := ResetAll(g.point, g.origPoint, run))
  {
    RunNotOnOwn(g, lay, run);
    var i := g.parent[run[0]].index;
    RunOutsideHolds(g, lay, i, run);
    var target := RunTarget(g, lay, run[0]);
    if target.Some? && TableauIsPushable(g.tableaus[target.value], run[0]) {
      RunFoldMoved(g, lay, i, target.value, run, |run|);
    }
  }

  /** Releasing a run picked up by a press keeps the game well-formed, moved or not. */
  lemma {:induction false} DropRunOk(g: Game, lay: Layout, run: seq<Card>)
    requires GameOk(g, lay) && DragOk(g, Run(run)) && run != []
    ensures GameOk(DropRun(g, lay, run), lay)
  {
    DropRunEffect(g, lay, run);
    var g' := DropRun(g, lay, run);
    var i := g.parent[run[0]].index;
    var target := RunTarget(g, lay, run[0]);
    if target.Some? && TableauIsPushable(g.tableaus[target.value], run[0]) {
      RunLandsOk(g, g', lay, run, i, target.value);
    } else {
      PointsOnlyOk(g, lay, ResetAll(g.point, g.origPoint, run), Nothing);
    }
  }

  /** A held run moved whole onto a tableau that accepts its first card leaves the game
      well-formed. */
  lemma {:induction false} RunLandsOk(g: Game, g': Game, lay: Layout, run: seq<Card>, i: nat, j: nat)
    requires GameOk(g, lay) && DragOk(g, Run(run)) && run != [] && g.parent[run[0]] == TableauOwner(i)
    requires j < 7 && j != i && TableauIsPushable(g.tableaus[j], run[0])
    requires AttrsTotal(g') && RunMoved(g, g', lay, i, j, run, |run|)
    ensures GameOk(g', lay)
  {
    assert RunCond(g, i, j, run);
    RunMoveOk(g, g', lay, i, j, run);
  }

  /** A release keeps the game well-formed, except when a stale deck card lands somewhere: then
      the card is on its target pile and still in the draw source, so the piles no longer hold
      each card once. */
  lemma {:induction false} MouseUpOk(g: Game, lay: Layout, d: Dragged)
    requires GameOk(g, lay) && Held(g, d) && d != Run([])
    ensures !StaleLands(g, lay, d) ==> GameOk(MouseUpEffect(g, lay, d), lay)
    ensures StaleLands(g, lay, d) ==>
              var g' := MouseUpEffect(g, lay, d); !Conserved(g'.source, g'.deck, g'.foundations, g'.tableaus)
  {
    match d
    case Nothing =>
    case Single(c) =>
      if StaleLands(g, lay, d) {
        StaleDropDuplicates(g, lay, c);
      } else if StaleDeckDrag(g, d) {
        PointsOnlyOk(g, lay, g.point[c := g.origPoint[c]], Nothing);
      } else {
        DropSingleOk(g, lay, c);
      }
    case Run(cs) =>
      DropRunOk(g, lay, cs);
  }
}

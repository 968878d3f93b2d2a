# simple-solitaire: a verified model of the Klondike engine

This project models the game engine of simple-solitaire, a Klondike patience game that runs on an
HTML canvas (`src/main.js`). The model covers what the engine keeps and changes:

- 52 cards, each with a face state, a current position, a home position and a parent pile;
- a draw source, the deck of drawn cards, four foundations and seven tableaus;
- the mouse state: the dragged card or run, whether the button is down, and the last mouse
  position.

It models the pile operations, the deal, and the three mouse handlers, and proves what they keep
true.

## Layout of the project

| file | module | what it holds |
|---|---|---|
| geometry.dfy | Geometry | points, `translate`, the box tests `isColliding` and `isClicked` |
| cards.dfy | Cards | cards, suit colours, the 52-card setup deck |
| board.dfy | Board | card and pile sizes, where a card sits on the deck and in a tableau |
| piles.dfy | Piles | `indexOf`/`splice` removal, `topCard`, the two `isPushable` rules |
| selection.dfy | Selection | what a press on a tableau picks up |
| invariants.dfy | Invariants | the shape of tableaus and foundations, conservation of the 52 cards, the win state |
| moves.dfy | Moves | the game as a value, and pile operations on that value |
| press.dfy | Press | `handleMouseDown` as a function on game values |
| drops.dfy, release.dfy | Drops, Release | `handleMouseUp` as functions on game values: single-card drops and run drops |
| deal.dfy | Deal | the deal part of `Setup`, as loops over index picks |
| game.dfy | Solitaire | class `GameState` with its fields and handlers, proved against those functions |

The class `Solitaire.GameState` holds the mutable state as fields:

- `source`, `deck`, `foundations`, `nextNumber`, `tableaus`;
- the per-card maps `hidden`, `point`, `origPoint`, `parent`;
- `win`, `draggedCard`, `isDown`, `lastMousePoint`.

Its methods change these fields the way the source's methods change its objects. Each method's
`ensures` ties the new state to a function on game values (`MouseDownEffect`, `MouseUpEffect`,
`DeckPush`, `TableauPush`, …). The lemmas beside those functions prove the invariant `GameOk`:

- every card is in exactly one of the source, the deck, a foundation or a tableau;
- foundation f holds cards 1..k of suit f, and its `nextNumber` is k + 1;
- in every tableau, the face-down cards form a prefix, and each face-up card that has a card on
  top of it is covered by a card of the other colour one rank lower;
- deck cards are face-up with the deck as parent, and tableau cards have their tableau as parent;
- every card's home position is its slot in the pile that holds it.

`Valid()` is `GameOk`, plus `win` matching the foundations, plus the hand holding something a
press can leave in it.

Mouse coordinates are inputs (`Point`), as are canvas sizes and the deal's random indices.

The deal is specified by `Deal.Deals`, a recursive function that deals tableau after tableau from
the random indices. `Deal.Picked` is its one-tableau step. The deal loops are proved to compute
exactly that deal, and lemmas about `Deals` prove that the seven tableaus hold 1..7 cards and,
with the 24 undealt cards, hold the 52 cards.

## Behaviour of the code that the model keeps

- Removing a card its pile does not hold removes the pile's last card, because the code uses
  `splice(indexOf(card), 1)` and `splice(-1, 1)` removes the last element. See
  `Piles.RemoveAbsent`.
- `handleMouseUp` does not test `isDown`: it releases whatever `draggedCard` holds.
- `win` is recomputed only after a single card lands, never after a run move.
- `Foundation.push` does not set the card's parent.
- A draw from the deck sets `isDown`. A recycle returns before setting it.
- A flip of an all-face-down tableau does not clear `draggedCard`. A press never clears it.
- A press on a tableau with face-up cards that hits none of them picks up the empty run. The next
  release then fails reading the first card's position. `Solitaire.GameState.MouseUp` reports
  this as `crashed` and leaves the state as it was.
- A stale deck card can be released. This happens when the button was released outside the
  canvas and a later press recycled the deck: `draggedCard` still names a card that is now back
  in the draw source. If it lands, the card is then both in the source and on a pile, and the
  deck loses its last card. `Drops.StaleDropDuplicates` and `Release.MouseUpOk` prove that such a
  state no longer holds each card exactly once.

## Model

| member | source | states |
|---|---|---|
| Geometry.TranslateRoundTrip | src/main.js:59-62 | a translated point is displaced from the original by exactly (dx, dy); translating back by (-dx, -dy) restores it, and two translations compose into one by the summed offsets |
| Geometry.IsColliding | src/main.js:31-39 | two boxes can collide only when their widths add up to more than zero and so do their heights |
| Geometry.IsClicked | src/main.js:46-50 | a click can only hit a box whose width and height are both positive |
| Geometry.CollidingSymmetric | src/main.js:31-39 | whether two boxes collide does not depend on the order of the arguments |
| Geometry.CollidingIffSharedPoint | src/main.js:31-50 | two boxes of positive size collide exactly when some point is strictly inside both, as isClicked judges it |
| Geometry.ClickedTranslate | src/main.js:46-62 | moving the mouse and a box by the same amount does not change whether the box is clicked |
| Geometry.NoAreaNoClick | src/main.js:46-50 | a box with no width or no height is never clicked |
| Cards.SuitRun | src/main.js:211-215 | k cards of one suit, card j having number j + 1 |
| Cards.SuitColorPairs | src/main.js:7 | the colours split the suits into two pairs: suit s has the colour of suit 3 - s and the other colour from suit s + 2 (mod 4) |
| Cards.SuitBlock | src/main.js:211-215 | the thirteen cards a suit contributes to the setup deck sit together, ace to king |
| Cards.AllCardsBySuit | src/main.js:211-215 | the setup deck is suit 0, then suit 1, then suit 2, then suit 3, each ace to king |
| Cards.AllCardsUniverse | src/main.js:211-215 | the setup deck holds every (number, suit) pair exactly once and has no repeats |
| Cards.EachOnceIffAllCards | src/main.js:211-215 | a sequence holds every card exactly once iff it is a permutation of the setup deck, and then it has 52 distinct cards |
| Board.TableauHeight | src/main.js:187-191 | a tableau's box is at least one card tall |
| Board.TableauHeightStep | src/main.js:187-191 | each card in a tableau adds 25 px to its height |
| Board.DeckSlot | src/main.js:77-83 | a drawn card sits level with the deck box, to the right of it and clear of it |
| Board.TableauSlot | src/main.js:163-168 | card k of a tableau sits in the tableau's column, at or below the tableau's point |
| Board.TableauSlotStep | src/main.js:163-168 | consecutive cards of a tableau are 25 px apart vertically |
| Board.DeckSlotClearOfDeck | src/main.js:284-297 | a press on the deck face never hits a card at the drawn-card slot, so one press cannot both draw and pick up a deck card |
| Board.SlotInsideTableau | src/main.js:266-274 | a press on a tableau card at its home slot is a press inside that tableau's box |
| Piles.IndexOf | src/main.js:74-76 | -1 exactly when the card is absent, otherwise the index of its first occurrence |
| Piles.Splice1Indices | src/main.js:74-76 | splice with a count of one counts a negative start from the end and clamps it to the front, deletes nothing for a start past the end, and otherwise deletes exactly one card of the pile |
| Piles.RemovePresent | src/main.js:169-171 | removing a card the pile holds deletes its first occurrence and nothing else: one card fewer, same multiset minus that card |
| Piles.RemoveAbsent | src/main.js:169-171 | removing a card the pile does not hold deletes the pile's last card (nothing for an empty pile) |
| Piles.RemoveAfter | src/main.js:74-76 | removing c from p + [c] + q, with c not in p, leaves p + q |
| Piles.TopCard | src/main.js:182-186 | no top card exactly when the pile is empty, otherwise its last card |
| Piles.TableauIsPushable | src/main.js:157-162 | a king is accepted only by an empty tableau, and an empty tableau accepts only kings |
| Piles.FoundationIsPushable | src/main.js:129 | a foundation whose next number is n accepts only the one card (n, suit), and only while n is a rank |
| Piles.EmptyTableauAcceptsKings | src/main.js:157-160 | an empty tableau accepts a card iff it is a king |
| Piles.TableauRejectsOwnTop | src/main.js:157-162 | a non-empty tableau never accepts its own top card |
| Piles.FoundationAcceptsAtMostOne | src/main.js:129 | at any moment a foundation accepts at most one card |
| Piles.FoundationPushGrows | src/main.js:129-135 | pushing the accepted card turns ace..k of the suit into ace..k+1 |
| Selection.Shown | src/main.js:268 | the face-up cards are tableau cards that are not hidden, and no more than the tableau holds |
| Selection.ReverseInvolution | src/main.js:273 | reversing twice gives the face-up cards back, and a reversal holds exactly the same cards |
| Selection.FindClicked | src/main.js:274 | -1 exactly when no card is under the mouse, otherwise the first card under it |
| Selection.ReversePrefixOfReverse | src/main.js:278 | reversing the first m cards of the reversed face-up cards gives the last m of them in their original order |
| Selection.ShownIsSuffix | src/main.js:268 | in a tableau whose face-down cards form a prefix, the face-up cards are exactly its top part, and everything below them is face-down |
| Selection.ShownEmptyIffAllHidden | src/main.js:268-272 | a tableau has no face-up card iff every card of it is hidden |
| Selection.SelectionSpec | src/main.js:266-281 | a press picks up the empty run exactly when no face-up card is under the mouse. Otherwise it picks up the cards from the topmost face-up card under the mouse through the top, bottom to top, with no card above that one under the mouse; this is a single card exactly when the top card is hit |
| Invariants.ConservedDistinct | src/main.js:211-235 | when every card is held exactly once, each part of the game has no repeats and the parts are pairwise disjoint |
| Invariants.ConservedSize | src/main.js:211-235 | when every card is held exactly once, the parts hold 52 cards together |
| Invariants.FoundationsSize | src/main.js:129-135 | the foundations hold as many cards as the sum of their nextNumber - 1 |
| Invariants.WonIffKings | src/main.js:52-54 | the game is won iff every foundation's nextNumber has reached 14 |
| Invariants.WonIffAllOnFoundations | src/main.js:52-54 | the game is won iff all 52 cards are on the foundations, that is, the source, the deck and the tableaus are empty |
| Invariants.FlipKeepsTableauOk | src/main.js:179-181 | turning up the top card of an all-face-down tableau keeps the tableau well-shaped |
| Invariants.AppendRunKeepsTableauOk | src/main.js:157-168 | pushing a stacked face-up run, whose first card the tableau accepts, keeps the tableau well-shaped |
| Invariants.RunDescends | src/main.js:161 | along a stacked face-up run, the ranks fall by one per card |
| Invariants.OwnTableauRejects | src/main.js:157-162 | a well-shaped tableau accepts none of its own face-up cards, so dropping onto the origin tableau always fails |
| Moves.ShowCardOk | src/main.js:269-272 | turning up the top card of an all-face-down tableau keeps the game well-formed, and whatever was held is still held |
| Moves.SelectOk | src/main.js:273-279 | what a press on a tableau with face-up cards picks up is a legal unit: its face-up top card, a face-up run ending at the top, or the empty run |
| Moves.DrawOk | src/main.js:291-297 | drawing from a non-empty source keeps the game well-formed, and whatever was held is still held |
| Moves.DrawConserved | src/main.js:296 | moving the source's last card onto the deck keeps every card held exactly once |
| Moves.RecycleOk | src/main.js:291-295 | recycling an empty source keeps the game well-formed. A held deck card is still held, but now as a stale card of the source |
| Moves.RecycleHeld | src/main.js:70-73 | after the deck's cards return to the source, a previously held deck card is a stale drag |
| Moves.RecycleGameOk | src/main.js:70-73 | moving the deck back into an empty source keeps the game well-formed |
| Moves.DrawShape | src/main.js:77-83 | pushing the source's last card onto the deck, when every card is still held once, keeps the game well-formed |
| Press.TableauPress | src/main.js:266-281 | one tableau's turn of a press changes only face states: at most the top card of the hit tableau goes from face-down to face-up, and only when that tableau has no face-up card |
| Press.TableausPressed | src/main.js:266-281 | the whole tableau pass changes only face states |
| Press.TableausMissed | src/main.js:266-281 | a tableau pass that hits no non-empty tableau changes nothing and keeps what is held |
| Press.DeckCardsPicked | src/main.js:284-288 | the deck-card pass keeps what is held when no deck card is hit; otherwise it picks up the hit card with the highest index |
| Press.MouseDownEffect | src/main.js:260-300 | a press never changes the foundations, their counters or the tableau piles |
| Press.TableausPressedOk | src/main.js:266-281 | the tableau pass keeps the game well-formed and leaves a legal or stale unit in the hand |
| Press.DeckCardsPressedOk | src/main.js:284-288 | a deck card picked up is a face-up card of the deck |
| Press.MouseDownOk | src/main.js:260-300 | a whole press keeps the game well-formed and leaves a legal or stale unit in the hand |
| Drops.FirstColliding | src/main.js:335-336 | -1 exactly when no pile box overlaps, otherwise the first overlapping box |
| Drops.SingleTarget | src/main.js:335-336 | a released single card's target is the first foundation its box overlaps. Only when it overlaps no foundation is it the first overlapping tableau. With no overlap there is no target |
| Drops.RunTarget | src/main.js:347 | a released run's target is the first tableau its first card's box overlaps; with no overlap there is no target |
| Drops.ResetAll | src/main.js:353-355 | every released card goes back to its home position, and every other card stays where it was |
| Drops.MoveAll | src/main.js:315-323 | every card of a dragged unit moves by (dx, dy), and every other card stays where it was |
| Drops.MovedBy | src/main.js:315-323 | each card of a repeat-free unit is translated by the displacement, and the other cards keep their positions |
| Drops.TakeFromDeck | src/main.js:74-76 | taking a deck card off removes exactly it and leaves the rest of the game well-formed, with the card in hand |
| Drops.TakeFromTableau | src/main.js:169-171 | taking the face-up top card off a tableau leaves the cards below it and the rest of the game well-formed, with the card in hand |
| Drops.DeckOutConserved | src/main.js:338 | after a deck card leaves the deck, the game together with that card still holds every card once |
| Drops.TableauOutConserved | src/main.js:338 | after a tableau's top card leaves it, the game together with that card still holds every card once |
| Drops.FoundationInConserved | src/main.js:339 | putting the card in hand on a foundation keeps every card held exactly once |
| Drops.TableauInConserved | src/main.js:339 | putting the card in hand on a tableau keeps every card held exactly once |
| Drops.PutOnFoundationOk | src/main.js:129-135 | pushing a card that the foundation accepts keeps the game well-formed |
| Drops.PutOnTableauOk | src/main.js:157-168 | pushing a card that the tableau accepts keeps the game well-formed |
| Drops.PushedLayout | src/main.js:163-168 | pushing a card not yet on any pile onto a tableau keeps every card at the spot its pile gives it |
| Drops.CardResetOk | src/main.js:105-107 | sending a card back to its home position keeps the game well-formed and what is held stays held |
| Drops.LandsOk | src/main.js:337-340 | a legally held single card that leaves its parent and lands on a pile accepting it leaves the game well-formed |
| Drops.DropSingleOk | src/main.js:334-344 | releasing a legally held single card keeps the game well-formed, whether it lands or goes back |
| Drops.SingleMoveEffect | src/main.js:334-344 | when a single card lands: it never lands on its own tableau, and it leaves the deck (exactly that card) or its tableau (exactly the top card). It is appended to the target pile, its home position is the target's slot and its parent is the target tableau, and it sits at its new home. Nothing else changes: the source, the face states, the other piles and counters, and every other card's position, home and parent |
| Drops.SingleMoveFrame | src/main.js:337-340 | a single card that leaves its parent and lands changes only its old pile, the pile it lands on (and that foundation's counter), and its own position, home and parent |
| Drops.StaleDropDuplicates | src/main.js:337-340 | releasing a stale deck card onto a pile that accepts it takes the deck's last card away and breaks "every card exactly once" |
| Drops.TwiceNotConserved | src/main.js:338-339 | a card that is in the source and also on a pile is held twice |
| Drops.RunStep | src/main.js:349-352 | moving the next card of a run from tableau i to tableau j extends the run-move invariant by one card |
| Drops.RunRemoveNext | src/main.js:169-171 | removing the next run card from the origin tableau removes exactly that card |
| Drops.PushedPiles | src/main.js:350-351 | one remove-and-push changes only tableaus i and j: the card leaves i and is appended to j |
| Drops.RunMoveOk | src/main.js:348-352 | a completed run move onto a tableau that accepts the run's first card keeps the game well-formed |
| Drops.RunMoveConserved | src/main.js:349-352 | a completed run move keeps every card held exactly once |
| Drops.RunNotOnOwn | src/main.js:345-348 | a held run comes from a tableau, and that tableau rejects the run's first card |
| Drops.PointsOnlyOk | src/main.js:315-323 | changing only card positions keeps the game well-formed, and what is held stays held |
| Drops.HeldDistinct | src/main.js:315-323 | a held unit has no repeated card |
| Release.RunFoldMoved | src/main.js:349-352 | after k remove-and-push steps, the first k run cards are on top of tableau j in order, at its next slots and with j as parent. Tableau i keeps its cards below the run plus the rest of the run, no other pile changes, and other cards keep their attributes |
| Release.RunFoldParent | src/main.js:349-352 | the next card of the run is still owned by its origin tableau when its turn comes |
| Release.DropRunEffect | src/main.js:345-356 | a run either moves whole onto another tableau that accepts its first card, in order, or only its cards' positions change, back to their homes |
| Release.DropRunOk | src/main.js:345-356 | releasing a legally held run keeps the game well-formed |
| Release.RunLandsOk | src/main.js:348-352 | a run moved onto a tableau that accepts its first card leaves the game well-formed |
| Release.MouseUpOk | src/main.js:328-362 | a release keeps the game well-formed unless a stale deck card lands, and then the cards are no longer each held exactly once |
| Deal.NewCards | src/main.js:211-215 | the loop builds the setup deck: 52 distinct cards, each (number, suit) once |
| Deal.DealtStep | src/main.js:225-227 | dealing tableau i takes i + 1 more cards, and the seven tableaus take at most 28 |
| Deal.Picked | src/main.js:227-231 | picking by a list of indices into what is still undealt moves one card per index into the tableau and keeps the rest; together they are the cards it started from |
| Deal.PickedStep | src/main.js:228-231 | each further index is in range of the undealt cards, and it appends the card at that index to the tableau and splices it out of the undealt cards |
| Deal.TableauPicks | src/main.js:225-228 | tableau i consumes the next i + 1 random indices, each below the number of cards still undealt when it is used |
| Deal.Deals | src/main.js:225-235 | the reference deal of the first i tableaus: i tableaus and 52 minus the cards they took left undealt |
| Deal.DealsStep | src/main.js:225-235 | the deal of i + 1 tableaus is the deal of i tableaus followed by picking tableau i from the cards still undealt |
| Deal.DealsCounts | src/main.js:225-235 | in the reference deal tableau k holds k + 1 cards, and the tableaus and the undealt cards together are the cards the deal started from |
| Deal.DealtAppendCounts | src/main.js:225-235 | adding one more tableau of the right size taken from the undealt cards keeps both counts of the reference deal |
| Deal.DealCard | src/main.js:228-231 | one inner turn appends the undealt card at the random index to the tableau and splices it out, as the reference pick does. It places that card at slot j, face-up only when j == i, with the tableau as parent, and changes no other card |
| Deal.DealTableau | src/main.js:226-232 | tableau i is exactly the reference pick of its i + 1 random indices: it gets i + 1 of the undealt cards at slots 0..i with only the last face-up. The undealt cards lose exactly those, and no other card changes |
| Deal.DealNext | src/main.js:225-235 | one outer turn extends the reference deal by tableau i and moves the next tableau point one card width plus 30 px right |
| Deal.DealTableaus | src/main.js:225-235 | the loop computes the reference deal of seven tableaus: tableaus of 1..7 cards, laid out and faced as dealt, leaving 24 untouched cards. Together they are the 52 cards |
| Deal.Setup | src/main.js:207-235 | the deal starts from all 52 cards and ends with the reference deal: seven laid-out tableaus and a 24-card face-down source with no parent |
| Solitaire.SetupOk | src/main.js:207-238 | the dealt game, with an empty deck and empty foundations, is well-formed |
| Solitaire.SetupConserved | src/main.js:211-235 | after the deal, every card is in the source or a tableau exactly once |
| Solitaire.FoundationPoints | src/main.js:217-222 | the foundations start at (250, 10), each next one 140 px to the right |
| Solitaire.DealtShapeOf | src/main.js:225-235 | the card attributes the deal produces, stored in a game, give every tableau its dealt shape |
| Solitaire.NewGame | src/main.js:207-238 | a well-formed game with an empty deck and empty foundations counting from 1, a 24-card source, the reference deal on the tableaus, and foundations, tableaus and deck at their setup positions |
| Solitaire.GameState.constructor | src/main.js:194-241 | a valid game holding the reference deal of the random indices: foundations at (250, 10) and 140 px apart; tableaus from (w/12, h/3.5) and one card width plus 30 px apart; the deck at (70, h - 200); an empty deck, nothing held, not won |
| Solitaire.GameState.MouseDown | src/main.js:260-300 | the state after a press is MouseDownEffect of the state before, the last mouse position is the press point, and the state stays valid |
| Solitaire.GameState.Press | src/main.js:260-300 | the tableau loop, the deck-card loop and the deck click together compute MouseDownEffect |
| Solitaire.GameState.PressTableaus | src/main.js:266-281 | the loop over the seven tableaus computes the tableau pass TableausPressed |
| Solitaire.GameState.PressTableau | src/main.js:266-281 | one tableau's turn computes TableauPress |
| Solitaire.GameState.PressDeckCards | src/main.js:284-288 | the loop over the deck cards computes DeckCardsPressed |
| Solitaire.GameState.MouseMove | src/main.js:302-326 | when the button is down and something is held, every held card moves by the mouse's displacement, the others stay put, and the mouse position is updated. Otherwise nothing changes. The state stays valid |
| Solitaire.GameState.Drag | src/main.js:303-323 | the held cards move by the displacement since the last mouse position, and no other card moves |
| Solitaire.GameState.MoveHeld | src/main.js:315-323 | every held card moves by (dx, dy) |
| Solitaire.GameState.MoveCard | src/main.js:321-322 | the one held card moves by (dx, dy) |
| Solitaire.GameState.MoveCards | src/main.js:316-319 | each card of the held run moves by (dx, dy) |
| Solitaire.GameState.MouseUp | src/main.js:328-362 | the empty run crashes and changes nothing. Otherwise the state becomes MouseUpEffect of the old state, with nothing held and the button up. win always matches the foundations, and the state stays valid unless a stale deck card lands |
| Solitaire.GameState.ReleaseHeld | src/main.js:332-357 | the release of what is held computes MouseUpEffect and keeps win up to date |
| Solitaire.GameState.ReleaseSingle | src/main.js:334-344 | releasing a single card computes DropSingle, clears the hand and recomputes win |
| Solitaire.GameState.ReleaseRun | src/main.js:345-356 | releasing a run computes DropRun and clears the hand |
| Solitaire.GameState.DropCard | src/main.js:335-343 | the single card lands on the first colliding foundation, or else tableau, that accepts it, or goes home |
| Solitaire.GameState.DropRunCards | src/main.js:346-355 | the run lands on the first colliding tableau that accepts its first card, or goes home |
| Solitaire.GameState.MoveRun | src/main.js:349-352 | the loop over the run computes RunFold over all of its cards |
| Solitaire.GameState.MoveRunCard | src/main.js:349-352 | one turn of the run loop moves the next card |
| Solitaire.GameState.ResetCards | src/main.js:354 | each card of the run is back at its home position, and no other card moves |
| Solitaire.GameState.ResetDeck | src/main.js:70-73 | the deck's cards become the source, in order, and the deck is empty |
| Solitaire.GameState.RemoveFromDeck | src/main.js:74-76 | the card is removed from the deck, by indexOf and splice |
| Solitaire.GameState.PushOnDeck | src/main.js:77-83 | the card joins the deck face-up, at the drawn-card slot, with the deck as parent |
| Solitaire.GameState.ResetCard | src/main.js:105-107 | the card is back at its home position |
| Solitaire.GameState.PushOnFoundation | src/main.js:130-135 | the card is appended to the foundation and placed there, and nextNumber grows by one |
| Solitaire.GameState.PushOnTableau | src/main.js:163-168 | the card is appended to the tableau, 25 px below the tableau's point per card already on it, with the tableau as parent |
| Solitaire.GameState.RemoveFromTableau | src/main.js:169-171 | the card is removed from the tableau, by indexOf and splice |
| Solitaire.GameState.ShowTopCard | src/main.js:179-181 | the tableau's top card becomes face-up |
| Solitaire.GameState.RemoveFromItsParent | src/main.js:338 | the card is removed from the deck or the tableau that is its parent |
| Solitaire.GameState.SetWinState | src/main.js:52-54 | win is set from the foundations. In a well-formed game it is true iff every nextNumber is 14, iff the source, the deck and the tableaus are empty |

## Left out

- Drawing on the canvas is not part of this model: the `draw` methods, `Draw`, the context calls
  and the "You Win!" text. It is output only.
- Sprite loading, DOM setup, event wiring and `getMousePos` are not part of this model. Mouse
  positions and the canvas size are parameters.
- `Math.random` and the `random`/`last` array helpers are replaced by a sequence of indices. The
  n-th index is below the number of cards still undealt.
- Coordinates are exact reals. Floating-point rounding (for example of 500/6) is not modelled.
- A card that was never pushed has `{}` as its parent and as its home position. The model uses
  `Unowned` for that parent and gives such cards a defined home position. `lastMousePoint` starts
  undefined in the source and at (0, 0) in the model; no handler reads it before a press sets it.
- Solitaire.GameState.RemoveFromItsParent: requires the parent to be the deck or a tableau. A
  card with no parent (`{}`) has no `remove` method, but no held card can be without a parent.
- Solitaire.GameState.MouseUp: after a stale deck card lands, `Valid()` no longer holds, because
  a card is counted twice. The model does not follow the game past that point.
- Solitaire.GameState.MouseUp: the thrown error of releasing the empty run is a `crashed` result.
  The state is left unchanged, which matches the source leaving `draggedCard` and `isDown` as
  they were when the exception propagated. The `Draw()` that would follow is not reached.
- Press.TableausPressed: states only that the pass changes face states and nothing else. The
  stronger fact, that only a hit tableau with no face-up card flips its top card, is stated per
  tableau by Press.TableauPress.
- public/game.js is not part of this model. It is a generated older bundle of `src/main.js`.
- rollup.config.js is not part of this model. It is build configuration.

/** Sizes and layout rules of the board (src/main.js:1-4, 68-69, 80, 101-102, 126-127, 132, 156, 164, 187-191). */
module Board {
  import opened Geometry

  /** CARD_SIZE_X = 500 / 6, kept exact. */
  const CardWidth: real := 500.0 / 6.0
  /** CARD_SIZE_Y = 726 / 6, kept exact. */
  const CardHeight: real := 726.0 / 6.0
  /** Vertical offset between stacked tableau cards. */
  const StackOffset: real := 25.0

  /** The box of a card whose top-left corner is at pt. */
  function CardRect(pt: Point): Rect
  {
    Rect(pt, CardWidth, CardHeight)
  }

  /** The box of the deck's face (the clickable draw spot). */
  function DeckRect(deckPoint: Point): Rect
  {
    Rect(deckPoint, CardWidth, CardHeight)
  }

  /** A foundation is 5 px wider and taller than a card. */
  function FoundationRect(pt: Point): Rect
  {
    Rect(pt, CardWidth + 5.0, CardHeight + 5.0)
  }

  /** Tableau.height: 25 px per card plus one card's height. */
  function TableauHeight(count: nat): (h: real)
    ensures h >= CardHeight
  {
    (count as real) * StackOffset + CardHeight
  }

  /** Each card added to a tableau makes its box 25 px taller. */
  lemma {:induction false} TableauHeightStep(count: nat)
    requires count > 0
    ensures TableauHeight(count) - TableauHeight(count - 1) == StackOffset
  {
  }

  /** A tableau's box grows downwards with its number of cards. */
  function TableauRect(pt: Point, count: nat): Rect
  {
    Rect(pt, CardWidth, TableauHeight(count))
  }

  /** Where Deck.push places a card: one card width plus 50 px right of the deck's face. */
  function DeckSlot(deckPoint: Point): (q: Point)
    ensures q.y == deckPoint.y && q.x > deckPoint.x + CardWidth
  {
    Point(deckPoint.x + CardWidth + 50.0, deckPoint.y)
  }

  /** Where Tableau.push places the card that becomes number k (from 0) of the tableau. */
  function TableauSlot(tableauPoint: Point, k: nat): (q: Point)
    ensures q.x == tableauPoint.x && q.y >= tableauPoint.y
  {
    Point(tableauPoint.x, tableauPoint.y + StackOffset * (k as real))
  }

  /** Each card of a tableau sits 25 px below the one under it. */
  lemma {:induction false} TableauSlotStep(tableauPoint: Point, k: nat)
    requires k > 0
    ensures TableauSlot(tableauPoint, k).y - TableauSlot(tableauPoint, k - 1).y == StackOffset
  {
  }

  /** A card on the deck spot never covers the deck face: its box starts right of it. */
  lemma {:induction false} DeckSlotClearOfDeck(deckPoint: Point, p: Point)
    requires IsClicked(p, DeckRect(deckPoint))
    ensures !IsClicked(p, CardRect(DeckSlot(deckPoint)))
  {
  }

  /** Every stacked card of a tableau lies inside the tableau's box. */
  lemma {:induction false} SlotInsideTableau(tableauPoint: Point, count: nat, k: nat, p: Point)
    requires k < count
    requires IsClicked(p, CardRect(TableauSlot(tableauPoint, k)))
    ensures IsClicked(p, TableauRect(tableauPoint, count))
  {
  }
}

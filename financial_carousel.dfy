/**
 * The carousel of summary cards on the dashboard: two cards are visible at a time, the
 * position is an index between 0 and the number of cards minus two, and one navigation dot
 * per position is shown when there are more cards than fit.
 *
 * The cards themselves are a fixed prop; only their number matters here. Values are integer
 * cents.
 */
module FinancialCarousel {

  const ItemsPerView := 2

  /** `Math.max(0, cards.length - itemsPerView)`. */
  function MaxIndex(cardCount: nat): (r: nat)
    ensures cardCount <= ItemsPerView ==> r == 0
    ensures cardCount > ItemsPerView ==> r == cardCount - ItemsPerView
  {
    if cardCount <= ItemsPerView then 0 else cardCount - ItemsPerView
  }

  /** `goToSlide`: `Math.max(0, Math.min(index, maxIndex))`. */
  function GoToSlide(index: int, cardCount: nat): (r: int)
    ensures 0 <= r <= MaxIndex(cardCount)
    ensures 0 <= index <= MaxIndex(cardCount) ==> r == index
    ensures index < 0 ==> r == 0
    ensures index > MaxIndex(cardCount) ==> r == MaxIndex(cardCount)
  {
    var upper := if index < MaxIndex(cardCount) then index else MaxIndex(cardCount);
    if upper < 0 then 0 else upper
  }

  /** `formatValue`: the magnitude shown for a card. */
  function FormatValue(value: int): (r: int)
    ensures r >= 0
    ensures r == value || r == -value
  {
    if value < 0 then -value else value
  }

  /** `cards.length > itemsPerView`: the dots are shown. */
  predicate ShowDots(cardCount: nat) {
    cardCount > ItemsPerView
  }

  /** `Array.from({ length: maxIndex + 1 })`: the number of dots. */
  function DotCount(cardCount: nat): (r: nat)
    ensures r == MaxIndex(cardCount) + 1
  {
    MaxIndex(cardCount) + 1
  }

  /**
   * The dots match the positions one to one: dot `d` leads to position `d`, and every
   * position the clamp can produce has its dot. With dots shown there are at least two.
   */
  lemma DotsCoverPositions(cardCount: nat)
    ensures forall d :: 0 <= d < DotCount(cardCount) ==> GoToSlide(d, cardCount) == d
    ensures forall index :: 0 <= GoToSlide(index, cardCount) < DotCount(cardCount)
    ensures ShowDots(cardCount) ==> DotCount(cardCount) == cardCount - 1 && DotCount(cardCount) >= 2
  {
  }

  class Carousel {
    const cardCount: nat
    var currentIndex: int
    var isDragging: bool
    var startX: int
    var scrollLeft: int

    ghost predicate Valid()
      reads this
    {
      0 <= currentIndex <= MaxIndex(cardCount)
    }

    constructor (cardCount: nat)
      ensures Valid()
      ensures this.cardCount == cardCount && currentIndex == 0 && !isDragging && startX == 0 && scrollLeft == 0
    {
      this.cardCount := cardCount;
      currentIndex, isDragging, startX, scrollLeft := 0, false, 0, 0;
    }

    /** A dot's `onClick`: `goToSlide(index)`. */
    method GoTo(index: int)
      requires Valid()
      modifies this
      ensures Valid()
      ensures currentIndex == GoToSlide(index, cardCount)
      ensures isDragging == old(isDragging) && startX == old(startX) && scrollLeft == old(scrollLeft)
    {
      currentIndex := GoToSlide(index, cardCount);
    }

    /** `handleMouseDown` / `handleTouchStart`: remember where the drag began and the scroll offset at that moment. */
    method DragStart(x: int, domScrollLeft: int)
      requires Valid()
      modifies this
      ensures Valid()
      ensures isDragging && startX == x && scrollLeft == domScrollLeft
      ensures currentIndex == old(currentIndex)
    {
      isDragging := true;
      startX := x;
      scrollLeft := domScrollLeft;
    }

    /** `handleMouseUp` / `handleTouchEnd`. */
    method DragEnd()
      requires Valid()
      modifies this
      ensures Valid()
      ensures !isDragging
      ensures currentIndex == old(currentIndex) && startX == old(startX) && scrollLeft == old(scrollLeft)
    {
      isDragging := false;
    }

    /** Dot `index` is highlighted. */
    predicate DotActive(index: int)
      reads this
    {
      index == currentIndex
    }
  }

  /** Exactly one dot is highlighted: the one of the current position. */
  lemma OneActiveDot(c: Carousel)
    requires c.Valid()
    ensures 0 <= c.currentIndex < DotCount(c.cardCount) && c.DotActive(c.currentIndex)
    ensures forall d :: 0 <= d < DotCount(c.cardCount) && d != c.currentIndex ==> !c.DotActive(d)
  {
  }
}

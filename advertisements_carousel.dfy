/**
 * The advertisements carousel: four fixed slides that the user drags with the mouse or a
 * finger; a release after a drag of more than 50 pixels moves one slide in the drag's
 * direction, and an autoplay timer advances one slide, wrapping from the last to the first.
 *
 * Pointer positions are integers; a mouse position is `pageX` minus the carousel's
 * `offsetLeft`, taken as given.
 */
module AdvertisementsCarousel {

  const TotalSlides := 4
  const Threshold := 50

  function Abs(x: int): (r: nat)
    ensures r == x || r == -x
  {
    if x < 0 then -x else x
  }

  /** `goToSlide`: `Math.max(0, Math.min(index, totalSlides - 1))`. */
  function GoToSlide(index: int): (r: int)
    ensures 0 <= r < TotalSlides
    ensures 0 <= index < TotalSlides ==> r == index
    ensures index < 0 ==> r == 0
    ensures index >= TotalSlides ==> r == TotalSlides - 1
  {
    if index < 0 then 0 else if index > TotalSlides - 1 then TotalSlides - 1 else index
  }

  /** Going back after a long drag to the right. */
  predicate SwipesBack(current: int, drag: int) {
    Abs(drag) > Threshold && drag > 0 && current > 0
  }

  /** Going forward after a long drag to the left. */
  predicate SwipesForward(current: int, drag: int) {
    Abs(drag) > Threshold && drag < 0 && current < TotalSlides - 1
  }

  /** The slide shown after a release with drag distance `drag`. */
  function ReleaseTarget(current: int, drag: int): (r: int)
    requires 0 <= current < TotalSlides
    ensures 0 <= r < TotalSlides
    ensures SwipesBack(current, drag) ==> r == current - 1
    ensures SwipesForward(current, drag) ==> r == current + 1
    ensures !SwipesBack(current, drag) && !SwipesForward(current, drag) ==> r == current
  {
    if Abs(drag) > Threshold then
      if drag > 0 && current > 0 then GoToSlide(current - 1)
      else if drag < 0 && current < TotalSlides - 1 then GoToSlide(current + 1)
      else current
    else current
  }

  /** A release moves at most one slide, and a short drag (at most 50 pixels) never moves. */
  lemma ReleaseMovesAtMostOne(current: int, drag: int)
    requires 0 <= current < TotalSlides
    ensures Abs(ReleaseTarget(current, drag) - current) <= 1
    ensures Abs(drag) <= Threshold ==> ReleaseTarget(current, drag) == current
    ensures ReleaseTarget(current, drag) != current <==> SwipesBack(current, drag) || SwipesForward(current, drag)
  {
  }

  /** The autoplay step: `(prevIndex + 1) % totalSlides`. */
  function AutoplayNext(i: int): (r: int)
    requires 0 <= i < TotalSlides
    ensures 0 <= r < TotalSlides
    ensures i < TotalSlides - 1 ==> r == i + 1
    ensures i == TotalSlides - 1 ==> r == 0
  {
    (i + 1) % TotalSlides
  }

  /** `n` autoplay steps from slide `i`. */
  function Autoplay(i: int, n: nat): (r: int)
    requires 0 <= i < TotalSlides
    ensures 0 <= r < TotalSlides
  {
    if n == 0 then i else AutoplayNext(Autoplay(i, n - 1))
  }

  /** Autoplay visits the slides in a cycle: after `n` steps it shows slide `(i + n) mod 4`. */
  lemma {:induction false} AutoplayIsRotation(i: int, n: nat)
    requires 0 <= i < TotalSlides
    ensures Autoplay(i, n) == (i + n) % TotalSlides
  {
    if n > 0 {
      AutoplayIsRotation(i, n - 1);
      SuccessorMod(i + n - 1);
    }
  }

  /** Taking the remainder before or after adding one gives the same slide. */
  lemma SuccessorMod(x: int)
    ensures (x % TotalSlides + 1) % TotalSlides == (x + 1) % TotalSlides
  {
  }

  /** After one full round the carousel is back where it started. */
  lemma AutoplayFullRound(i: int)
    requires 0 <= i < TotalSlides
    ensures Autoplay(i, TotalSlides) == i
  {
    AutoplayIsRotation(i, TotalSlides);
  }

  class Carousel {
    var currentIndex: int
    var isDragging: bool
    var startX: int
    var startY: int
    var dragDistance: int

    /** A slide is shown, and a carousel at rest has no drag offset. */
    ghost predicate Valid()
      reads this
    {
      0 <= currentIndex < TotalSlides && (!isDragging ==> dragDistance == 0)
    }

    constructor ()
      ensures Valid()
      ensures currentIndex == 0 && !isDragging && startX == 0 && startY == 0 && dragDistance == 0
    {
      currentIndex, isDragging, startX, startY, dragDistance := 0, false, 0, 0, 0;
    }

    /** `handleMouseDown`: start a drag at `x`. */
    method MouseDown(x: int)
      requires Valid()
      modifies this
      ensures Valid()
      ensures isDragging && startX == x
      ensures currentIndex == old(currentIndex) && startY == old(startY) && dragDistance == old(dragDistance)
    {
      isDragging := true;
      startX := x;
    }

    /** `handleMouseMove`: while dragging, the offset is twice the horizontal travel. */
    method MouseMove(x: int)
      requires Valid()
      modifies this
      ensures Valid()
      ensures old(isDragging) ==> dragDistance == 2 * (x - startX)
      ensures !old(isDragging) ==> dragDistance == old(dragDistance)
      ensures currentIndex == old(currentIndex) && isDragging == old(isDragging)
      ensures startX == old(startX) && startY == old(startY)
    {
      if !isDragging {
        return;
      }
      var walk := (x - startX) * 2;
      dragDistance := walk;
    }

    /** `handleTouchStart`: start a drag at (`x`, `y`) with no offset. */
    method TouchStart(x: int, y: int)
      requires Valid()
      modifies this
      ensures Valid()
      ensures isDragging && startX == x && startY == y && dragDistance == 0
      ensures currentIndex == old(currentIndex)
    {
      isDragging := true;
      startX, startY := x, y;
      dragDistance := 0;
    }

    /** `handleTouchMove`: while dragging, follow the finger only when it moves more sideways than up or down. */
    method TouchMove(x: int, y: int)
      requires Valid()
      modifies this
      ensures Valid()
      ensures old(isDragging) && Abs(x - startX) > Abs(y - startY) ==> dragDistance == x - startX
      ensures !(old(isDragging) && Abs(x - startX) > Abs(y - startY)) ==> dragDistance == old(dragDistance)
      ensures currentIndex == old(currentIndex) && isDragging == old(isDragging)
      ensures startX == old(startX) && startY == old(startY)
    {
      if !isDragging {
        return;
      }
      var deltaX := x - startX;
      var deltaY := y - startY;
      if Abs(deltaX) > Abs(deltaY) {
        dragDistance := deltaX;
      }
    }

    /**
     * `handleMouseUp` (also bound to mouse leave) and `handleTouchEnd`, which are the same
     * code: end the drag, move at most one slide, and drop the offset. Without a drag
     * nothing changes.
     */
    method Release()
      requires Valid()
      modifies this
      ensures Valid()
      ensures old(isDragging) ==> !isDragging && dragDistance == 0 && currentIndex == ReleaseTarget(old(currentIndex), old(dragDistance))
      ensures !old(isDragging) ==> currentIndex == old(currentIndex) && !isDragging && dragDistance == old(dragDistance)
      ensures startX == old(startX) && startY == old(startY)
    {
      if !isDragging {
        return;
      }
      isDragging := false;
      if Abs(dragDistance) > Threshold {
        if dragDistance > 0 && currentIndex > 0 {
          currentIndex := GoToSlide(currentIndex - 1);
        } else if dragDistance < 0 && currentIndex < TotalSlides - 1 {
          currentIndex := GoToSlide(currentIndex + 1);
        }
      }
      dragDistance := 0;
    }

    /** One tick of the autoplay interval. */
    method AutoplayTick()
      requires Valid()
      modifies this
      ensures Valid()
      ensures currentIndex == AutoplayNext(old(currentIndex))
      ensures isDragging == old(isDragging) && dragDistance == old(dragDistance)
      ensures startX == old(startX) && startY == old(startY)
    {
      currentIndex := (currentIndex + 1) % TotalSlides;
    }
  }
}

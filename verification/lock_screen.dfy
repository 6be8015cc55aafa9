/**
 * The lock screen: dragging the unlock indicator upward, and the click and
 * key gestures that unlock at once. The viewport height arrives with each
 * pointer event; the delayed callback to the desktop after the slide-away
 * animation is represented by the `isUnlocking` flag it follows.
 */
module LockScreen {
  /** How far up (in pixels) a drag must go to unlock. */
  const UnlockDistance: int := 150

  /** The offset a pointer at `clientY` gives: its distance above the bottom edge, kept within one viewport height above 0. */
  function DragOffset(clientY: int, viewportHeight: nat): (r: int)
    ensures -(viewportHeight as int) <= r <= 0
    ensures -(viewportHeight as int) <= clientY - viewportHeight <= 0 ==> r == clientY - viewportHeight
    ensures clientY >= viewportHeight ==> r == 0
    ensures clientY <= 0 ==> r == -(viewportHeight as int)
  {
    var raw := clientY - viewportHeight;
    var upper := if raw < 0 then raw else 0;
    if upper > -(viewportHeight as int) then upper else -(viewportHeight as int)
  }

  /** A pointer further up never gives a smaller drag distance. */
  lemma DragOffsetMonotone(y1: int, y2: int, viewportHeight: nat)
    requires y1 <= y2
    ensures DragOffset(y1, viewportHeight) <= DragOffset(y2, viewportHeight)
  {
  }

  class Lock {
    var isDragging: bool
    var dragY: int
    var isUnlocking: bool

    /** The screen is never pushed down, and an offset past the threshold has started the unlock. */
    ghost predicate Valid()
      reads this`dragY, this`isUnlocking
    {
      dragY <= 0 && (dragY < -UnlockDistance ==> isUnlocking)
    }

    constructor ()
      ensures Valid() && !isDragging && dragY == 0 && !isUnlocking
    {
      isDragging := false;
      dragY := 0;
      isUnlocking := false;
    }

    /** Pressing on the unlock indicator starts a drag. */
    method PointerDown()
      modifies this`isDragging
      ensures isDragging
    {
      isDragging := true;
    }

    /**
     * Moving the pointer does nothing unless a drag was started; during a
     * drag the screen follows it within [-viewport height, 0], and past 150
     * pixels up it unlocks.
     */
    method PointerMove(clientY: int, viewportHeight: nat)
      requires Valid()
      modifies this`dragY, this`isUnlocking
      ensures Valid()
      ensures !isDragging ==> dragY == old(dragY) && isUnlocking == old(isUnlocking)
      ensures isDragging ==> dragY == DragOffset(clientY, viewportHeight)
      ensures isDragging ==> isUnlocking == (old(isUnlocking) || DragOffset(clientY, viewportHeight) < -UnlockDistance)
    {
      if !isDragging {
        return;
      }
      var offset := DragOffset(clientY, viewportHeight);
      dragY := offset;
      if offset < -UnlockDistance {
        Unlock();
      }
    }

    /**
     * Releasing ends the drag; an offset short of the threshold snaps back
     * to 0. An offset of exactly 150 pixels is neither unlocked nor reset.
     */
    method PointerUp()
      requires Valid()
      modifies this`dragY, this`isDragging
      ensures Valid() && !isDragging
      ensures old(dragY) > -UnlockDistance ==> dragY == 0
      ensures old(dragY) <= -UnlockDistance ==> dragY == old(dragY)
      ensures dragY == 0 || isUnlocking || dragY == -UnlockDistance
    {
      if dragY > -UnlockDistance {
        dragY := 0;
      }
      isDragging := false;
    }

    method Unlock()
      modifies this`isUnlocking
      ensures isUnlocking
    {
      isUnlocking := true;
    }

    /** A click anywhere unlocks. */
    method Click()
      modifies this`isUnlocking
      ensures isUnlocking
    {
      Unlock();
    }

    /** Enter or Space unlocks; any other key does nothing. */
    method KeyDown(key: string)
      modifies this`isUnlocking
      ensures key == "Enter" || key == " " ==> isUnlocking
      ensures key != "Enter" && key != " " ==> isUnlocking == old(isUnlocking)
    {
      if key == "Enter" || key == " " {
        Unlock();
      }
    }
  }

  /** A drag started and carried more than 150 pixels up unlocks. */
  method DragUpUnlocks(l: Lock, clientY: int, viewportHeight: nat)
    requires l.Valid() && clientY - viewportHeight < -UnlockDistance && viewportHeight > UnlockDistance
    modifies l
    ensures l.isUnlocking
  {
    l.PointerDown();
    l.PointerMove(clientY, viewportHeight);
  }
}

/** The swipeable card stack as the view keeps it: mutable state that the
    drag handlers and the deferred advance reassign in place. Each handler is
    proved to move the state exactly as the matching transition of
    SwipeGesture does. */
module SwipeableCards {
  import opened CardLayout
  import opened SwipeGesture

  class SwipeableCardView {
    var currentCardIndex: nat
    var offset: Offset
    /** Deferred advances scheduled by a release and not fired yet. */
    var pendingAdvances: nat

    function State(): ViewState
      reads this
    {
      ViewState(currentCardIndex, offset, pendingAdvances)
    }

    /** The stack starts on the first card with no drag and nothing scheduled. */
    constructor ()
      ensures State() == Initial
      ensures currentCardIndex == 0 && offset == Zero && pendingAdvances == 0
    {
      currentCardIndex := 0;
      offset := Zero;
      pendingAdvances := 0;
    }

    /** The drag moved: the offset becomes the gesture's translation. */
    method DragChanged(translation: Offset)
      modifies this
      ensures State() == AfterDragChanged(old(State()), translation)
      ensures offset == translation
      ensures currentCardIndex == old(currentCardIndex) && pendingAdvances == old(pendingAdvances)
    {
      offset := translation;
    }

    /** The drag was released: snap back, or, past the threshold on a card
        that is not the last, send the card off screen and schedule the
        advance. */
    method DragEnded()
      modifies this
      ensures State() == AfterDragEnded(old(State()))
      ensures currentCardIndex == old(currentCardIndex)
      ensures old(pendingAdvances) == 0 && old(WithinDeck(State())) ==> WithinDeck(State())
    {
      if Abs(offset.width) > SwipeThreshold {
        if currentCardIndex < LastIndex {
          offset := offset.(width := if offset.width > 0.0 then ExitDistance else -ExitDistance);
          pendingAdvances := pendingAdvances + 1;
        } else {
          offset := Zero;
        }
      } else {
        offset := Zero;
      }
    }

    /** A scheduled advance fires: move to the next card and clear the offset. */
    method TimerFired()
      requires pendingAdvances > 0
      modifies this
      ensures State() == AfterTimerFired(old(State()))
      ensures currentCardIndex == old(currentCardIndex) + 1 && offset == Zero
      ensures old(WithinDeck(State())) ==> WithinDeck(State())
    {
      currentCardIndex := currentCardIndex + 1;
      offset := Zero;
      pendingAdvances := pendingAdvances - 1;
    }
  }

  /** The view's handlers, driven by a release-then-fire sequence, advance
      the stack by one card. */
  method SwipeOnce(v: SwipeableCardView, width: real)
    requires v.pendingAdvances == 0 && v.currentCardIndex < LastIndex
    requires Abs(width) > SwipeThreshold
    modifies v
    ensures v.currentCardIndex == old(v.currentCardIndex) + 1
    ensures v.offset == Zero && v.pendingAdvances == 0
  {
    v.DragChanged(Offset(width, 0.0));
    v.DragEnded();
    v.TimerFired();
  }
}

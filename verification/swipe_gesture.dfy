/** The swipe-to-advance state machine of the card stack, as values: the
    state the view keeps, the three events that change it (the drag moves,
    the drag is released, the deferred advance fires), and runs of events. */
module SwipeGesture {
  import opened CardLayout

  /** A release further than this, either way, swipes the card. */
  const SwipeThreshold: real := 100.0

  /** How far a swiped card is sent off screen before the stack advances. */
  const ExitDistance: real := 1000.0

  /** The drag offset of the foreground card. */
  datatype Offset = Offset(width: real, height: real)

  const Zero: Offset := Offset(0.0, 0.0)

  /** The state the card stack keeps: the index of the current card, the
      drag offset, and how many deferred advances are scheduled and have not
      fired yet. */
  datatype ViewState = ViewState(currentCardIndex: nat, offset: Offset, pendingAdvances: nat)

  /** The state when the stack first appears. */
  const Initial: ViewState := ViewState(0, Zero, 0)

  function Abs(x: real): (r: real)
    ensures r >= 0.0 && (r == x || r == -x)
  {
    if x < 0.0 then -x else x
  }

  /** Index of the last card of the deck. */
  const LastIndex: int := |Cards| - 1

  /** While the drag moves, the offset follows the gesture's translation;
      nothing else changes. */
  function AfterDragChanged(s: ViewState, translation: Offset): (r: ViewState)
    ensures r.offset == translation
    ensures r.currentCardIndex == s.currentCardIndex && r.pendingAdvances == s.pendingAdvances
  {
    s.(offset := translation)
  }

  /** The release rule. A release no further than the threshold, or one on
      the last card, snaps the offset back to zero. Any other release sends
      the card off screen horizontally, on the side it was dragged to, and
      schedules one deferred advance. The index never changes here. */
  function AfterDragEnded(s: ViewState): (r: ViewState)
    ensures r.currentCardIndex == s.currentCardIndex
    ensures Abs(s.offset.width) <= SwipeThreshold ==>
              r.offset == Zero && r.pendingAdvances == s.pendingAdvances
    ensures Abs(s.offset.width) > SwipeThreshold && s.currentCardIndex >= LastIndex ==>
              r.offset == Zero && r.pendingAdvances == s.pendingAdvances
    ensures Abs(s.offset.width) > SwipeThreshold && s.currentCardIndex < LastIndex ==>
              && Abs(r.offset.width) == ExitDistance
              && (r.offset.width > 0.0 <==> s.offset.width > 0.0)
              && r.offset.height == s.offset.height
              && r.pendingAdvances == s.pendingAdvances + 1
  {
    if Abs(s.offset.width) > SwipeThreshold then
      if s.currentCardIndex < LastIndex then
        s.(offset := s.offset.(width := if s.offset.width > 0.0 then ExitDistance else -ExitDistance),
           pendingAdvances := s.pendingAdvances + 1)
      else
        s.(offset := Zero)
    else
      s.(offset := Zero)
  }

  /** One scheduled advance fires: the next card becomes current and the
      offset is cleared. */
  function AfterTimerFired(s: ViewState): (r: ViewState)
    requires s.pendingAdvances > 0
    ensures r.currentCardIndex == s.currentCardIndex + 1
    ensures r.offset == Zero
    ensures r.pendingAdvances + 1 == s.pendingAdvances
  {
    ViewState(s.currentCardIndex + 1, Zero, s.pendingAdvances - 1)
  }

  /** The events that drive the stack. */
  datatype Event = DragChanged(translation: Offset) | DragEnded | TimerFired

  /** An event can happen in a state: the drag events come from the
      foreground card, which exists only while the current index is inside the
      deck, and the timer fires only while an advance is scheduled. */
  predicate Enabled(s: ViewState, e: Event)
  {
    && ((e.DragChanged? || e.DragEnded?) ==> s.currentCardIndex < |Cards|)
    && (e.TimerFired? ==> s.pendingAdvances > 0)
  }

  function Step(s: ViewState, e: Event): (r: ViewState)
    requires Enabled(s, e)
  {
    match e
    case DragChanged(t) => AfterDragChanged(s, t)
    case DragEnded => AfterDragEnded(s)
    case TimerFired => AfterTimerFired(s)
  }

  /** Every event of the run can happen when it comes. */
  predicate Feasible(s: ViewState, events: seq<Event>)
    decreases |events|
  {
    events == [] || (Enabled(s, events[0]) && Feasible(Step(s, events[0]), events[1..]))
  }

  /** The state after a run of events. */
  function Run(s: ViewState, events: seq<Event>): ViewState
    requires Feasible(s, events)
    decreases |events|
  {
    if events == [] then s else Run(Step(s, events[0]), events[1..])
  }

  /** Every release in the run comes after all advances scheduled before it
      have fired. */
  predicate Settled(s: ViewState, events: seq<Event>)
    requires Feasible(s, events)
    decreases |events|
  {
    events == []
    || ((events[0].DragEnded? ==> s.pendingAdvances == 0) && Settled(Step(s, events[0]), events[1..]))
  }

  /** The current card, together with the cards scheduled to be swiped past,
      never goes beyond the last card. */
  predicate WithinDeck(s: ViewState)
  {
    s.currentCardIndex + s.pendingAdvances <= LastIndex
  }

  /** One event keeps the stack within the deck, provided a release comes
      only when no advance is pending. */
  lemma StepKeepsWithinDeck(s: ViewState, e: Event)
    requires WithinDeck(s) && Enabled(s, e)
    requires e.DragEnded? ==> s.pendingAdvances == 0
    ensures WithinDeck(Step(s, e))
  {
  }

  /** If every scheduled advance fires before the next release, the current
      index stays within the deck, so the last card is never removed and the
      foreground card is always drawn. */
  lemma {:induction false} SettledRunStaysWithinDeck(s: ViewState, events: seq<Event>)
    requires WithinDeck(s) && Feasible(s, events) && Settled(s, events)
    ensures WithinDeck(Run(s, events))
    ensures 0 <= Run(s, events).currentCardIndex <= LastIndex
    ensures Foreground(Run(s, events).currentCardIndex, Run(s, events).offset.width,
                       Run(s, events).offset.height).Some?
    decreases |events|
  {
    if events != [] {
      StepKeepsWithinDeck(s, events[0]);
      SettledRunStaysWithinDeck(Step(s, events[0]), events[1..]);
    }
  }

  /** The initial state is within the deck. */
  lemma InitialWithinDeck()
    ensures Initial.currentCardIndex == 0 && Initial.offset == Zero && Initial.pendingAdvances == 0
    ensures WithinDeck(Initial)
  {
  }

  /** A release without a swipe leaves the offset at zero, so releasing
      again changes nothing. */
  lemma SnapBackThenReleaseIsNoOp(s: ViewState)
    requires Abs(s.offset.width) <= SwipeThreshold || s.currentCardIndex >= LastIndex
    ensures AfterDragEnded(AfterDragEnded(s)) == AfterDragEnded(s)
  {
  }

  /** A swipe on a card that is not the last, followed by its deferred
      advance, moves to the next card with a zero offset and nothing pending. */
  lemma {:induction false} SwipeAdvancesOneCard(s: ViewState, translation: Offset)
    requires s.pendingAdvances == 0 && s.currentCardIndex < LastIndex
    requires Abs(translation.width) > SwipeThreshold
    ensures Feasible(s, [DragChanged(translation), DragEnded, TimerFired])
    ensures Run(s, [DragChanged(translation), DragEnded, TimerFired])
            == ViewState(s.currentCardIndex + 1, Zero, 0)
  {
    var events := [DragChanged(translation), DragEnded, TimerFired];
    var s1 := AfterDragChanged(s, translation);
    var s2 := AfterDragEnded(s1);
    var s3 := AfterTimerFired(s2);
    assert events[1..] == [DragEnded, TimerFired] && events[2..] == [TimerFired];
    assert [TimerFired][1..] == [];
    assert Feasible(s3, []);
    assert Feasible(s2, [TimerFired]);
    assert Feasible(s1, [DragEnded, TimerFired]);
    assert Run(s2, [TimerFired]) == s3;
    assert Run(s1, [DragEnded, TimerFired]) == s3;
  }

  /** Releases are not blocked while an advance is pending: a second swipe
      of the first card before its deferred advance fires passes the
      last-card check against the old index and schedules a second advance.
      Once both fire the index is past the last card, and neither the
      foreground card nor any background card is drawn. */
  lemma SecondSwipeBeforeAdvancePassesLastCard()
    ensures Feasible(Initial, DoubleSwipe())
    ensures Run(Initial, DoubleSwipe()).currentCardIndex == |Cards|
    ensures !WithinDeck(Run(Initial, DoubleSwipe()))
    ensures Foreground(Run(Initial, DoubleSwipe()).currentCardIndex, 0.0, 0.0).None?
    ensures BackgroundStack(Run(Initial, DoubleSwipe()).currentCardIndex) == []
  {
  }

  /** Two swipes of 150 points to the right, released before the first
      deferred advance fires, then both advances firing. */
  function DoubleSwipe(): seq<Event>
  {
    [DragChanged(Offset(150.0, 0.0)), DragEnded, DragChanged(Offset(150.0, 0.0)), DragEnded,
     TimerFired, TimerFired]
  }
}

# Swipeable card stack

A model of the swipe-to-advance card stack of the `cards` app (`SwipeableCardView`). The
stack shows the cards `["payment", "split"]`. The top card follows the user's drag. When the
drag is released, the card either snaps back or, if it was dragged more than 100 points
sideways and is not the last card, flies 1000 points off screen. A deferred block then moves
the stack to the next card. Underneath the dragged card, every card not yet swiped past is
drawn in a receding pile; the pile includes the current card itself at depth 0, under the
foreground copy that moves.

The model has three modules:

- `CardLayout` (`card_layout.dfy`): the pure expressions of the view body. These are the card
  list, the card-kind choice, the rotation `width / 20`, the placement of background cards by
  depth, the background pile, and the foreground card.
- `SwipeGesture` (`swipe_gesture.dfy`): the state machine as values. The state holds the
  current index, the drag offset and the number of scheduled advances not yet fired. There is
  one transition function per event: drag changed, drag ended, and timer fired. Runs of events
  and the lemmas about them live here too.
- `SwipeableCards` (`swipeable_card_view.dfy`): the view's state as a class whose fields
  the handlers reassign in place. Each handler is proved to move the state as the matching
  transition of `SwipeGesture` does.

Offsets (`CGFloat`) are `real`; the index is a `nat` (it starts at 0 and is only incremented).
The 0.3 s delay before the deferred advance is an explicit `TimerFired` event. The number of
advances scheduled and not yet fired is an explicit counter.

The code does not block a release while an advance is pending. A second swipe before the
first advance fires checks the last-card guard against the old index and schedules a second
advance. `SecondSwipeBeforeAdvancePassesLastCard` shows that two quick swipes of the first card
end with the index at 2, with no foreground and no background card drawn.
`SettledRunStaysWithinDeck` shows that this cannot happen when every advance fires before the
next release.

The stack has one threshold (100), one rotation divisor (20), one exit distance (1000) and
the last-card guard. Nothing in the code rejects a drag or a release while an advance is
pending.

## Model

| member | source | states |
|---|---|---|
| `CardLayout.KindOf` | cards/cards/ContentView.swift:153-157 | a card named "payment" selects the payment card; every other name selects the split card |
| `CardLayout.DeckKinds` | cards/cards/ContentView.swift:145 | the deck has two cards: the payment card, then the split card |
| `CardLayout.Rotation` | cards/cards/ContentView.swift:175 | rotation is zero exactly when the horizontal offset is zero and otherwise has its sign; times 20 it gives back the offset |
| `CardLayout.RotationMonotonic` | cards/cards/ContentView.swift:175 | a wider drag never rotates the card less |
| `CardLayout.StackPlacement` | cards/cards/ContentView.swift:159-161 | a card at depth d sits at (20d, 10d) with scale 1 − 0.05d; opacity is 1.0 at depth 0, otherwise 0.7 |
| `CardLayout.DeeperCardsRecede` | cards/cards/ContentView.swift:159-161 | the current card is at the origin, unscaled and opaque; a deeper card is further right and down, smaller, and translucent |
| `CardLayout.BackgroundCard` | cards/cards/ContentView.swift:150-161 | the card at a deck index is drawn iff its index is at least the current index, with its own kind and the placement of its depth |
| `CardLayout.BackgroundFrom` | cards/cards/ContentView.swift:150-163 | the background pile holds exactly the deck positions from the current index on, in deck order, each with its kind and placement |
| `CardLayout.BackgroundStack` | cards/cards/ContentView.swift:150-163 | the pile for the current index holds the cards from the current one to the last, in deck order, the k-th with its kind at depth k |
| `CardLayout.BackgroundShowsRemainingCards` | cards/cards/ContentView.swift:150-161 | a deck position appears in the pile iff it has not been swiped past, and then at position index − current |
| `CardLayout.Foreground` | cards/cards/ContentView.swift:166-175 | the foreground card exists iff the current index is inside the deck; it has the current card's kind, the drag offset, and the rotation `Rotation(width)`, of the offset's sign |
| `SwipeGesture.AfterDragChanged` | cards/cards/ContentView.swift:181-184 | the offset becomes the gesture translation; index and scheduled advances are unchanged |
| `SwipeGesture.AfterDragEnded` | cards/cards/ContentView.swift:186-207 | within 100 points (inclusive) or on the last card the offset resets to zero and nothing is scheduled; otherwise the width becomes ±1000 on the drag's side, the height is kept and one advance is scheduled; the index never changes |
| `SwipeGesture.AfterTimerFired` | cards/cards/ContentView.swift:193-196 | the index grows by exactly one, the whole offset becomes zero, and one scheduled advance is used up |
| `SwipeGesture.InitialWithinDeck` | cards/cards/ContentView.swift:141-145 | the stack starts at index 0 with a zero offset and nothing scheduled, inside the deck |
| `SwipeGesture.StepKeepsWithinDeck` | cards/cards/ContentView.swift:181-196 | any event keeps index + scheduled advances at most the last index, provided a release comes only with nothing scheduled |
| `SwipeGesture.SettledRunStaysWithinDeck` | cards/cards/ContentView.swift:181-207 | in any run where every advance fires before the next release, the index stays in [0, count − 1] and the foreground card is always drawn |
| `SwipeGesture.SnapBackThenReleaseIsNoOp` | cards/cards/ContentView.swift:186-207 | after a snap-back release, a second release changes nothing |
| `SwipeGesture.SwipeAdvancesOneCard` | cards/cards/ContentView.swift:181-196 | on a card that is not the last, a drag past 100 points, its release and the advance firing move to the next card with a zero offset and nothing scheduled |
| `SwipeGesture.SecondSwipeBeforeAdvancePassesLastCard` | cards/cards/ContentView.swift:186-196 | two swipes of the first card released before the first advance fires push the index to the deck size; no card is drawn at all |
| `SwipeableCards.SwipeableCardView.constructor` | cards/cards/ContentView.swift:141-145 | the view starts at index 0 with a zero offset and nothing scheduled |
| `SwipeableCards.SwipeableCardView.DragChanged` | cards/cards/ContentView.swift:181-184 | assigns the translation to the offset and changes nothing else, as `AfterDragChanged` |
| `SwipeableCards.SwipeableCardView.DragEnded` | cards/cards/ContentView.swift:186-207 | updates the state in place as `AfterDragEnded`; keeps the stack inside the deck when nothing was scheduled |
| `SwipeableCards.SwipeableCardView.TimerFired` | cards/cards/ContentView.swift:193-196 | increments the index and clears the offset in place as `AfterTimerFired`; keeps the stack inside the deck |
| `SwipeableCards.SwipeOnce` | cards/cards/ContentView.swift:181-196 | driving the view's handlers with a drag past 100 points, its release and the firing advances it by exactly one card |

## Left out

- `Item` (cards/cards/Item.swift): a persisted record holding a timestamp, used nowhere in the stack.
- The view bodies of `PaymentSuccessfulCard`, `SplitWithFriendsCard`, `HeaderView` and `ContentView`: colours, fonts, frames and text only.
- `BottomNavigationView`'s selected-tab highlighting: a cosmetic toggle outside the stack.
- Animation curves and timing (`withAnimation`, spring and ease-in parameters, the 0.3 s delay on the main queue): the deferred block is the explicit `TimerFired` event, not wall-clock time.
- The `isDragging` gesture state: it is set during a drag but never read.
- Drawing order inside the stack (which view is painted over which): the model gives each card's placement, not the compositing.
- Runs of events: a drag change or release is allowed whenever the foreground card exists, and a release need not follow a drag change; the model does not track whether a finger is down, so it admits more runs than the gesture recogniser delivers.
- Floating-point rounding of `CGFloat` and `Double`: offsets, rotation, scale and opacity are exact reals.

/** The card deck of the swipeable stack and everything the view derives
    from the stack's state without changing it: which kind of card is drawn,
    how far the dragged card is rotated, and where the cards behind it sit. */
module CardLayout {

  /** The fixed card list of the stack, top card first. */
  const Cards: seq<string> := ["payment", "split"]

  /** Degrees of rotation are the horizontal offset divided by this. */
  const RotationDivisor: real := 20.0

  /** The two card views a card name can select. */
  datatype CardKind = PaymentCard | SplitCard

  /** A card named "payment" shows the payment card; any other name shows
      the split card. */
  function KindOf(name: string): (k: CardKind)
    ensures k == PaymentCard <==> name == "payment"
    ensures k == SplitCard <==> name != "payment"
  {
    if name == "payment" then PaymentCard else SplitCard
  }

  /** Rotation, in degrees, of the dragged card for a horizontal offset. */
  function Rotation(width: real): (r: real)
    ensures r == 0.0 <==> width == 0.0
    ensures r > 0.0 <==> width > 0.0
    ensures r < 0.0 <==> width < 0.0
    ensures r * RotationDivisor == width
  {
    width / RotationDivisor
  }

  /** A wider drag never rotates the card less. */
  lemma RotationMonotonic(a: real, b: real)
    requires a <= b
    ensures Rotation(a) <= Rotation(b)
  {
  }

  /** Where a card drawn behind the top card sits, relative to the top. */
  datatype Placement = Placement(x: real, y: real, scale: real, opacity: real)

  /** The placement of a background card `depth` positions below the
      current card. */
  function StackPlacement(depth: nat): (p: Placement)
    ensures p.x == 20.0 * depth as real && p.y == 10.0 * depth as real
    ensures p.scale == 1.0 - 0.05 * depth as real
    ensures p.opacity == (if depth == 0 then 1.0 else 0.7)
  {
    var d := depth as real;
    Placement(d * 20.0, d * 10.0, 1.0 - d * 0.05, if depth == 0 then 1.0 else 0.7)
  }

  /** The current card sits where the top card is, unscaled and opaque; a
      deeper card sits further right and further down, is smaller, and is
      drawn translucent. */
  lemma DeeperCardsRecede(d1: nat, d2: nat)
    requires d1 < d2
    ensures StackPlacement(0) == Placement(0.0, 0.0, 1.0, 1.0)
    ensures StackPlacement(d1).x < StackPlacement(d2).x
    ensures StackPlacement(d1).y < StackPlacement(d2).y
    ensures StackPlacement(d1).scale > StackPlacement(d2).scale
    ensures StackPlacement(d2).opacity == 0.7 <= StackPlacement(d1).opacity
    ensures StackPlacement(d1).opacity == 1.0 <==> d1 == 0
  {
  }

  /** One card drawn in the background stack. */
  datatype StackedCard = StackedCard(index: nat, kind: CardKind, placement: Placement)

  function Max(a: nat, b: nat): nat { if a < b then b else a }

  /** The background card at `index` while `current` is the current index:
      drawn only when it has not been swiped past yet. */
  function BackgroundCard(index: nat, current: nat): (c: Option<StackedCard>)
    requires index < |Cards|
    ensures c.Some? <==> index >= current
    ensures c.Some? ==> c.value.index == index
                        && c.value.kind == KindOf(Cards[index])
                        && c.value.placement == StackPlacement(index - current)
  {
    if index >= current then
      Some(StackedCard(index, KindOf(Cards[index]), StackPlacement(index - current)))
    else
      None
  }

  datatype Option<T> = None | Some(value: T)

  /** The background cards drawn for the deck positions `from` onwards, in
      deck order. */
  function BackgroundFrom(from: nat, current: nat): (s: seq<StackedCard>)
    requires from <= |Cards|
    decreases |Cards| - from
    ensures |s| == if Max(from, current) <= |Cards| then |Cards| - Max(from, current) else 0
    ensures forall k :: 0 <= k < |s| ==>
              s[k].index == Max(from, current) + k
              && s[k].index < |Cards|
              && s[k].kind == KindOf(Cards[s[k].index])
              && s[k].placement == StackPlacement(s[k].index - current)
  {
    if from == |Cards| then []
    else
      match BackgroundCard(from, current)
      case None => BackgroundFrom(from + 1, current)
      case Some(c) => [c] + BackgroundFrom(from + 1, current)
  }

  /** The whole background stack for the current index: every card not yet
      swiped past, the current one included (at depth 0, underneath the
      foreground card), in deck order. */
  function BackgroundStack(current: nat): (s: seq<StackedCard>)
    ensures |s| == if current <= |Cards| then |Cards| - current else 0
    ensures forall k :: 0 <= k < |s| ==>
              s[k] == StackedCard(current + k, KindOf(Cards[current + k]), StackPlacement(k))
  {
    BackgroundFrom(0, current)
  }

  /** A deck position is drawn in the background stack exactly when it has
      not been swiped past, and then with its depth below the current card. */
  lemma BackgroundShowsRemainingCards(current: nat, i: nat)
    requires i < |Cards|
    ensures (exists k :: 0 <= k < |BackgroundStack(current)| && BackgroundStack(current)[k].index == i)
            <==> i >= current
    ensures i >= current ==> BackgroundStack(current)[i - current]
                             == StackedCard(i, KindOf(Cards[i]), StackPlacement(i - current))
  {
    if i >= current {
      assert BackgroundStack(current)[i - current].index == i;
    }
  }

  /** What the foreground (draggable) card looks like. */
  datatype TopCard = TopCard(kind: CardKind, x: real, y: real, rotation: real)

  /** The foreground card for the current index and drag offset: present only
      while the current index is still inside the deck. */
  function Foreground(current: nat, width: real, height: real): (t: Option<TopCard>)
    ensures t.Some? <==> current < |Cards|
    ensures t.Some? ==> t.value.kind == KindOf(Cards[current])
                        && t.value.x == width && t.value.y == height
                        && t.value.rotation == Rotation(width)
                        && (t.value.rotation > 0.0 <==> width > 0.0)
                        && (t.value.rotation < 0.0 <==> width < 0.0)
  {
    if current < |Cards| then
      Some(TopCard(KindOf(Cards[current]), width, height, Rotation(width)))
    else
      None
  }

  /** The first card is the payment card and the second the split card. */
  lemma DeckKinds()
    ensures |Cards| == 2
    ensures KindOf(Cards[0]) == PaymentCard && KindOf(Cards[1]) == SplitCard
  {
  }
}

/**
  The per-item transform sessions of the item view. Each of the three gestures (drag,
  magnify, rotate) writes only the live value of its own pair while it changes, computed
  from the committed base and the gesture's cumulative value, and copies the live value
  into the base when it ends. Selecting the item on a change, and asking the canvas for
  the snapped offset, belong to the canvas model.
*/
module Transform {
  import opened Geometry
  import opened StackItem

  /** The offset a drag proposes: the committed offset plus the cumulative translation. */
  function ProposedOffset(item: StackItem, translation: Size): (r: Size)
    ensures r.width - item.lastOffset.width == translation.width
    ensures r.height - item.lastOffset.height == translation.height
  {
    item.lastOffset.Plus(translation)
  }

  /** A drag change stores the (snapped) offset as the live offset and nothing else. */
  function DragChange(item: StackItem, snapped: Size): (r: StackItem)
    ensures r.offset == snapped
    ensures r.(offset := item.offset) == item
  {
    item.(offset := snapped)
  }

  /** A drag end commits the live offset. */
  function DragEnd(item: StackItem): (r: StackItem)
    ensures r.lastOffset == r.offset == item.offset
    ensures r.(lastOffset := item.lastOffset) == item
  {
    item.(lastOffset := item.offset)
  }

  /** A magnify change sets the live scale to the base plus the gesture's excess over 1. */
  function MagnifyChange(item: StackItem, value: real): (r: StackItem)
    ensures r.scale - item.lastScale == value - 1.0
    ensures r.(scale := item.scale) == item
  {
    item.(scale := item.lastScale + (value - 1.0))
  }

  /** A magnify end commits the live scale. */
  function MagnifyEnd(item: StackItem): (r: StackItem)
    ensures r.lastScale == r.scale == item.scale
    ensures r.(lastScale := item.lastScale) == item
  {
    item.(lastScale := item.scale)
  }

  /** A rotation change sets the live angle to the base plus the gesture's angle. */
  function RotateChange(item: StackItem, angle: Angle): (r: StackItem)
    ensures r.rotation - item.lastRotation == angle
    ensures r.(rotation := item.rotation) == item
  {
    item.(rotation := item.lastRotation + angle)
  }

  /** A rotation end commits the live angle. */
  function RotateEnd(item: StackItem): (r: StackItem)
    ensures r.lastRotation == r.rotation == item.rotation
    ensures r.(lastRotation := item.lastRotation) == item
  {
    item.(lastRotation := item.rotation)
  }

  /** Ending a gesture twice is the same as ending it once. */
  lemma EndIdempotent(item: StackItem)
    ensures DragEnd(DragEnd(item)) == DragEnd(item)
    ensures MagnifyEnd(MagnifyEnd(item)) == MagnifyEnd(item)
    ensures RotateEnd(RotateEnd(item)) == RotateEnd(item)
  {
  }

  /** Ending all three gestures leaves the item committed, with the live values it had. */
  lemma EndAllCommits(item: StackItem)
    ensures var r := RotateEnd(MagnifyEnd(DragEnd(item)));
            Committed(r) && r.offset == item.offset && r.scale == item.scale
            && r.rotation == item.rotation
  {
  }

  /**
    Change events within one gesture do not accumulate: each is computed from the base,
    so only the latest one counts.
  */
  lemma ChangeFromBase(item: StackItem, a: real, b: real, p: Size, q: Size)
    ensures MagnifyChange(MagnifyChange(item, a), b) == MagnifyChange(item, b)
    ensures RotateChange(RotateChange(item, a), b) == RotateChange(item, b)
    ensures DragChange(DragChange(item, p), q) == DragChange(item, q)
    ensures ProposedOffset(DragChange(item, p), q) == ProposedOffset(item, q)
  {
  }

  /**
    The identity gesture value (magnification 1, angle 0, translation zero) on a
    committed item proposes exactly the committed values.
  */
  lemma IdentityGestureIsNoOp(item: StackItem)
    requires Committed(item)
    ensures MagnifyChange(item, 1.0) == item
    ensures RotateChange(item, 0.0) == item
    ensures ProposedOffset(item, Zero) == item.offset
  {
  }

  /** A complete magnify gesture: one change with the final value, then the end. */
  function MagnifyGesture(item: StackItem, value: real): StackItem {
    MagnifyEnd(MagnifyChange(item, value))
  }

  /** A complete rotate gesture: one change with the final angle, then the end. */
  function RotateGesture(item: StackItem, angle: Angle): StackItem {
    RotateEnd(RotateChange(item, angle))
  }

  /**
    Successive magnify gestures add their excesses over 1 to the committed scale (they do
    not multiply), and successive rotations add their angles.
  */
  lemma GesturesAccumulate(item: StackItem, v1: real, v2: real, a1: Angle, a2: Angle)
    ensures MagnifyGesture(MagnifyGesture(item, v1), v2).scale == item.lastScale + (v1 - 1.0) + (v2 - 1.0)
    ensures Committed(MagnifyGesture(MagnifyGesture(item, v1), v2)) <==> item.offset == item.lastOffset && item.rotation == item.lastRotation
    ensures RotateGesture(RotateGesture(item, a1), a2).rotation == item.lastRotation + a1 + a2
  {
  }

  /**
    Magnify and rotate run simultaneously on the same item; since each writes only its own
    pair, their events commute with each other and with a drag's.
  */
  lemma GesturesCommute(item: StackItem, v: real, a: Angle, snapped: Size)
    ensures MagnifyChange(RotateChange(item, a), v) == RotateChange(MagnifyChange(item, v), a)
    ensures MagnifyEnd(RotateEnd(item)) == RotateEnd(MagnifyEnd(item))
    ensures MagnifyChange(RotateEnd(item), v) == RotateEnd(MagnifyChange(item, v))
    ensures RotateChange(MagnifyEnd(item), a) == MagnifyEnd(RotateChange(item, a))
    ensures DragChange(MagnifyChange(item, v), snapped) == MagnifyChange(DragChange(item, snapped), v)
    ensures DragChange(RotateChange(item, a), snapped) == RotateChange(DragChange(item, snapped), a)
  {
  }

  /**
    The stored scale is never clamped: a pinch down to magnification 0.1 from scale 1
    stores 0.1, while sizing and snapping use the floor 0.4.
  */
  lemma StoredScaleUnclamped(item: StackItem)
    requires item.lastScale == 1.0 && item.frameSize == Size(100.0, 50.0)
    ensures MagnifyChange(item, 0.1).scale == 0.1
    ensures var r := MagnifyChange(item, 0.1); EffectiveSize(r.frameSize, r.scale) == Size(40.0, 20.0)
  {
  }
}

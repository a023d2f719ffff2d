/**
  A placed image (`StackItem`): its identity, its size at scale 1, and three live/base
  transform pairs. The live value follows an in-progress gesture; the base value is the
  one committed when the last gesture of that kind ended. The drawable view the item
  wraps is opaque to the canvas logic and is not modelled.
*/
module StackItem {
  import opened Geometry

  /** Angles (`Angle`) are modelled by their real measure; only addition is used. */
  type Angle = real

  datatype StackItem = StackItem(
    id: string,
    offset: Size,
    lastOffset: Size,
    scale: real,
    lastScale: real,
    rotation: Angle,
    lastRotation: Angle,
    frameSize: Size)

  /** Every live value equals its committed base value. */
  predicate Committed(item: StackItem) {
    item.offset == item.lastOffset && item.scale == item.lastScale && item.rotation == item.lastRotation
  }

  /**
    A freshly created item: centred on the canvas, unscaled, unrotated, with the given
    identity and frame size (the frame size default of zero is always overridden at
    creation).
  */
  function NewItem(id: string, frameSize: Size): (r: StackItem)
    ensures r.id == id && r.frameSize == frameSize
    ensures r.offset == Zero && r.scale == 1.0 && r.rotation == 0.0
    ensures Committed(r)
  {
    StackItem(id, Zero, Zero, 1.0, 1.0, 0.0, 0.0, frameSize)
  }

  /** The identifiers present in a stack. */
  function Ids(stack: seq<StackItem>): (ids: set<string>)
    ensures forall i :: 0 <= i < |stack| ==> stack[i].id in ids
    ensures forall id :: id in ids ==> exists i :: 0 <= i < |stack| && stack[i].id == id
  {
    set i | 0 <= i < |stack| :: stack[i].id
  }

  /** No two stack positions hold items with the same identifier. */
  predicate UniqueIds(stack: seq<StackItem>) {
    forall i, j :: 0 <= i < j < |stack| ==> stack[i].id != stack[j].id
  }
}

/**
  The canvas view model (`CanvasViewModel`) together with the handlers the canvas and
  item views attach to it: the layer stack, the selection, the pending delete, the
  published guides, the measured canvas size and the haptic trigger's state. Every
  handler is a pure function from the state before to the state after; a gesture on an
  item names the item by its position in the stack, since an item view exists only for
  an element of the stack.
*/
module CanvasModel {
  import opened Wrappers
  import opened Geometry
  import opened SnapLine
  import opened StackItem
  import opened Haptic
  import opened Snapping
  import opened Alignment
  import opened StackOrder
  import opened Transform
  import opened LayoutAspect

  datatype CanvasModel = CanvasModel(
    stack: seq<StackItem>,
    selectedItemId: Option<string>,
    currentSelectedItem: Option<StackItem>,
    showDeleteAlert: bool,
    snappLines: seq<Guide>,
    canvasSize: Size,
    hapticEngaged: bool)

  /** A new view model: nothing placed, nothing selected, canvas not measured. */
  function Initial(): CanvasModel {
    CanvasModel([], None, None, false, [], Zero, false)
  }

  /** The state every handler keeps: unique identities and well-spaced guides. */
  predicate Valid(m: CanvasModel) {
    UniqueIds(m.stack) && WellSpaced(m.snappLines)
  }

  // ---------------------------------------------------------------------------------
  // The view model's own operations.
  // ---------------------------------------------------------------------------------

  /** The longer side of a newly placed image. */
  const DefaultItemSide: real := 150.0

  /**
    `calculateDisplaySize`: the image fitted into a 150 by 150 box with its aspect ratio
    kept, so that its longer side is 150.
  */
  function DisplaySize(image: Size): (r: Size)
    requires image.height > 0.0 && image.width >= 0.0
    ensures r.width * image.height == r.height * image.width
    ensures Max(r.width, r.height) == DefaultItemSide
    ensures 0.0 <= r.width && 0.0 < r.height
  {
    var aspect := image.width / image.height;
    if aspect > 1.0 then Size(DefaultItemSide, DefaultItemSide / aspect)
    else Size(DefaultItemSide * aspect, DefaultItemSide)
  }

  /**
    `addImageToStack`: a fresh item of the image's display size goes on top and becomes
    the selection. The identity generator is a parameter.
  */
  function AddImageToStack(m: CanvasModel, image: Size, freshId: string): (r: CanvasModel)
    requires image.height > 0.0 && image.width >= 0.0
    ensures |r.stack| == |m.stack| + 1 && r.stack[..|m.stack|] == m.stack
    ensures r.stack[|m.stack|] == NewItem(freshId, DisplaySize(image))
    ensures r.selectedItemId == Some(freshId)
    ensures r.(stack := m.stack, selectedItemId := m.selectedItemId) == m
  {
    m.(stack := m.stack + [NewItem(freshId, DisplaySize(image))], selectedItemId := Some(freshId))
  }

  /** Adding an image adds exactly its identity, and a fresh one keeps the identities unique. */
  lemma AddImageKeepsIdsUnique(m: CanvasModel, image: Size, freshId: string)
    requires image.height > 0.0 && image.width >= 0.0
    ensures Ids(AddImageToStack(m, image, freshId).stack) == Ids(m.stack) + {freshId}
    ensures UniqueIds(m.stack) && freshId !in Ids(m.stack) ==> UniqueIds(AddImageToStack(m, image, freshId).stack)
  {
    var s := AddImageToStack(m, image, freshId).stack;
    forall i | 0 <= i < |m.stack|
      ensures s[i] == m.stack[i]
    {
      assert s[..|m.stack|][i] == s[i];
    }
  }

  datatype Snapped = Snapped(offset: Size, model: CanvasModel, pulse: bool)

  /**
    `snappedOffset`: with an unmeasured canvas (both components zero) the proposal is
    returned and nothing changes, not even the published guides. Otherwise the engine
    runs on the current stack, its guides replace the published ones, and the haptic
    trigger sees their number; `pulse` reports the feedback it gives.
  */
  function SnappedOffset(m: CanvasModel, proposed: Size, item: StackItem, itemSize: Size): (r: Snapped)
    ensures m.canvasSize == Zero ==> r == Snapped(proposed, m, false)
    ensures r.model.(snappLines := m.snappLines, hapticEngaged := m.hapticEngaged) == m
    ensures m.canvasSize != Zero ==>
              && (r.pulse <==> |r.model.snappLines| > 0 && !m.hapticEngaged)
              && (r.model.hapticEngaged <==> |r.model.snappLines| > 0)
  {
    if m.canvasSize == Zero then Snapped(proposed, m, false)
    else
      var a := Align(proposed, item.id, itemSize, m.stack, m.canvasSize);
      var h := HandleHaptic(m.hapticEngaged, |a.lines|);
      Snapped(a.offset, m.(snappLines := a.lines, hapticEngaged := h.engaged), h.fired)
  }

  /**
    What `snappedOffset` publishes is well spaced (when what it keeps was), each
    coordinate it returns is the proposed one, flush with a canvas side, or flush with a
    peer, and each guide it publishes is a canvas guide or lies on a peer's edge.
  */
  lemma SnappedOffsetSound(m: CanvasModel, proposed: Size, item: StackItem, itemSize: Size)
    requires WellSpaced(m.snappLines)
    ensures var r := SnappedOffset(m, proposed, item, itemSize);
            var halfW := itemSize.width / 2.0;
            var halfH := itemSize.height / 2.0;
      && WellSpaced(r.model.snappLines)
      && (|| r.offset.width == proposed.width
          || r.offset.width - halfW == -(m.canvasSize.width / 2.0)
          || r.offset.width + halfW == m.canvasSize.width / 2.0
          || AlignedToPeer(X, r.offset.width, halfW, m.stack, item.id))
      && (|| r.offset.height == proposed.height
          || r.offset.height - halfH == -(m.canvasSize.height / 2.0)
          || r.offset.height + halfH == m.canvasSize.height / 2.0
          || AlignedToPeer(Y, r.offset.height, halfH, m.stack, item.id))
      && (m.canvasSize != Zero ==>
            forall k :: 0 <= k < |r.model.snappLines| ==>
              CanvasGuide(r.model.snappLines[k], m.canvasSize, halfW, halfH)
              || PeerAnchored(r.model.snappLines[k], m.stack, item.id))
  {
    if m.canvasSize != Zero {
      AlignGuides(proposed, item.id, itemSize, m.stack, m.canvasSize);
      AlignOffsetProvenance(proposed, item.id, itemSize, m.stack, m.canvasSize);
    }
  }

  /** `clearGuidelines`: no guides, and the haptic trigger re-armed. */
  function ClearGuidelines(m: CanvasModel): (r: CanvasModel)
    ensures r.snappLines == [] && !r.hapticEngaged
    ensures r.(snappLines := m.snappLines, hapticEngaged := m.hapticEngaged) == m
  {
    m.(snappLines := [], hapticEngaged := false)
  }

  /**
    `clearCanvas`: no items, no guides, no selection and no pending delete; the alert flag,
    the canvas size and the haptic trigger are left as they were.
  */
  function ClearCanvas(m: CanvasModel): (r: CanvasModel)
    ensures r.stack == [] && r.snappLines == []
    ensures r.selectedItemId == None && r.currentSelectedItem == None
    ensures r.showDeleteAlert == m.showDeleteAlert && r.canvasSize == m.canvasSize
    ensures r.hapticEngaged == m.hapticEngaged
  {
    m.(stack := [], snappLines := [], selectedItemId := None, currentSelectedItem := None)
  }

  /** After clearing the canvas, adding one image leaves exactly that image, selected. */
  lemma ClearThenAdd(m: CanvasModel, image: Size, freshId: string)
    requires image.height > 0.0 && image.width >= 0.0
    ensures var r := AddImageToStack(ClearCanvas(m), image, freshId);
            && |r.stack| == 1 && r.stack[0].id == freshId
            && Ids(r.stack) == {freshId}
            && r.stack[0].frameSize == DisplaySize(image) && IsSelected(r.selectedItemId, r.stack[0])
  {
    var r := AddImageToStack(ClearCanvas(m), image, freshId);
    assert r.stack == [NewItem(freshId, DisplaySize(image))];
  }

  // ---------------------------------------------------------------------------------
  // Handlers of the canvas view and of the item views.
  // ---------------------------------------------------------------------------------

  /** Replaces the item at position `p`. */
  function WithItem(m: CanvasModel, p: nat, x: StackItem): (r: CanvasModel)
    requires p < |m.stack|
    ensures |r.stack| == |m.stack| && r.stack[p] == x
    ensures forall k :: 0 <= k < |m.stack| && k != p ==> r.stack[k] == m.stack[k]
    ensures r.(stack := m.stack) == m
  {
    m.(stack := m.stack[p := x])
  }

  /** Replacing an item by one with the same identity keeps the identities and their uniqueness. */
  lemma WithItemKeepsIds(m: CanvasModel, p: nat, x: StackItem)
    requires p < |m.stack| && x.id == m.stack[p].id
    ensures Ids(WithItem(m, p, x).stack) == Ids(m.stack)
    ensures UniqueIds(m.stack) ==> UniqueIds(WithItem(m, p, x).stack)
  {
    var s := WithItem(m, p, x).stack;
    assert forall i :: 0 <= i < |s| ==> s[i].id == m.stack[i].id;
    forall id | id in Ids(m.stack)
      ensures id in Ids(s)
    {
      var i :| 0 <= i < |m.stack| && m.stack[i].id == id;
      assert s[i].id == id;
    }
  }

  /** Tapping an item selects it. */
  function Tap(m: CanvasModel, p: nat): (r: CanvasModel)
    requires p < |m.stack|
    ensures IsSelected(r.selectedItemId, m.stack[p])
    ensures r.(selectedItemId := m.selectedItemId) == m
  {
    m.(selectedItemId := Some(m.stack[p].id))
  }

  /** Tapping the background clears the selection. */
  function BackgroundTap(m: CanvasModel): (r: CanvasModel)
    ensures forall i :: 0 <= i < |r.stack| ==> !IsSelected(r.selectedItemId, r.stack[i])
    ensures r.(selectedItemId := m.selectedItemId) == m
  {
    m.(selectedItemId := None)
  }

  /** A long press brings the item to the front of the stack. */
  function LongPress(m: CanvasModel, p: nat): (r: CanvasModel)
    requires p < |m.stack|
  {
    m.(stack := MoveToFront(m.stack, m.stack[p].id))
  }

  /**
    With unique identities, a long press puts the pressed item on top, keeps every item
    and identity, and changes nothing but the order.
  */
  lemma LongPressPutsOnTop(m: CanvasModel, p: nat)
    requires p < |m.stack| && UniqueIds(m.stack)
    ensures var r := LongPress(m, p);
            && |r.stack| == |m.stack| && r.stack[|r.stack| - 1] == m.stack[p]
            && multiset(r.stack) == multiset(m.stack)
            && UniqueIds(r.stack)
            && r.(stack := m.stack) == m
  {
    GetIndexUnique(m.stack, p);
    MoveToFrontPlaces(m.stack, m.stack[p].id);
    MoveToFrontKeepsIds(m.stack, m.stack[p].id);
  }

  /** A double tap records the item for deletion and toggles the confirmation alert. */
  function DoubleTap(m: CanvasModel, p: nat): (r: CanvasModel)
    requires p < |m.stack|
    ensures r.currentSelectedItem == Some(m.stack[p])
    ensures r.showDeleteAlert == !m.showDeleteAlert
    ensures r.(currentSelectedItem := m.currentSelectedItem, showDeleteAlert := m.showDeleteAlert) == m
  {
    m.(currentSelectedItem := Some(m.stack[p]), showDeleteAlert := !m.showDeleteAlert)
  }

  /**
    The alert's delete button: the element at the recorded item's `GetIndex` position is
    removed, the others keep their order, and the alert closes. Everything else, the
    selection and the recorded item included, is left as it was.
  */
  function ConfirmDeleteItem(m: CanvasModel): (r: CanvasModel)
    requires m.currentSelectedItem.Some? ==> |m.stack| > 0
    ensures !r.showDeleteAlert
    ensures r.(stack := m.stack, showDeleteAlert := m.showDeleteAlert) == m
    ensures m.currentSelectedItem.None? ==> r.stack == m.stack
    ensures m.currentSelectedItem.Some? ==>
              var i := GetIndex(m.stack, m.currentSelectedItem.value.id);
              && |r.stack| == |m.stack| - 1
              && multiset(r.stack) + multiset{m.stack[i]} == multiset(m.stack)
              && (forall k :: 0 <= k < i ==> r.stack[k] == m.stack[k])
              && (forall k :: i <= k < |r.stack| ==> r.stack[k] == m.stack[k + 1])
  {
    m.(stack := ConfirmDelete(m.stack, m.currentSelectedItem), showDeleteAlert := false)
  }

  /**
    Deleting the selected item leaves the selection pointing at an identity that is no
    longer on the canvas: no item is highlighted, but the selection is not cleared.
  */
  lemma DeleteLeavesDanglingSelection(m: CanvasModel, p: nat)
    requires p < |m.stack| && UniqueIds(m.stack)
    ensures var r := ConfirmDeleteItem(DoubleTap(Tap(m, p), p));
            && r.selectedItemId == Some(m.stack[p].id)
            && m.stack[p].id !in Ids(r.stack)
            && forall i :: 0 <= i < |r.stack| ==> !IsSelected(r.selectedItemId, r.stack[i])
  {
    var m2 := DoubleTap(Tap(m, p), p);
    assert m2.stack == m.stack;
    ConfirmDeleteRemovesItem(m.stack, m.stack[p]);
  }

  /**
    A drag change selects the item, asks the engine for the offset of its proposal (the
    committed offset plus the translation) at its effective size, and stores the answer as
    the item's live offset.
  */
  function DragChanged(m: CanvasModel, p: nat, translation: Size): (r: Snapped)
    requires p < |m.stack|
    ensures IsSelected(r.model.selectedItemId, m.stack[p])
    ensures |r.model.stack| == |m.stack|
    ensures forall k :: 0 <= k < |m.stack| && k != p ==> r.model.stack[k] == m.stack[k]
    ensures r.model.stack[p].(offset := m.stack[p].offset) == m.stack[p]
    ensures r.model.stack[p].offset == r.offset
    ensures r.model.(stack := m.stack, selectedItemId := m.selectedItemId, snappLines := m.snappLines,
                     hapticEngaged := m.hapticEngaged) == m
    ensures m.canvasSize == Zero ==>
              r.offset == ProposedOffset(m.stack[p], translation) && !r.pulse
              && r.model.snappLines == m.snappLines && r.model.hapticEngaged == m.hapticEngaged
  {
    var item := m.stack[p];
    var s := SnappedOffset(Tap(m, p), ProposedOffset(item, translation), item, EffectiveSize(item.frameSize, item.scale));
    Snapped(s.offset, WithItem(s.model, p, DragChange(item, s.offset)), s.pulse)
  }

  /** A drag end commits the item's offset, clears the guides and re-arms the trigger; nothing else changes. */
  function DragEnded(m: CanvasModel, p: nat): (r: CanvasModel)
    requires p < |m.stack|
    ensures |r.stack| == |m.stack|
    ensures r.snappLines == [] && !r.hapticEngaged
    ensures r.stack[p].lastOffset == r.stack[p].offset == m.stack[p].offset
    ensures r.stack[p].(lastOffset := m.stack[p].lastOffset) == m.stack[p]
    ensures forall k :: 0 <= k < |m.stack| && k != p ==> r.stack[k] == m.stack[k]
    ensures r.(stack := m.stack, snappLines := m.snappLines, hapticEngaged := m.hapticEngaged) == m
  {
    ClearGuidelines(WithItem(m, p, DragEnd(m.stack[p])))
  }

  /** A magnification change selects the item and sets its live scale; nothing else changes. */
  function MagnifyChanged(m: CanvasModel, p: nat, value: real): (r: CanvasModel)
    requires p < |m.stack|
    ensures |r.stack| == |m.stack|
    ensures IsSelected(r.selectedItemId, m.stack[p])
    ensures r.stack[p].scale == m.stack[p].lastScale + (value - 1.0)
    ensures r.stack[p].(scale := m.stack[p].scale) == m.stack[p]
    ensures forall k :: 0 <= k < |m.stack| && k != p ==> r.stack[k] == m.stack[k]
    ensures r.(stack := m.stack, selectedItemId := m.selectedItemId) == m
  {
    WithItem(Tap(m, p), p, MagnifyChange(m.stack[p], value))
  }

  /** A magnification end commits the item's scale; nothing else changes. */
  function MagnifyEnded(m: CanvasModel, p: nat): (r: CanvasModel)
    requires p < |m.stack|
    ensures |r.stack| == |m.stack|
    ensures r.stack[p].lastScale == r.stack[p].scale == m.stack[p].scale
    ensures r.stack[p].(lastScale := m.stack[p].lastScale) == m.stack[p]
    ensures forall k :: 0 <= k < |m.stack| && k != p ==> r.stack[k] == m.stack[k]
    ensures r.(stack := m.stack) == m
  {
    WithItem(m, p, MagnifyEnd(m.stack[p]))
  }

  /** A rotation change sets the item's live angle and nothing else; unlike the others it does not select. */
  function RotateChanged(m: CanvasModel, p: nat, angle: Angle): (r: CanvasModel)
    requires p < |m.stack|
    ensures |r.stack| == |m.stack|
    ensures r.selectedItemId == m.selectedItemId
    ensures r.stack[p].rotation == m.stack[p].lastRotation + angle
    ensures r.stack[p].(rotation := m.stack[p].rotation) == m.stack[p]
    ensures forall k :: 0 <= k < |m.stack| && k != p ==> r.stack[k] == m.stack[k]
    ensures r.(stack := m.stack) == m
  {
    WithItem(m, p, RotateChange(m.stack[p], angle))
  }

  /** A rotation end commits the item's angle; nothing else changes. */
  function RotateEnded(m: CanvasModel, p: nat): (r: CanvasModel)
    requires p < |m.stack|
    ensures |r.stack| == |m.stack|
    ensures r.stack[p].lastRotation == r.stack[p].rotation == m.stack[p].rotation
    ensures r.stack[p].(lastRotation := m.stack[p].lastRotation) == m.stack[p]
    ensures forall k :: 0 <= k < |m.stack| && k != p ==> r.stack[k] == m.stack[k]
    ensures r.(stack := m.stack) == m
  {
    WithItem(m, p, RotateEnd(m.stack[p]))
  }

  // ---------------------------------------------------------------------------------
  // Event traces.
  // ---------------------------------------------------------------------------------

  /**
    The canvas and item gestures, the toolbar's add, and `clearCanvas`, which only the
    unit tests call. `CanvasMeasured` stands for the canvas size being handed to the
    view model; see `NeverMeasuredNeverSnaps`.
  */
  datatype Event =
    | ImageAdded(image: Size, freshId: string)
    | Tapped(p: nat)
    | DoubleTapped(p: nat)
    | LongPressed(p: nat)
    | Dragged(p: nat, translation: Size)
    | DragFinished(p: nat)
    | Magnified(p: nat, value: real)
    | MagnifyFinished(p: nat)
    | Rotated(p: nat, angle: Angle)
    | RotateFinished(p: nat)
    | DeleteConfirmed
    | BackgroundTapped
    | CanvasCleared
    | CanvasMeasured(size: Size)

  /** Whether an event can happen in a state: item gestures need their item to exist. */
  predicate Enabled(m: CanvasModel, e: Event) {
    match e
    case ImageAdded(image, _) => image.height > 0.0 && image.width >= 0.0
    case DeleteConfirmed => m.showDeleteAlert && (m.currentSelectedItem.Some? ==> |m.stack| > 0)
    case BackgroundTapped => true
    case CanvasCleared => true
    case CanvasMeasured(_) => true
    case Tapped(p) => p < |m.stack|
    case DoubleTapped(p) => p < |m.stack|
    case LongPressed(p) => p < |m.stack|
    case Dragged(p, _) => p < |m.stack|
    case DragFinished(p) => p < |m.stack|
    case Magnified(p, _) => p < |m.stack|
    case MagnifyFinished(p) => p < |m.stack|
    case Rotated(p, _) => p < |m.stack|
    case RotateFinished(p) => p < |m.stack|
  }

  /** The state after an event, and whether it produced a haptic pulse. */
  function Step(m: CanvasModel, e: Event): Snapped
    requires Enabled(m, e)
  {
    match e
    case ImageAdded(image, id) => Snapped(Zero, AddImageToStack(m, image, id), false)
    case Tapped(p) => Snapped(Zero, Tap(m, p), false)
    case DoubleTapped(p) => Snapped(Zero, DoubleTap(m, p), false)
    case LongPressed(p) => Snapped(Zero, LongPress(m, p), false)
    case Dragged(p, t) => DragChanged(m, p, t)
    case DragFinished(p) => Snapped(Zero, DragEnded(m, p), false)
    case Magnified(p, v) => Snapped(Zero, MagnifyChanged(m, p, v), false)
    case MagnifyFinished(p) => Snapped(Zero, MagnifyEnded(m, p), false)
    case Rotated(p, a) => Snapped(Zero, RotateChanged(m, p, a), false)
    case RotateFinished(p) => Snapped(Zero, RotateEnded(m, p), false)
    case DeleteConfirmed => Snapped(Zero, ConfirmDeleteItem(m), false)
    case BackgroundTapped => Snapped(Zero, BackgroundTap(m), false)
    case CanvasCleared => Snapped(Zero, ClearCanvas(m), false)
    case CanvasMeasured(size) => Snapped(Zero, m.(canvasSize := size), false)
  }

  /**
    A drag change keeps the identities and the validity of the state: only the dragged
    item's offset, the selection, the guides and the trigger change.
  */
  lemma DragChangedKeepsValid(m: CanvasModel, p: nat, translation: Size)
    requires p < |m.stack|
    ensures Ids(DragChanged(m, p, translation).model.stack) == Ids(m.stack)
    ensures Valid(m) ==> Valid(DragChanged(m, p, translation).model)
  {
    var item := m.stack[p];
    var t := Tap(m, p);
    var s := SnappedOffset(t, ProposedOffset(item, translation), item, EffectiveSize(item.frameSize, item.scale));
    if WellSpaced(m.snappLines) {
      SnappedOffsetSound(t, ProposedOffset(item, translation), item, EffectiveSize(item.frameSize, item.scale));
    }
    WithItemKeepsIds(s.model, p, DragChange(item, s.offset));
  }

  /** The handlers that edit one item keep the identities and the validity of the state. */
  lemma ItemEditKeepsValid(m: CanvasModel, e: Event)
    requires Enabled(m, e)
    requires e.DragFinished? || e.Magnified? || e.MagnifyFinished? || e.Rotated? || e.RotateFinished?
    ensures Ids(Step(m, e).model.stack) == Ids(m.stack)
    ensures Valid(m) ==> Valid(Step(m, e).model)
  {
    match e {
      case DragFinished(p) => WithItemKeepsIds(m, p, DragEnd(m.stack[p]));
      case Magnified(p, v) => WithItemKeepsIds(Tap(m, p), p, MagnifyChange(m.stack[p], v));
      case MagnifyFinished(p) => WithItemKeepsIds(m, p, MagnifyEnd(m.stack[p]));
      case Rotated(p, a) => WithItemKeepsIds(m, p, RotateChange(m.stack[p], a));
      case RotateFinished(p) => WithItemKeepsIds(m, p, RotateEnd(m.stack[p]));
    }
  }

  /**
    A confirmed delete never adds an identity, and keeps identities unique: it removes
    the recorded item, or the bottom item when the recorded one is gone.
  */
  lemma DeleteConfirmedKeepsValid(m: CanvasModel)
    requires Enabled(m, DeleteConfirmed)
    ensures Ids(ConfirmDeleteItem(m).stack) <= Ids(m.stack)
    ensures Valid(m) ==> Valid(ConfirmDeleteItem(m))
  {
    if m.currentSelectedItem.Some? {
      ConfirmDeleteKeepsIds(m.stack, m.currentSelectedItem.value);
    }
  }

  /** The identity an event introduces, if any. */
  function Introduced(e: Event): set<string> {
    if e.ImageAdded? then {e.freshId} else {}
  }

  /**
    No event adds identities other than the one it introduces, and every event keeps the
    state valid provided an added image gets an unused identity.
  */
  lemma StepKeepsValid(m: CanvasModel, e: Event)
    requires Enabled(m, e)
    ensures Ids(Step(m, e).model.stack) <= Ids(m.stack) + Introduced(e)
    ensures Valid(m) && (e.ImageAdded? ==> e.freshId !in Ids(m.stack)) ==> Valid(Step(m, e).model)
  {
    match e {
      case ImageAdded(image, id) => AddImageKeepsIdsUnique(m, image, id);
      case LongPressed(p) => MoveToFrontKeepsIds(m.stack, m.stack[p].id);
      case DeleteConfirmed => DeleteConfirmedKeepsValid(m);
      case Dragged(p, t) => DragChangedKeepsValid(m, p, t);
      case DragFinished(_) => ItemEditKeepsValid(m, e);
      case Magnified(_, _) => ItemEditKeepsValid(m, e);
      case MagnifyFinished(_) => ItemEditKeepsValid(m, e);
      case Rotated(_, _) => ItemEditKeepsValid(m, e);
      case RotateFinished(_) => ItemEditKeepsValid(m, e);
      case _ =>
    }
  }

  /** Runs a trace of events; `None` when some event could not have happened. */
  function Run(m: CanvasModel, events: seq<Event>): Option<CanvasModel>
    decreases |events|
  {
    if |events| == 0 then Some(m)
    else
      match Run(m, events[..|events| - 1])
      case None => None
      case Some(before) =>
        var e := events[|events| - 1];
        if Enabled(before, e) then Some(Step(before, e).model) else None
  }

  /** Every identity the trace introduces is new: unused at the start and never repeated. */
  predicate FreshIds(m: CanvasModel, events: seq<Event>) {
    forall i :: 0 <= i < |events| && events[i].ImageAdded? ==>
      && events[i].freshId !in Ids(m.stack)
      && forall j :: 0 <= j < i && events[j].ImageAdded? ==> events[j].freshId != events[i].freshId
  }

  /** The identities a trace introduces. */
  function IntroducedBy(events: seq<Event>): set<string>
    decreases |events|
  {
    if |events| == 0 then {} else IntroducedBy(events[..|events| - 1]) + Introduced(events[|events| - 1])
  }

  /** An identity no event of a trace adds is not among the identities the trace introduces. */
  lemma {:induction false} NotIntroduced(events: seq<Event>, x: string)
    requires forall j :: 0 <= j < |events| && events[j].ImageAdded? ==> events[j].freshId != x
    ensures x !in IntroducedBy(events)
    decreases |events|
  {
    if |events| > 0 {
      var init := events[..|events| - 1];
      assert forall j :: 0 <= j < |init| ==> init[j] == events[j];
      NotIntroduced(init, x);
    }
  }

  /**
    With fresh identities, every state a trace reaches from a valid state is valid: the
    identities on the canvas stay unique and the published guides stay well spaced.
  */
  lemma {:induction false} RunKeepsValid(m: CanvasModel, events: seq<Event>)
    requires Valid(m) && FreshIds(m, events)
    ensures Run(m, events).Some? ==> Valid(Run(m, events).value)
    ensures Run(m, events).Some? ==> Ids(Run(m, events).value.stack) <= Ids(m.stack) + IntroducedBy(events)
    decreases |events|
  {
    if |events| > 0 {
      var n := |events| - 1;
      var init := events[..n];
      var e := events[n];
      assert forall i :: 0 <= i < n ==> init[i] == events[i];
      assert FreshIds(m, init);
      RunKeepsValid(m, init);
      var before := Run(m, init);
      if before.Some? && Enabled(before.value, e) {
        if e.ImageAdded? {
          NotIntroduced(init, e.freshId);
        }
        StepKeepsValid(before.value, e);
      }
    }
  }

  // ---------------------------------------------------------------------------------
  // The canvas size is never handed to the view model.
  // ---------------------------------------------------------------------------------

  /**
    The size the main screen lays the canvas out at: the screen width less 16 points of
    padding on each side, and the height the chosen aspect gives for that width. This is
    the size the view model would need to be handed.
  */
  function MainCanvasSize(screenWidth: real, aspect: LayoutAspect): (r: Size)
    ensures r.width == screenWidth - 32.0
    ensures r.height * RatioOf(aspect).w == r.width * RatioOf(aspect).h
    ensures screenWidth > 32.0 ==> r.width > 0.0 && r.height > 0.0 && r != Zero
  {
    var width := screenWidth - 32.0;
    Size(width, CanvasHeight(width, aspect))
  }

  /** No guides, trigger at rest, canvas never measured. */
  predicate Unmeasured(m: CanvasModel) {
    m.canvasSize == Zero && m.snappLines == [] && !m.hapticEngaged
  }

  /**
    The events without a size hand-over, which the application never makes. They include
    `CanvasCleared`, which only the unit tests produce, so the property below is stronger
    than the application needs.
  */
  predicate AppEvents(events: seq<Event>) {
    forall i :: 0 <= i < |events| ==> !events[i].CanvasMeasured?
  }

  /** In an unmeasured state, a drag moves the item exactly as proposed and changes nothing else. */
  lemma UnmeasuredStep(m: CanvasModel, e: Event)
    requires Unmeasured(m) && Enabled(m, e) && !e.CanvasMeasured?
    ensures Unmeasured(Step(m, e).model) && !Step(m, e).pulse
    ensures e.Dragged? ==> Step(m, e).model.stack[e.p].offset == ProposedOffset(m.stack[e.p], e.translation)
  {
  }

  /** One more application event keeps a run from the initial state unmeasured. */
  lemma UnmeasuredRunStep(events: seq<Event>)
    requires |events| > 0 && !events[|events| - 1].CanvasMeasured?
    requires var before := Run(Initial(), events[..|events| - 1]);
             before.Some? ==> Unmeasured(before.value)
    ensures Run(Initial(), events).Some? ==> Unmeasured(Run(Initial(), events).value)
  {
    var n := |events| - 1;
    var before := Run(Initial(), events[..n]);
    if before.Some? && Enabled(before.value, events[n]) {
      UnmeasuredStep(before.value, events[n]);
    }
  }

  /** A prefix of application events is application events. */
  lemma AppEventsPrefix(events: seq<Event>, n: nat)
    requires AppEvents(events) && n <= |events|
    ensures AppEvents(events[..n])
  {
    forall i | 0 <= i < n ensures !events[..n][i].CanvasMeasured? {
      assert events[..n][i] == events[i];
    }
  }

  /**
    As the application is written, the view model's canvas size stays zero, so no drag
    is ever corrected, no guide is ever published, and the trigger never pulses.
  */
  lemma {:induction false} NeverMeasuredNeverSnaps(events: seq<Event>)
    requires AppEvents(events)
    ensures Run(Initial(), events).Some? ==> Unmeasured(Run(Initial(), events).value)
    decreases |events|
  {
    if |events| > 0 {
      var n := |events| - 1;
      AppEventsPrefix(events, n);
      NeverMeasuredNeverSnaps(events[..n]);
      UnmeasuredRunStep(events);
    }
  }

  /**
    On a measured canvas a drag change stores the engine's offset, publishes exactly the
    engine's guides, and pulses when guides appear while the trigger is at rest.
  */
  lemma DragPublishesEngineResult(m: CanvasModel, p: nat, translation: Size, a: Snap)
    requires p < |m.stack| && m.canvasSize != Zero
    requires a == Align(ProposedOffset(m.stack[p], translation), m.stack[p].id, EffectiveSize(m.stack[p].frameSize, m.stack[p].scale),
                        m.stack, m.canvasSize)
    ensures var r := DragChanged(m, p, translation);
            && r.model.stack[p].offset == a.offset
            && r.model.snappLines == a.lines
            && (r.pulse <==> |a.lines| > 0 && !m.hapticEngaged)
  {
  }

  /**
    On a measured canvas with the trigger at rest, a drag that brings the item within
    reach of the left canvas side shows a guide and pulses.
  */
  lemma SideSnapPulses(m: CanvasModel, p: nat, translation: Size)
    requires p < |m.stack| && m.canvasSize != Zero && !m.hapticEngaged
    requires var item := m.stack[p];
             var halfW := EffectiveSize(item.frameSize, item.scale).width / 2.0;
             Within(ProposedOffset(item, translation).width, CanvasLeft(m.canvasSize, halfW))
    ensures |DragChanged(m, p, translation).model.snappLines| > 0
    ensures DragChanged(m, p, translation).pulse
  {
    var item := m.stack[p];
    var a := Align(ProposedOffset(item, translation), item.id, EffectiveSize(item.frameSize, item.scale),
                   m.stack, m.canvasSize);
    DragPublishesEngineResult(m, p, translation, a);
    AlignShowsCanvasSnaps(ProposedOffset(item, translation), item.id, EffectiveSize(item.frameSize, item.scale),
                          m.stack, m.canvasSize);
  }

  /**
    Once the canvas size is handed over (any non-zero size), a drag is corrected by the
    engine: the item takes the engine's offset, the engine's guides are published, and
    the trigger pulses when guides appear while it is at rest.
  */
  lemma MeasuredDragAligns(m: CanvasModel, size: Size, p: nat, translation: Size)
    requires size != Zero && p < |m.stack|
    ensures var m1 := Step(m, CanvasMeasured(size)).model;
            var a := Align(ProposedOffset(m.stack[p], translation), m.stack[p].id, EffectiveSize(m.stack[p].frameSize, m.stack[p].scale),
                           m.stack, size);
            var r := Step(m1, Dragged(p, translation));
            && r.model.stack[p].offset == a.offset
            && r.model.snappLines == a.lines
            && (r.pulse <==> |a.lines| > 0 && !m.hapticEngaged)
  {
    var m1 := Step(m, CanvasMeasured(size)).model;
    DragPublishesEngineResult(m1, p, translation,
      Align(ProposedOffset(m.stack[p], translation), m.stack[p].id, EffectiveSize(m.stack[p].frameSize, m.stack[p].scale), m.stack, size));
  }
}

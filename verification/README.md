# Canvas alignment and transform engine of the collage editor, in Dafny

This project models the logic core of a SwiftUI collage editor. Images are placed as
items on a canvas. You move, pinch and rotate them, bring them to the front, and delete
them. While an item is dragged, an alignment engine snaps it flush against the canvas
sides and against the other items, publishes guide lines and drives a haptic trigger.

The modules follow the program's structure:

- `Geometry` (`geometry.dfy`): sizes and centre offsets (`CGSize`), the edges of a box
  around a centre, and the `max(scale, 0.4)` effective size.
- `SnapLine` (`snap_line.dfy`): the guide record (`SnappLine`) and the near-duplicate
  filter `insertLinesSafely`.
- `StackItem` (`stack_item.dfy`): the item record, with its live/base transform pairs
  and its defaults.
- `Haptic` (`haptic.dfy`): the rising-edge trigger `handleHaptic`. A pulse is an output
  flag.
- `LayoutAspect` (`layout_aspect.dfy`): the aspect presets and the canvas height the main
  screen derives from them.
- `Snapping` (`snapping.dfy`): the engine behind `snappedOffset`.
  - The canvas-edge pass is a fold over the four `checkAndSnap` calls.
  - The peer pass is a fold over the stack. For each peer it runs a fold over the eight
    edge pairs of `snapEdges`, in source order, against edges computed once per peer.
- `Alignment` (`alignment.dfy`): properties of the engine as a whole, plus worked
  examples.
  - Which pair wins on each axis.
  - Where a corrected coordinate comes from.
  - What every guide stands for, and that guides stay well spaced.
- `StackOrder` (`stack_order.dfy`): the layer order.
  - `getIndex`, the selection predicate, `moveViewToFront`, and the confirmed delete.
  - Swift's `remove(at:)` and `insert(_:at:)` are modelled with their preconditions.
- `Transform` (`transform.dfy`): the per-item drag, magnify and rotate sessions of the
  item view.
- `CanvasModel` (`canvas_model.dfy`): the view model's state and every handler of the
  canvas and item views, written as pure functions. It also has a trace semantics (`Step`,
  `Run`) with its invariants.

Offsets are centre offsets measured from the canvas centre, and `CGFloat` is modelled as
`real`. A gesture on an item names the item by its position in the stack. An item view
exists only for an element of the stack, so every per-item handler requires that
position to be in range.

Three behaviours of the code are worth noting, and the model keeps each of them:

- With an unmeasured (zero) canvas, `snappedOffset` returns the proposal and leaves the
  published guides as they were. It does not publish an empty set.
- Dragging a 100 by 100 item flush beside an equal peer publishes three guides.
  The top-to-top and bottom-to-bottom checks match as well.
  `Alignment.BesidePeerExample` proves the three-guide result.
- Confirming a delete for an item no longer in the stack removes the bottom item, because
  `getIndex` falls back to 0. It is not a no-op. The selection is never cleared by a
  delete.

## Model

| member | source | states |
|---|---|---|
| Geometry.EdgesOf | AppostropheTest/ViewModels/CanvasViewModel.swift:316-323 | The left and right edges lie half the width either side of the centre: they sum to twice the centre and differ by the full width. The same holds vertically. |
| Geometry.EffectiveSize | AppostropheTest/Views/CanvasItemView.swift:124-129 | The size used for sizing and snapping is the frame times the scale when the scale is at least 0.4, and the frame times 0.4 otherwise. Non-negative frames give non-negative sizes. The item view sizes the dragged item this way, and the peer pass sizes every peer the same way. |
| Geometry.EffectiveSizeMonotone | AppostropheTest/ViewModels/CanvasViewModel.swift:165-168 | For a non-negative frame, a larger scale never gives a smaller effective size. All scales at or below 0.4 give the same size, so a pinch below the floor changes neither sizing nor snapping. |
| SnapLine.InsertSafelyResult | AppostropheTest/ViewModels/CanvasViewModel.swift:325-335 | The filter appends the candidate exactly when no guide of the same orientation lies closer than 0.5, and otherwise leaves the collection alone. Afterwards some guide stands for the candidate. |
| SnapLine.InsertSafelyKeepsSpacing | AppostropheTest/ViewModels/CanvasViewModel.swift:325-335 | The filter keeps a well-spaced collection well spaced, and keeps every extent non-reversed. |
| SnapLine.InsertAllKeepsSpacing | AppostropheTest/ViewModels/CanvasViewModel.swift:325-335 | After any sequence of inserts into a well-spaced collection: no two guides of one orientation are closer than 0.5, every earlier guide is kept, and every candidate is covered. |
| SnapLine.DedupCloseExample | AppostropheTest/ViewModels/CanvasViewModel.swift:325-335 | Vertical candidates at 50.0 and 50.3 give one guide. |
| SnapLine.DedupFarExample | AppostropheTest/ViewModels/CanvasViewModel.swift:325-335 | Vertical candidates at 50.0 and 51.0 give two guides. |
| StackItem.NewItem | AppostropheTest/Models/StackItem.swift:6-17 | A new item has the given identity and frame, offset zero, scale 1 and angle zero, with every live value equal to its base. |
| Haptic.HandleHaptic | AppostropheTest/ViewModels/CanvasViewModel.swift:337-344 | A pulse fires exactly when guides are present and the trigger is not engaged. Afterwards the trigger is engaged exactly when guides are present. |
| Haptic.FiresOncePerRisingEdge | AppostropheTest/ViewModels/CanvasViewModel.swift:337-344 | Over any trace of guide counts, the number of pulses equals the number of rising edges (counted independently of the trigger). After a non-empty trace the trigger is engaged exactly when the last count was non-zero. |
| Haptic.TwoRisingEdgesExample | AppostropheTest/ViewModels/CanvasViewModel.swift:337-344 | The counts 0, 1, 2, 1, 0, 1 from rest give exactly two pulses. |
| LayoutAspect.FromRawValue | AppostropheTest/Models/LayoutAspect.swift:6-10 | Parsing a string gives the case whose raw value it is, and fails exactly when no case has that raw value. |
| LayoutAspect.RawValueRoundTrip | AppostropheTest/Models/LayoutAspect.swift:6-10 | Parsing the raw value of a case gives back that case. |
| LayoutAspect.RawValueInjective | AppostropheTest/Models/LayoutAspect.swift:6-12 | Distinct cases have distinct raw values, so their identifiers differ. |
| LayoutAspect.AllCasesComplete | AppostropheTest/Models/LayoutAspect.swift:6-10 | Every case is among the four listed cases, and none is listed twice. |
| LayoutAspect.RatioOf | AppostropheTest/Models/LayoutAspect.swift:14-21 | Both components of every preset ratio are positive. |
| LayoutAspect.LabelInjective | AppostropheTest/Models/LayoutAspect.swift:23-30 | Distinct cases have distinct labels. |
| LayoutAspect.CanvasHeight | AppostropheTest/Views/MainView.swift:14-18 | The canvas height and width stand in the preset's h:w proportion. The height is positive for a positive width, and the square preset gives height equal to width. |
| Snapping.ApplyChecksGuides | AppostropheTest/ViewModels/CanvasViewModel.swift:189-209 | A run of `checkAndSnap` calls keeps the guides it was given as a prefix. Every guide it adds is the guide of one of the checks. Conversely, every check that fires, judged on the offset at its turn, leaves its guide covered in the result. |
| Snapping.ApplyChecksKeepsSpacing | AppostropheTest/ViewModels/CanvasViewModel.swift:189-209 | A run of `checkAndSnap` calls keeps a well-spaced collection well spaced. |
| Snapping.ApplyChecksNoneFire | AppostropheTest/ViewModels/CanvasViewModel.swift:189-209 | When no coordinate is strictly within 10 of its target, the checks change neither the offset nor the guides. |
| Snapping.CanvasPassGuides | AppostropheTest/ViewModels/CanvasViewModel.swift:107-155 | Every guide the canvas pass adds sits at a flush centre coordinate (left, right, top or bottom target) and spans the whole canvas across its axis. Conversely, each of the four targets the centre comes within snapping distance of (the right and bottom ones judged after the left and top snaps) is covered by a full-canvas guide at that target. |
| Snapping.CanvasPassKeepsSpacing | AppostropheTest/ViewModels/CanvasViewModel.swift:107-155 | The canvas pass keeps a well-spaced collection well spaced. |
| Snapping.CanvasPassOffsets | AppostropheTest/ViewModels/CanvasViewModel.swift:107-155 | On x: a coordinate within 10 of the left target moves there. It then moves on to the right target when that is within 10 of the left target. Failing the left check, it moves to the right target when within 10 of it. Otherwise it is unchanged. The same holds for top and bottom on y. |
| Snapping.FlushCoord | AppostropheTest/ViewModels/CanvasViewModel.swift:242-313 | The coordinate a matching pair sets puts the dragged item's edge exactly on the peer's edge, for example `width = peerL - halfW` for right-to-left. |
| Snapping.ApplyPairsLastMatch | AppostropheTest/ViewModels/CanvasViewModel.swift:242-313 | When pair `i` is the last pair on an axis that matches, the coordinate on that axis ends flush as that pair sets it: a later match overwrites an earlier one. |
| Snapping.ApplyPairsNoMatch | AppostropheTest/ViewModels/CanvasViewModel.swift:242-313 | With no matching pair on an axis, that coordinate is left alone. |
| Snapping.ApplyPairsGuides | AppostropheTest/ViewModels/CanvasViewModel.swift:219-240 | The pairs keep the guides they were given as a prefix. Each guide they add is the guide of a matching pair. Conversely, every pair that matches at its turn leaves its guide covered in the result. |
| Snapping.ApplyPairsKeepsSpacing | AppostropheTest/ViewModels/CanvasViewModel.swift:219-240 | The pairs keep a well-spaced collection well spaced. |
| Alignment.SnapEdgesPrecedenceX | AppostropheTest/ViewModels/CanvasViewModel.swift:242-295 | On x, left-to-right beats right-to-left, which beats right-to-right, which beats left-to-left. With no match, x is unchanged. Matching is judged on the edges from before the peer's checks. |
| Alignment.SnapEdgesPrecedenceY | AppostropheTest/ViewModels/CanvasViewModel.swift:260-313 | On y, top-to-bottom beats bottom-to-top, which beats bottom-to-bottom, which beats top-to-top. With no match, y is unchanged. |
| Alignment.ApplyPairsFlush | AppostropheTest/ViewModels/CanvasViewModel.swift:219-313 | Against one peer, a coordinate is either left as it was or made flush with one of that peer's edges. |
| Alignment.SnapToPeersProvenance | AppostropheTest/ViewModels/CanvasViewModel.swift:157-187 | The peer pass leaves a coordinate as it was, or makes it flush with a stack item whose identity differs from the dragged item's. |
| Alignment.SnapToPeersAnchored | AppostropheTest/ViewModels/CanvasViewModel.swift:157-187 | The peer pass keeps the guides it was given. Each guide it adds lies on an edge of some other item. Conversely, for every other item and every pair that matches at that item's turn, judged on the edges the earlier items left, the result covers that pair's guide, whatever later items do. |
| Alignment.SnapToPeersKeepsSpacing | AppostropheTest/ViewModels/CanvasViewModel.swift:157-187 | The peer pass keeps a well-spaced collection well spaced. |
| Alignment.SnapToPeersLastPeerWins | AppostropheTest/ViewModels/CanvasViewModel.swift:164-186 | Later peers win. Take the last peer in stack order that matches on an axis against the edges the item has at that peer's turn. The coordinate ends flush as that peer's last matching pair sets it, whatever earlier peers did. |
| Alignment.SnapToPeersOrdered | AppostropheTest/ViewModels/CanvasViewModel.swift:164-187 | With non-negative frame sizes, every guide the peer pass adds has start at most end. |
| Alignment.AlignOffsetProvenance | AppostropheTest/ViewModels/CanvasViewModel.swift:39-70 | Each coordinate the engine returns is one of three things: the proposed one, one that puts the item flush with a canvas side, or one that puts it flush with another item. |
| Alignment.AlignGuides | AppostropheTest/ViewModels/CanvasViewModel.swift:39-70 | The engine's guides are well spaced. Each is a full-extent canvas guide or lies on another item's edge. None is reversed when the canvas and the frames are non-negative. |
| Alignment.AlignShowsCanvasSnaps | AppostropheTest/ViewModels/CanvasViewModel.swift:44-69 | The engine's published guides cover a full-canvas guide at every canvas target the drag came within snapping distance of, so any canvas snap leaves at least one guide. |
| Alignment.AlignShowsPeerSnaps | AppostropheTest/ViewModels/CanvasViewModel.swift:44-69 | The engine's published guides cover every pair's guide that matches at its item's turn after the canvas pass, so any peer snap leaves at least one guide. |
| Alignment.NoPeersCanvasOnly | AppostropheTest/ViewModels/CanvasViewModel.swift:164-186 | A stack holding only the dragged item adds nothing in the peer pass. |
| Alignment.CanvasEdgeExample | AppostropheTest/ViewModels/CanvasViewModel.swift:107-155 | Take a 100 by 100 item alone at (-95, 0) on a 300 by 300 canvas. It lands at (-100, 0) with one vertical guide over the full height. |
| Alignment.BesidePeerExample | AppostropheTest/ViewModels/CanvasViewModel.swift:242-313 | Drag a 100 by 100 item to 0 <= d < 10 beyond flush with an equal item at the origin. It lands flush at x = 100 with three guides: two horizontal, one vertical. |
| StackOrder.FindIndex | AppostropheTest/Views/CanvasView.swift:53-57 | The search finds the first position holding the identity. It finds nothing exactly when the identity is absent. |
| StackOrder.GetIndex | AppostropheTest/Views/CanvasView.swift:53-57 | On a non-empty stack the index is in range. It holds the identity when present, and is 0 when absent. |
| StackOrder.GetIndexUnique | AppostropheTest/Views/CanvasView.swift:53-57 | With unique identities, the index of the identity at position `i` is `i`. |
| StackOrder.AtMostOneSelected | AppostropheTest/Views/CanvasView.swift:21-24 | With unique identities, at most one item is highlighted. One is highlighted exactly when the selected identity is on the canvas. |
| StackOrder.MoveToFrontPlaces | AppostropheTest/Views/CanvasView.swift:59-66 | Bringing to front is a permutation (same length and multiset) that puts the found item last. Items below it keep their positions, and items above it shift down by one, in order. |
| StackOrder.MoveToFrontTop | AppostropheTest/Views/CanvasView.swift:59-66 | The top item then has the identity. An absent identity brings the bottom item to the top instead. |
| StackOrder.MoveToFrontOfTop | AppostropheTest/Views/CanvasView.swift:59-66 | Bringing the top item to the front leaves the stack unchanged. |
| StackOrder.MoveToFrontKeepsIds | AppostropheTest/Views/CanvasView.swift:59-66 | Reordering keeps the set of identities, and keeps them unique. |
| StackOrder.MoveToFrontIdempotent | AppostropheTest/Views/CanvasView.swift:59-66 | With unique identities, bringing the same present item to the front twice equals doing it once. |
| StackOrder.ConfirmDeletePlaces | AppostropheTest/Views/CanvasView.swift:41-45 | Deleting removes one element, the one at the recorded item's index. Items below it keep their positions, and items above it shift down by one. |
| StackOrder.ConfirmDeleteKeepsIds | AppostropheTest/Views/CanvasView.swift:41-45 | A confirmed delete never adds an identity and keeps identities unique, whether or not the recorded item is still in the stack. |
| StackOrder.ConfirmDeleteRemovesItem | AppostropheTest/Views/CanvasView.swift:41-45 | With unique identities and the item present, the item's identity is gone and every other identity stays. Identities stay unique. |
| StackOrder.ConfirmDeleteAbsent | AppostropheTest/Views/CanvasView.swift:41-57 | Deleting an item no longer in the stack removes the bottom item. |
| Transform.ProposedOffset | AppostropheTest/Views/CanvasItemView.swift:118-123 | A drag proposes the committed offset displaced by exactly the cumulative translation. |
| Transform.DragChange | AppostropheTest/Views/CanvasItemView.swift:130-135 | A drag change stores the snapped offset as the live offset and changes nothing else. |
| Transform.DragEnd | AppostropheTest/Views/CanvasItemView.swift:137-138 | A drag end sets the base offset to the live offset and changes nothing else. |
| Transform.MagnifyChange | AppostropheTest/Views/CanvasItemView.swift:149 | The live scale exceeds the base by exactly the magnification minus 1, unclamped. Nothing else changes. |
| Transform.MagnifyEnd | AppostropheTest/Views/CanvasItemView.swift:150-151 | A magnify end sets the base scale to the live scale and changes nothing else. |
| Transform.RotateChange | AppostropheTest/Views/CanvasItemView.swift:156-158 | The live angle exceeds the base by exactly the gesture's angle. Nothing else changes. |
| Transform.RotateEnd | AppostropheTest/Views/CanvasItemView.swift:159-160 | A rotation end sets the base angle to the live angle and changes nothing else. |
| Transform.EndIdempotent | AppostropheTest/Views/CanvasItemView.swift:137-160 | Ending a gesture twice equals ending it once. |
| Transform.EndAllCommits | AppostropheTest/Views/CanvasItemView.swift:137-160 | After all three ends the item is committed and keeps its live values. |
| Transform.ChangeFromBase | AppostropheTest/Views/CanvasItemView.swift:118-158 | Change events do not accumulate within a gesture: two changes equal the last one alone. |
| Transform.IdentityGestureIsNoOp | AppostropheTest/Views/CanvasItemView.swift:118-158 | On a committed item, magnification 1, angle 0 and a zero translation propose the committed values. |
| Transform.GesturesAccumulate | AppostropheTest/Views/CanvasItemView.swift:143-161 | Successive complete magnify gestures add their excesses over 1 to the scale rather than multiplying. Successive rotations add their angles. |
| Transform.GesturesCommute | AppostropheTest/Views/CanvasItemView.swift:112-163 | Each gesture writes only its own pair. So the simultaneous magnify and rotate events commute, and both commute with a drag change. |
| Transform.StoredScaleUnclamped | AppostropheTest/Views/CanvasItemView.swift:124-149 | A pinch to 0.1 stores scale 0.1, while the size given to the engine uses 0.4. |
| CanvasModel.DisplaySize | AppostropheTest/ViewModels/CanvasViewModel.swift:99-105 | A new item's frame keeps the image's aspect ratio, and its longer side is 150. |
| CanvasModel.AddImageToStack | AppostropheTest/ViewModels/CanvasViewModel.swift:24-37 | Adding appends exactly one new item on top and leaves the earlier items unchanged and in order. The new item is selected, and nothing else changes. |
| CanvasModel.AddImageKeepsIdsUnique | AppostropheTest/ViewModels/CanvasViewModel.swift:24-37 | Adding introduces exactly the new identity. A fresh one keeps identities unique. |
| CanvasModel.SnappedOffset | AppostropheTest/ViewModels/CanvasViewModel.swift:39-70 | With a zero canvas the proposal comes back and nothing changes. Otherwise only the guides and the trigger change. The trigger pulses exactly when guides appear while it is at rest, and is engaged exactly when guides are published. |
| CanvasModel.SnappedOffsetSound | AppostropheTest/ViewModels/CanvasViewModel.swift:39-70 | What `snappedOffset` publishes stays well spaced. Each returned coordinate is proposed, flush with a canvas side, or flush with another item. Each new guide is a canvas guide or lies on another item's edge. |
| CanvasModel.ClearGuidelines | AppostropheTest/ViewModels/CanvasViewModel.swift:72-75 | Clearing the guidelines empties the guides and re-arms the trigger, and nothing else changes. |
| CanvasModel.ClearCanvas | AppostropheTest/ViewModels/CanvasViewModel.swift:77-82 | Clearing the canvas empties the stack and the guides, and clears the selection and the recorded item. The alert flag, the canvas size and the trigger are kept. |
| CanvasModel.ClearThenAdd | AppostropheTest/ViewModels/CanvasViewModel.swift:24-82 | Clearing and then adding one image leaves exactly that selected item, with its display size. |
| CanvasModel.Tap | AppostropheTest/Views/CanvasItemView.swift:88-90 | A tap selects the tapped item, and nothing else changes. |
| CanvasModel.BackgroundTap | AppostropheTest/Views/CanvasView.swift:14-17 | A background tap leaves no item highlighted, and nothing else changes. |
| CanvasModel.LongPressPutsOnTop | AppostropheTest/Views/CanvasItemView.swift:97-107 | With unique identities, a long press puts the pressed item on top as a permutation of the stack. Identities stay unique, and nothing else changes. |
| CanvasModel.DoubleTap | AppostropheTest/Views/CanvasView.swift:29-31 | A double tap records the item and toggles the alert. The stack is untouched. |
| CanvasModel.ConfirmDeleteItem | AppostropheTest/Views/CanvasView.swift:41-45 | With an item recorded, confirming removes exactly the element at that item's `getIndex` position. Items below it keep their positions, items above it shift down by one, and the multiset loses just that element. With no item recorded, the stack is untouched. The alert closes, and nothing else changes: the selection, the recorded item, the guides, the trigger and the canvas size stay. |
| CanvasModel.DeleteLeavesDanglingSelection | AppostropheTest/Views/CanvasView.swift:41-45 | Selecting, requesting and confirming a delete leaves the selection on an identity no longer on the canvas, so no item is highlighted. |
| CanvasModel.DragChanged | AppostropheTest/Views/CanvasItemView.swift:114-136 | A drag change selects the item and changes only its live offset, which becomes the engine's answer. Other items are untouched. With a zero canvas the answer is the raw proposal, with no pulse and no guide change. |
| CanvasModel.DragEnded | AppostropheTest/Views/CanvasItemView.swift:137-140 | A drag end sets the item's base offset to its live offset, clears the guides and re-arms the trigger. The item's other fields, the other items and the rest of the state are unchanged. |
| CanvasModel.MagnifyChanged | AppostropheTest/Views/CanvasItemView.swift:145-149 | A magnification change selects the item and sets its live scale to the base plus the magnification minus 1. The item's other fields, the other items and the rest of the state (guides, trigger, alert) are unchanged. |
| CanvasModel.MagnifyEnded | AppostropheTest/Views/CanvasItemView.swift:150-152 | A magnification end sets the item's base scale to its live scale. The item's other fields, the other items and the rest of the state are unchanged. |
| CanvasModel.RotateChanged | AppostropheTest/Views/CanvasItemView.swift:155-158 | A rotation change sets the item's live angle to the base plus the gesture's angle. Unlike the other changes it does not select. The item's other fields, the other items and the rest of the state are unchanged. |
| CanvasModel.RotateEnded | AppostropheTest/Views/CanvasItemView.swift:159-161 | A rotation end sets the item's base angle to its live angle. The item's other fields, the other items and the rest of the state are unchanged. |
| CanvasModel.DragChangedKeepsValid | AppostropheTest/Views/CanvasItemView.swift:114-136 | A drag change keeps the identities, their uniqueness and the spacing of the guides. |
| CanvasModel.ItemEditKeepsValid | AppostropheTest/Views/CanvasItemView.swift:137-161 | The other per-item handlers keep the identities and the state's validity. |
| CanvasModel.DeleteConfirmedKeepsValid | AppostropheTest/Views/CanvasView.swift:41-45 | A confirmed delete adds no identity, and keeps identities unique. |
| CanvasModel.StepKeepsValid | AppostropheTest/Views/CanvasItemView.swift:87-163 | No event adds an identity other than the one it introduces. Every event keeps identities unique and guides well spaced, provided an added image gets an unused identity. |
| CanvasModel.RunKeepsValid | AppostropheTest/Models/StackItem.swift:7 | With fresh identities for added images, every state a trace reaches is valid. Its identities are among the initial ones and those the trace introduced. |
| CanvasModel.UnmeasuredStep | AppostropheTest/ViewModels/CanvasViewModel.swift:44 | On an unmeasured canvas no event publishes a guide, engages the trigger or pulses, and a drag moves the item exactly as proposed. |
| CanvasModel.NeverMeasuredNeverSnaps | AppostropheTest/ViewModels/CanvasViewModel.swift:17 | No trace of the application's events, which never hand over a canvas size, ever corrects a drag or publishes a guide. |
| CanvasModel.DragPublishesEngineResult | AppostropheTest/ViewModels/CanvasViewModel.swift:39-70 | On a measured canvas, a drag change stores the engine's offset and replaces the published guides wholesale by the engine's. It pulses exactly when guides appear from rest. |
| CanvasModel.SideSnapPulses | AppostropheTest/ViewModels/CanvasViewModel.swift:44-69 | With a measured canvas and the trigger disarmed, a drag whose centre comes within snapping distance of the left target publishes a guide and fires a pulse. |
| CanvasModel.MeasuredDragAligns | AppostropheTest/ViewModels/CanvasViewModel.swift:44-69 | Once a non-zero canvas size is handed over, every drag is corrected by the engine and publishes its guides. |
| CanvasModel.MainCanvasSize | AppostropheTest/Views/MainView.swift:14-18 | The main screen's canvas is the screen width less 32 wide, in the preset's proportion. It is non-zero on any screen wider than 32. |

## Left out

- Rendering is left out, because it has no effect on the state. This covers the
  selection glow, the pulsating and haptic scale animations, the frame and clipping, the
  tab bar, navigation bar, pickers and thumbnails, and the safe-area query.
- Haptic actuation is not modelled. `UIImpactFeedbackGenerator` is a device call, so a
  pulse is an output flag. The long-press feedback is left out for the same reason.
- Snapshots, saving to the photo album and the save-result message are left out. They
  are rasterisation and system I/O.
- Image picking, decoding and `handleSelectedImages` are left out as system services. An
  image is represented by its size.
- Overlay loading, the remote image loader and their decoding are left out. They are
  network plumbing.
- Floating point is not modelled. `CGFloat` and `Angle` are `real`, with no rounding,
  NaN or infinity, and angles are not normalised.
- Identity generation is not modelled. `UUID().uuidString` is a parameter of
  `AddImageToStack`. Uniqueness of the generated identities is a hypothesis of
  `RunKeepsValid` (`FreshIds`), not a fact the model proves.
- Guides are kept as a sequence in insertion order. The source collects them in a
  `Set` and publishes `Array(set)` in an unspecified order.
  - Every guide carries a fresh identity, so the set never merges two guides. Its size
    equals the sequence's length, and the filter alone does the deduplication.
  - The guide's identity itself is not modelled.
- The item's wrapped view (`AnyView`) is left out. It has no part in the logic.
- Gesture arbitration is left out: high priority, simultaneity of a double tap with a long
  press, and recognition thresholds. Each recognised gesture callback is one event.
- The alert's implicit cancel is left out; only confirmation is modelled.
- The Save button's own effect on the state is left out. It clears the selection and the
  recorded item before the snapshot, and never touches the stack, guides or canvas size.
- CanvasModel.DisplaySize: requires a positive image height and a non-negative width.
  For a zero-height image the source's `CGFloat` division yields infinity or NaN, which a
  real-valued model cannot represent.
- CanvasModel.AddImageToStack: inherits the same requirement on the image size.
- StackOrder.ConfirmDelete: requires a non-empty stack when an item is recorded. The
  source's `remove(at:)` traps on an empty stack.
- CanvasModel.ConfirmDeleteItem: inherits that requirement. With an item recorded, the
  stack must be non-empty, since the source's `remove(at:)` traps on an empty stack.
- StackOrder.MoveToFront: requires a non-empty stack, as the source's `remove(at:)` does.
- CanvasModel.Enabled: makes an item event possible only while its position is in the
  stack, and a confirmation only while the alert shows. An event outside these conditions
  ends a trace with `None`.
- `CanvasCleared` is an event the application does not produce either. `clearCanvas` is
  called only from the unit tests, and no toolbar button reaches it. It is kept as an
  event because it is part of the view model's interface.
- `CanvasMeasured` is an event the application does not produce; it stands for the
  corrected behaviour described under Findings.

## Findings

| source | as written | input that shows it | evidently intended | confidence | as-written member | corrected member |
|---|---|---|---|---|---|---|
| AppostropheTest/ViewModels/CanvasViewModel.swift:17 | `canvasSize` starts at `.zero` and no application code assigns it. The main screen computes its own canvas size but never hands it over, so `snappedOffset` always takes its zero-size early return. | Any drag in the running application, e.g. an item dragged to within 5 points of the canvas's left side: it is not snapped, no guide appears and no haptic fires. | The main screen hands its laid-out canvas size (`MainCanvasSize`) to the view model, after which drags are corrected by the engine. | medium; not executed | CanvasModel.NeverMeasuredNeverSnaps | CanvasModel.MeasuredDragAligns |

/**
  The alignment engine behind `snappedOffset`: a canvas-edge pass followed by a peer
  pass, both collecting guides through the near-duplicate filter. All coordinates are
  centre offsets measured from the canvas centre.
*/
module Snapping {
  import opened Geometry
  import opened SnapLine
  import opened StackItem

  /** A coordinate snaps when it is strictly closer than this to its target. */
  const SnapThreshold: real := 10.0

  /** The offset being corrected and the guides collected so far in this call. */
  datatype Snap = Snap(offset: Size, lines: seq<Guide>)

  predicate Within(a: real, b: real) {
    Abs(a - b) < SnapThreshold
  }

  /** X moves `width` and yields vertical guides; Y moves `height` and yields horizontal ones. */
  datatype Axis = X | Y

  function Coord(o: Size, axis: Axis): real {
    if axis == X then o.width else o.height
  }

  function WithCoord(o: Size, axis: Axis, v: real): Size {
    if axis == X then o.(width := v) else o.(height := v)
  }

  function OrientationOf(axis: Axis): Orientation {
    if axis == X then Vertical else Horizontal
  }

  // ---------------------------------------------------------------------------
  // Canvas-edge pass
  // ---------------------------------------------------------------------------

  /** One `checkAndSnap` call: the coordinate it moves, its target, and the guide's drawn extent. */
  datatype CanvasCheck = CanvasCheck(axis: Axis, target: real, start: real, end: real)

  function CheckGuide(c: CanvasCheck): Guide {
    Guide(OrientationOf(c.axis), c.target, c.start, c.end)
  }

  /** `checkAndSnap`: moves the coordinate onto the target and records a guide there when close. */
  function CheckAndSnap(s: Snap, c: CanvasCheck): Snap {
    if Within(Coord(s.offset, c.axis), c.target) then
      Snap(WithCoord(s.offset, c.axis, c.target), InsertSafely(s.lines, CheckGuide(c)))
    else
      s
  }

  /** Centre coordinates at which the item sits flush inside the canvas. */
  function CanvasLeft(canvas: Size, halfW: real): real { -(canvas.width / 2.0) + halfW }
  function CanvasRight(canvas: Size, halfW: real): real { canvas.width / 2.0 - halfW }
  function CanvasTop(canvas: Size, halfH: real): real { -(canvas.height / 2.0) + halfH }
  function CanvasBottom(canvas: Size, halfH: real): real { canvas.height / 2.0 - halfH }

  /** The four calls of `snapToCanvasEdges`, in order: left, right, top, bottom. */
  function CanvasChecks(canvas: Size, halfW: real, halfH: real): seq<CanvasCheck> {
    [ CanvasCheck(X, CanvasLeft(canvas, halfW), -(canvas.height / 2.0), canvas.height / 2.0),
      CanvasCheck(X, CanvasRight(canvas, halfW), -(canvas.height / 2.0), canvas.height / 2.0),
      CanvasCheck(Y, CanvasTop(canvas, halfH), -(canvas.width / 2.0), canvas.width / 2.0),
      CanvasCheck(Y, CanvasBottom(canvas, halfH), -(canvas.width / 2.0), canvas.width / 2.0) ]
  }

  /** Runs the checks in order; each sees the coordinate the previous ones produced. */
  function ApplyChecks(s: Snap, checks: seq<CanvasCheck>): Snap
    decreases |checks|
  {
    if |checks| == 0 then s
    else CheckAndSnap(ApplyChecks(s, checks[..|checks| - 1]), checks[|checks| - 1])
  }

  /** `snapToCanvasEdges`. */
  function SnapToCanvasEdges(s: Snap, halfW: real, halfH: real, canvas: Size): Snap {
    ApplyChecks(s, CanvasChecks(canvas, halfW, halfH))
  }

  /** A guide the canvas pass emits: at a flush centre coordinate, across the whole canvas. */
  predicate CanvasGuide(g: Guide, canvas: Size, halfW: real, halfH: real) {
    if g.orientation == Vertical then
      (g.position == CanvasLeft(canvas, halfW) || g.position == CanvasRight(canvas, halfW))
      && g.start == -(canvas.height / 2.0) && g.end == canvas.height / 2.0
    else
      (g.position == CanvasTop(canvas, halfH) || g.position == CanvasBottom(canvas, halfH))
      && g.start == -(canvas.width / 2.0) && g.end == canvas.width / 2.0
  }

  /** `g` is the guide of one of the checks. */
  predicate GuideOfCheck(g: Guide, checks: seq<CanvasCheck>) {
    exists i :: 0 <= i < |checks| && g == CheckGuide(checks[i])
  }

  /**
    One `checkAndSnap` keeps every guide it was given, and when it fires some guide
    stands for its own guide afterwards.
  */
  lemma CheckAndSnapCovers(s: Snap, c: CanvasCheck)
    ensures s.lines <= CheckAndSnap(s, c).lines
    ensures Within(Coord(s.offset, c.axis), c.target) ==> Covered(CheckAndSnap(s, c).lines, CheckGuide(c))
  {
    InsertSafelyResult(s.lines, CheckGuide(c));
  }

  /** Check `i` fires: the coordinate the earlier checks left is within reach of its target. */
  predicate Fires(s: Snap, checks: seq<CanvasCheck>, i: int)
    requires 0 <= i < |checks|
  {
    Within(Coord(ApplyChecks(s, checks[..i]).offset, checks[i].axis), checks[i].target)
  }

  /** Whether an earlier check fires does not depend on the checks after it. */
  lemma FiresInPrefix(s: Snap, checks: seq<CanvasCheck>, n: int, i: int)
    requires 0 <= i < n <= |checks|
    ensures Fires(s, checks, i) <==> Fires(s, checks[..n], i)
  {
    assert checks[..n][..i] == checks[..i];
  }

  /** Every check that fires leaves a guide standing for its own guide. */
  lemma {:induction false} ApplyChecksCoverFired(s: Snap, checks: seq<CanvasCheck>)
    ensures forall i :: 0 <= i < |checks| && Fires(s, checks, i) ==>
              Covered(ApplyChecks(s, checks).lines, CheckGuide(checks[i]))
    decreases |checks|
  {
    if |checks| > 0 {
      var n := |checks| - 1;
      var init := checks[..n];
      var before := ApplyChecks(s, init);
      var r := ApplyChecks(s, checks);
      ApplyChecksCoverFired(s, init);
      CheckAndSnapCovers(before, checks[n]);
      forall i | 0 <= i < |checks| && Fires(s, checks, i)
        ensures Covered(r.lines, CheckGuide(checks[i]))
      {
        if i < n {
          FiresInPrefix(s, checks, n, i);
          CoveredGrows(before.lines, r.lines, CheckGuide(checks[i]));
        }
      }
    }
  }

  /**
    The checks keep the guides they were given, add only guides of their own, and leave
    a guide standing for every check that fires.
  */
  lemma {:induction false} ApplyChecksGuides(s: Snap, checks: seq<CanvasCheck>)
    ensures s.lines <= ApplyChecks(s, checks).lines
    ensures forall k :: |s.lines| <= k < |ApplyChecks(s, checks).lines| ==>
              GuideOfCheck(ApplyChecks(s, checks).lines[k], checks)
    ensures forall i :: 0 <= i < |checks| && Fires(s, checks, i) ==>
              Covered(ApplyChecks(s, checks).lines, CheckGuide(checks[i]))
    decreases |checks|
  {
    ApplyChecksCoverFired(s, checks);
    if |checks| > 0 {
      var n := |checks| - 1;
      var init := checks[..n];
      ApplyChecksGuides(s, init);
      var before := ApplyChecks(s, init);
      var r := ApplyChecks(s, checks);
      InsertSafelyResult(before.lines, CheckGuide(checks[n]));
      assert r.lines == before.lines || r.lines == before.lines + [CheckGuide(checks[n])];
      forall k | |s.lines| <= k < |r.lines|
        ensures GuideOfCheck(r.lines[k], checks)
      {
        if k < |before.lines| {
          assert r.lines[k] == before.lines[k];
          var i :| 0 <= i < n && before.lines[k] == CheckGuide(init[i]);
          assert init[i] == checks[i];
        } else {
          assert r.lines[k] == CheckGuide(checks[n]);
        }
      }
    }
  }

  /** The checks keep a well-spaced guide collection well spaced. */
  lemma {:induction false} ApplyChecksKeepsSpacing(s: Snap, checks: seq<CanvasCheck>)
    requires WellSpaced(s.lines)
    ensures WellSpaced(ApplyChecks(s, checks).lines)
    decreases |checks|
  {
    if |checks| > 0 {
      var n := |checks| - 1;
      ApplyChecksKeepsSpacing(s, checks[..n]);
      InsertSafelyKeepsSpacing(ApplyChecks(s, checks[..n]).lines, CheckGuide(checks[n]));
    }
  }

  /** When no check is within reach of its target, the checks change nothing. */
  lemma {:induction false} ApplyChecksNoneFire(s: Snap, checks: seq<CanvasCheck>)
    requires forall i :: 0 <= i < |checks| ==> !Within(Coord(s.offset, checks[i].axis), checks[i].target)
    ensures ApplyChecks(s, checks) == s
    decreases |checks|
  {
    if |checks| > 0 {
      var n := |checks| - 1;
      assert forall i :: 0 <= i < n ==> checks[..n][i] == checks[i];
      ApplyChecksNoneFire(s, checks[..n]);
    }
  }

  /**
    Every guide the canvas pass adds is a full-extent canvas guide, and every snap to a
    canvas side leaves a full-extent guide at that side's target. The right (bottom)
    check judges the coordinate the left (top) check left behind.
  */
  lemma CanvasPassGuides(s: Snap, halfW: real, halfH: real, canvas: Size)
    ensures s.lines <= SnapToCanvasEdges(s, halfW, halfH, canvas).lines
    ensures var r := SnapToCanvasEdges(s, halfW, halfH, canvas);
            forall k :: |s.lines| <= k < |r.lines| ==> CanvasGuide(r.lines[k], canvas, halfW, halfH)
    ensures var r := SnapToCanvasEdges(s, halfW, halfH, canvas);
            var w, h := s.offset.width, s.offset.height;
            var left, right := CanvasLeft(canvas, halfW), CanvasRight(canvas, halfW);
            var top, bottom := CanvasTop(canvas, halfH), CanvasBottom(canvas, halfH);
            var w1 := if Within(w, left) then left else w;
            var h1 := if Within(h, top) then top else h;
      && (Within(w, left) ==>
            Covered(r.lines, Guide(Vertical, left, -(canvas.height / 2.0), canvas.height / 2.0)))
      && (Within(w1, right) ==>
            Covered(r.lines, Guide(Vertical, right, -(canvas.height / 2.0), canvas.height / 2.0)))
      && (Within(h, top) ==>
            Covered(r.lines, Guide(Horizontal, top, -(canvas.width / 2.0), canvas.width / 2.0)))
      && (Within(h1, bottom) ==>
            Covered(r.lines, Guide(Horizontal, bottom, -(canvas.width / 2.0), canvas.width / 2.0)))
  {
    var checks := CanvasChecks(canvas, halfW, halfH);
    var r := ApplyChecks(s, checks);
    ApplyChecksGuides(s, checks);
    CanvasPassCovers(s, checks);
    forall k | |s.lines| <= k < |r.lines|
      ensures CanvasGuide(r.lines[k], canvas, halfW, halfH)
    {
      var i :| 0 <= i < |checks| && r.lines[k] == CheckGuide(checks[i]);
    }
  }

  /** The canvas pass keeps a well-spaced guide collection well spaced. */
  lemma CanvasPassKeepsSpacing(s: Snap, halfW: real, halfH: real, canvas: Size)
    requires WellSpaced(s.lines)
    ensures WellSpaced(SnapToCanvasEdges(s, halfW, halfH, canvas).lines)
  {
    ApplyChecksKeepsSpacing(s, CanvasChecks(canvas, halfW, halfH));
  }

  /**
    Where each coordinate lands: the right (bottom) check runs after the left (top) one
    and judges the coordinate that check produced, so it can overwrite a snap to the left
    (top) side when the two targets are within reach of each other.
  */
  lemma CanvasPassOffsets(s: Snap, halfW: real, halfH: real, canvas: Size)
    ensures var r := SnapToCanvasEdges(s, halfW, halfH, canvas);
            var w := s.offset.width;
            var left, right := CanvasLeft(canvas, halfW), CanvasRight(canvas, halfW);
      r.offset.width
      == if Within(w, left) then (if Within(left, right) then right else left)
         else if Within(w, right) then right
         else w
    ensures var r := SnapToCanvasEdges(s, halfW, halfH, canvas);
            var h := s.offset.height;
            var top, bottom := CanvasTop(canvas, halfH), CanvasBottom(canvas, halfH);
      r.offset.height
      == if Within(h, top) then (if Within(top, bottom) then bottom else top)
         else if Within(h, bottom) then bottom
         else h
  {
    ApplyFourChecks(s, CanvasChecks(canvas, halfW, halfH));
  }

  /** Four checks, written out one after another. */
  lemma ApplyFourChecks(s: Snap, checks: seq<CanvasCheck>)
    requires |checks| == 4
    ensures ApplyChecks(s, checks)
            == CheckAndSnap(CheckAndSnap(CheckAndSnap(CheckAndSnap(s, checks[0]), checks[1]), checks[2]), checks[3])
  {
    assert checks[..4][..3] == checks[..3] && checks[..3][..2] == checks[..2];
    assert checks[..2][..1] == checks[..1] && checks[..1][..0] == [];
    assert checks[..4] == checks;
    assert ApplyChecks(s, checks[..1]) == CheckAndSnap(s, checks[0]);
    assert ApplyChecks(s, checks[..2]) == CheckAndSnap(ApplyChecks(s, checks[..1]), checks[1]);
    assert ApplyChecks(s, checks[..3]) == CheckAndSnap(ApplyChecks(s, checks[..2]), checks[2]);
  }

  /**
    The four canvas checks, one after another: each keeps the guides before it, and each
    that fires on the coordinate it is handed leaves its own guide covered.
  */
  lemma CanvasPassCovers(s: Snap, checks: seq<CanvasCheck>)
    requires |checks| == 4
    requires checks[0].axis == X && checks[1].axis == X && checks[2].axis == Y && checks[3].axis == Y
    ensures var r := ApplyChecks(s, checks);
            var w, h := s.offset.width, s.offset.height;
            var w1 := if Within(w, checks[0].target) then checks[0].target else w;
            var h1 := if Within(h, checks[2].target) then checks[2].target else h;
      && (Within(w, checks[0].target) ==> Covered(r.lines, CheckGuide(checks[0])))
      && (Within(w1, checks[1].target) ==> Covered(r.lines, CheckGuide(checks[1])))
      && (Within(h, checks[2].target) ==> Covered(r.lines, CheckGuide(checks[2])))
      && (Within(h1, checks[3].target) ==> Covered(r.lines, CheckGuide(checks[3])))
  {
    ApplyFourChecks(s, checks);
    var s1 := CheckAndSnap(s, checks[0]);
    var s2 := CheckAndSnap(s1, checks[1]);
    var s3 := CheckAndSnap(s2, checks[2]);
    var s4 := CheckAndSnap(s3, checks[3]);
    CheckAndSnapCovers(s, checks[0]);
    CheckAndSnapCovers(s1, checks[1]);
    CheckAndSnapCovers(s2, checks[2]);
    CheckAndSnapCovers(s3, checks[3]);
    assert s2.offset.height == s.offset.height;
    if Within(s.offset.width, checks[0].target) {
      CoveredGrows(s1.lines, s4.lines, CheckGuide(checks[0]));
    }
    if Within(s1.offset.width, checks[1].target) {
      CoveredGrows(s2.lines, s4.lines, CheckGuide(checks[1]));
    }
    if Within(s.offset.height, checks[2].target) {
      CoveredGrows(s3.lines, s4.lines, CheckGuide(checks[2]));
    }
  }

  // ---------------------------------------------------------------------------
  // Peer pass
  // ---------------------------------------------------------------------------

  /** Low is the left or top edge, High the right or bottom edge. */
  datatype Side = Low | High

  /** One comparison of `snapEdges`: the dragged item's `mine` edge against the peer's `theirs`. */
  datatype EdgePair = EdgePair(axis: Axis, mine: Side, theirs: Side)

  /** The fixed evaluation order: l-l, r-r, t-t, b-b, r-l, l-r, b-t, t-b. */
  const PeerCheckOrder: seq<EdgePair> := [
    EdgePair(X, Low, Low), EdgePair(X, High, High), EdgePair(Y, Low, Low), EdgePair(Y, High, High),
    EdgePair(X, High, Low), EdgePair(X, Low, High), EdgePair(Y, High, Low), EdgePair(Y, Low, High)
  ]

  function EdgeAt(e: Edges, axis: Axis, side: Side): real {
    match (axis, side)
    case (X, Low) => e.l
    case (X, High) => e.r
    case (Y, Low) => e.t
    case (Y, High) => e.b
  }

  function HalfOn(axis: Axis, halfW: real, halfH: real): real {
    if axis == X then halfW else halfH
  }

  /** The peer guide's drawn extent: the union of both items' extents across the axis. */
  function SpanStart(axis: Axis, my: Edges, peer: Edges): real {
    if axis == X then Min(peer.t, my.t) else Min(peer.l, my.l)
  }

  function SpanEnd(axis: Axis, my: Edges, peer: Edges): real {
    if axis == X then Max(peer.b, my.b) else Max(peer.r, my.r)
  }

  predicate Matches(p: EdgePair, my: Edges, peer: Edges) {
    Within(EdgeAt(my, p.axis, p.mine), EdgeAt(peer, p.axis, p.theirs))
  }

  /** The centre coordinate that puts the dragged item's `mine` edge on the peer's `theirs` edge. */
  function FlushCoord(p: EdgePair, peer: Edges, halfW: real, halfH: real): (c: real)
    ensures (if p.mine == Low then c - HalfOn(p.axis, halfW, halfH) else c + HalfOn(p.axis, halfW, halfH))
            == EdgeAt(peer, p.axis, p.theirs)
  {
    var edge := EdgeAt(peer, p.axis, p.theirs);
    if p.mine == Low then edge + HalfOn(p.axis, halfW, halfH) else edge - HalfOn(p.axis, halfW, halfH)
  }

  function PeerGuide(p: EdgePair, my: Edges, peer: Edges): Guide {
    Guide(OrientationOf(p.axis), EdgeAt(peer, p.axis, p.theirs), SpanStart(p.axis, my, peer), SpanEnd(p.axis, my, peer))
  }

  /** `trySnap`: one edge-pair comparison against edges computed before the pair ran. */
  function ApplyPair(s: Snap, p: EdgePair, my: Edges, peer: Edges, halfW: real, halfH: real): Snap {
    if Matches(p, my, peer) then
      Snap(WithCoord(s.offset, p.axis, FlushCoord(p, peer, halfW, halfH)), InsertSafely(s.lines, PeerGuide(p, my, peer)))
    else
      s
  }

  /** `pairs[i]` is the last pair on `axis` that matches. */
  predicate LastMatchOn(pairs: seq<EdgePair>, i: int, axis: Axis, my: Edges, peer: Edges)
    requires 0 <= i < |pairs|
  {
    && pairs[i].axis == axis
    && Matches(pairs[i], my, peer)
    && forall j :: i < j < |pairs| && pairs[j].axis == axis ==> !Matches(pairs[j], my, peer)
  }

  predicate NoMatchOn(pairs: seq<EdgePair>, axis: Axis, my: Edges, peer: Edges) {
    forall j :: 0 <= j < |pairs| && pairs[j].axis == axis ==> !Matches(pairs[j], my, peer)
  }

  /** Runs the pairs in order against edges fixed before the first pair ran. */
  function ApplyPairs(s: Snap, pairs: seq<EdgePair>, my: Edges, peer: Edges, halfW: real, halfH: real): Snap
    decreases |pairs|
  {
    if |pairs| == 0 then s
    else ApplyPair(ApplyPairs(s, pairs[..|pairs| - 1], my, peer, halfW, halfH), pairs[|pairs| - 1], my, peer, halfW, halfH)
  }

  /**
    Last write wins: on `axis` the coordinate is set by the last matching pair. Because
    the edges are not refreshed between pairs, whether a pair matches does not depend on
    what earlier pairs did.
  */
  lemma {:induction false} ApplyPairsLastMatch(s: Snap, pairs: seq<EdgePair>, my: Edges, peer: Edges,
                                               halfW: real, halfH: real, axis: Axis, i: int)
    requires 0 <= i < |pairs| && LastMatchOn(pairs, i, axis, my, peer)
    ensures Coord(ApplyPairs(s, pairs, my, peer, halfW, halfH).offset, axis) == FlushCoord(pairs[i], peer, halfW, halfH)
    decreases |pairs|
  {
    var n := |pairs| - 1;
    var init := pairs[..n];
    if i < n {
      assert init[i] == pairs[i];
      forall j | i < j < n && init[j].axis == axis
        ensures !Matches(init[j], my, peer)
      {
        assert init[j] == pairs[j];
      }
      ApplyPairsLastMatch(s, init, my, peer, halfW, halfH, axis, i);
      assert !(pairs[n].axis == axis && Matches(pairs[n], my, peer));
    }
  }

  /** With no matching pair on `axis`, the coordinate on `axis` is left alone. */
  lemma {:induction false} ApplyPairsNoMatch(s: Snap, pairs: seq<EdgePair>, my: Edges, peer: Edges,
                                             halfW: real, halfH: real, axis: Axis)
    requires NoMatchOn(pairs, axis, my, peer)
    ensures Coord(ApplyPairs(s, pairs, my, peer, halfW, halfH).offset, axis) == Coord(s.offset, axis)
    decreases |pairs|
  {
    if |pairs| > 0 {
      var n := |pairs| - 1;
      var init := pairs[..n];
      forall j | 0 <= j < n && init[j].axis == axis
        ensures !Matches(init[j], my, peer)
      {
        assert init[j] == pairs[j];
      }
      ApplyPairsNoMatch(s, init, my, peer, halfW, halfH, axis);
    }
  }

  /** `g` is the guide of one of the matching pairs. */
  predicate GuideOfMatch(g: Guide, pairs: seq<EdgePair>, my: Edges, peer: Edges) {
    exists i :: 0 <= i < |pairs| && Matches(pairs[i], my, peer) && g == PeerGuide(pairs[i], my, peer)
  }

  /** Every matching pair leaves a guide standing for its own guide. */
  lemma {:induction false} ApplyPairsCoverMatches(s: Snap, pairs: seq<EdgePair>, my: Edges, peer: Edges,
                                                  halfW: real, halfH: real)
    ensures s.lines <= ApplyPairs(s, pairs, my, peer, halfW, halfH).lines
    ensures forall i :: 0 <= i < |pairs| && Matches(pairs[i], my, peer) ==>
              Covered(ApplyPairs(s, pairs, my, peer, halfW, halfH).lines, PeerGuide(pairs[i], my, peer))
    decreases |pairs|
  {
    if |pairs| > 0 {
      var n := |pairs| - 1;
      var init := pairs[..n];
      var before := ApplyPairs(s, init, my, peer, halfW, halfH);
      var r := ApplyPairs(s, pairs, my, peer, halfW, halfH);
      ApplyPairsCoverMatches(s, init, my, peer, halfW, halfH);
      InsertSafelyResult(before.lines, PeerGuide(pairs[n], my, peer));
      assert before.lines <= r.lines;
      forall i | 0 <= i < |pairs| && Matches(pairs[i], my, peer)
        ensures Covered(r.lines, PeerGuide(pairs[i], my, peer))
      {
        if i < n {
          assert init[i] == pairs[i];
          CoveredGrows(before.lines, r.lines, PeerGuide(pairs[i], my, peer));
        }
      }
    }
  }

  /**
    The pairs keep the guides they were given, add only guides of matching pairs, and
    leave a guide standing for every matching pair.
  */
  lemma {:induction false} ApplyPairsGuides(s: Snap, pairs: seq<EdgePair>, my: Edges, peer: Edges,
                                            halfW: real, halfH: real)
    ensures s.lines <= ApplyPairs(s, pairs, my, peer, halfW, halfH).lines
    ensures forall k :: |s.lines| <= k < |ApplyPairs(s, pairs, my, peer, halfW, halfH).lines| ==>
              GuideOfMatch(ApplyPairs(s, pairs, my, peer, halfW, halfH).lines[k], pairs, my, peer)
    ensures forall i :: 0 <= i < |pairs| && Matches(pairs[i], my, peer) ==>
              Covered(ApplyPairs(s, pairs, my, peer, halfW, halfH).lines, PeerGuide(pairs[i], my, peer))
    decreases |pairs|
  {
    ApplyPairsCoverMatches(s, pairs, my, peer, halfW, halfH);
    if |pairs| > 0 {
      var n := |pairs| - 1;
      var init := pairs[..n];
      ApplyPairsGuides(s, init, my, peer, halfW, halfH);
      var before := ApplyPairs(s, init, my, peer, halfW, halfH);
      var r := ApplyPairs(s, pairs, my, peer, halfW, halfH);
      assert r == ApplyPair(before, pairs[n], my, peer, halfW, halfH);
      InsertSafelyResult(before.lines, PeerGuide(pairs[n], my, peer));
      assert r.lines == before.lines || r.lines == before.lines + [PeerGuide(pairs[n], my, peer)];
      forall k | |s.lines| <= k < |r.lines|
        ensures GuideOfMatch(r.lines[k], pairs, my, peer)
      {
        if k < |before.lines| {
          assert r.lines[k] == before.lines[k];
          assert GuideOfMatch(before.lines[k], init, my, peer);
          var i :| 0 <= i < n && Matches(init[i], my, peer) && before.lines[k] == PeerGuide(init[i], my, peer);
          assert init[i] == pairs[i];
          assert 0 <= i < |pairs| && Matches(pairs[i], my, peer) && r.lines[k] == PeerGuide(pairs[i], my, peer);
        } else {
          assert r.lines != before.lines;
          assert Matches(pairs[n], my, peer);
          assert r.lines[k] == PeerGuide(pairs[n], my, peer);
          assert 0 <= n < |pairs| && Matches(pairs[n], my, peer) && r.lines[k] == PeerGuide(pairs[n], my, peer);
        }
      }
    }
  }

  /** Running pairs keeps a well-spaced guide collection well spaced. */
  lemma {:induction false} ApplyPairsKeepsSpacing(s: Snap, pairs: seq<EdgePair>, my: Edges, peer: Edges,
                                                  halfW: real, halfH: real)
    requires WellSpaced(s.lines)
    ensures WellSpaced(ApplyPairs(s, pairs, my, peer, halfW, halfH).lines)
    decreases |pairs|
  {
    if |pairs| > 0 {
      var n := |pairs| - 1;
      ApplyPairsKeepsSpacing(s, pairs[..n], my, peer, halfW, halfH);
      var before := ApplyPairs(s, pairs[..n], my, peer, halfW, halfH);
      InsertSafelyKeepsSpacing(before.lines, PeerGuide(pairs[n], my, peer));
    }
  }

  /** `snapEdges`: the eight pairs of `PeerCheckOrder` against one peer. */
  function SnapEdges(s: Snap, my: Edges, peer: Edges, halfW: real, halfH: real): Snap {
    ApplyPairs(s, PeerCheckOrder, my, peer, halfW, halfH)
  }

  /** A peer's edges at its live offset, from its frame size scaled by `max(scale, 0.4)`. */
  function PeerEdges(peer: StackItem): Edges {
    var size := EffectiveSize(peer.frameSize, peer.scale);
    EdgesOf(peer.offset, size.width / 2.0, size.height / 2.0)
  }

  /** One iteration of `snapToPeers`: the item itself is skipped; the dragged edges are recomputed. */
  function PeerStep(s: Snap, peer: StackItem, itemId: string, halfW: real, halfH: real): Snap {
    if peer.id == itemId then s
    else SnapEdges(s, EdgesOf(s.offset, halfW, halfH), PeerEdges(peer), halfW, halfH)
  }

  /** `snapToPeers`: visits the stack in order. */
  function SnapToPeers(s: Snap, stack: seq<StackItem>, itemId: string, halfW: real, halfH: real): Snap
    decreases |stack|
  {
    if |stack| == 0 then s
    else PeerStep(SnapToPeers(s, stack[..|stack| - 1], itemId, halfW, halfH), stack[|stack| - 1], itemId, halfW, halfH)
  }

  /**
    The body of `snappedOffset` once the canvas size is known: both passes, starting with
    no guides, for an item of size `itemSize` proposed at `proposed`.
  */
  function Align(proposed: Size, itemId: string, itemSize: Size, stack: seq<StackItem>, canvas: Size): Snap {
    var halfW := itemSize.width / 2.0;
    var halfH := itemSize.height / 2.0;
    SnapToPeers(SnapToCanvasEdges(Snap(proposed, []), halfW, halfH, canvas), stack, itemId, halfW, halfH)
  }
}

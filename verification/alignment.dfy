/**
  Properties of the alignment engine as a whole: the fixed order of the eight peer
  checks, where a corrected coordinate can come from, what every guide stands for, and
  worked examples.
*/
module Alignment {
  import opened Geometry
  import opened SnapLine
  import opened StackItem
  import opened Snapping

  /**
    The order of `snapEdges` decides ties on x: left-to-right beats right-to-left, which
    beats right-to-right, which beats left-to-left. Matching is judged on the edges the
    item had when the peer's checks began.
  */
  lemma {:induction false} SnapEdgesPrecedenceX(s: Snap, my: Edges, peer: Edges, halfW: real, halfH: real)
    ensures var w := SnapEdges(s, my, peer, halfW, halfH).offset.width;
      if Within(my.l, peer.r) then w == peer.r + halfW
      else if Within(my.r, peer.l) then w == peer.l - halfW
      else if Within(my.r, peer.r) then w == peer.r - halfW
      else if Within(my.l, peer.l) then w == peer.l + halfW
      else w == s.offset.width
  {
    var o := PeerCheckOrder;
    assert o[0] == EdgePair(X, Low, Low) && o[1] == EdgePair(X, High, High);
    assert o[4] == EdgePair(X, High, Low) && o[5] == EdgePair(X, Low, High);
    assert o[2].axis == Y && o[3].axis == Y && o[6].axis == Y && o[7].axis == Y;
    if Within(my.l, peer.r) { ApplyPairsLastMatch(s, o, my, peer, halfW, halfH, X, 5); }
    else if Within(my.r, peer.l) { ApplyPairsLastMatch(s, o, my, peer, halfW, halfH, X, 4); }
    else if Within(my.r, peer.r) { ApplyPairsLastMatch(s, o, my, peer, halfW, halfH, X, 1); }
    else if Within(my.l, peer.l) { ApplyPairsLastMatch(s, o, my, peer, halfW, halfH, X, 0); }
    else { ApplyPairsNoMatch(s, o, my, peer, halfW, halfH, X); }
  }

  /**
    The order of `snapEdges` decides ties on y: top-to-bottom beats bottom-to-top, which
    beats bottom-to-bottom, which beats top-to-top.
  */
  lemma {:induction false} SnapEdgesPrecedenceY(s: Snap, my: Edges, peer: Edges, halfW: real, halfH: real)
    ensures var h := SnapEdges(s, my, peer, halfW, halfH).offset.height;
      if Within(my.t, peer.b) then h == peer.b + halfH
      else if Within(my.b, peer.t) then h == peer.t - halfH
      else if Within(my.b, peer.b) then h == peer.b - halfH
      else if Within(my.t, peer.t) then h == peer.t + halfH
      else h == s.offset.height
  {
    var o := PeerCheckOrder;
    assert o[2] == EdgePair(Y, Low, Low) && o[3] == EdgePair(Y, High, High);
    assert o[6] == EdgePair(Y, High, Low) && o[7] == EdgePair(Y, Low, High);
    assert o[0].axis == X && o[1].axis == X && o[4].axis == X && o[5].axis == X;
    if Within(my.t, peer.b) { ApplyPairsLastMatch(s, o, my, peer, halfW, halfH, Y, 7); }
    else if Within(my.b, peer.t) { ApplyPairsLastMatch(s, o, my, peer, halfW, halfH, Y, 6); }
    else if Within(my.b, peer.b) { ApplyPairsLastMatch(s, o, my, peer, halfW, halfH, Y, 3); }
    else if Within(my.t, peer.t) { ApplyPairsLastMatch(s, o, my, peer, halfW, halfH, Y, 2); }
    else { ApplyPairsNoMatch(s, o, my, peer, halfW, halfH, Y); }
  }

  /** A centre coordinate on `axis` puts one of the item's two edges on one of `e`'s two edges. */
  predicate FlushWith(axis: Axis, c: real, half: real, e: Edges) {
    || c - half == EdgeAt(e, axis, Low) || c - half == EdgeAt(e, axis, High)
    || c + half == EdgeAt(e, axis, Low) || c + half == EdgeAt(e, axis, High)
  }

  /** The coordinate is flush with some peer of the dragged item in `stack`. */
  predicate AlignedToPeer(axis: Axis, c: real, half: real, stack: seq<StackItem>, itemId: string) {
    exists i :: 0 <= i < |stack| && stack[i].id != itemId && FlushWith(axis, c, half, PeerEdges(stack[i]))
  }

  /** Running pairs against one peer leaves a coordinate alone or makes it flush with that peer. */
  lemma {:induction false} ApplyPairsFlush(s: Snap, pairs: seq<EdgePair>, my: Edges, peer: Edges,
                                           halfW: real, halfH: real, axis: Axis)
    ensures var c := Coord(ApplyPairs(s, pairs, my, peer, halfW, halfH).offset, axis);
            c == Coord(s.offset, axis) || FlushWith(axis, c, HalfOn(axis, halfW, halfH), peer)
    decreases |pairs|
  {
    if |pairs| > 0 {
      var n := |pairs| - 1;
      ApplyPairsFlush(s, pairs[..n], my, peer, halfW, halfH, axis);
      var p := pairs[n];
      if Matches(p, my, peer) && p.axis == axis {
        var c := FlushCoord(p, peer, halfW, halfH);
        assert FlushWith(axis, c, HalfOn(axis, halfW, halfH), peer);
      }
    }
  }

  /**
    The peer pass leaves a coordinate as it found it or makes the dragged item flush
    with one of its peers (never with the dragged item's own stack entry).
  */
  lemma {:induction false} SnapToPeersProvenance(s: Snap, stack: seq<StackItem>, itemId: string,
                                                 halfW: real, halfH: real, axis: Axis)
    ensures var c := Coord(SnapToPeers(s, stack, itemId, halfW, halfH).offset, axis);
            c == Coord(s.offset, axis) || AlignedToPeer(axis, c, HalfOn(axis, halfW, halfH), stack, itemId)
    decreases |stack|
  {
    if |stack| > 0 {
      var n := |stack| - 1;
      var init := stack[..n];
      var before := SnapToPeers(s, init, itemId, halfW, halfH);
      var r := SnapToPeers(s, stack, itemId, halfW, halfH);
      var half := HalfOn(axis, halfW, halfH);
      SnapToPeersProvenance(s, init, itemId, halfW, halfH, axis);
      var c := Coord(r.offset, axis);
      if c != Coord(before.offset, axis) {
        assert stack[n].id != itemId;
        ApplyPairsFlush(before, PeerCheckOrder, EdgesOf(before.offset, halfW, halfH), PeerEdges(stack[n]), halfW, halfH, axis);
        assert FlushWith(axis, c, half, PeerEdges(stack[n]));
      } else if c != Coord(s.offset, axis) {
        var i :| 0 <= i < |init| && init[i].id != itemId && FlushWith(axis, c, half, PeerEdges(init[i]));
        assert init[i] == stack[i];
      }
    }
  }

  /**
    Peer `k` of the stack (not the dragged item) matches on `axis` against the edges the
    dragged item has when that peer's turn comes.
  */
  predicate PeerMatchesOn(s: Snap, stack: seq<StackItem>, k: int, itemId: string, halfW: real, halfH: real,
                          axis: Axis)
    requires 0 <= k < |stack|
  {
    && stack[k].id != itemId
    && !NoMatchOn(PeerCheckOrder, axis, EdgesOf(SnapToPeers(s, stack[..k], itemId, halfW, halfH).offset, halfW, halfH),
                  PeerEdges(stack[k]))
  }

  /** A last peer that does not match on `axis` leaves that coordinate alone. */
  lemma LastPeerSilent(s: Snap, stack: seq<StackItem>, itemId: string, halfW: real, halfH: real, axis: Axis)
    requires |stack| > 0 && !PeerMatchesOn(s, stack, |stack| - 1, itemId, halfW, halfH, axis)
    ensures Coord(SnapToPeers(s, stack, itemId, halfW, halfH).offset, axis)
            == Coord(SnapToPeers(s, stack[..|stack| - 1], itemId, halfW, halfH).offset, axis)
  {
    var n := |stack| - 1;
    var before := SnapToPeers(s, stack[..n], itemId, halfW, halfH);
    if stack[n].id != itemId {
      ApplyPairsNoMatch(before, PeerCheckOrder, EdgesOf(before.offset, halfW, halfH), PeerEdges(stack[n]),
                        halfW, halfH, axis);
    }
  }

  /**
    Later peers win: when peer `j` is the last peer in stack order that matches on
    `axis`, and `i` is its last matching pair there, the coordinate ends flush as that
    pair sets it, whatever earlier peers did.
  */
  lemma {:induction false} SnapToPeersLastPeerWins(s: Snap, stack: seq<StackItem>, itemId: string,
                                                   halfW: real, halfH: real, axis: Axis, j: int, i: int)
    requires 0 <= j < |stack| && 0 <= i < |PeerCheckOrder| && stack[j].id != itemId
    requires LastMatchOn(PeerCheckOrder, i, axis,
                         EdgesOf(SnapToPeers(s, stack[..j], itemId, halfW, halfH).offset, halfW, halfH),
                         PeerEdges(stack[j]))
    requires forall k :: j < k < |stack| ==> !PeerMatchesOn(s, stack, k, itemId, halfW, halfH, axis)
    ensures Coord(SnapToPeers(s, stack, itemId, halfW, halfH).offset, axis)
            == FlushCoord(PeerCheckOrder[i], PeerEdges(stack[j]), halfW, halfH)
    decreases |stack|
  {
    var n := |stack| - 1;
    var init := stack[..n];
    if j == n {
      var before := SnapToPeers(s, init, itemId, halfW, halfH);
      ApplyPairsLastMatch(before, PeerCheckOrder, EdgesOf(before.offset, halfW, halfH), PeerEdges(stack[n]),
                          halfW, halfH, axis, i);
    } else {
      assert init[..j] == stack[..j] && init[j] == stack[j];
      forall k | j < k < n
        ensures !PeerMatchesOn(s, init, k, itemId, halfW, halfH, axis)
      {
        assert init[..k] == stack[..k] && init[k] == stack[k];
        assert !PeerMatchesOn(s, stack, k, itemId, halfW, halfH, axis);
      }
      SnapToPeersLastPeerWins(s, init, itemId, halfW, halfH, axis, j, i);
      LastPeerSilent(s, stack, itemId, halfW, halfH, axis);
    }
  }

  /** A guide drawn at one of a peer's edges on its own axis. */
  predicate PeerAnchored(g: Guide, stack: seq<StackItem>, itemId: string) {
    exists i :: 0 <= i < |stack| && stack[i].id != itemId && AtPeerEdge(g, PeerEdges(stack[i]))
  }

  predicate AtPeerEdge(g: Guide, e: Edges) {
    if g.orientation == Vertical then g.position == e.l || g.position == e.r
    else g.position == e.t || g.position == e.b
  }

  /** Every item in the stack has a non-negative frame size. */
  predicate FramesNonNegative(stack: seq<StackItem>) {
    forall i :: 0 <= i < |stack| ==> stack[i].frameSize.NonNegative()
  }

  /** One peer's turn keeps the guides and adds only guides on that peer's edges. */
  lemma PeerStepAnchored(s: Snap, peer: StackItem, itemId: string, halfW: real, halfH: real)
    ensures s.lines <= PeerStep(s, peer, itemId, halfW, halfH).lines
    ensures var r := PeerStep(s, peer, itemId, halfW, halfH);
            |r.lines| > |s.lines| ==>
              peer.id != itemId && forall k :: |s.lines| <= k < |r.lines| ==> AtPeerEdge(r.lines[k], PeerEdges(peer))
  {
    if peer.id != itemId {
      var my := EdgesOf(s.offset, halfW, halfH);
      var r := PeerStep(s, peer, itemId, halfW, halfH);
      ApplyPairsGuides(s, PeerCheckOrder, my, PeerEdges(peer), halfW, halfH);
      forall k | |s.lines| <= k < |r.lines|
        ensures AtPeerEdge(r.lines[k], PeerEdges(peer))
      {
        assert GuideOfMatch(r.lines[k], PeerCheckOrder, my, PeerEdges(peer));
      }
    }
  }

  /** The dragged item's edges when peer `j`'s turn comes. */
  function TurnEdges(s: Snap, stack: seq<StackItem>, j: int, itemId: string, halfW: real, halfH: real): Edges
    requires 0 <= j <= |stack|
  {
    EdgesOf(SnapToPeers(s, stack[..j], itemId, halfW, halfH).offset, halfW, halfH)
  }

  /** Pair `i` of peer `j` matches, judged on the edges the dragged item has at that peer's turn. */
  predicate PeerPairMatches(s: Snap, stack: seq<StackItem>, j: int, i: int, itemId: string, halfW: real, halfH: real)
    requires 0 <= j < |stack| && 0 <= i < |PeerCheckOrder|
  {
    stack[j].id != itemId && Matches(PeerCheckOrder[i], TurnEdges(s, stack, j, itemId, halfW, halfH), PeerEdges(stack[j]))
  }

  /** The guide that pair `i` of peer `j` draws at that peer's turn. */
  function PeerPairGuide(s: Snap, stack: seq<StackItem>, j: int, i: int, itemId: string, halfW: real, halfH: real): Guide
    requires 0 <= j < |stack| && 0 <= i < |PeerCheckOrder|
  {
    PeerGuide(PeerCheckOrder[i], TurnEdges(s, stack, j, itemId, halfW, halfH), PeerEdges(stack[j]))
  }

  /** A peer's turn does not depend on the peers after it. */
  lemma TurnInPrefix(s: Snap, stack: seq<StackItem>, n: int, j: int, i: int, itemId: string, halfW: real, halfH: real)
    requires 0 <= j < n <= |stack| && 0 <= i < |PeerCheckOrder|
    ensures PeerPairMatches(s, stack, j, i, itemId, halfW, halfH) <==> PeerPairMatches(s, stack[..n], j, i, itemId, halfW, halfH)
    ensures PeerPairGuide(s, stack, j, i, itemId, halfW, halfH) == PeerPairGuide(s, stack[..n], j, i, itemId, halfW, halfH)
  {
    assert stack[..n][..j] == stack[..j];
    assert stack[..n][j] == stack[j];
  }

  /** One peer's turn keeps the guides and leaves every matching pair's guide covered. */
  lemma PeerStepCovers(s: Snap, peer: StackItem, itemId: string, halfW: real, halfH: real)
    ensures s.lines <= PeerStep(s, peer, itemId, halfW, halfH).lines
    ensures var my := EdgesOf(s.offset, halfW, halfH);
            forall i :: 0 <= i < |PeerCheckOrder| && peer.id != itemId && Matches(PeerCheckOrder[i], my, PeerEdges(peer)) ==>
              Covered(PeerStep(s, peer, itemId, halfW, halfH).lines, PeerGuide(PeerCheckOrder[i], my, PeerEdges(peer)))
  {
    if peer.id != itemId {
      ApplyPairsGuides(s, PeerCheckOrder, EdgesOf(s.offset, halfW, halfH), PeerEdges(peer), halfW, halfH);
    }
  }

  /**
    Every pair that matches at its peer's turn leaves a guide standing for its own guide,
    whatever the later peers do.
  */
  lemma {:induction false} SnapToPeersCoverMatches(s: Snap, stack: seq<StackItem>, itemId: string, halfW: real, halfH: real)
    ensures forall j, i :: 0 <= j < |stack| && 0 <= i < |PeerCheckOrder| && PeerPairMatches(s, stack, j, i, itemId, halfW, halfH) ==>
              Covered(SnapToPeers(s, stack, itemId, halfW, halfH).lines, PeerPairGuide(s, stack, j, i, itemId, halfW, halfH))
    decreases |stack|
  {
    if |stack| > 0 {
      var n := |stack| - 1;
      var init := stack[..n];
      var before := SnapToPeers(s, init, itemId, halfW, halfH);
      var r := SnapToPeers(s, stack, itemId, halfW, halfH);
      SnapToPeersCoverMatches(s, init, itemId, halfW, halfH);
      PeerStepCovers(before, stack[n], itemId, halfW, halfH);
      forall j, i | 0 <= j < |stack| && 0 <= i < |PeerCheckOrder| && PeerPairMatches(s, stack, j, i, itemId, halfW, halfH)
        ensures Covered(r.lines, PeerPairGuide(s, stack, j, i, itemId, halfW, halfH))
      {
        if j < n {
          TurnInPrefix(s, stack, n, j, i, itemId, halfW, halfH);
          CoveredGrows(before.lines, r.lines, PeerPairGuide(s, init, j, i, itemId, halfW, halfH));
        } else {
          assert TurnEdges(s, stack, j, itemId, halfW, halfH) == EdgesOf(before.offset, halfW, halfH);
        }
      }
    }
  }

  /** The peer pass keeps the guides it was given, in order, as a prefix. */
  lemma {:induction false} SnapToPeersKeepsLines(s: Snap, stack: seq<StackItem>, itemId: string, halfW: real, halfH: real)
    ensures s.lines <= SnapToPeers(s, stack, itemId, halfW, halfH).lines
    decreases |stack|
  {
    if |stack| > 0 {
      var n := |stack| - 1;
      SnapToPeersKeepsLines(s, stack[..n], itemId, halfW, halfH);
      PeerStepAnchored(SnapToPeers(s, stack[..n], itemId, halfW, halfH), stack[n], itemId, halfW, halfH);
    }
  }

  /**
    The peer pass keeps the guides it was given and adds only guides on a peer's edge;
    conversely, every pair that matches at its peer's turn leaves its guide covered.
  */
  lemma {:induction false} SnapToPeersAnchored(s: Snap, stack: seq<StackItem>, itemId: string, halfW: real, halfH: real)
    ensures s.lines <= SnapToPeers(s, stack, itemId, halfW, halfH).lines
    ensures var r := SnapToPeers(s, stack, itemId, halfW, halfH);
            forall k :: |s.lines| <= k < |r.lines| ==> PeerAnchored(r.lines[k], stack, itemId)
    ensures forall j, i :: 0 <= j < |stack| && 0 <= i < |PeerCheckOrder| && PeerPairMatches(s, stack, j, i, itemId, halfW, halfH) ==>
              Covered(SnapToPeers(s, stack, itemId, halfW, halfH).lines, PeerPairGuide(s, stack, j, i, itemId, halfW, halfH))
    decreases |stack|
  {
    SnapToPeersCoverMatches(s, stack, itemId, halfW, halfH);
    if |stack| > 0 {
      var n := |stack| - 1;
      var init := stack[..n];
      var before := SnapToPeers(s, init, itemId, halfW, halfH);
      var r := SnapToPeers(s, stack, itemId, halfW, halfH);
      SnapToPeersAnchored(s, init, itemId, halfW, halfH);
      PeerStepAnchored(before, stack[n], itemId, halfW, halfH);
      forall k | |s.lines| <= k < |r.lines|
        ensures PeerAnchored(r.lines[k], stack, itemId)
      {
        if k < |before.lines| {
          assert r.lines[k] == before.lines[k];
          assert PeerAnchored(before.lines[k], init, itemId);
          var i :| 0 <= i < |init| && init[i].id != itemId && AtPeerEdge(before.lines[k], PeerEdges(init[i]));
          assert init[i] == stack[i];
        } else {
          assert AtPeerEdge(r.lines[k], PeerEdges(stack[n]));
        }
      }
    }
  }

  /** The peer pass keeps a well-spaced guide collection well spaced. */
  lemma {:induction false} SnapToPeersKeepsSpacing(s: Snap, stack: seq<StackItem>, itemId: string, halfW: real, halfH: real)
    requires WellSpaced(s.lines)
    ensures WellSpaced(SnapToPeers(s, stack, itemId, halfW, halfH).lines)
    decreases |stack|
  {
    if |stack| > 0 {
      var n := |stack| - 1;
      var before := SnapToPeers(s, stack[..n], itemId, halfW, halfH);
      SnapToPeersKeepsSpacing(s, stack[..n], itemId, halfW, halfH);
      ApplyPairsKeepsSpacing(before, PeerCheckOrder, EdgesOf(before.offset, halfW, halfH), PeerEdges(stack[n]), halfW, halfH);
    }
  }

  /** With non-negative peer sizes, every guide the peer pass adds has a non-reversed extent. */
  lemma {:induction false} SnapToPeersOrdered(s: Snap, stack: seq<StackItem>, itemId: string, halfW: real, halfH: real)
    requires FramesNonNegative(stack) && AllOrdered(s.lines)
    ensures AllOrdered(SnapToPeers(s, stack, itemId, halfW, halfH).lines)
    decreases |stack|
  {
    if |stack| > 0 {
      var n := |stack| - 1;
      var init := stack[..n];
      var before := SnapToPeers(s, init, itemId, halfW, halfH);
      var r := SnapToPeers(s, stack, itemId, halfW, halfH);
      assert FramesNonNegative(init) by {
        forall i | 0 <= i < |init| ensures init[i].frameSize.NonNegative() { assert init[i] == stack[i]; }
      }
      SnapToPeersOrdered(s, init, itemId, halfW, halfH);
      if stack[n].id != itemId {
        var my := EdgesOf(before.offset, halfW, halfH);
        var peer := PeerEdges(stack[n]);
        ApplyPairsGuides(before, PeerCheckOrder, my, peer, halfW, halfH);
        assert stack[n].frameSize.NonNegative();
        assert peer.t <= peer.b && peer.l <= peer.r;
        forall k | 0 <= k < |r.lines|
          ensures Ordered(r.lines[k])
        {
          if k < |before.lines| {
            assert r.lines[k] == before.lines[k];
          } else {
            assert GuideOfMatch(r.lines[k], PeerCheckOrder, my, peer);
          }
        }
      }
    }
  }

  /**
    Where a corrected coordinate comes from once the canvas size is known: it is the
    proposed one, flush against a canvas side, or flush with a peer.
  */
  lemma AlignOffsetProvenance(proposed: Size, itemId: string, itemSize: Size, stack: seq<StackItem>, canvas: Size)
    ensures var r := Align(proposed, itemId, itemSize, stack, canvas);
            var halfW := itemSize.width / 2.0;
            var halfH := itemSize.height / 2.0;
      && (|| r.offset.width == proposed.width
          || r.offset.width - halfW == -(canvas.width / 2.0)
          || r.offset.width + halfW == canvas.width / 2.0
          || AlignedToPeer(X, r.offset.width, halfW, stack, itemId))
      && (|| r.offset.height == proposed.height
          || r.offset.height - halfH == -(canvas.height / 2.0)
          || r.offset.height + halfH == canvas.height / 2.0
          || AlignedToPeer(Y, r.offset.height, halfH, stack, itemId))
  {
    var halfW := itemSize.width / 2.0;
    var halfH := itemSize.height / 2.0;
    var c := SnapToCanvasEdges(Snap(proposed, []), halfW, halfH, canvas);
    CanvasPassOffsets(Snap(proposed, []), halfW, halfH, canvas);
    SnapToPeersProvenance(c, stack, itemId, halfW, halfH, X);
    SnapToPeersProvenance(c, stack, itemId, halfW, halfH, Y);
  }

  /**
    The guides `snappedOffset` publishes: every one is a full-extent canvas guide or sits
    on a peer's edge; no two of one orientation are closer than the dedup distance; and
    with non-negative sizes none has a reversed extent.
  */
  lemma AlignGuides(proposed: Size, itemId: string, itemSize: Size, stack: seq<StackItem>, canvas: Size)
    ensures var r := Align(proposed, itemId, itemSize, stack, canvas);
            var halfW := itemSize.width / 2.0;
            var halfH := itemSize.height / 2.0;
      && WellSpaced(r.lines)
      && (forall k :: 0 <= k < |r.lines| ==>
            CanvasGuide(r.lines[k], canvas, halfW, halfH) || PeerAnchored(r.lines[k], stack, itemId))
      && (canvas.NonNegative() && FramesNonNegative(stack) ==> AllOrdered(r.lines))
  {
    var halfW := itemSize.width / 2.0;
    var halfH := itemSize.height / 2.0;
    var c := SnapToCanvasEdges(Snap(proposed, []), halfW, halfH, canvas);
    var r := SnapToPeers(c, stack, itemId, halfW, halfH);
    CanvasPassKeepsSpacing(Snap(proposed, []), halfW, halfH, canvas);
    CanvasPassGuides(Snap(proposed, []), halfW, halfH, canvas);
    SnapToPeersAnchored(c, stack, itemId, halfW, halfH);
    SnapToPeersKeepsSpacing(c, stack, itemId, halfW, halfH);
    forall k | 0 <= k < |r.lines|
      ensures CanvasGuide(r.lines[k], canvas, halfW, halfH) || PeerAnchored(r.lines[k], stack, itemId)
    {
      if k < |c.lines| { assert r.lines[k] == c.lines[k]; }
    }
    if canvas.NonNegative() {
      assert AllOrdered(c.lines) by {
        forall k | 0 <= k < |c.lines| ensures Ordered(c.lines[k]) {
          assert CanvasGuide(c.lines[k], canvas, halfW, halfH);
        }
      }
      if FramesNonNegative(stack) {
        SnapToPeersOrdered(c, stack, itemId, halfW, halfH);
      }
    }
  }

  /**
    A snap to a canvas side shows: the engine's guides include one standing for the
    full-extent guide at that side's target, so at least one guide is published.
  */
  lemma AlignShowsCanvasSnaps(proposed: Size, itemId: string, itemSize: Size, stack: seq<StackItem>, canvas: Size)
    ensures var r := Align(proposed, itemId, itemSize, stack, canvas);
            var halfW, halfH := itemSize.width / 2.0, itemSize.height / 2.0;
            var left, right := CanvasLeft(canvas, halfW), CanvasRight(canvas, halfW);
            var top, bottom := CanvasTop(canvas, halfH), CanvasBottom(canvas, halfH);
            var w1 := if Within(proposed.width, left) then left else proposed.width;
            var h1 := if Within(proposed.height, top) then top else proposed.height;
      && (Within(proposed.width, left) ==>
            Covered(r.lines, Guide(Vertical, left, -(canvas.height / 2.0), canvas.height / 2.0)))
      && (Within(w1, right) ==>
            Covered(r.lines, Guide(Vertical, right, -(canvas.height / 2.0), canvas.height / 2.0)))
      && (Within(proposed.height, top) ==>
            Covered(r.lines, Guide(Horizontal, top, -(canvas.width / 2.0), canvas.width / 2.0)))
      && (Within(h1, bottom) ==>
            Covered(r.lines, Guide(Horizontal, bottom, -(canvas.width / 2.0), canvas.width / 2.0)))
      && ((Within(proposed.width, left) || Within(w1, right) || Within(proposed.height, top) || Within(h1, bottom))
            ==> |r.lines| > 0)
  {
    var halfW, halfH := itemSize.width / 2.0, itemSize.height / 2.0;
    var c := SnapToCanvasEdges(Snap(proposed, []), halfW, halfH, canvas);
    var r := SnapToPeers(c, stack, itemId, halfW, halfH);
    CanvasPassGuides(Snap(proposed, []), halfW, halfH, canvas);
    SnapToPeersKeepsLines(c, stack, itemId, halfW, halfH);
    var gl := Guide(Vertical, CanvasLeft(canvas, halfW), -(canvas.height / 2.0), canvas.height / 2.0);
    var gr := Guide(Vertical, CanvasRight(canvas, halfW), -(canvas.height / 2.0), canvas.height / 2.0);
    var gt := Guide(Horizontal, CanvasTop(canvas, halfH), -(canvas.width / 2.0), canvas.width / 2.0);
    var gb := Guide(Horizontal, CanvasBottom(canvas, halfH), -(canvas.width / 2.0), canvas.width / 2.0);
    if Covered(c.lines, gl) { CoveredGrows(c.lines, r.lines, gl); }
    if Covered(c.lines, gr) { CoveredGrows(c.lines, r.lines, gr); }
    if Covered(c.lines, gt) { CoveredGrows(c.lines, r.lines, gt); }
    if Covered(c.lines, gb) { CoveredGrows(c.lines, r.lines, gb); }
  }

  /**
    A snap to a peer shows: every pair that matches at its peer's turn, after the canvas
    pass, leaves a guide standing for its own guide among the engine's guides.
  */
  lemma AlignShowsPeerSnaps(proposed: Size, itemId: string, itemSize: Size, stack: seq<StackItem>, canvas: Size)
    ensures var r := Align(proposed, itemId, itemSize, stack, canvas);
            var halfW, halfH := itemSize.width / 2.0, itemSize.height / 2.0;
            var c := SnapToCanvasEdges(Snap(proposed, []), halfW, halfH, canvas);
            forall j, i :: 0 <= j < |stack| && 0 <= i < |PeerCheckOrder| && PeerPairMatches(c, stack, j, i, itemId, halfW, halfH) ==>
              Covered(r.lines, PeerPairGuide(c, stack, j, i, itemId, halfW, halfH)) && |r.lines| > 0
  {
    var halfW, halfH := itemSize.width / 2.0, itemSize.height / 2.0;
    SnapToPeersCoverMatches(SnapToCanvasEdges(Snap(proposed, []), halfW, halfH, canvas), stack, itemId, halfW, halfH);
  }

  /** With no peer in the stack, only the canvas pass acts. */
  lemma {:induction false} NoPeersCanvasOnly(s: Snap, stack: seq<StackItem>, itemId: string, halfW: real, halfH: real)
    requires forall i :: 0 <= i < |stack| ==> stack[i].id == itemId
    ensures SnapToPeers(s, stack, itemId, halfW, halfH) == s
    decreases |stack|
  {
    if |stack| > 0 {
      var init := stack[..|stack| - 1];
      assert forall i :: 0 <= i < |init| ==> init[i] == stack[i];
      NoPeersCanvasOnly(s, init, itemId, halfW, halfH);
    }
  }

  /**
    A 100 by 100 item proposed at (-95, 0) on a 300 by 300 canvas, alone in the stack,
    lands flush against the left side at x = -100 with one vertical guide over the full
    canvas height.
  */
  lemma CanvasEdgeExample(item: StackItem)
    requires item.id == "b"
    ensures Align(Size(-95.0, 0.0), "b", Size(100.0, 100.0), [item], Size(300.0, 300.0))
            == Snap(Size(-100.0, 0.0), [Guide(Vertical, -100.0, -150.0, 150.0)])
  {
    var checks := CanvasChecks(Size(300.0, 300.0), 50.0, 50.0);
    var s := Snap(Size(-95.0, 0.0), []);
    var g := Guide(Vertical, -100.0, -150.0, 150.0);
    ApplyFourChecks(s, checks);
    assert !Covered([], g);
    var a1 := Snap(Size(-100.0, 0.0), [g]);
    assert CheckAndSnap(s, checks[0]) == a1;
    assert CheckAndSnap(a1, checks[1]) == a1;
    assert CheckAndSnap(a1, checks[2]) == a1;
    assert CheckAndSnap(a1, checks[3]) == a1;
    NoPeersCanvasOnly(a1, [item], "b", 50.0, 50.0);
  }

  /** The result of dragging a 100 by 100 item to `d` right of flush with its peer. */
  predicate BesidePeerResult(r: Snap, d: real) {
    r == Snap(Size(100.0, 0.0), [Guide(Horizontal, -50.0, -50.0, 150.0 + d),
                                 Guide(Horizontal, 50.0, -50.0, 150.0 + d),
                                 Guide(Vertical, 50.0, -50.0, 50.0)])
  }

  /** The eight checks of the peer example below, one prefix at a time. */
  lemma BesidePeerPairs(c: Snap, my: Edges, peer: Edges, d: real, expected: Snap)
    requires 0.0 <= d < SnapThreshold
    requires c == Snap(Size(100.0 + d, 0.0), [])
    requires my == Edges(50.0 + d, 150.0 + d, -50.0, 50.0) && peer == Edges(-50.0, 50.0, -50.0, 50.0)
    requires BesidePeerResult(expected, d)
    ensures SnapEdges(c, my, peer, 50.0, 50.0) == expected
  {
    var o := PeerCheckOrder;
    var h1 := Guide(Horizontal, -50.0, -50.0, 150.0 + d);
    var h2 := Guide(Horizontal, 50.0, -50.0, 150.0 + d);
    var v := Guide(Vertical, 50.0, -50.0, 50.0);
    var s3 := Snap(Size(100.0 + d, 0.0), [h1]);
    var s4 := Snap(Size(100.0 + d, 0.0), [h1, h2]);
    assert ApplyPairs(c, o[..2], my, peer, 50.0, 50.0) == c by {
      assert o[..2][..1] == o[..1];
      assert o[..1][..0] == [];
      assert ApplyPairs(c, o[..1][..0], my, peer, 50.0, 50.0) == c;
      assert !Matches(o[0], my, peer);
      assert ApplyPairs(c, o[..1], my, peer, 50.0, 50.0) == c;
      assert !Matches(o[1], my, peer);
    }
    assert ApplyPairs(c, o[..3], my, peer, 50.0, 50.0) == s3 by {
      assert o[..3][..2] == o[..2];
      assert Matches(o[2], my, peer);
      assert PeerGuide(o[2], my, peer) == h1;
      assert !Covered([], h1);
    }
    assert ApplyPairs(c, o[..4], my, peer, 50.0, 50.0) == s4 by {
      assert o[..4][..3] == o[..3];
      assert Matches(o[3], my, peer);
      assert PeerGuide(o[3], my, peer) == h2;
      assert !Near(h1, h2);
      assert !Covered([h1], h2);
    }
    assert ApplyPairs(c, o[..5], my, peer, 50.0, 50.0) == s4 by {
      assert o[..5][..4] == o[..4];
      assert !Matches(o[4], my, peer);
    }
    assert ApplyPairs(c, o[..6], my, peer, 50.0, 50.0) == expected by {
      assert o[..6][..5] == o[..5];
      assert Matches(o[5], my, peer);
      assert PeerGuide(o[5], my, peer) == v;
      assert FlushCoord(o[5], peer, 50.0, 50.0) == 100.0;
      assert !Near(h1, v) && !Near(h2, v);
      assert !Covered([h1, h2], v);
    }
    assert ApplyPairs(c, o[..7], my, peer, 50.0, 50.0) == expected by {
      assert o[..7][..6] == o[..6];
      assert !Matches(o[6], my, peer);
    }
    assert ApplyPairs(c, o, my, peer, 50.0, 50.0) == expected by {
      assert o[..7] == o[..|o| - 1];
      assert !Matches(o[7], my, peer);
    }
  }

  /** The dragged item's own entry is skipped by the peer pass. */
  lemma SkipsSelf(c: Snap, a: StackItem, b: StackItem, halfW: real, halfH: real)
    ensures SnapToPeers(c, [a, b], b.id, halfW, halfH) == SnapToPeers(c, [a], b.id, halfW, halfH)
  {
    assert [a, b][..1] == [a];
  }

  /** A single peer: the peer pass is one run of the eight checks against it. */
  lemma OnePeer(c: Snap, a: StackItem, itemId: string, halfW: real, halfH: real)
    requires a.id != itemId
    ensures SnapToPeers(c, [a], itemId, halfW, halfH)
            == SnapEdges(c, EdgesOf(c.offset, halfW, halfH), PeerEdges(a), halfW, halfH)
  {
    assert [a][..0] == [];
  }

  /**
    With the dragged item last in the stack and one peer before it: when the canvas pass
    leaves the proposal alone, `snappedOffset` gives what the eight checks against that
    peer give.
  */
  lemma AlignOnePeer(proposed: Size, itemSize: Size, a: StackItem, b: StackItem, canvas: Size, expected: Snap)
    requires a.id != b.id
    requires SnapToCanvasEdges(Snap(proposed, []), itemSize.width / 2.0, itemSize.height / 2.0, canvas) == Snap(proposed, [])
    requires SnapEdges(Snap(proposed, []), EdgesOf(proposed, itemSize.width / 2.0, itemSize.height / 2.0), PeerEdges(a),
                       itemSize.width / 2.0, itemSize.height / 2.0) == expected
    ensures Align(proposed, b.id, itemSize, [a, b], canvas) == expected
  {
    var c := Snap(proposed, []);
    SkipsSelf(c, a, b, itemSize.width / 2.0, itemSize.height / 2.0);
    OnePeer(c, a, b.id, itemSize.width / 2.0, itemSize.height / 2.0);
  }

  /** The eight checks of the example below, stated on the dragged item and the resting item's edges. */
  lemma BesidePeerChecks(peer: Edges, proposed: Size, d: real, expected: Snap)
    requires peer == Edges(-50.0, 50.0, -50.0, 50.0)
    requires 0.0 <= d < SnapThreshold && proposed == Size(100.0 + d, 0.0)
    requires BesidePeerResult(expected, d)
    ensures SnapEdges(Snap(proposed, []), EdgesOf(proposed, 100.0 / 2.0, 100.0 / 2.0), peer,
                      100.0 / 2.0, 100.0 / 2.0) == expected
  {
    var c := Snap(proposed, []);
    BesidePeerDraggedEdges(c, d);
    BesidePeerPairs(c, EdgesOf(c.offset, 50.0, 50.0), peer, d, expected);
  }

  /** Far from every side of a 1000 by 1000 canvas, the canvas pass does nothing. */
  lemma BesidePeerCanvas(proposed: Size, d: real)
    requires 0.0 <= d < SnapThreshold && proposed == Size(100.0 + d, 0.0)
    ensures SnapToCanvasEdges(Snap(proposed, []), 100.0 / 2.0, 100.0 / 2.0, Size(1000.0, 1000.0)) == Snap(proposed, [])
  {
    ApplyChecksNoneFire(Snap(proposed, []), CanvasChecks(Size(1000.0, 1000.0), 50.0, 50.0));
  }

  /** The resting item's edges in the example below. */
  lemma BesidePeerRestingEdges(a: StackItem)
    requires a.offset == Zero && a.scale == 1.0 && a.frameSize == Size(100.0, 100.0)
    ensures PeerEdges(a) == Edges(-50.0, 50.0, -50.0, 50.0)
  {
  }

  /** The dragged item's edges in the example below, before any check runs. */
  lemma BesidePeerDraggedEdges(c: Snap, d: real)
    requires c == Snap(Size(100.0 + d, 0.0), [])
    ensures EdgesOf(c.offset, 50.0, 50.0) == Edges(50.0 + d, 150.0 + d, -50.0, 50.0)
  {
  }

  /**
    Item "a" (100 by 100) rests at the origin; item "b" (100 by 100) is dragged to
    `100 + d` on x, with `0 <= d < 10`, on a 1000 by 1000 canvas. The left-to-right
    check puts b's left edge on a's right edge (x = 100); the top-to-top and
    bottom-to-bottom checks also match and add two horizontal guides, whose extents use
    b's edges from before the snap. Three guides result.
  */
  lemma BesidePeerExample(a: StackItem, b: StackItem, proposed: Size, d: real, expected: Snap)
    requires a.id == "a" && a.offset == Zero && a.scale == 1.0 && a.frameSize == Size(100.0, 100.0)
    requires b.id == "b"
    requires 0.0 <= d < SnapThreshold && proposed == Size(100.0 + d, 0.0)
    requires BesidePeerResult(expected, d)
    ensures Align(proposed, b.id, Size(100.0, 100.0), [a, b], Size(1000.0, 1000.0)) == expected
  {
    BesidePeerRestingEdges(a);
    BesidePeerChecks(PeerEdges(a), proposed, d, expected);
    BesidePeerAlign(a, b, proposed, d, expected);
  }

  /** The example below once its eight checks are known: the canvas pass and the stack add nothing. */
  lemma BesidePeerAlign(a: StackItem, b: StackItem, proposed: Size, d: real, expected: Snap)
    requires a.id == "a" && b.id == "b"
    requires 0.0 <= d < SnapThreshold && proposed == Size(100.0 + d, 0.0)
    requires SnapEdges(Snap(proposed, []), EdgesOf(proposed, 100.0 / 2.0, 100.0 / 2.0), PeerEdges(a),
                       100.0 / 2.0, 100.0 / 2.0) == expected
    ensures Align(proposed, b.id, Size(100.0, 100.0), [a, b], Size(1000.0, 1000.0)) == expected
  {
    BesidePeerCanvas(proposed, d);
    AlignOnePeer(proposed, Size(100.0, 100.0), a, b, Size(1000.0, 1000.0), expected);
  }
}

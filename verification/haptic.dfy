/**
  The haptic edge trigger (`handleHaptic`): a rising-edge detector over the number of
  guides the alignment engine produced. Actuating the device is left out; a pulse is
  reported as an output flag.
*/
module Haptic {

  datatype HapticStep = HapticStep(engaged: bool, fired: bool)

  /**
    One update. A pulse is emitted exactly when guides are present and the trigger is
    not engaged yet; afterwards the trigger is engaged exactly when guides are present.
  */
  function HandleHaptic(engaged: bool, guideCount: nat): (r: HapticStep)
    ensures r.fired <==> guideCount > 0 && !engaged
    ensures r.engaged <==> guideCount > 0
  {
    if guideCount > 0 && !engaged then HapticStep(true, true)
    else if guideCount == 0 then HapticStep(false, false)
    else HapticStep(engaged, false)
  }

  datatype HapticRun = HapticRun(engaged: bool, fires: nat)

  /** Feeds the guide counts of successive engine calls to the trigger, in order. */
  function Run(engaged: bool, counts: seq<nat>): HapticRun
    decreases |counts|
  {
    if |counts| == 0 then HapticRun(engaged, 0)
    else
      var before := Run(engaged, counts[..|counts| - 1]);
      var step := HandleHaptic(before.engaged, counts[|counts| - 1]);
      HapticRun(step.engaged, before.fires + if step.fired then 1 else 0)
  }

  /** Position `i` of a count trace starts a run of non-zero guide counts. */
  predicate RisingEdgeAt(engaged: bool, counts: seq<nat>, i: nat)
    requires i < |counts|
  {
    counts[i] > 0 && (if i == 0 then !engaged else counts[i - 1] == 0)
  }

  /** The number of rising edges in a count trace, counted independently of the trigger. */
  function RisingEdges(engaged: bool, counts: seq<nat>): nat
    decreases |counts|
  {
    if |counts| == 0 then 0
    else
      RisingEdges(engaged, counts[..|counts| - 1])
      + if RisingEdgeAt(engaged, counts, |counts| - 1) then 1 else 0
  }

  /**
    The trigger pulses once per rising edge of the guide count and never otherwise; its
    state after a non-empty trace says whether the last count was non-zero.
  */
  lemma {:induction false} FiresOncePerRisingEdge(engaged: bool, counts: seq<nat>)
    ensures Run(engaged, counts).fires == RisingEdges(engaged, counts)
    ensures |counts| > 0 ==> (Run(engaged, counts).engaged <==> counts[|counts| - 1] > 0)
    ensures |counts| == 0 ==> Run(engaged, counts).engaged == engaged
    decreases |counts|
  {
    if |counts| > 0 {
      var n := |counts| - 1;
      var init := counts[..n];
      FiresOncePerRisingEdge(engaged, init);
      if n > 0 {
        assert init[n - 1] == counts[n - 1];
      }
      forall i | 0 <= i < n
        ensures RisingEdgeAt(engaged, init, i) == RisingEdgeAt(engaged, counts, i)
      {
        assert init[i] == counts[i];
        if i > 0 { assert init[i - 1] == counts[i - 1]; }
      }
      RisingEdgesPrefix(engaged, counts, n);
    }
  }

  /** `RisingEdges` of a prefix only looks at positions inside that prefix. */
  lemma {:induction false} RisingEdgesPrefix(engaged: bool, counts: seq<nat>, n: nat)
    requires n < |counts|
    requires forall i :: 0 <= i < n ==> RisingEdgeAt(engaged, counts[..n], i) == RisingEdgeAt(engaged, counts, i)
    ensures RisingEdges(engaged, counts[..n + 1])
            == RisingEdges(engaged, counts[..n]) + if RisingEdgeAt(engaged, counts, n) then 1 else 0
  {
    var p := counts[..n + 1];
    assert p[..n] == counts[..n];
    assert RisingEdgeAt(engaged, p, n) == RisingEdgeAt(engaged, counts, n) by {
      if n > 0 { assert p[n - 1] == counts[n - 1]; }
    }
  }

  /** Guide counts 0, 1, 2, 1, 0, 1 from a disengaged trigger give exactly two pulses. */
  lemma TwoRisingEdgesExample()
    ensures Run(false, [0, 1, 2, 1, 0, 1]).fires == 2
  {
    var c: seq<nat> := [0, 1, 2, 1, 0, 1];
    assert c[..0] == [];
    assert Run(false, c[..1]) == HapticRun(false, 0) by { assert c[..1][..0] == c[..0]; }
    assert Run(false, c[..2]) == HapticRun(true, 1) by { assert c[..2][..1] == c[..1]; }
    assert Run(false, c[..3]) == HapticRun(true, 1) by { assert c[..3][..2] == c[..2]; }
    assert Run(false, c[..4]) == HapticRun(true, 1) by { assert c[..4][..3] == c[..3]; }
    assert Run(false, c[..5]) == HapticRun(false, 1) by { assert c[..5][..4] == c[..4]; }
    assert c[..6] == c;
    assert Run(false, c) == HapticRun(true, 2) by { assert c[..5] == c[..5]; }
  }
}

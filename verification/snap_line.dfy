/**
  Alignment guides (`SnappLine`) and the near-duplicate filter that the engine applies
  when it collects them (`insertLinesSafely`).
*/
module SnapLine {
  import opened Geometry

  datatype Orientation = Vertical | Horizontal

  /**
    One guide: a vertical guide sits at x = `position` and is drawn from y = `start` to
    y = `end`; a horizontal one sits at y = `position` and runs along x. All fields are
    immutable once built.
  */
  datatype Guide = Guide(orientation: Orientation, position: real, start: real, end: real)

  /** Guides of one orientation closer than this are the same logical line. */
  const DedupDistance: real := 0.5

  predicate Near(a: Guide, b: Guide) {
    a.orientation == b.orientation && Abs(a.position - b.position) < DedupDistance
  }

  /** Some guide already in `lines` stands for `g`. */
  predicate Covered(lines: seq<Guide>, g: Guide) {
    exists i :: 0 <= i < |lines| && Near(lines[i], g)
  }

  /** No two guides of the same orientation are closer than `DedupDistance`. */
  predicate WellSpaced(lines: seq<Guide>) {
    forall i, j :: 0 <= i < j < |lines| ==> !Near(lines[i], lines[j])
  }

  /** A guide whose drawn extent is not reversed. */
  predicate Ordered(g: Guide) {
    g.start <= g.end
  }

  predicate AllOrdered(lines: seq<Guide>) {
    forall i :: 0 <= i < |lines| ==> Ordered(lines[i])
  }

  lemma NearSymmetric(a: Guide, b: Guide)
    ensures Near(a, b) <==> Near(b, a)
  {
    assert Abs(a.position - b.position) == Abs(b.position - a.position);
  }

  /**
    `insertLinesSafely`: the candidate is dropped when a guide of the same orientation
    lies closer than `DedupDistance`, and added otherwise. Because every guide carries a
    fresh identity, an added guide always enlarges the collection.
  */
  function InsertSafely(lines: seq<Guide>, g: Guide): seq<Guide> {
    if Covered(lines, g) then lines else lines + [g]
  }

  /**
    The filter appends the candidate exactly when nothing already stands for it, and
    afterwards something always does.
  */
  lemma InsertSafelyResult(lines: seq<Guide>, g: Guide)
    ensures InsertSafely(lines, g) == lines || InsertSafely(lines, g) == lines + [g]
    ensures |InsertSafely(lines, g)| == |lines| + 1 <==> !Covered(lines, g)
    ensures Covered(InsertSafely(lines, g), g)
  {
    if !Covered(lines, g) {
      assert Near(g, g) by { assert Abs(g.position - g.position) == 0.0; }
      assert (lines + [g])[|lines|] == g;
    }
  }

  /** The filter keeps a collection well spaced, and keeps every extent non-reversed. */
  lemma InsertSafelyKeepsSpacing(lines: seq<Guide>, g: Guide)
    ensures WellSpaced(lines) ==> WellSpaced(InsertSafely(lines, g))
    ensures AllOrdered(lines) && Ordered(g) ==> AllOrdered(InsertSafely(lines, g))
  {
    var r := InsertSafely(lines, g);
    InsertSafelyResult(lines, g);
    if r != lines && WellSpaced(lines) {
      forall i | 0 <= i < |lines|
        ensures !Near(r[i], r[|lines|])
      {
        NearSymmetric(r[i], g);
      }
    }
  }

  /** A guide that some line stands for is still stood for once more lines are appended. */
  lemma CoveredGrows(a: seq<Guide>, b: seq<Guide>, g: Guide)
    requires a <= b && Covered(a, g)
    ensures Covered(b, g)
  {
    var i :| 0 <= i < |a| && Near(a[i], g);
    assert b[i] == a[i];
  }

  /** Inserts the candidates one after another, in order. */
  function InsertAll(lines: seq<Guide>, candidates: seq<Guide>): seq<Guide>
    decreases |candidates|
  {
    if |candidates| == 0 then lines
    else InsertSafely(InsertAll(lines, candidates[..|candidates| - 1]), candidates[|candidates| - 1])
  }

  /**
    After any sequence of inserts starting from a well-spaced collection, the collection
    is still well spaced, keeps every guide it had, and stands for every candidate.
  */
  lemma {:induction false} InsertAllKeepsSpacing(lines: seq<Guide>, candidates: seq<Guide>)
    requires WellSpaced(lines)
    ensures WellSpaced(InsertAll(lines, candidates))
    ensures lines <= InsertAll(lines, candidates)
    ensures forall k :: 0 <= k < |candidates| ==> Covered(InsertAll(lines, candidates), candidates[k])
    decreases |candidates|
  {
    if |candidates| > 0 {
      var init := candidates[..|candidates| - 1];
      var before := InsertAll(lines, init);
      InsertAllKeepsSpacing(lines, init);
      var after := InsertAll(lines, candidates);
      InsertSafelyKeepsSpacing(before, candidates[|candidates| - 1]);
      InsertSafelyResult(before, candidates[|candidates| - 1]);
      assert after == before || after == before + [candidates[|candidates| - 1]];
      forall k | 0 <= k < |candidates|
        ensures Covered(after, candidates[k])
      {
        if k < |candidates| - 1 {
          assert candidates[k] == init[k];
          var i :| 0 <= i < |before| && Near(before[i], init[k]);
          assert after[i] == before[i];
        }
      }
    }
  }

  /** Two vertical candidates at 50.0 and 50.3 collapse into a single guide. */
  lemma DedupCloseExample()
    ensures |InsertAll([], [Guide(Vertical, 50.0, 0.0, 1.0), Guide(Vertical, 50.3, 0.0, 1.0)])| == 1
  {
    var a := Guide(Vertical, 50.0, 0.0, 1.0);
    var b := Guide(Vertical, 50.3, 0.0, 1.0);
    assert [a, b][..1] == [a];
    assert [a][..0] == [];
    assert InsertAll([], [a][..0]) == [];
    assert !Covered([], a);
    var first := InsertAll([], [a]);
    assert first == [] + [a];
    assert Near(first[0], b);
    assert InsertSafely(first, b) == first;
  }

  /** Vertical candidates at 50.0 and 51.0 give two guides. */
  lemma DedupFarExample()
    ensures |InsertAll([], [Guide(Vertical, 50.0, 0.0, 1.0), Guide(Vertical, 51.0, 0.0, 1.0)])| == 2
  {
    var a := Guide(Vertical, 50.0, 0.0, 1.0);
    var c := Guide(Vertical, 51.0, 0.0, 1.0);
    assert [a, c][..1] == [a];
    assert [a][..0] == [];
    assert InsertAll([], [a][..0]) == [];
    assert !Covered([], a);
    var first := InsertAll([], [a]);
    assert first == [] + [a];
    assert !Near(first[0], c);
    assert !Covered(first, c);
  }
}

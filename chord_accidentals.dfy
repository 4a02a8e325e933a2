/** Accidental columns, in the manner of Gourlay: passes over the notes that carry an
    accidental, alternately from the highest pitch down and from the lowest up, each pass
    filling one column further left with accidentals at least three spaces apart, and
    holding back the lower note of a second whose upper note is still unplaced. */
module ChordAccidentals {
  import opened Notation

  /** The gap between the leftmost notehead and the first accidental column. */
  const FirstAccidentalPadding: real := 0.1
  /** Every accidental column is one space wide. */
  const ColWidth: real := 1.0

  /** `bottom` and `top` are half a space apart. */
  function IsSecond(bottom: Note, top: Note): (b: bool)
    ensures b <==> bottom.renderY == top.renderY + 0.5 || top.renderY == bottom.renderY + 0.5
  {
    Abs(bottom.renderY - top.renderY) == 0.5
  }

  /** `bottom` is the lower note of a second whose upper note `top` exists and has no
      accidental position yet. */
  function IsBottomOfUnplacedSecond(bottom: Note, top: Option<Note>): (b: bool)
    ensures top.None? ==> !b
    ensures top.Some? && top.value.accidentalX.Some? ==> !b
    ensures top.Some? && top.value.accidentalX.None? ==> (b <==> IsSecond(bottom, top.value))
  {
    top.Some? && IsSecond(bottom, top.value) && top.value.accidentalX.None?
  }

  /** The placement test of a pass: far enough from the accidental placed last in this
      pass (any distance when none has been placed yet). */
  predicate FarEnough(y: real, lastY: Option<real>)
  {
    lastY.None? || Abs(y - lastY.value) >= 3.0
  }

  /** The leftmost notehead position, or 0 when every notehead is right of 0. */
  function LeftmostX(ns: seq<Note>): (x: real)
    ensures x <= 0.0
    ensures forall i :: 0 <= i < |ns| ==> x <= ns[i].renderX
    ensures x == 0.0 || exists i :: 0 <= i < |ns| && x == ns[i].renderX
  {
    if ns == [] then 0.0
    else
      var x := LeftmostX(ns[..|ns| - 1]);
      if ns[|ns| - 1].renderX < x then ns[|ns| - 1].renderX else x
  }

  /** The right edge of the first accidental column. */
  function StartingX(ns: seq<Note>): real
  {
    LeftmostX(ns) - FirstAccidentalPadding
  }

  /** How many of the notes carry an accidental. */
  function CountAccidentals(ns: seq<Note>): (n: nat)
    ensures n <= |ns|
  {
    if ns == [] then 0
    else CountAccidentals(ns[..|ns| - 1]) + (if ns[|ns| - 1].hasAccidental then 1 else 0)
  }

  /** The column an accidental was placed in, counted leftwards from 1 at `startingX`. */
  function ColumnOf(n: Note, startingX: real): real
    requires n.accidentalX.Some?
  {
    startingX - n.renderX - n.accidentalX.value
  }

  /** Notes `j` and `k` both carry accidentals and none lies between them. */
  predicate Adjacent(ns: seq<Note>, j: int, k: int)
  {
    0 <= j < k < |ns| && ns[j].hasAccidental && ns[k].hasAccidental &&
    forall m :: j < m < k ==> !ns[m].hasAccidental
  }

  /** Every accidental sits in a whole column between 1 and `count`. */
  ghost predicate ColumnsFilled(r: seq<Note>, startingX: real, count: nat)
  {
    forall j :: 0 <= j < |r| && r[j].hasAccidental ==>
      r[j].accidentalX.Some? && Whole(ColumnOf(r[j], startingX)) &&
      1.0 <= ColumnOf(r[j], startingX) <= count as real
  }

  /** Two accidentals in one column are at least three spaces apart (for notes sorted
      highest first). */
  ghost predicate ColumnsApart(r: seq<Note>, startingX: real)
  {
    forall j, k :: 0 <= j < k < |r| && r[j].hasAccidental && r[k].hasAccidental &&
      r[j].accidentalX.Some? && r[k].accidentalX.Some? &&
      ColumnOf(r[j], startingX) == ColumnOf(r[k], startingX)
      ==> r[k].renderY - r[j].renderY >= 3.0
  }

  /** The layout the accidental passes produce, for notes sorted highest first: the
      columns are filled and apart, and of two neighbouring accidentals a second apart,
      the lower note's is in a column further left. */
  ghost predicate ColumnsLaidOut(r: seq<Note>, startingX: real, count: nat)
  {
    && ColumnsFilled(r, startingX, count)
    && ColumnsApart(r, startingX)
    && (forall j, k :: Adjacent(r, j, k) && IsSecond(r[k], r[j]) ==>
          r[j].accidentalX.Some? && r[k].accidentalX.Some? &&
          ColumnOf(r[j], startingX) < ColumnOf(r[k], startingX))
  }

  /** `r` is `ns` with the accidentals placed in the columns `cols`: column 0 for a note
      still unplaced (and for every note without an accidental). */
  ghost predicate Placed(ns: seq<Note>, r: seq<Note>, cols: seq<int>, startingX: real)
  {
    && |r| == |ns| && |cols| == |ns|
    && (forall j :: 0 <= j < |ns| ==>
          r[j].renderY == ns[j].renderY && r[j].renderX == ns[j].renderX &&
          r[j].hasAccidental == ns[j].hasAccidental && 0 <= cols[j])
    && (forall j :: 0 <= j < |ns| && !ns[j].hasAccidental ==> r[j] == ns[j] && cols[j] == 0)
    && (forall j :: 0 <= j < |ns| && ns[j].hasAccidental ==>
          r[j].accidentalX ==
            if cols[j] == 0 then None else Some(startingX - (cols[j] as real) - ns[j].renderX))
  }

  /** The consideration set `cs` holds, in increasing order, exactly the notes with an
      accidental that are still unplaced. */
  ghost predicate Candidates(ns: seq<Note>, cs: seq<nat>, cols: seq<int>)
    requires |cols| == |ns|
  {
    && (forall k, l :: 0 <= k < l < |cs| ==> cs[k] < cs[l])
    && (forall k :: 0 <= k < |cs| ==> cs[k] < |ns| && ns[cs[k]].hasAccidental && cols[cs[k]] == 0)
    && (forall j :: 0 <= j < |ns| && ns[j].hasAccidental && cols[j] == 0 ==> j in cs)
  }

  /** Two placed accidentals in one column are at least three spaces apart. */
  ghost predicate Spaced(ns: seq<Note>, cols: seq<int>)
    requires |cols| == |ns|
  {
    forall j, k :: 0 <= j < k < |ns| && cols[j] != 0 && cols[j] == cols[k] ==>
      ns[k].renderY - ns[j].renderY >= 3.0
  }

  /** Of two neighbouring accidentals a second apart, the lower note's is placed only
      after the upper note's, in a column further left. */
  ghost predicate Deferred(ns: seq<Note>, cols: seq<int>)
    requires |cols| == |ns|
  {
    forall j, k :: Adjacent(ns, j, k) && IsSecond(ns[k], ns[j]) && cols[k] != 0 ==>
      cols[j] != 0 && cols[j] < cols[k]
  }

  /** No candidate still ahead of the pass has its upper neighbour placed in this pass. */
  ghost predicate PassDefers(ns: seq<Note>, cs: seq<nat>, cols: seq<int>, col: int, dir: int, i: int)
    requires |cols| == |ns|
  {
    forall m, j :: 0 <= m < |cs| && (if dir == 1 then i <= m else m <= i) && Adjacent(ns, j, cs[m]) ==>
      cols[j] != col
  }

  /** The state of a pass over the candidates in direction `dir`, at index `i`, filling
      column `col`; `lastJ` is the note placed last in this pass, if any. */
  ghost predicate PassState(ns: seq<Note>, cs: seq<nat>, cols: seq<int>, col: int, dir: int, i: int,
                            lastY: Option<real>, lastJ: int, passLength: nat)
    requires |cols| == |ns|
  {
    && (dir == 1 || dir == -1)
    && -1 <= i <= |cs| + 1 && |cs| <= passLength
    && (|cs| < passLength || (lastY.None? && 0 <= i < |cs| && (dir == 1 ==> i == 0)))
    && (lastY.None? ==> forall j :: 0 <= j < |cols| ==> cols[j] != col)
    && (lastY.Some? ==> 0 <= lastJ < |ns| && cols[lastJ] == col && lastY.value == ns[lastJ].renderY)
    && (lastY.Some? && dir == 1 ==>
          (forall j :: 0 <= j < |cols| && cols[j] == col ==> j <= lastJ) &&
          (forall k :: 0 <= k < |cs| && i <= k ==> lastJ < cs[k]))
    && (lastY.Some? && dir == -1 ==>
          (forall j :: 0 <= j < |cols| && cols[j] == col ==> lastJ <= j) &&
          (forall k :: 0 <= k <= i && k < |cs| ==> cs[k] < lastJ))
  }

  /** One pass: from index `i` in direction `dir`, places in column `col` every candidate
      far enough from the one placed before it in this pass, unless it is the lower note
      of a second whose upper note is still unplaced, and drops it from the candidates. */
  method Pass(ns: seq<Note>, r0: seq<Note>, cs0: seq<nat>, ghost cols0: seq<int>, startingX: real,
              col: int, dir: int, i0: int)
    returns (r: seq<Note>, cs: seq<nat>, ghost cols: seq<int>)
    requires PitchOrdered(ns, true) && 1 <= col
    requires Placed(ns, r0, cols0, startingX) && Candidates(ns, cs0, cols0) && Spaced(ns, cols0)
    requires Deferred(ns, cols0)
    requires forall j :: 0 <= j < |cols0| ==> cols0[j] < col
    requires |cs0| > 0 && ((dir == 1 && i0 == 0) || (dir == -1 && i0 == |cs0| - 1))
    ensures Placed(ns, r, cols, startingX) && Candidates(ns, cs, cols) && Spaced(ns, cols)
    ensures Deferred(ns, cols)
    ensures forall j :: 0 <= j < |cols| ==> cols[j] <= col
    ensures |cs| < |cs0|
  {
    r, cs, cols := r0, cs0, cols0;
    var i := i0;
    var lastY: Option<real> := None;
    ghost var lastJ := 0;
    PassStarts(ns, r, cs, cols, startingX, col, dir, i);
    while 0 <= i < |cs|
      invariant PassInvariant(ns, r, cs, cols, startingX, col, dir, i, lastY, lastJ, |cs0|)
      decreases if dir == 1 then |cs| - i else i + 1
    {
      r, cs, cols, lastY, lastJ := Visit(ns, r, cs, cols, startingX, col, dir, i, lastY, lastJ, |cs0|);
      i := i + dir;
    }
    PassEnds(ns, r, cs, cols, startingX, col, dir, i, lastY, lastJ, |cs0|);
  }

  /** The body of a pass at candidate `i`: places it in column `col` when it is far enough
      from the accidental placed last in this pass and is not the lower note of a second
      whose upper note is unplaced, and then drops it from the candidates. */
  method Visit(ns: seq<Note>, r0: seq<Note>, cs0: seq<nat>, ghost cols0: seq<int>, startingX: real,
               col: int, dir: int, i: int, lastY0: Option<real>, ghost lastJ0: int, ghost passLength: nat)
    returns (r: seq<Note>, cs: seq<nat>, ghost cols: seq<int>, lastY: Option<real>, ghost lastJ: int)
    requires PitchOrdered(ns, true) && 1 <= col
    requires PassInvariant(ns, r0, cs0, cols0, startingX, col, dir, i, lastY0, lastJ0, passLength)
    requires 0 <= i < |cs0|
    ensures PassInvariant(ns, r, cs, cols, startingX, col, dir, i + dir, lastY, lastJ, passLength)
    ensures |cs| <= |cs0|
  {
    r, cs, cols, lastY, lastJ := r0, cs0, cols0, lastY0, lastJ0;
    var q := cs[i];
    var above := if i > 0 then Some(r[cs[i - 1]]) else None;
    if FarEnough(r[q].renderY, lastY) && !IsBottomOfUnplacedSecond(r[q], above) {
      var placed := r[q].(accidentalX := Some(-(ColWidth * col as real) - r[q].renderX + startingX));
      PlaceKeepsSpacing(ns, cs, cols, col, dir, i, lastY, lastJ, passLength);
      PlaceKeepsPassState(ns, cs, cols, col, dir, i, lastY, lastJ, passLength);
      PlaceKeepsCandidates(ns, cs, cols, i, col);
      PlaceKeepsDeferred(ns, r, cs, cols, startingX, col, dir, i);
      PlaceKeepsPassDefers(ns, cs, cols, col, dir, i);
      PlaceKeepsPlaced(ns, r, cols, startingX, q, col, placed);
      lastY := Some(r[q].renderY);
      r := r[q := placed];
      cols := cols[q := col];
      lastJ := q;
      cs := cs[..i] + cs[i + 1..];
    } else {
      SkipKeepsPass(ns, r, cs, cols, startingX, col, dir, i, lastY, lastJ, passLength);
    }
  }

  /** Before a pass nothing is in column `col` yet, so the pass invariant holds. */
  lemma PassStarts(ns: seq<Note>, r: seq<Note>, cs: seq<nat>, cols: seq<int>, startingX: real,
                   col: int, dir: int, i: int)
    requires Placed(ns, r, cols, startingX) && Candidates(ns, cs, cols) && Spaced(ns, cols)
    requires Deferred(ns, cols)
    requires forall j :: 0 <= j < |cols| ==> cols[j] < col
    requires |cs| > 0 && ((dir == 1 && i == 0) || (dir == -1 && i == |cs| - 1))
    ensures PassInvariant(ns, r, cs, cols, startingX, col, dir, i, None, 0, |cs|)
  {
  }

  /** A pass that has left the candidates has placed at least one of them. */
  lemma PassEnds(ns: seq<Note>, r: seq<Note>, cs: seq<nat>, cols: seq<int>, startingX: real,
                 col: int, dir: int, i: int, lastY: Option<real>, lastJ: int, passLength: nat)
    requires PassInvariant(ns, r, cs, cols, startingX, col, dir, i, lastY, lastJ, passLength)
    requires !(0 <= i < |cs|)
    ensures Placed(ns, r, cols, startingX) && Candidates(ns, cs, cols) && Spaced(ns, cols)
    ensures Deferred(ns, cols)
    ensures forall j :: 0 <= j < |cols| ==> cols[j] <= col
    ensures |cs| < passLength
  {
  }

  /** What holds at every step of a pass. */
  ghost predicate PassInvariant(ns: seq<Note>, r: seq<Note>, cs: seq<nat>, cols: seq<int>, startingX: real,
                                col: int, dir: int, i: int, lastY: Option<real>, lastJ: int, passLength: nat)
  {
    && Placed(ns, r, cols, startingX) && Candidates(ns, cs, cols) && Spaced(ns, cols)
    && (forall j :: 0 <= j < |cols| ==> cols[j] <= col)
    && PassState(ns, cs, cols, col, dir, i, lastY, lastJ, passLength)
    && Deferred(ns, cols) && PassDefers(ns, cs, cols, col, dir, i)
  }

  /** Passing over candidate `i` without placing it keeps the pass invariant. */
  lemma SkipKeepsPass(ns: seq<Note>, r: seq<Note>, cs: seq<nat>, cols: seq<int>, startingX: real,
                      col: int, dir: int, i: int, lastY: Option<real>, lastJ: int, passLength: nat)
    requires PassInvariant(ns, r, cs, cols, startingX, col, dir, i, lastY, lastJ, passLength)
    requires 0 <= i < |cs|
    requires !FarEnough(r[cs[i]].renderY, lastY) ||
             IsBottomOfUnplacedSecond(r[cs[i]], if i > 0 then Some(r[cs[i - 1]]) else None)
    ensures PassInvariant(ns, r, cs, cols, startingX, col, dir, i + dir, lastY, lastJ, passLength)
  {
  }

  /** A candidate's upper neighbour, when still unplaced, is the candidate just before it. */
  lemma UpperNeighbourCandidate(ns: seq<Note>, cs: seq<nat>, cols: seq<int>, p: int, m: nat)
    requires |cols| == |ns| && Candidates(ns, cs, cols)
    requires m < |cs| && Adjacent(ns, p, cs[m]) && cols[p] == 0
    ensures 0 < m && cs[m - 1] == p
  {
    assert p in cs;
  }

  lemma PlaceKeepsDeferred(ns: seq<Note>, r: seq<Note>, cs: seq<nat>, cols: seq<int>, startingX: real,
                           col: int, dir: int, i: nat)
    requires Placed(ns, r, cols, startingX) && Candidates(ns, cs, cols) && Deferred(ns, cols)
    requires i < |cs| && 1 <= col
    requires forall j :: 0 <= j < |cols| ==> cols[j] <= col
    requires PassDefers(ns, cs, cols, col, dir, i)
    requires !IsBottomOfUnplacedSecond(r[cs[i]], if i > 0 then Some(r[cs[i - 1]]) else None)
    ensures Deferred(ns, cols[cs[i] := col])
  {
    var q := cs[i];
    var cols' := cols[q := col];
    forall j, k | Adjacent(ns, j, k) && IsSecond(ns[k], ns[j]) && cols'[k] != 0
      ensures cols'[j] != 0 && cols'[j] < cols'[k]
    {
      if k == q && cols[j] == 0 {
        UpperNeighbourCandidate(ns, cs, cols, j, i);
        assert IsBottomOfUnplacedSecond(r[cs[i]], Some(r[cs[i - 1]]));
      }
    }
  }

  lemma PlaceKeepsPassDefers(ns: seq<Note>, cs: seq<nat>, cols: seq<int>, col: int, dir: int, i: nat)
    requires |cols| == |ns| && Candidates(ns, cs, cols)
    requires i < |cs| && (dir == 1 || dir == -1)
    requires PassDefers(ns, cs, cols, col, dir, i)
    ensures PassDefers(ns, cs[..i] + cs[i + 1..], cols[cs[i] := col], col, dir, i + dir)
  {
    var cs' := cs[..i] + cs[i + 1..];
    var cols' := cols[cs[i] := col];
    forall m, j | 0 <= m < |cs'| && (if dir == 1 then i + dir <= m else m <= i + dir) && Adjacent(ns, j, cs'[m])
      ensures cols'[j] != col
    {
      if dir == 1 {
        assert cs'[m] == cs[m + 1];
        // The candidate after the one just placed lies between it and cs[m + 1].
        assert cs[i] < cs[i + 1] < cs[m + 1] && ns[cs[i + 1]].hasAccidental;
      } else {
        assert cs'[m] == cs[m];
      }
    }
  }

  lemma PlaceKeepsCandidates(ns: seq<Note>, cs: seq<nat>, cols: seq<int>, i: nat, col: int)
    requires |cols| == |ns| && Candidates(ns, cs, cols) && i < |cs| && col != 0
    ensures Candidates(ns, cs[..i] + cs[i + 1..], cols[cs[i] := col])
  {
    var cs' := cs[..i] + cs[i + 1..];
    var cols' := cols[cs[i] := col];
    forall k | 0 <= k < |cs'|
      ensures cs'[k] == cs[if k < i then k else k + 1] && cs'[k] != cs[i]
    {
    }
    forall j | 0 <= j < |ns| && ns[j].hasAccidental && cols'[j] == 0 ensures j in cs' {
      var k :| 0 <= k < |cs| && cs[k] == j;
      assert cs'[if k < i then k else k - 1] == j;
    }
  }

  lemma PlaceKeepsPlaced(ns: seq<Note>, r: seq<Note>, cols: seq<int>, startingX: real,
                         q: nat, col: int, placed: Note)
    requires Placed(ns, r, cols, startingX) && q < |ns| && ns[q].hasAccidental && 1 <= col
    requires placed == r[q].(accidentalX := Some(-(ColWidth * col as real) - r[q].renderX + startingX))
    ensures Placed(ns, r[q := placed], cols[q := col], startingX)
  {
  }

  lemma PlaceKeepsSpacing(ns: seq<Note>, cs: seq<nat>, cols: seq<int>, col: int, dir: int, i: nat,
                          lastY: Option<real>, lastJ: int, passLength: nat)
    requires PitchOrdered(ns, true) && |cols| == |ns| && Candidates(ns, cs, cols) && Spaced(ns, cols)
    requires i < |cs| && 1 <= col
    requires PassState(ns, cs, cols, col, dir, i, lastY, lastJ, passLength)
    requires FarEnough(ns[cs[i]].renderY, lastY)
    ensures Spaced(ns, cols[cs[i] := col])
  {
    var q := cs[i];
    var cols' := cols[q := col];
    forall j, k | 0 <= j < k < |ns| && cols'[j] != 0 && cols'[j] == cols'[k]
      ensures ns[k].renderY - ns[j].renderY >= 3.0
    {
      if j == q {
        assert lastY.Some?;
        if dir == 1 {
          assert false;
        } else {
          assert InPitchOrder(ns[q], ns[lastJ], true) && InPitchOrder(ns[lastJ], ns[k], true);
        }
      } else if k == q {
        assert lastY.Some?;
        if dir == 1 {
          assert InPitchOrder(ns[j], ns[lastJ], true) && InPitchOrder(ns[lastJ], ns[q], true);
        } else {
          assert false;
        }
      }
    }
  }

  lemma PlaceKeepsPassState(ns: seq<Note>, cs: seq<nat>, cols: seq<int>, col: int, dir: int, i: nat,
                            lastY: Option<real>, lastJ: int, passLength: nat)
    requires |cols| == |ns| && Candidates(ns, cs, cols)
    requires i < |cs| && col != 0
    requires PassState(ns, cs, cols, col, dir, i, lastY, lastJ, passLength)
    ensures PassState(ns, cs[..i] + cs[i + 1..], cols[cs[i] := col], col, dir, i + dir,
                      Some(ns[cs[i]].renderY), cs[i], passLength)
  {
    var cs' := cs[..i] + cs[i + 1..];
    var cols' := cols[cs[i] := col];
    forall k | 0 <= k < |cs'|
      ensures cs'[k] == cs[if k < i then k else k + 1]
    {
    }
    if dir == 1 {
      forall j | 0 <= j < |cols'| && cols'[j] == col ensures j <= cs[i] {
        if j != cs[i] {
          assert lastY.Some? && j <= lastJ && lastJ < cs[i];
        }
      }
    } else {
      forall j | 0 <= j < |cols'| && cols'[j] == col ensures cs[i] <= j {
        if j != cs[i] {
          assert lastY.Some? && lastJ <= j && cs[i] < lastJ;
        }
      }
    }
  }

  /** The first loop of positionAccidentals: clears the accidental position of every
      note with an accidental, collects those notes in order, and finds the leftmost
      notehead. */
  method Collect(ns: seq<Note>) returns (r: seq<Note>, considerationSet: seq<nat>, startingX: real)
    ensures |r| == |ns|
    ensures forall j :: 0 <= j < |ns| ==>
      r[j] == if ns[j].hasAccidental then ns[j].(accidentalX := None) else ns[j]
    ensures forall k, l :: 0 <= k < l < |considerationSet| ==> considerationSet[k] < considerationSet[l]
    ensures forall k :: 0 <= k < |considerationSet| ==> considerationSet[k] < |ns|
    ensures forall j :: 0 <= j < |ns| ==> (ns[j].hasAccidental <==> j in considerationSet)
    ensures |considerationSet| == CountAccidentals(ns)
    ensures startingX == StartingX(ns)
  {
    r := ns;
    startingX := 0.0;
    considerationSet := [];
    for i := 0 to |r|
      invariant |r| == |ns|
      invariant forall j :: 0 <= j < |ns| ==>
        r[j] == if j < i && ns[j].hasAccidental then ns[j].(accidentalX := None) else ns[j]
      invariant considerationSet == AccidentalIndices(ns, i)
      invariant startingX == LeftmostX(ns[..i])
    {
      PrefixStep(ns, i);
      if r[i].hasAccidental {
        considerationSet := considerationSet + [i];
        r := r[i := r[i].(accidentalX := None)];
      }
      if r[i].renderX < startingX {
        startingX := r[i].renderX;
      }
    }
    assert ns[..|ns|] == ns;
    AccidentalIndicesFacts(ns, |ns|);
    startingX := startingX - FirstAccidentalPadding;
  }

  /** The leftmost position of one more note. */
  lemma PrefixStep(ns: seq<Note>, i: nat)
    requires i < |ns|
    ensures LeftmostX(ns[..i + 1]) ==
      if ns[i].renderX < LeftmostX(ns[..i]) then ns[i].renderX else LeftmostX(ns[..i])
  {
    assert ns[..i + 1][..i] == ns[..i];
  }

  /** The indices, in order, of the first `i` notes that carry an accidental. */
  function AccidentalIndices(ns: seq<Note>, i: nat): seq<nat>
    requires i <= |ns|
  {
    if i == 0 then []
    else AccidentalIndices(ns, i - 1) + if ns[i - 1].hasAccidental then [i - 1] else []
  }

  /** The indices are increasing, below `i`, exactly those of the notes with an
      accidental, and as many as there are accidentals. */
  lemma {:induction false} AccidentalIndicesFacts(ns: seq<Note>, i: nat)
    requires i <= |ns|
    ensures forall k, l :: 0 <= k < l < |AccidentalIndices(ns, i)| ==>
      AccidentalIndices(ns, i)[k] < AccidentalIndices(ns, i)[l]
    ensures forall k :: 0 <= k < |AccidentalIndices(ns, i)| ==> AccidentalIndices(ns, i)[k] < i
    ensures forall j :: 0 <= j < i ==> (ns[j].hasAccidental <==> j in AccidentalIndices(ns, i))
    ensures |AccidentalIndices(ns, i)| == CountAccidentals(ns[..i])
  {
    if i > 0 {
      AccidentalIndicesFacts(ns, i - 1);
      assert ns[..i][..i - 1] == ns[..i - 1];
    }
  }

  /** The passes of positionAccidentals over notes sorted with the highest pitch first. */
  method PlaceAccidentals(ns: seq<Note>) returns (r: seq<Note>)
    requires PitchOrdered(ns, true)
    ensures |r| == |ns|
    ensures forall j :: 0 <= j < |ns| ==>
      r[j].renderY == ns[j].renderY && r[j].renderX == ns[j].renderX &&
      r[j].hasAccidental == ns[j].hasAccidental
    ensures forall j :: 0 <= j < |ns| && !ns[j].hasAccidental ==> r[j] == ns[j]
    ensures ColumnsLaidOut(r, StartingX(ns), CountAccidentals(ns))
  {
    var startingX, considerationSet;
    r, considerationSet, startingX := Collect(ns);
    var directionOfPass := 1;
    ghost var count := |considerationSet|;
    ghost var cols: seq<int> := seq(|ns|, _ => 0);
    InitialLayout(ns, r, considerationSet, cols, startingX);
    var col := 1;
    var i := 0;
    while |considerationSet| > 0
      invariant Placed(ns, r, cols, startingX) && Candidates(ns, considerationSet, cols)
      invariant Spaced(ns, cols) && Deferred(ns, cols)
      invariant 1 <= col <= count - |considerationSet| + 1
      invariant forall j :: 0 <= j < |cols| ==> cols[j] <= count - |considerationSet|
      invariant |considerationSet| > 0 ==> forall j :: 0 <= j < |cols| ==> cols[j] < col
      invariant |considerationSet| > 0 ==>
        ((directionOfPass == 1 && i == 0) || (directionOfPass == -1 && i == |considerationSet| - 1))
      invariant col > 1 ==> directionOfPass == -1
      decreases |considerationSet|
    {
      r, considerationSet, cols := Pass(ns, r, considerationSet, cols, startingX, col, directionOfPass, i);
      if |considerationSet| > 0 {
        i := |considerationSet| - 1;
        if r[considerationSet[i]].accidentalX.None? {
          directionOfPass := -1;
        } else {
          directionOfPass := 1;
        }
        col := col + 1;
      }
    }
    FinalLayout(ns, r, cols, startingX, count);
  }

  lemma InitialLayout(ns: seq<Note>, r: seq<Note>, cs: seq<nat>, cols: seq<int>, startingX: real)
    requires |r| == |ns| && |cols| == |ns|
    requires forall j :: 0 <= j < |ns| ==>
      r[j] == if ns[j].hasAccidental then ns[j].(accidentalX := None) else ns[j]
    requires forall k, l :: 0 <= k < l < |cs| ==> cs[k] < cs[l]
    requires forall k :: 0 <= k < |cs| ==> cs[k] < |ns|
    requires forall j :: 0 <= j < |ns| ==> (ns[j].hasAccidental <==> j in cs)
    requires forall j :: 0 <= j < |cols| ==> cols[j] == 0
    ensures Placed(ns, r, cols, startingX) && Candidates(ns, cs, cols)
    ensures Spaced(ns, cols) && Deferred(ns, cols)
  {
    forall k | 0 <= k < |cs| ensures ns[cs[k]].hasAccidental {
      assert cs[k] in cs;
    }
  }

  lemma FinalLayout(ns: seq<Note>, r: seq<Note>, cols: seq<int>, startingX: real, count: nat)
    requires Placed(ns, r, cols, startingX) && Candidates(ns, [], cols)
    requires Spaced(ns, cols) && Deferred(ns, cols)
    requires forall j :: 0 <= j < |cols| ==> cols[j] <= count
    ensures ColumnsLaidOut(r, startingX, count)
  {
    forall j | 0 <= j < |ns| && ns[j].hasAccidental
      ensures r[j].accidentalX.Some? && ColumnOf(r[j], startingX) == cols[j] as real
      ensures 1 <= cols[j] <= count
    {
    }
    forall j, k | Adjacent(r, j, k) ensures Adjacent(ns, j, k) {
    }
  }

  /** A note as the first loop of positionAccidentals leaves it: with its accidental
      position cleared when it has an accidental. */
  function Unplaced(n: Note): (u: Note)
    ensures u.renderY == n.renderY && u.renderX == n.renderX && u.hasAccidental == n.hasAccidental
    ensures u.hasAccidental ==> u.accidentalX.None?
    ensures !u.hasAccidental ==> u == n
  {
    if n.hasAccidental then n.(accidentalX := None) else n
  }

  /** Notes that agree on their columns and on which carry accidentals give the same
      starting position and the same count. */
  lemma {:induction false} SameColumnInputs(a: seq<Note>, b: seq<Note>)
    requires |a| == |b|
    requires forall j :: 0 <= j < |a| ==> a[j].renderX == b[j].renderX && a[j].hasAccidental == b[j].hasAccidental
    ensures LeftmostX(a) == LeftmostX(b) && CountAccidentals(a) == CountAccidentals(b)
    decreases |a|
  {
    if a != [] {
      SameColumnInputs(a[..|a| - 1], b[..|b| - 1]);
    }
  }

  /** Sorts the notes with the highest pitch first and places their accidentals in
      columns: the notes are the same up to their accidental positions, and the
      accidentals are laid out as the passes promise. */
  method PositionAccidentals(c: Chord)
    modifies c`notes
    ensures c.stemDirection == old(c.stemDirection) && c.stemStartY == old(c.stemStartY)
      && c.stemEndY == old(c.stemEndY) && c.width == old(c.width)
      && c.topLeftX == old(c.topLeftX) && c.dotsX == old(c.dotsX) && c.dots == old(c.dots)
      && c.articulation == old(c.articulation)
      && c.insideLedgerLines == old(c.insideLedgerLines)
    ensures PitchOrdered(c.notes, true)
    ensures multiset(MapNotes(Unplaced, c.notes)) == multiset(MapNotes(Unplaced, old(c.notes)))
    ensures ColumnsLaidOut(c.notes, StartingX(c.notes), CountAccidentals(c.notes))
  {
    c.SortNotesByPitch(true);
    ghost var sorted := c.notes;
    var r := PlaceAccidentals(c.notes);
    PlacedKeepsChord(sorted, r);
    MapPermutation(Unplaced, sorted, old(c.notes));
    c.notes := r;
  }

  lemma PlacedKeepsChord(sorted: seq<Note>, r: seq<Note>)
    requires PitchOrdered(sorted, true) && |r| == |sorted|
    requires forall j :: 0 <= j < |sorted| ==>
      r[j].renderY == sorted[j].renderY && r[j].renderX == sorted[j].renderX &&
      r[j].hasAccidental == sorted[j].hasAccidental
    requires forall j :: 0 <= j < |sorted| && !sorted[j].hasAccidental ==> r[j] == sorted[j]
    requires ColumnsLaidOut(r, StartingX(sorted), CountAccidentals(sorted))
    ensures PitchOrdered(r, true)
    ensures MapNotes(Unplaced, r) == MapNotes(Unplaced, sorted)
    ensures ColumnsLaidOut(r, StartingX(r), CountAccidentals(r))
  {
    SameColumnInputs(r, sorted);
    assert StartingX(r) == StartingX(sorted);
    forall i, j | 0 <= i < j < |r| ensures InPitchOrder(r[i], r[j], true) {
      assert InPitchOrder(sorted[i], sorted[j], true);
    }
    forall j | 0 <= j < |r| ensures Unplaced(r[j]) == Unplaced(sorted[j]) {
      if r[j].hasAccidental {
        assert Unplaced(r[j]).accidentalX == Unplaced(sorted[j]).accidentalX;
      }
    }
  }

  /** Reordering the notes does not move the leftmost notehead. */
  lemma LeftmostXPermutation(a: seq<Note>, b: seq<Note>)
    requires multiset(a) == multiset(b)
    ensures LeftmostX(a) == LeftmostX(b)
  {
    if LeftmostX(a) != 0.0 {
      var i :| 0 <= i < |a| && LeftmostX(a) == a[i].renderX;
      assert a[i] in multiset(b);
    }
    if LeftmostX(b) != 0.0 {
      var i :| 0 <= i < |b| && LeftmostX(b) == b[i].renderX;
      assert b[i] in multiset(a);
    }
  }

  lemma {:induction false} CountAppend(a: seq<Note>, b: seq<Note>)
    ensures CountAccidentals(a + b) == CountAccidentals(a) + CountAccidentals(b)
    decreases |b|
  {
    if b == [] {
      assert a + b == a;
    } else {
      assert (a + b)[..|a + b| - 1] == a + b[..|b| - 1];
      CountAppend(a, b[..|b| - 1]);
    }
  }

  /** Reordering the notes does not change how many carry an accidental. */
  lemma {:induction false} CountPermutation(a: seq<Note>, b: seq<Note>)
    requires multiset(a) == multiset(b)
    ensures CountAccidentals(a) == CountAccidentals(b)
    decreases |a|
  {
    if a == [] {
      assert |b| == |multiset(b)| == 0;
    } else {
      assert a[0] in multiset(b);
      var k :| 0 <= k < |b| && b[k] == a[0];
      MultisetRemoveMatching(a, b, k);
      CountPermutation(a[1..], b[..k] + b[k+1..]);
      assert [a[0]][..0] == [];
      assert a == [a[0]] + a[1..];
      CountAppend([a[0]], a[1..]);
      assert b == b[..k] + [b[k]] + b[k+1..];
      CountAppend(b[..k] + [b[k]], b[k+1..]);
      CountAppend(b[..k], [b[k]]);
      CountAppend(b[..k], b[k+1..]);
    }
  }

  /** A note that occurs twice in `a` occurs twice in any reordering `b`: besides the
      copy at `p` there is another. */
  lemma SecondCopy(a: seq<Note>, b: seq<Note>, j: nat, k: nat, p: nat) returns (q: nat)
    requires multiset(a) == multiset(b)
    requires j < k < |a| && a[j] == a[k]
    requires p < |b| && b[p] == a[j]
    ensures q < |b| && q != p && b[q] == a[j]
  {
    var x := a[j];
    assert a == a[..k] + [a[k]] + a[k+1..];
    assert a[..k][j] == x;
    assert multiset(a)[x] >= 2 by {
      assert multiset(a) == multiset(a[..k]) + multiset{x} + multiset(a[k+1..]);
      assert x in multiset(a[..k]);
    }
    var rest := b[..p] + b[p+1..];
    assert b == b[..p] + [b[p]] + b[p+1..];
    assert multiset(b) == multiset(rest) + multiset{x};
    assert x in multiset(rest);
    var i :| 0 <= i < |rest| && rest[i] == x;
    q := if i < p then i else i + 1;
  }

  /** The filled, apart columns survive any re-sort of the notes with the highest pitch
      first: columns are measured from the leftmost notehead and bounded by the count of
      accidentals, neither of which depends on the order. */
  lemma ColumnsThroughReorder(a: seq<Note>, b: seq<Note>)
    requires multiset(a) == multiset(b) && PitchOrdered(a, true)
    requires ColumnsFilled(b, StartingX(b), CountAccidentals(b)) && ColumnsApart(b, StartingX(b))
    ensures ColumnsFilled(a, StartingX(a), CountAccidentals(a)) && ColumnsApart(a, StartingX(a))
  {
    LeftmostXPermutation(a, b);
    CountPermutation(a, b);
    var sx := StartingX(b);
    assert StartingX(a) == sx;
    forall j | 0 <= j < |a| && a[j].hasAccidental
      ensures a[j].accidentalX.Some? && Whole(ColumnOf(a[j], sx)) &&
              1.0 <= ColumnOf(a[j], sx) <= CountAccidentals(b) as real
    {
      assert a[j] in multiset(b);
    }
    forall j, k | 0 <= j < k < |a| && a[j].hasAccidental && a[k].hasAccidental &&
                  a[j].accidentalX.Some? && a[k].accidentalX.Some? &&
                  ColumnOf(a[j], sx) == ColumnOf(a[k], sx)
      ensures a[k].renderY - a[j].renderY >= 3.0
    {
      ApartThroughReorder(a, b, sx, j, k);
    }
    assert ColumnsFilled(a, sx, CountAccidentals(b));
  }

  lemma ApartThroughReorder(a: seq<Note>, b: seq<Note>, sx: real, j: nat, k: nat)
    requires multiset(a) == multiset(b) && PitchOrdered(a, true)
    requires ColumnsApart(b, sx)
    requires j < k < |a| && a[j].hasAccidental && a[k].hasAccidental
    requires a[j].accidentalX.Some? && a[k].accidentalX.Some?
    requires ColumnOf(a[j], sx) == ColumnOf(a[k], sx)
    ensures a[k].renderY - a[j].renderY >= 3.0
  {
    assert a[j] in multiset(b);
    var p :| 0 <= p < |b| && b[p] == a[j];
    var q;
    if a[k] == a[j] {
      q := SecondCopy(a, b, j, k, p);
    } else {
      assert a[k] in multiset(b);
      q :| 0 <= q < |b| && b[q] == a[k];
    }
    assert InPitchOrder(a[j], a[k], true);
    if p < q {
      assert b[q].renderY - b[p].renderY >= 3.0;
    } else {
      assert false;
    }
  }
}

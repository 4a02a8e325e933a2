/** Notehead columns: the greedy resolution of seconds. Two noteheads half a staff space
    apart cannot share a column, so the scan, starting from the stem's closed end, moves
    the second note of each such pair to the other side of the stem. */
module ChordNoteheads {
  import opened Notation

  /** Two vertical positions form a second when they are exactly half a space apart. */
  predicate FormSecond(a: real, b: real)
  {
    Abs(a - b) == 0.5
  }

  /** The flags the greedy scan computes for `ys[p..]` when `p` is the primary index: a
      note is moved when it forms a second with the primary note before it, and the note
      after a moved one becomes the next primary without being compared. */
  function MovedFrom(ys: seq<real>, p: nat): (moved: seq<bool>)
    requires p <= |ys|
    ensures |moved| == |ys| - p
    ensures p < |ys| ==> !moved[0]
    decreases |ys| - p
  {
    if p + 1 >= |ys| then seq(|ys| - p, _ => false)
    else if FormSecond(ys[p], ys[p + 1]) then [false, true] + MovedFrom(ys, p + 2)
    else [false] + MovedFrom(ys, p + 1)
  }

  /** Which of the notes, in sorted order, the scan moves to the other column. */
  function Moved(ys: seq<real>): (moved: seq<bool>)
    ensures |moved| == |ys|
    ensures |ys| > 0 ==> !moved[0]
  {
    MovedFrom(ys, 0)
  }

  /** The notes with their column set to `x`. */
  function AtColumn(ns: seq<Note>, x: real): (r: seq<Note>)
    ensures |r| == |ns|
    ensures forall i :: 0 <= i < |ns| ==> r[i] == ns[i].(renderX := x)
  {
    seq(|ns|, i requires 0 <= i < |ns| => ns[i].(renderX := x))
  }

  /** The scan of positionNoteheads over the sorted notes: compares the primary note with
      the next one and, on a second, moves the next one to `otherX` and skips past it. */
  method ScanSeconds(ns: seq<Note>, otherX: real) returns (r: seq<Note>)
    ensures |r| == |ns|
    ensures forall i :: 0 <= i < |ns| ==>
      r[i] == if Moved(Ys(ns))[i] then ns[i].(renderX := otherX) else ns[i]
  {
    ghost var ys := Ys(ns);
    r := ns;
    var primaryNoteIndex := 0;
    var comparisonNoteIndex := 1;
    while comparisonNoteIndex < |r|
      invariant primaryNoteIndex <= |ns| && comparisonNoteIndex == primaryNoteIndex + 1
      invariant |r| == |ns|
      invariant Moved(ys)[primaryNoteIndex..] == MovedFrom(ys, primaryNoteIndex)
      invariant forall i :: 0 <= i < primaryNoteIndex ==>
        r[i] == if Moved(ys)[i] then ns[i].(renderX := otherX) else ns[i]
      invariant forall i :: primaryNoteIndex <= i < |ns| ==> r[i] == ns[i]
    {
      ghost var p := primaryNoteIndex;
      if Abs(r[primaryNoteIndex].renderY - r[comparisonNoteIndex].renderY) == 0.5 {
        r := r[comparisonNoteIndex := r[comparisonNoteIndex].(renderX := otherX)];
        primaryNoteIndex := primaryNoteIndex + 2;
        assert Moved(ys)[p..][2..] == MovedFrom(ys, p + 2);
      } else {
        primaryNoteIndex := primaryNoteIndex + 1;
        assert Moved(ys)[p..][1..] == MovedFrom(ys, p + 1);
      }
      comparisonNoteIndex := primaryNoteIndex + 1;
    }
    forall i | primaryNoteIndex <= i < |ns| ensures !Moved(ys)[i] {
      assert Moved(ys)[i] == MovedFrom(ys, primaryNoteIndex)[i - primaryNoteIndex];
    }
  }

  /** The first loop of positionNoteheads: every notehead goes to column `x`. */
  method MoveToColumn(ns: seq<Note>, x: real) returns (r: seq<Note>)
    ensures r == AtColumn(ns, x)
  {
    r := ns;
    for i := 0 to |r|
      invariant |r| == |ns|
      invariant forall j :: 0 <= j < i ==> r[j] == ns[j].(renderX := x)
      invariant forall j :: i <= j < |r| ==> r[j] == ns[j]
    {
      r := r[i := r[i].(renderX := x)];
    }
  }

  /** Puts every notehead in the default column (left of an up stem, -1; right of a down
      stem, 0), sorts the notes from the stem's closed end and moves the upper note of
      each second found by the scan to the other column. The chord is one column wide and
      starts at the default column. */
  method PositionNoteheads(c: Chord)
    requires c.stemDirection == 1 || c.stemDirection == -1
    modifies c`notes, c`width, c`topLeftX
    ensures c.stemDirection == old(c.stemDirection) && c.stemStartY == old(c.stemStartY)
      && c.stemEndY == old(c.stemEndY) && c.dotsX == old(c.dotsX) && c.dots == old(c.dots)
      && c.articulation == old(c.articulation)
      && c.insideLedgerLines == old(c.insideLedgerLines)
    ensures c.width == 1.0
    ensures c.topLeftX == if c.stemDirection == 1 then -1.0 else 0.0
    ensures PitchOrdered(c.notes, c.stemDirection != 1)
    ensures multiset(AtColumn(c.notes, c.topLeftX)) == multiset(AtColumn(old(c.notes), c.topLeftX))
    ensures forall i :: 0 <= i < |c.notes| ==>
      c.notes[i].renderX == if !Moved(Ys(c.notes))[i] then c.topLeftX
                            else if c.stemDirection == 1 then 0.0 else -1.0
    ensures |c.notes| == |old(c.notes)|
    ensures PitchOrdered(old(c.notes), c.stemDirection != 1) ==> Ys(c.notes) == Ys(old(c.notes))
  {
    var defaultX := if c.stemDirection == 1 then -1.0 else 0.0;
    var otherX := if defaultX == -1.0 then 0.0 else -1.0;
    c.width := 1.0;
    c.topLeftX := defaultX;
    c.notes := MoveToColumn(c.notes, defaultX);
    c.SortNotesByPitch(c.stemDirection != 1);
    ghost var sorted := c.notes;
    c.notes := ScanSeconds(c.notes, otherX);
    ScanKeepsChord(AtColumn(old(c.notes), defaultX), sorted, c.notes, defaultX, otherX, c.stemDirection != 1);
    assert |c.notes| == |sorted| == |multiset(sorted)| == |old(c.notes)|;
    if PitchOrdered(old(c.notes), c.stemDirection != 1) {
      ghost var placed := AtColumn(old(c.notes), defaultX);
      assert Ys(placed) == Ys(old(c.notes));
      ResortKeepsYs(sorted, placed, c.stemDirection != 1);
    }
  }

  /** After the sort and the scan, the notes are still in pitch order, are the sorted
      notes up to their column, and every note is in the default column unless moved. */
  lemma ScanKeepsChord(placed: seq<Note>, sorted: seq<Note>, scanned: seq<Note>,
                       defaultX: real, otherX: real, highestFirst: bool)
    requires placed == AtColumn(placed, defaultX)
    requires IsPitchOrder(sorted, placed, highestFirst)
    requires |scanned| == |sorted|
    requires forall i :: 0 <= i < |sorted| ==>
      scanned[i] == if Moved(Ys(sorted))[i] then sorted[i].(renderX := otherX) else sorted[i]
    ensures PitchOrdered(scanned, highestFirst)
    ensures multiset(AtColumn(scanned, defaultX)) == multiset(placed)
    ensures forall i :: 0 <= i < |scanned| ==>
      scanned[i].renderX == if !Moved(Ys(scanned))[i] then defaultX else otherX
    ensures Ys(scanned) == Ys(sorted)
  {
    forall i | 0 <= i < |sorted| ensures sorted[i].renderX == defaultX {
      assert sorted[i] in multiset(placed);
      var j :| 0 <= j < |placed| && placed[j] == sorted[i];
    }
    assert AtColumn(scanned, defaultX) == sorted;
    assert Ys(scanned) == Ys(sorted);
    forall i, j | 0 <= i < j < |scanned| ensures InPitchOrder(scanned[i], scanned[j], highestFirst) {
      assert InPitchOrder(sorted[i], sorted[j], highestFirst);
    }
  }

  /** A note the scan moves forms a second with the note just before it, and that note
      stays; in particular the first note never moves. */
  lemma {:induction false} MovedFromShape(ys: seq<real>, p: nat, i: nat)
    requires p <= i < |ys|
    requires MovedFrom(ys, p)[i - p]
    ensures p < i && FormSecond(ys[i - 1], ys[i]) && !MovedFrom(ys, p)[i - 1 - p]
    decreases |ys| - p
  {
    if p + 1 >= |ys| {
    } else if FormSecond(ys[p], ys[p + 1]) {
      if i >= p + 2 {
        MovedFromShape(ys, p + 2, i);
      }
    } else {
      if i >= p + 1 {
        MovedFromShape(ys, p + 1, i);
      }
    }
  }

  /** One step of the scan: the flags from `p` are those from the next primary index,
      preceded by the flags of the notes skipped over. */
  lemma MovedFromStep(ys: seq<real>, p: nat)
    requires p + 1 < |ys|
    ensures !MovedFrom(ys, p)[0]
    ensures FormSecond(ys[p], ys[p + 1]) ==>
      MovedFrom(ys, p)[1] && MovedFrom(ys, p)[2..] == MovedFrom(ys, p + 2)
    ensures !FormSecond(ys[p], ys[p + 1]) ==> MovedFrom(ys, p)[1..] == MovedFrom(ys, p + 1)
  {
  }

  /** Every second in the sorted notes is resolved: one of its two notes moves. */
  lemma {:induction false} MovedFromSplitsSeconds(ys: seq<real>, p: nat, i: nat)
    requires p <= i && i + 1 < |ys|
    requires FormSecond(ys[i], ys[i + 1])
    ensures MovedFrom(ys, p)[i - p] || MovedFrom(ys, p)[i + 1 - p]
    decreases |ys| - p
  {
    MovedFromStep(ys, p);
    var m := MovedFrom(ys, p);
    if FormSecond(ys[p], ys[p + 1]) {
      if i >= p + 2 {
        MovedFromSplitsSeconds(ys, p + 2, i);
        assert m[i - p] == m[2..][i - (p + 2)];
        assert m[i + 1 - p] == m[2..][i + 1 - (p + 2)];
      } else if i == p + 1 {
        assert m[i - p];
      } else {
        assert m[i + 1 - p];
      }
    } else {
      assert i >= p + 1;
      MovedFromSplitsSeconds(ys, p + 1, i);
      assert m[i - p] == m[1..][i - (p + 1)];
      assert m[i + 1 - p] == m[1..][i + 1 - (p + 1)];
    }
  }

  /** The first note keeps its column, no two consecutive notes both move, and a moved
      note is half a space from its predecessor. */
  lemma MovedNotesFormSeconds(ys: seq<real>)
    ensures |ys| > 0 ==> !Moved(ys)[0]
    ensures forall i :: 0 < i < |ys| && Moved(ys)[i] ==> FormSecond(ys[i - 1], ys[i]) && !Moved(ys)[i - 1]
  {
    forall i | 0 < i < |ys| && Moved(ys)[i] ensures FormSecond(ys[i - 1], ys[i]) && !Moved(ys)[i - 1] {
      MovedFromShape(ys, 0, i);
    }
  }

  /** Of every two adjacent notes half a space apart, at least one moves. */
  lemma SecondsAreSplit(ys: seq<real>)
    ensures forall i :: 0 <= i < |ys| - 1 && FormSecond(ys[i], ys[i + 1]) ==> Moved(ys)[i] || Moved(ys)[i + 1]
  {
    forall i | 0 <= i < |ys| - 1 && FormSecond(ys[i], ys[i + 1]) ensures Moved(ys)[i] || Moved(ys)[i + 1] {
      MovedFromSplitsSeconds(ys, 0, i);
    }
  }

  /** The scan in one rule: the first note stays, and a later note moves exactly when it
      forms a second with the note before it and that note stayed. */
  lemma MovedRecurrence(ys: seq<real>)
    ensures |ys| > 0 ==> !Moved(ys)[0]
    ensures forall i :: 0 < i < |ys| ==>
      (Moved(ys)[i] <==> !Moved(ys)[i - 1] && FormSecond(ys[i - 1], ys[i]))
  {
    MovedNotesFormSeconds(ys);
    SecondsAreSplit(ys);
    forall i | 0 < i < |ys| && !Moved(ys)[i - 1] && FormSecond(ys[i - 1], ys[i])
      ensures Moved(ys)[i]
    {
      assert FormSecond(ys[i - 1], ys[(i - 1) + 1]);
    }
  }

  /** Without a second, every note stays in the default column. */
  lemma NoSecondsNoMoves(ys: seq<real>)
    requires forall i :: 0 <= i < |ys| - 1 ==> !FormSecond(ys[i], ys[i + 1])
    ensures forall i :: 0 <= i < |ys| ==> !Moved(ys)[i]
  {
    MovedNotesFormSeconds(ys);
    forall i | 0 < i < |ys| ensures !Moved(ys)[i] {
      assert !FormSecond(ys[i - 1], ys[(i - 1) + 1]);
    }
  }

  /** With exactly one second, at positions `s` and `s + 1`, exactly one note moves: the
      second note of that pair. */
  lemma OneSecondOneMove(ys: seq<real>, s: nat)
    requires s + 1 < |ys| && FormSecond(ys[s], ys[s + 1])
    requires forall i :: 0 <= i < |ys| - 1 && i != s ==> !FormSecond(ys[i], ys[i + 1])
    ensures Moved(ys)[s + 1]
    ensures forall i :: 0 <= i < |ys| && Moved(ys)[i] ==> i == s + 1
  {
    MovedNotesFormSeconds(ys);
    SecondsAreSplit(ys);
    forall i | 0 < i < |ys| && Moved(ys)[i] ensures i == s + 1 {
      assert FormSecond(ys[i - 1], ys[(i - 1) + 1]);
    }
  }
}

/** The chord formatter's step order: for a chord with notes, stem direction, stem length,
    notehead columns, dots, accidentals, articulation and ledger lines, in that order; for
    a rest, dots only. */
module ChordFormatter {
  import opened Notation
  import opened ChordStem
  import opened ChordNoteheads
  import opened ChordDots
  import opened ChordAccidentals
  import opened ChordArticulation
  import opened ChordLedgerLines

  /** A note without its horizontal placement: what formatting leaves of the input. The
      accidental position of a note without an accidental is kept. */
  function Stripped(n: Note): (s: Note)
    ensures s.renderY == n.renderY && s.hasAccidental == n.hasAccidental && s.renderX == 0.0
    ensures s.hasAccidental ==> s.accidentalX.None?
    ensures !s.hasAccidental ==> s.accidentalX == n.accidentalX
  {
    Unplaced(n).(renderX := 0.0)
  }

  /** A notehead alone: its position and its column. */
  function Head(n: Note): (h: Note)
    ensures h.renderY == n.renderY && h.renderX == n.renderX
    ensures !h.hasAccidental && h.accidentalX.None?
  {
    Note(n.renderY, n.renderX, false, None)
  }

  /** The noteheads positionNoteheads lays out at positions `ys`, taken from the closed
      end of the stem: a note it moves to the other side of the stem stands in column
      `otherX`, every other note in column `x`. */
  function Heads(ys: seq<real>, x: real, otherX: real): (hs: seq<Note>)
    ensures |hs| == |ys|
    ensures forall i :: 0 <= i < |ys| ==>
      hs[i] == Note(ys[i], if Moved(ys)[i] then otherX else x, false, None)
  {
    seq(|ys|, i requires 0 <= i < |ys| => Note(ys[i], if Moved(ys)[i] then otherX else x, false, None))
  }

  /** A note as formatting leaves it: in one of the two notehead columns, with its
      accidental (if any) placed. */
  predicate Settled(n: Note)
  {
    (n.renderX == -1.0 || n.renderX == 0.0) && (n.hasAccidental ==> n.accidentalX.Some?)
  }

  /** The positions in the order positionDots visits the notes: highest first for an up
      stem, lowest first otherwise. */
  function DotOrder(ys: seq<real>, stemDirection: int): (order: seq<real>)
    ensures |order| == |ys|
    ensures multiset(order) == multiset(ys)
    ensures stemDirection == 1 ==> order == ys
    ensures stemDirection != 1 ==> forall i :: 0 <= i < |ys| ==> order[i] == ys[|ys| - 1 - i]
  {
    ReversedMultiset(ys);
    if stemDirection == 1 then ys else Reversed(ys)
  }

  /** The stem of a chord whose notes are highest first: it starts at the note at its
      closed end (the lowest for an up stem, the highest for a down one) and ends past
      the note at its open end. On notes in pitch order every note lies between the
      stem's start and its end, at least two and a half spaces short of the end. */
  predicate StemSpans(n: seq<Note>, d: int, startY: real, endY: real)
    requires |n| > 0 && (d == 1 || d == -1)
    ensures StemSpans(n, d, startY, endY) && PitchOrdered(n, true) ==>
      forall k :: 0 <= k < |n| ==>
        (startY - n[k].renderY) * d as real >= 0.0 &&
        (n[k].renderY - endY) * d as real >= DefaultStemLength - 1.0
  {
    var closed := if d == 1 then n[|n| - 1] else n[0];
    var open := if d == 1 then n[0] else n[|n| - 1];
    startY == closed.renderY && endY == StemEnd(open.renderY, |n|, d)
  }

  /** Formats one chord: the note-group steps in order for a chord, dots only for a
      rest. Everything is stated on the notes as they are left, highest pitch first. */
  method Format(c: Chord)
    requires c.hasNoteGroup ==> |c.notes| > 0
    modifies c`notes, c`stemDirection, c`stemStartY, c`stemEndY, c`width, c`topLeftX
    modifies c`dotsX, c`dots, c`articulation, c`insideLedgerLines
    ensures c.numDots == 0 ==> c.dots == old(c.dots) && c.dotsX == old(c.dotsX)
    ensures !c.hasNoteGroup ==>
      && c.notes == old(c.notes) && c.stemDirection == old(c.stemDirection)
      && c.stemStartY == old(c.stemStartY) && c.stemEndY == old(c.stemEndY)
      && c.width == old(c.width) && c.topLeftX == old(c.topLeftX)
      && c.articulation == old(c.articulation) && c.insideLedgerLines == old(c.insideLedgerLines)
      && (c.numDots != 0 ==>
            && c.dotsX == c.restBox.topLeftX + c.restBox.width + 0.5
            && c.dots == old(c.dots) + [Dot(c.numDots, c.restBox.renderY + 0.5)])
    ensures c.hasNoteGroup ==>
      && |c.notes| == |old(c.notes)|
      && (c.stemDirection == 1 || c.stemDirection == -1)
      && (c.stemDirection == 1 <==> SumY(old(c.notes)) >= 0.0)
      && c.width == 1.0 && c.topLeftX == (if c.stemDirection == 1 then -1.0 else 0.0)
      && PitchOrdered(c.notes, true)
      && multiset(MapNotes(Stripped, c.notes)) == multiset(MapNotes(Stripped, old(c.notes)))
      && (forall i :: 0 <= i < |c.notes| ==> Settled(c.notes[i]))
    ensures c.hasNoteGroup ==> HeadsLaidOut(c.notes, c.stemDirection, c.topLeftX)
    ensures c.hasNoteGroup && c.hasStem ==> StemSpans(c.notes, c.stemDirection, c.stemStartY, c.stemEndY)
    ensures !c.hasStem ==> c.stemStartY == old(c.stemStartY) && c.stemEndY == old(c.stemEndY)
    ensures c.hasNoteGroup && c.numDots != 0 ==>
      && c.dotsX == c.groupBox.topLeftX + c.groupBox.width + 0.5
      && c.dots == old(c.dots) + DotGlyphs(WrittenDotSlots(DotOrder(Ys(c.notes), c.stemDirection), c.stemDirection), c.numDots)
    ensures c.hasNoteGroup ==>
      && ColumnsFilled(c.notes, StartingX(c.notes), CountAccidentals(c.notes))
      && ColumnsApart(c.notes, StartingX(c.notes))
    ensures c.hasNoteGroup && old(c.articulation).None? ==> c.articulation.None?
    ensures c.hasNoteGroup && old(c.articulation).Some? ==>
      var isClose := old(c.articulation).value.isClose;
      c.articulation == Some(Articulation(isClose, c.stemDirection,
                                          if c.stemDirection == 1 then -0.5 else 0.5,
                                          MarkY(isClose, WrittenReferenceNote(c.notes).renderY, c.stemDirection)))
    ensures c.hasNoteGroup && |c.notes| > 1 ==> c.insideLedgerLines == old(c.insideLedgerLines)
    ensures c.hasNoteGroup && |c.notes| == 1 ==>
      c.insideLedgerLines == LedgerLines(old(c.notes)[0].renderY, c.stemDirection)
  {
    if c.hasNoteGroup {
      FormatChord(c);
    } else {
      PositionDots(c);
    }
  }

  /** The note-group steps of Format. */
  method FormatChord(c: Chord)
    requires c.hasNoteGroup && |c.notes| > 0
    modifies c`notes, c`stemDirection, c`stemStartY, c`stemEndY, c`width, c`topLeftX
    modifies c`dotsX, c`dots, c`articulation, c`insideLedgerLines
    ensures |c.notes| == |old(c.notes)|
    ensures c.stemDirection == 1 || c.stemDirection == -1
    ensures c.stemDirection == 1 <==> SumY(old(c.notes)) >= 0.0
    ensures c.width == 1.0 && c.topLeftX == (if c.stemDirection == 1 then -1.0 else 0.0)
    ensures PitchOrdered(c.notes, true)
    ensures multiset(MapNotes(Stripped, c.notes)) == multiset(MapNotes(Stripped, old(c.notes)))
    ensures forall i :: 0 <= i < |c.notes| ==> Settled(c.notes[i])
    ensures HeadsLaidOut(c.notes, c.stemDirection, c.topLeftX)
    ensures c.hasStem ==> StemSpans(c.notes, c.stemDirection, c.stemStartY, c.stemEndY)
    ensures !c.hasStem ==> c.stemStartY == old(c.stemStartY) && c.stemEndY == old(c.stemEndY)
    ensures c.numDots == 0 ==> c.dots == old(c.dots) && c.dotsX == old(c.dotsX)
    ensures c.numDots != 0 ==>
      && c.dotsX == c.groupBox.topLeftX + c.groupBox.width + 0.5
      && c.dots == old(c.dots) + DotGlyphs(WrittenDotSlots(DotOrder(Ys(c.notes), c.stemDirection), c.stemDirection), c.numDots)
    ensures ColumnsFilled(c.notes, StartingX(c.notes), CountAccidentals(c.notes))
    ensures ColumnsApart(c.notes, StartingX(c.notes))
    ensures old(c.articulation).None? ==> c.articulation.None?
    ensures old(c.articulation).Some? ==>
      var isClose := old(c.articulation).value.isClose;
      c.articulation == Some(Articulation(isClose, c.stemDirection,
                                          if c.stemDirection == 1 then -0.5 else 0.5,
                                          MarkY(isClose, WrittenReferenceNote(c.notes).renderY, c.stemDirection)))
    ensures |c.notes| > 1 ==> c.insideLedgerLines == old(c.insideLedgerLines)
    ensures |c.notes| == 1 ==> c.insideLedgerLines == LedgerLines(old(c.notes)[0].renderY, c.stemDirection)
  {
    PlaceNoteheads(c);
    ghost var n2 := c.notes;
    PlaceMarks(c);
    ChordLayout(old(c.notes), n2, c.notes, c.stemDirection, c.topLeftX, c.hasStem, c.stemStartY, c.stemEndY);
  }

  /** The layout facts of the whole chord, on the notes before formatting (`n0`), after
      the notehead step (`n2`, from the closed end of the stem) and at the end (`n`,
      highest first): the stem's start and end, taken from the ends of `n2`, are the
      ends of `n` the other way round for an up stem, and the notehead columns of `n2`
      travel with their notes. */
  lemma ChordLayout(n0: seq<Note>, n2: seq<Note>, n: seq<Note>, d: int, x: real,
                    hasStem: bool, startY: real, endY: real)
    requires |n0| > 0 && (d == 1 || d == -1)
    requires |n2| == |n0| && |n| == |n2|
    requires multiset(MapNotes(Stripped, n2)) == multiset(MapNotes(Stripped, n0))
    requires multiset(MapNotes(Unplaced, n)) == multiset(MapNotes(Unplaced, n2))
    requires MapNotes(Head, n2) == Heads(Ys(n2), x, if d == 1 then 0.0 else -1.0)
    requires |n2| == 1 ==> n2[0].renderY == n0[0].renderY
    requires hasStem ==>
      && startY == n2[0].renderY
      && endY == StemEnd(n2[|n2| - 1].renderY, |n2|, d)
    requires Ys(n2) == if d == 1 then Reversed(Ys(n)) else Ys(n)
    ensures |n| == |n0|
    ensures multiset(MapNotes(Stripped, n)) == multiset(MapNotes(Stripped, n0))
    ensures HeadsLaidOut(n, d, x)
    ensures |n| == 1 ==> n[0].renderY == n0[0].renderY
    ensures hasStem ==> StemSpans(n, d, startY, endY)
  {
    StrippedThroughUnplaced(n, n2);
    HeadThroughUnplaced(n, n2);
    assert Ys(n2)[0] == n2[0].renderY && Ys(n2)[|n2| - 1] == n2[|n2| - 1].renderY;
    assert Ys(n)[0] == n[0].renderY && Ys(n)[|n| - 1] == n[|n| - 1].renderY;
  }

  /** The notehead columns of notes `n`, highest first, with stem direction `d` and
      default column `x`: the same noteheads as positionNoteheads lays out from the
      closed end of the stem, whatever order the notes were later sorted into. */
  predicate HeadsLaidOut(n: seq<Note>, d: int, x: real)
  {
    multiset(MapNotes(Head, n)) ==
    multiset(Heads(if d == 1 then Reversed(Ys(n)) else Ys(n), x, if d == 1 then 0.0 else -1.0))
  }

  /** The columns of an up-stem second at 0.5 and 1: the lower note, at the stem's closed
      end, stays in the default column left of the stem, and the upper one is moved to
      the right of it. */
  lemma SecondUpStemColumns(n: seq<Note>)
    requires |n| == 2 && n[0].renderY == 0.5 && n[1].renderY == 1.0
    requires HeadsLaidOut(n, 1, -1.0)
    ensures n[0].renderX == 0.0 && n[1].renderX == -1.0
  {
    var ys := Reversed(Ys(n));
    assert ys[0] == 1.0 && ys[1] == 0.5;
    MovedRecurrence(ys);
    assert FormSecond(ys[0], ys[1]);
    var hs := Heads(ys, -1.0, 0.0);
    assert hs[0] == Note(1.0, -1.0, false, None) && hs[1] == Note(0.5, 0.0, false, None);
    assert hs == [hs[0], hs[1]];
    var heads := MapNotes(Head, n);
    assert heads == [heads[0], heads[1]];
    assert heads[0] in multiset(hs) && heads[1] in multiset(hs);
  }

  /** Formatting keeps the accidental position of every note without an accidental: a
      note the formatter leaves without one carries the position of an input note at
      the same pitch without one. */
  lemma KeepsOtherAccidentalPositions(n0: seq<Note>, n: seq<Note>, i: nat)
    requires multiset(MapNotes(Stripped, n)) == multiset(MapNotes(Stripped, n0))
    requires i < |n| && !n[i].hasAccidental
    ensures exists j ::
      0 <= j < |n0| && n0[j].renderY == n[i].renderY &&
      !n0[j].hasAccidental && n0[j].accidentalX == n[i].accidentalX
  {
    assert MapNotes(Stripped, n)[i] in multiset(MapNotes(Stripped, n0));
    var j :| 0 <= j < |n0| && MapNotes(Stripped, n0)[j] == Stripped(n[i]);
    assert Stripped(n0[j]) == Stripped(n[i]);
  }

  /** The first three steps: stem direction, stem length and notehead columns. The
      notes are left in the order positionNoteheads sorts them: from the closed end of
      the stem. */
  method PlaceNoteheads(c: Chord)
    requires |c.notes| > 0
    modifies c`notes, c`stemDirection, c`stemStartY, c`stemEndY, c`width, c`topLeftX
    ensures c.dotsX == old(c.dotsX) && c.dots == old(c.dots)
      && c.articulation == old(c.articulation)
      && c.insideLedgerLines == old(c.insideLedgerLines)
    ensures |c.notes| == |old(c.notes)|
    ensures c.stemDirection == 1 || c.stemDirection == -1
    ensures c.stemDirection == 1 <==> SumY(old(c.notes)) >= 0.0
    ensures c.width == 1.0 && c.topLeftX == (if c.stemDirection == 1 then -1.0 else 0.0)
    ensures PitchOrdered(c.notes, c.stemDirection != 1)
    ensures multiset(MapNotes(Stripped, c.notes)) == multiset(MapNotes(Stripped, old(c.notes)))
    ensures c.hasStem ==>
      && c.stemStartY == c.notes[0].renderY
      && c.stemEndY == StemEnd(c.notes[|c.notes| - 1].renderY, |c.notes|, c.stemDirection)
    ensures !c.hasStem ==> c.stemStartY == old(c.stemStartY) && c.stemEndY == old(c.stemEndY)
    ensures MapNotes(Head, c.notes) ==
      Heads(Ys(c.notes), c.topLeftX, if c.stemDirection == 1 then 0.0 else -1.0)
    ensures |c.notes| == 1 ==> c.notes[0].renderY == old(c.notes)[0].renderY
  {
    PlaceStem(c);
    ghost var n1 := c.notes;
    PositionNoteheads(c);
    NoteheadsLayout(old(c.notes), n1, c.notes, c.stemDirection, c.topLeftX, c.hasStem, c.stemStartY, c.stemEndY);
    assert MapNotes(Head, c.notes) ==
      Heads(Ys(c.notes), c.topLeftX, if c.stemDirection == 1 then 0.0 else -1.0);
  }

  /** The first two steps: the stem points up exactly when the positions sum to zero or
      more, and a stemmed chord is sorted from the stem's closed end, with the stem
      starting at the first note. */
  method PlaceStem(c: Chord)
    requires |c.notes| > 0
    modifies c`notes, c`stemDirection, c`stemStartY, c`stemEndY
    ensures c.width == old(c.width) && c.topLeftX == old(c.topLeftX)
      && c.dotsX == old(c.dotsX) && c.dots == old(c.dots)
      && c.articulation == old(c.articulation)
      && c.insideLedgerLines == old(c.insideLedgerLines)
    ensures c.stemDirection == 1 || c.stemDirection == -1
    ensures c.stemDirection == 1 <==> SumY(old(c.notes)) >= 0.0
    ensures !c.hasStem ==>
      c.notes == old(c.notes) && c.stemStartY == old(c.stemStartY) && c.stemEndY == old(c.stemEndY)
    ensures c.hasStem ==>
      && IsPitchOrder(c.notes, old(c.notes), c.stemDirection != 1)
      && c.stemStartY == c.notes[0].renderY
      && c.stemEndY == StemEnd(c.notes[|c.notes| - 1].renderY, |c.notes|, c.stemDirection)
  {
    CalculateStemDirection(c);
    CalculateStemLength(c);
  }

  /** The layout facts of the first three steps, on the notes before them (`n0`), after
      the stem sort (`n1`) and after the notehead step (`n`): the same notes up to their
      column, and the stem still running from the first note to past the last. */
  lemma NoteheadsLayout(n0: seq<Note>, n1: seq<Note>, n: seq<Note>, d: int, x: real,
                        hasStem: bool, startY: real, endY: real)
    requires |n0| > 0 && (d == 1 || d == -1)
    requires !hasStem ==> n1 == n0
    requires hasStem ==>
      && IsPitchOrder(n1, n0, d != 1)
      && startY == n1[0].renderY
      && endY == StemEnd(n1[|n1| - 1].renderY, |n1|, d)
    requires |n| == |n1|
    requires multiset(AtColumn(n, x)) == multiset(AtColumn(n1, x))
    requires PitchOrdered(n1, d != 1) ==> Ys(n) == Ys(n1)
    ensures |n| == |n0|
    ensures multiset(MapNotes(Stripped, n)) == multiset(MapNotes(Stripped, n0))
    ensures |n| == 1 ==> n[0].renderY == n0[0].renderY
    ensures hasStem ==>
      && startY == n[0].renderY
      && endY == StemEnd(n[|n| - 1].renderY, |n|, d)
  {
    assert multiset(n1) == multiset(n0);
    StrippedThroughColumn(n, n1, x);
    MapPermutation(Stripped, n1, n0);
    assert |n| == |n1| == |multiset(n1)| == |n0|;
    if |n| == 1 {
      assert Stripped(n[0]) in multiset(MapNotes(Stripped, n0));
    }
    if hasStem {
      assert Ys(n1)[0] == n1[0].renderY && Ys(n1)[|n1| - 1] == n1[|n1| - 1].renderY;
    }
  }

  /** The last four steps: dots, accidentals, articulation and ledger lines, stated on
      the notes as they are left, highest pitch first. */
  method PlaceMarks(c: Chord)
    requires c.hasNoteGroup && |c.notes| > 0 && (c.stemDirection == 1 || c.stemDirection == -1)
    requires forall i :: 0 <= i < |c.notes| ==> c.notes[i].renderX == -1.0 || c.notes[i].renderX == 0.0
    requires PitchOrdered(c.notes, c.stemDirection != 1)
    modifies c`notes, c`dotsX, c`dots, c`articulation, c`insideLedgerLines
    ensures c.stemDirection == old(c.stemDirection) && c.stemStartY == old(c.stemStartY)
      && c.stemEndY == old(c.stemEndY) && c.width == old(c.width)
      && c.topLeftX == old(c.topLeftX)
    ensures |c.notes| == |old(c.notes)|
    ensures PitchOrdered(c.notes, true)
    ensures Ys(old(c.notes)) == if c.stemDirection == 1 then Reversed(Ys(c.notes)) else Ys(c.notes)
    ensures multiset(MapNotes(Unplaced, c.notes)) == multiset(MapNotes(Unplaced, old(c.notes)))
    ensures forall i :: 0 <= i < |c.notes| ==> Settled(c.notes[i])
    ensures c.numDots == 0 ==> c.dots == old(c.dots) && c.dotsX == old(c.dotsX)
    ensures c.numDots != 0 ==>
      && c.dotsX == c.groupBox.topLeftX + c.groupBox.width + 0.5
      && c.dots == old(c.dots) + DotGlyphs(WrittenDotSlots(DotOrder(Ys(c.notes), c.stemDirection), c.stemDirection), c.numDots)
    ensures ColumnsFilled(c.notes, StartingX(c.notes), CountAccidentals(c.notes))
    ensures ColumnsApart(c.notes, StartingX(c.notes))
    ensures old(c.articulation).None? ==> c.articulation.None?
    ensures old(c.articulation).Some? ==>
      var isClose := old(c.articulation).value.isClose;
      c.articulation == Some(Articulation(isClose, c.stemDirection,
                                          if c.stemDirection == 1 then -0.5 else 0.5,
                                          MarkY(isClose, WrittenReferenceNote(c.notes).renderY, c.stemDirection)))
    ensures |c.notes| > 1 ==> c.insideLedgerLines == old(c.insideLedgerLines)
    ensures |c.notes| == 1 ==> c.insideLedgerLines == LedgerLines(c.notes[0].renderY, c.stemDirection)
  {
    PlaceDotsAndAccidentals(c);
    ghost var n4 := c.notes;
    PlaceArticulationAndLedgerLines(c);
    MapPermutation(Unplaced, c.notes, n4);
  }

  /** Articulation, then ledger lines, on notes already sorted highest first: the two
      sorts only reorder notes that share a position, so the notes stay settled in their
      notehead columns and their accidental columns stay filled and apart. */
  method PlaceArticulationAndLedgerLines(c: Chord)
    requires |c.notes| > 0 && (c.stemDirection == 1 || c.stemDirection == -1)
    requires PitchOrdered(c.notes, true)
    requires forall i :: 0 <= i < |c.notes| ==> Settled(c.notes[i])
    requires ColumnsFilled(c.notes, StartingX(c.notes), CountAccidentals(c.notes))
    requires ColumnsApart(c.notes, StartingX(c.notes))
    modifies c`notes, c`articulation, c`insideLedgerLines
    ensures c.stemDirection == old(c.stemDirection) && c.stemStartY == old(c.stemStartY)
      && c.stemEndY == old(c.stemEndY) && c.width == old(c.width)
      && c.topLeftX == old(c.topLeftX) && c.dotsX == old(c.dotsX) && c.dots == old(c.dots)
    ensures |c.notes| == |old(c.notes)|
    ensures PitchOrdered(c.notes, true) && Ys(c.notes) == Ys(old(c.notes))
    ensures multiset(c.notes) == multiset(old(c.notes))
    ensures forall i :: 0 <= i < |c.notes| ==> Settled(c.notes[i])
    ensures ColumnsFilled(c.notes, StartingX(c.notes), CountAccidentals(c.notes))
    ensures ColumnsApart(c.notes, StartingX(c.notes))
    ensures old(c.articulation).None? ==> c.articulation.None?
    ensures old(c.articulation).Some? ==>
      var isClose := old(c.articulation).value.isClose;
      c.articulation == Some(Articulation(isClose, c.stemDirection,
                                          if c.stemDirection == 1 then -0.5 else 0.5,
                                          MarkY(isClose, WrittenReferenceNote(c.notes).renderY, c.stemDirection)))
    ensures |c.notes| > 1 ==> c.insideLedgerLines == old(c.insideLedgerLines)
    ensures |c.notes| == 1 ==> c.insideLedgerLines == LedgerLines(c.notes[0].renderY, c.stemDirection)
  {
    PositionArticulation(c);
    ghost var n5 := c.notes;
    ghost var a5 := c.articulation;
    CalculateLedgerLines(c);
    ArticulationLedgerLayout(old(c.notes), n5, c.notes, c.stemDirection, old(c.articulation), a5);
  }

  /** The layout facts of the last two steps, on the notes before them (`n4`), after the
      articulation step (`n5`) and after the ledger-line step (`n`). */
  lemma ArticulationLedgerLayout(n4: seq<Note>, n5: seq<Note>, n: seq<Note>, d: int,
                                 a4: Option<Articulation>, a5: Option<Articulation>)
    requires |n4| > 0 && (d == 1 || d == -1)
    requires PitchOrdered(n4, true)
    requires forall i :: 0 <= i < |n4| ==> Settled(n4[i])
    requires ColumnsFilled(n4, StartingX(n4), CountAccidentals(n4))
    requires ColumnsApart(n4, StartingX(n4))
    requires a4.None? ==> n5 == n4 && a5 == a4
    requires a4.Some? ==>
      && IsPitchOrder(n5, n4, true)
      && var isClose := a4.value.isClose;
         a5 == Some(Articulation(isClose, d, if d == 1 then -0.5 else 0.5,
                                 MarkY(isClose, WrittenReferenceNote(n5).renderY, d)))
    requires IsPitchOrder(n, n5, true)
    ensures |n| == |n4|
    ensures PitchOrdered(n, true) && Ys(n) == Ys(n4)
    ensures multiset(n) == multiset(n4)
    ensures forall i :: 0 <= i < |n| ==> Settled(n[i])
    ensures ColumnsFilled(n, StartingX(n), CountAccidentals(n))
    ensures ColumnsApart(n, StartingX(n))
    ensures a4.None? ==> a5.None?
    ensures a4.Some? ==>
      var isClose := a4.value.isClose;
      a5 == Some(Articulation(isClose, d, if d == 1 then -0.5 else 0.5,
                              MarkY(isClose, WrittenReferenceNote(n).renderY, d)))
  {
    assert multiset(n5) == multiset(n4);
    assert |n5| == |multiset(n5)| == |n4|;
    ReorderKeepsLayout(n, n5, n4);
    assert Ys(n5)[0] == n5[0].renderY && Ys(n5)[|n5| - 1] == n5[|n5| - 1].renderY;
  }

  /** Re-sorting notes that are already sorted highest first keeps their positions in
      place, keeps them settled and keeps their accidental columns filled and apart. */
  lemma ReorderKeepsLayout(a: seq<Note>, b: seq<Note>, n: seq<Note>)
    requires multiset(a) == multiset(b) && multiset(b) == multiset(n)
    requires PitchOrdered(a, true) && PitchOrdered(b, true) && PitchOrdered(n, true)
    requires forall i :: 0 <= i < |n| ==> Settled(n[i])
    requires ColumnsFilled(n, StartingX(n), CountAccidentals(n)) && ColumnsApart(n, StartingX(n))
    ensures Ys(a) == Ys(b) && Ys(a) == Ys(n)
    ensures forall i :: 0 <= i < |a| ==> Settled(a[i])
    ensures ColumnsFilled(a, StartingX(a), CountAccidentals(a)) && ColumnsApart(a, StartingX(a))
  {
    YsPermutation(a, b);
    SameOrderYs(a, b, true);
    YsPermutation(a, n);
    SameOrderYs(a, n, true);
    SettledThroughSort(a, n);
    ColumnsThroughReorder(a, n);
  }

  /** Dots, then accidentals, stated on the notes as they are left, highest pitch
      first. */
  method PlaceDotsAndAccidentals(c: Chord)
    requires c.hasNoteGroup && |c.notes| > 0 && (c.stemDirection == 1 || c.stemDirection == -1)
    requires forall i :: 0 <= i < |c.notes| ==> c.notes[i].renderX == -1.0 || c.notes[i].renderX == 0.0
    requires PitchOrdered(c.notes, c.stemDirection != 1)
    modifies c`notes, c`dotsX, c`dots
    ensures c.stemDirection == old(c.stemDirection) && c.stemStartY == old(c.stemStartY)
      && c.stemEndY == old(c.stemEndY) && c.width == old(c.width)
      && c.topLeftX == old(c.topLeftX) && c.articulation == old(c.articulation)
      && c.insideLedgerLines == old(c.insideLedgerLines)
    ensures |c.notes| == |old(c.notes)|
    ensures PitchOrdered(c.notes, true)
    ensures Ys(old(c.notes)) == if c.stemDirection == 1 then Reversed(Ys(c.notes)) else Ys(c.notes)
    ensures multiset(MapNotes(Unplaced, c.notes)) == multiset(MapNotes(Unplaced, old(c.notes)))
    ensures forall i :: 0 <= i < |c.notes| ==> Settled(c.notes[i])
    ensures c.numDots == 0 ==> c.dots == old(c.dots) && c.dotsX == old(c.dotsX)
    ensures c.numDots != 0 ==>
      && c.dotsX == c.groupBox.topLeftX + c.groupBox.width + 0.5
      && c.dots == old(c.dots) + DotGlyphs(WrittenDotSlots(DotOrder(Ys(c.notes), c.stemDirection), c.stemDirection), c.numDots)
    ensures ColumnsFilled(c.notes, StartingX(c.notes), CountAccidentals(c.notes))
    ensures ColumnsApart(c.notes, StartingX(c.notes))
  {
    PositionDots(c);
    ghost var n3 := c.notes;
    PositionAccidentals(c);
    DotsAccidentalsLayout(old(c.notes), n3, c.notes, c.stemDirection, c.numDots != 0);
  }

  /** The layout facts of the dot and accidental steps, on the notes before them (`n2`),
      after the dot step (`n3`, re-sorted only when there are dots) and after the
      accidental step (`n`). */
  lemma DotsAccidentalsLayout(n2: seq<Note>, n3: seq<Note>, n: seq<Note>, d: int, dotted: bool)
    requires |n2| > 0 && (d == 1 || d == -1)
    requires forall i :: 0 <= i < |n2| ==> n2[i].renderX == -1.0 || n2[i].renderX == 0.0
    requires PitchOrdered(n2, d != 1)
    requires !dotted ==> n3 == n2
    requires dotted ==> IsPitchOrder(n3, n2, d == 1)
    requires PitchOrdered(n, true)
    requires multiset(MapNotes(Unplaced, n)) == multiset(MapNotes(Unplaced, n3))
    requires ColumnsLaidOut(n, StartingX(n), CountAccidentals(n))
    ensures |n| == |n2|
    ensures Ys(n2) == if d == 1 then Reversed(Ys(n)) else Ys(n)
    ensures multiset(MapNotes(Unplaced, n)) == multiset(MapNotes(Unplaced, n2))
    ensures forall i :: 0 <= i < |n| ==> Settled(n[i])
    ensures dotted ==> Ys(n3) == DotOrder(Ys(n), d)
  {
    if dotted {
      ColumnsThroughSort(n3, n2);
      MapPermutation(Unplaced, n3, n2);
    }
    assert |n3| == |multiset(n3)| == |n2|;
    StrippedThroughUnplaced(n, n3);
    assert |n| == |MapNotes(Unplaced, n)| == |multiset(MapNotes(Unplaced, n))| == |n3|;
    SettledAfterAccidentals(n, n3);
    if dotted {
      YsThroughStripped(n, n3);
      OrderedYs(n, n3, d == 1);
    }
    StrippedThroughUnplaced(n, n2);
    YsThroughStripped(n, n2);
    OrderedYs(n, n2, d != 1);
  }

  lemma YsThroughStripped(a: seq<Note>, b: seq<Note>)
    requires multiset(MapNotes(Stripped, a)) == multiset(MapNotes(Stripped, b))
    ensures multiset(Ys(a)) == multiset(Ys(b))
  {
    YsPermutation(MapNotes(Stripped, a), MapNotes(Stripped, b));
    assert Ys(MapNotes(Stripped, a)) == Ys(a);
    assert Ys(MapNotes(Stripped, b)) == Ys(b);
  }

  lemma StrippedThroughColumn(a: seq<Note>, b: seq<Note>, x: real)
    requires multiset(AtColumn(a, x)) == multiset(AtColumn(b, x))
    ensures multiset(MapNotes(Stripped, a)) == multiset(MapNotes(Stripped, b))
  {
    MapPermutation(Stripped, AtColumn(a, x), AtColumn(b, x));
    assert MapNotes(Stripped, AtColumn(a, x)) == MapNotes(Stripped, a);
    assert MapNotes(Stripped, AtColumn(b, x)) == MapNotes(Stripped, b);
  }

  lemma StrippedThroughUnplaced(a: seq<Note>, b: seq<Note>)
    requires multiset(MapNotes(Unplaced, a)) == multiset(MapNotes(Unplaced, b))
    ensures multiset(MapNotes(Stripped, a)) == multiset(MapNotes(Stripped, b))
  {
    MapPermutation(Stripped, MapNotes(Unplaced, a), MapNotes(Unplaced, b));
    assert MapNotes(Stripped, MapNotes(Unplaced, a)) == MapNotes(Stripped, a);
    assert MapNotes(Stripped, MapNotes(Unplaced, b)) == MapNotes(Stripped, b);
  }

  lemma HeadThroughUnplaced(a: seq<Note>, b: seq<Note>)
    requires multiset(MapNotes(Unplaced, a)) == multiset(MapNotes(Unplaced, b))
    ensures multiset(MapNotes(Head, a)) == multiset(MapNotes(Head, b))
  {
    MapPermutation(Head, MapNotes(Unplaced, a), MapNotes(Unplaced, b));
    assert MapNotes(Head, MapNotes(Unplaced, a)) == MapNotes(Head, a);
    assert MapNotes(Head, MapNotes(Unplaced, b)) == MapNotes(Head, b);
  }

  lemma ColumnsThroughSort(a: seq<Note>, b: seq<Note>)
    requires multiset(a) == multiset(b)
    requires forall i :: 0 <= i < |b| ==> b[i].renderX == -1.0 || b[i].renderX == 0.0
    ensures forall i :: 0 <= i < |a| ==> a[i].renderX == -1.0 || a[i].renderX == 0.0
  {
    forall i | 0 <= i < |a| ensures a[i].renderX == -1.0 || a[i].renderX == 0.0 {
      assert a[i] in multiset(b);
    }
  }

  lemma SettledAfterAccidentals(a: seq<Note>, b: seq<Note>)
    requires multiset(MapNotes(Unplaced, a)) == multiset(MapNotes(Unplaced, b))
    requires forall i :: 0 <= i < |b| ==> b[i].renderX == -1.0 || b[i].renderX == 0.0
    requires ColumnsLaidOut(a, StartingX(a), CountAccidentals(a))
    ensures forall i :: 0 <= i < |a| ==> Settled(a[i])
  {
    forall i | 0 <= i < |a| ensures a[i].renderX == -1.0 || a[i].renderX == 0.0 {
      assert MapNotes(Unplaced, a)[i] in multiset(MapNotes(Unplaced, b));
      var k :| 0 <= k < |b| && MapNotes(Unplaced, b)[k] == Unplaced(a[i]);
    }
  }

  lemma SettledThroughSort(a: seq<Note>, b: seq<Note>)
    requires multiset(a) == multiset(b)
    requires forall i :: 0 <= i < |b| ==> Settled(b[i])
    ensures forall i :: 0 <= i < |a| ==> Settled(a[i])
  {
    forall i | 0 <= i < |a| ensures Settled(a[i]) {
      assert a[i] in multiset(b);
    }
  }
}

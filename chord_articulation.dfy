/** Articulation marks. The mark goes on the side the stem direction points to in renderY
    (below the chord for an up stem), at a distance from a reference note: a close mark
    (staccato) one space away, or one and a half
    when the note sits on one of the three middle lines; a far mark (accent) one space
    away, or out at the first ledger-line position past the staff when the note is
    within one and a half spaces of the middle line. positionArticulation takes the
    lowest note as the reference whatever the stem direction (WrittenReferenceNote);
    ReferenceNote, the note nearest the mark's side, is the choice under which the mark
    always clears the chord. */
module ChordArticulation {
  import opened Notation

  /** How far from the reference note at `y` the mark goes, for stem direction `d`. */
  function ArticulationDistance(isClose: bool, y: real, d: int): (dist: real)
    requires d == 1 || d == -1
    ensures dist > 0.0
    ensures isClose ==> (dist == 1.5 <==> (Abs(y) == 1.0 || y == 0.0))
    ensures isClose ==> dist == 1.5 || dist == 1.0
    ensures !isClose && Abs(y) <= 1.5 ==> y + dist * d as real == 3.0 * d as real
    ensures !isClose && Abs(y) > 1.5 ==> dist == 1.0
  {
    if isClose then
      if Abs(y) == 1.0 || y == 0.0 then 1.5 else 1.0
    else if Abs(y) <= 1.5 then Abs(3.0 * d as real - y)
    else 1.0
  }

  /** Where the mark goes for a reference note at `y`: the distance away on the
      stem-direction side. */
  function MarkY(isClose: bool, y: real, d: int): (markY: real)
    requires d == 1 || d == -1
    ensures (markY - y) * d as real > 0.0
    ensures !isClose && Abs(y) <= 1.5 ==> markY == 3.0 * d as real
  {
    MarkBeyondNote(isClose, y, d);
    y + ArticulationDistance(isClose, y, d) * d as real
  }

  /** The note the mark is measured from, in notes sorted highest first: the one nearest
      the mark's side, the lowest (last) for an up stem and the highest (first) for a
      down one. */
  function ReferenceNote(ns: seq<Note>, d: int): (n: Note)
    requires d == 1 || d == -1
    requires |ns| > 0
    ensures n in ns
    ensures n == ns[0] || n == ns[|ns| - 1]
    ensures PitchOrdered(ns, true) ==> forall k :: 0 <= k < |ns| ==> (n.renderY - ns[k].renderY) * d as real >= 0.0
  {
    if d == 1 then ns[|ns| - 1] else ns[0]
  }

  /** The reference note as positionArticulation writes it: it tests the formatter's own
      stemDirection, which is never set, so the test for an up stem always fails and the
      last note (the lowest) is taken whatever the stem direction. */
  function WrittenReferenceNote(ns: seq<Note>): (n: Note)
    requires |ns| > 0
    ensures n in ns
    ensures PitchOrdered(ns, true) ==> forall k :: 0 <= k < |ns| ==> ns[k].renderY <= n.renderY
  {
    ns[|ns| - 1]
  }

  /** With an articulation: sorts the notes with the highest pitch first, tells the mark
      the stem direction, and places it from the reference note on the stem-direction
      side, left of centre for an up stem and right for a down one. The reference note is
      the last (lowest) one: the test for an up stem reads the formatter's own
      stemDirection, which is never set. Without an articulation, changes nothing. */
  method PositionArticulation(c: Chord)
    requires c.articulation.Some? ==> |c.notes| > 0 && (c.stemDirection == 1 || c.stemDirection == -1)
    modifies c`notes, c`articulation
    ensures c.stemDirection == old(c.stemDirection) && c.stemStartY == old(c.stemStartY)
      && c.stemEndY == old(c.stemEndY) && c.width == old(c.width)
      && c.topLeftX == old(c.topLeftX) && c.dotsX == old(c.dotsX) && c.dots == old(c.dots)
      && c.insideLedgerLines == old(c.insideLedgerLines)
    ensures old(c.articulation).None? ==>
      c.notes == old(c.notes) && c.articulation == old(c.articulation)
    ensures old(c.articulation).Some? ==>
      && IsPitchOrder(c.notes, old(c.notes), true)
      && var isClose := old(c.articulation).value.isClose;
         c.articulation == Some(Articulation(isClose, c.stemDirection,
                                             if c.stemDirection == 1 then -0.5 else 0.5,
                                             MarkY(isClose, WrittenReferenceNote(c.notes).renderY, c.stemDirection)))
  {
    if c.articulation.Some? {
      c.SortNotesByPitch(true);
      assert |multiset(c.notes)| == |multiset(old(c.notes))|;
      var closestNote := c.notes[|c.notes| - 1];
      var multiplier := c.stemDirection;
      var mark := c.articulation.value.(direction := c.stemDirection);
      var dist := ArticulationDistance(mark.isClose, closestNote.renderY, c.stemDirection);
      mark := mark.(renderY := closestNote.renderY + dist * multiplier as real);
      if c.stemDirection == 1 {
        mark := mark.(renderX := -0.5);
      } else {
        mark := mark.(renderX := 0.5);
      }
      c.articulation := Some(mark);
    }
  }

  /** The mark lies strictly on the stem-direction side of its reference note, and a far
      mark on a note near the middle line lands on the first ledger-line position. */
  lemma MarkBeyondNote(isClose: bool, y: real, d: int)
    requires d == 1 || d == -1
    ensures (y + ArticulationDistance(isClose, y, d) * d as real - y) * d as real > 0.0
    ensures !isClose && Abs(y) <= 1.5 ==> y + ArticulationDistance(isClose, y, d) * d as real == 3.0 * d as real
  {
    var dist := ArticulationDistance(isClose, y, d);
    assert (y + dist * d as real - y) * d as real == dist * (d * d) as real;
  }

  /** Measured from the reference note, the mark lies strictly outside the chord on the
      stem-direction side: beyond every note. */
  lemma MarkClearsChord(ns: seq<Note>, isClose: bool, d: int)
    requires d == 1 || d == -1
    requires |ns| > 0 && PitchOrdered(ns, true)
    ensures forall k :: 0 <= k < |ns| ==>
      (MarkY(isClose, ReferenceNote(ns, d).renderY, d) - ns[k].renderY) * d as real > 0.0
  {
    var ref := ReferenceNote(ns, d).renderY;
    var markY := MarkY(isClose, ref, d);
    forall k | 0 <= k < |ns|
      ensures (markY - ns[k].renderY) * d as real > 0.0
    {
      assert (markY - ns[k].renderY) * d as real ==
             (markY - ref) * d as real + (ref - ns[k].renderY) * d as real;
    }
  }

  /** Measured from the note positionArticulation picks, a down-stem mark can land inside
      the chord: a staccato on the chord at -3 and 1 lands at -0.5, between its notes. */
  lemma DownStemMarkInsideChord(ns: seq<Note>)
    requires |ns| == 2 && ns[0].renderY == -3.0 && ns[1].renderY == 1.0
    ensures var y := MarkY(true, WrittenReferenceNote(ns).renderY, -1);
      ns[0].renderY < y < ns[1].renderY
  {
    assert Abs(1.0) == 1.0;
  }
}

/** The first two steps of chord formatting: which way the stem points and where it
    starts and ends. A stem direction of 1 is up, -1 is down. */
module ChordStem {
  import opened Notation

  /** The nominal stem length, in staff spaces. */
  const DefaultStemLength: real := 3.5

  /** Sums the notes' vertical positions; the stem points up (1) exactly when the sum is
      not negative, so a chord balanced on the middle line gets an up stem. */
  method CalculateStemDirection(c: Chord)
    modifies c`stemDirection
    ensures c.notes == old(c.notes) && c.stemStartY == old(c.stemStartY)
      && c.stemEndY == old(c.stemEndY) && c.width == old(c.width)
      && c.topLeftX == old(c.topLeftX) && c.dotsX == old(c.dotsX) && c.dots == old(c.dots)
      && c.articulation == old(c.articulation)
      && c.insideLedgerLines == old(c.insideLedgerLines)
    ensures c.stemDirection == 1 || c.stemDirection == -1
    ensures c.stemDirection == 1 <==> SumY(c.notes) >= 0.0
  {
    var sum := 0.0;
    for i := 0 to |c.notes|
      invariant sum == SumY(c.notes[..i])
    {
      assert c.notes[..i + 1] == c.notes[..i] + [c.notes[i]];
      SumYAppend(c.notes[..i], [c.notes[i]]);
      assert SumY([c.notes[i]]) == c.notes[i].renderY by {
        assert [c.notes[i]][1..] == [];
      }
      sum := sum + c.notes[i].renderY;
    }
    assert c.notes[..|c.notes|] == c.notes;
    if sum >= 0.0 {
      c.stemDirection := 1;
    } else {
      c.stemDirection := -1;
    }
  }

  /** Where the stem ends, given the note at the stem's open end (`lastY`), the number of
      notes and the stem direction `d`: at the middle line when that note already lies
      more than the default length past it, otherwise 3.5 staff spaces past a lone note
      and 2.5 past the last of several. */
  function StemEnd(lastY: real, count: nat, d: int): (endY: real)
    requires d == 1 || d == -1
    ensures lastY * d as real > DefaultStemLength ==> endY == 0.0
    ensures lastY * d as real <= DefaultStemLength ==>
      (lastY - endY) * d as real == if count == 1 then DefaultStemLength else DefaultStemLength - 1.0
    ensures (lastY - endY) * d as real >= DefaultStemLength - 1.0
    ensures endY * d as real <= if count == 1 then 0.0 else 1.0
  {
    if lastY * d as real > DefaultStemLength then 0.0
    else if count == 1 then lastY + DefaultStemLength * -(d as real)
    else lastY + (DefaultStemLength - 1.0) * -(d as real)
  }

  /** For a duration that has a stem, sorts the notes from the stem's closed end (lowest
      pitch first for an up stem) and sets the stem's start at the first note and its end
      from the last; for a duration without a stem, changes nothing. */
  method CalculateStemLength(c: Chord)
    requires c.stemDirection == 1 || c.stemDirection == -1
    requires c.hasStem ==> |c.notes| > 0
    modifies c`notes, c`stemStartY, c`stemEndY
    ensures c.stemDirection == old(c.stemDirection) && c.width == old(c.width)
      && c.topLeftX == old(c.topLeftX) && c.dotsX == old(c.dotsX) && c.dots == old(c.dots)
      && c.articulation == old(c.articulation)
      && c.insideLedgerLines == old(c.insideLedgerLines)
    ensures !c.hasStem ==>
      c.notes == old(c.notes) && c.stemStartY == old(c.stemStartY) && c.stemEndY == old(c.stemEndY)
    ensures c.hasStem ==>
      && IsPitchOrder(c.notes, old(c.notes), c.stemDirection != 1)
      && c.stemStartY == c.notes[0].renderY
      && c.stemEndY == StemEnd(c.notes[|c.notes| - 1].renderY, |c.notes|, c.stemDirection)
    ensures c.hasStem ==> forall i :: 0 <= i < |c.notes| ==>
      if c.stemDirection == 1 then c.notes[|c.notes| - 1].renderY <= c.notes[i].renderY <= c.stemStartY
      else c.stemStartY <= c.notes[i].renderY <= c.notes[|c.notes| - 1].renderY
  {
    if c.hasStem {
      c.SortNotesByPitch(c.stemDirection != 1);
      assert |multiset(c.notes)| == |multiset(old(c.notes))|;
      var firstY := c.notes[0].renderY;
      var lastY := c.notes[|c.notes| - 1].renderY;
      var endY := StemEnd(lastY, |c.notes|, c.stemDirection);
      c.stemStartY := firstY;
      c.stemEndY := endY;
      forall i | 0 < i < |c.notes| - 1
        ensures InPitchOrder(c.notes[0], c.notes[i], c.stemDirection != 1)
        ensures InPitchOrder(c.notes[i], c.notes[|c.notes| - 1], c.stemDirection != 1)
      {
      }
    }
  }
}

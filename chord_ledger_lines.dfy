/** Ledger lines of a single-note chord: the line positions from the first one outside
    the staff (3 spaces from the middle line) out to the note, on the stem-direction side. */
module ChordLedgerLines {
  import opened Notation

  /** The ledger lines for a lone note at `y` with stem direction `d`: 3d, 4d, ... as far
      as the note reaches. */
  function LedgerLines(y: real, d: int): (lines: seq<int>)
    requires d == 1 || d == -1
    ensures Abs(y) < 3.0 ==> lines == []
    ensures Abs(y) >= 3.0 ==> |lines| == Abs(y).Floor - 2
  {
    if Abs(y) < 3.0 then [] else seq(Abs(y).Floor - 2, k => (3 + k) * d)
  }

  /** The loop of calculateLedgerLines: from 3d outwards in steps of d while the line is
      no further out than the note. */
  method LedgerLineOffsets(y: real, d: int) returns (lines: seq<int>)
    requires d == 1 || d == -1
    ensures lines == LedgerLines(y, d)
  {
    lines := [];
    if Abs(y) >= 3.0 {
      var i := 3 * d;
      var multiplier := d;
      while Abs(i as real) <= Abs(y)
        invariant i * d >= 3
        invariant (i * d) as real <= Abs(y).Floor as real + 1.0
        invariant lines == seq(i * d - 3, k => (3 + k) * d)
        decreases Abs(y).Floor - i * d
      {
        assert Abs(i as real) == (i * d) as real;
        lines := lines + [i];
        i := i + 1 * multiplier;
      }
      assert Abs(i as real) == (i * d) as real;
    }
  }

  /** Sorts the notes with the highest pitch first; for a single note, replaces the ledger
      lines by those the note needs; a chord of several notes keeps its ledger lines. */
  method CalculateLedgerLines(c: Chord)
    requires |c.notes| > 0 && (c.stemDirection == 1 || c.stemDirection == -1)
    modifies c`notes, c`insideLedgerLines
    ensures c.stemDirection == old(c.stemDirection) && c.stemStartY == old(c.stemStartY)
      && c.stemEndY == old(c.stemEndY) && c.width == old(c.width)
      && c.topLeftX == old(c.topLeftX) && c.dotsX == old(c.dotsX) && c.dots == old(c.dots)
      && c.articulation == old(c.articulation)
    ensures IsPitchOrder(c.notes, old(c.notes), true)
    ensures |c.notes| > 1 ==> c.insideLedgerLines == old(c.insideLedgerLines)
    ensures |c.notes| == 1 ==> c.insideLedgerLines == LedgerLines(c.notes[0].renderY, c.stemDirection)
  {
    c.SortNotesByPitch(true);
    assert |multiset(c.notes)| == |multiset(old(c.notes))|;
    if |c.notes| > 1 {
      // The highest and lowest notes are looked up here but nothing is done with them.
    } else {
      var note := c.notes[0];
      c.insideLedgerLines := [];
      var lines := LedgerLineOffsets(note.renderY, c.stemDirection);
      c.insideLedgerLines := lines;
    }
  }

  /** A line is drawn exactly at each whole position on the stem-direction side that is
      at least 3 from the middle and no further out than the note. */
  lemma LedgerLinesExactly(y: real, d: int, m: int)
    requires d == 1 || d == -1
    ensures m in LedgerLines(y, d) <==> m * d >= 3 && (m * d) as real <= Abs(y)
  {
    var lines := LedgerLines(y, d);
    if m * d >= 3 && (m * d) as real <= Abs(y) {
      assert m * d <= Abs(y).Floor;
      assert lines[m * d - 3] == m * d * d;
      assert m * d * d == m by { assert d * d == 1; }
    }
    if m in lines {
      var k :| 0 <= k < |lines| && lines[k] == m;
      assert m * d == 3 + k by { assert d * d == 1; }
    }
  }

  /** For a lone note the stem points up exactly when the note is on or below the middle
      line, so its ledger lines lie on the note's own side of the staff. */
  lemma LoneNoteLinesOnItsSide(y: real, m: int)
    requires m in LedgerLines(y, if y >= 0.0 then 1 else -1)
    ensures m as real * y > 0.0
  {
    LedgerLinesExactly(y, if y >= 0.0 then 1 else -1, m);
  }
}

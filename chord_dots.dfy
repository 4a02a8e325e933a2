/** Augmentation dots. Each note gets one dot slot, the notes taken in order. A note on a
    space takes its own slot, or, when a dot already sits there, steps a whole space at a
    time in the direction the stem points (up the page for an up stem) until it finds a
    free one. A note on a line takes the space above it without looking at the dots
    before it (WrittenDotSlot); since dots only ever sit on spaces, its own position is
    never taken and the space-below branch never fires, so the dots of a second can share
    a slot. DotSlot is the rule that also steps a line note's dot past taken slots, under
    which no two dots of a chord share one. A rest gets one dot half a space below its
    position. */
module ChordDots {
  import opened Notation

  /** A position is on a space when it is not a whole number (whole numbers are lines). */
  function IsOnSpace(y: real): (b: bool)
    ensures b <==> y.Floor as real < y
    ensures !b <==> Whole(y)
  {
    y.Floor as real != y
  }

  /** Whether `item` occurs in `arr` (its index is not -1). */
  function Contains(arr: seq<real>, item: real): (b: bool)
    ensures b <==> exists i :: 0 <= i < |arr| && arr[i] == item
  {
    item in arr
  }

  /** `t` lies at `y` or further in the direction `step`. */
  predicate Beyond(t: real, y: real, step: real)
  {
    if step > 0.0 then y <= t else t <= y
  }

  /** How many taken slots lie at `y` or beyond it in the direction `step`: the measure
      that shrinks as the stepping loop advances. */
  function Ahead(taken: seq<real>, y: real, step: real): (n: nat)
    ensures n <= |taken|
  {
    if taken == [] then 0
    else (if Beyond(taken[0], y, step) then 1 else 0) + Ahead(taken[1..], y, step)
  }

  lemma {:induction false} AheadShrinks(taken: seq<real>, y: real, step: real)
    requires step == 1.0 || step == -1.0
    ensures Ahead(taken, y + step, step) <= Ahead(taken, y, step)
    ensures y in taken ==> Ahead(taken, y + step, step) < Ahead(taken, y, step)
  {
    if taken != [] {
      AheadShrinks(taken[1..], y, step);
      assert y in taken ==> taken[0] == y || y in taken[1..];
    }
  }

  /** The first slot at `y` or beyond, a whole number of steps away, that is not taken. */
  function FreeSlot(taken: seq<real>, y: real, step: real): (r: real)
    requires step == 1.0 || step == -1.0
    ensures r !in taken
    ensures Beyond(r, y, step)
    ensures Whole(r - y)
    decreases Ahead(taken, y, step)
  {
    if y !in taken then y
    else
      AheadShrinks(taken, y, step);
      var r := FreeSlot(taken, y + step, step);
      assert Whole(step) by { assert step == (step.Floor) as real; }
      WholeSum(r - (y + step), step);
      assert r - y == r - (y + step) + step;
      r
  }

  /** Stepping by whole spaces from a space lands on a space. */
  lemma WholeStepsKeepSpace(y: real, r: real)
    requires Whole(r - y)
    ensures IsOnSpace(r) <==> IsOnSpace(y)
  {
    var k := (r - y).Floor;
    assert r == y + k as real;
    assert (y + k as real).Floor == y.Floor + k;
  }

  /** A whole number on the side of `step` that is not zero is at least one step away. */
  lemma WholeStep(x: real, step: real)
    requires step == 1.0 || step == -1.0
    requires Whole(x) && x != 0.0 && Beyond(x, 0.0, step)
    ensures Beyond(x, step, step)
  {
    assert x == x.Floor as real;
  }

  /** Every slot the stepping passes over before it stops is taken: the slot found is the
      first free one, counting whole steps from `y`. */
  lemma {:induction false} FreeSlotFirst(taken: seq<real>, y: real, step: real, t: real)
    requires step == 1.0 || step == -1.0
    requires Whole(t - y) && Beyond(t, y, step)
    requires Beyond(FreeSlot(taken, y, step), t, step) && t != FreeSlot(taken, y, step)
    ensures t in taken
    decreases Ahead(taken, y, step)
  {
    if y in taken && t != y {
      AheadShrinks(taken, y, step);
      WholeStep(t - y, step);
      assert Whole(-step) by { assert -step == (-step).Floor as real; }
      WholeSum(t - y, -step);
      assert t - y + -step == t - (y + step);
      FreeSlotFirst(taken, y + step, step, t);
    }
  }

  /** Where a note's dot would go if nothing were in the way: its own slot on a space,
      half a space above on a line. */
  function DotStart(y: real): (start: real)
    ensures IsOnSpace(start)
    ensures IsOnSpace(y) ==> start == y
    ensures !IsOnSpace(y) ==> start == y - 0.5
  {
    if IsOnSpace(y) then y
    else
      assert (y - 0.5).Floor == y.Floor - 1;
      y - 0.5
  }

  /** The slot the dot of the note at `y` takes, given the slots `taken` before it: the
      first free slot from its start, stepping a whole space at a time the way the stem
      points (a renderY step of -stemDirection). */
  function DotSlot(taken: seq<real>, y: real, stemDirection: int): (slot: real)
    requires stemDirection == 1 || stemDirection == -1
    ensures slot !in taken
    ensures IsOnSpace(slot)
  {
    var slot := FreeSlot(taken, DotStart(y), -(stemDirection as real));
    WholeStepsKeepSpace(DotStart(y), slot);
    slot
  }

  /** The dot slots of notes at `ys`, taken in order, each seeing those before it. */
  function DotSlots(ys: seq<real>, stemDirection: int): (slots: seq<real>)
    requires stemDirection == 1 || stemDirection == -1
    ensures |slots| == |ys|
  {
    if ys == [] then []
    else
      var taken := DotSlots(ys[..|ys| - 1], stemDirection);
      taken + [DotSlot(taken, ys[|ys| - 1], stemDirection)]
  }

  /** The slot rule as positionDots writes it: a note on a space takes the first free slot
      from its own, stepping the way the stem points; a note on a line takes the space
      above it, or the space below when its own position is taken, without looking at
      the slots of the dots before it. */
  function WrittenDotSlot(taken: seq<real>, y: real, stemDirection: int): (slot: real)
    requires stemDirection == 1 || stemDirection == -1
    ensures IsOnSpace(slot)
    ensures IsOnSpace(y) ==> slot !in taken && Beyond(slot, y, -(stemDirection as real))
    ensures IsOnSpace(y) ==> Whole(slot - y)
    ensures IsOnSpace(y) && y !in taken ==> slot == y
    ensures !IsOnSpace(y) && (forall t :: t in taken ==> IsOnSpace(t)) ==> slot == y - 0.5
  {
    if IsOnSpace(y) then
      if Contains(taken, y) then
        var r := FreeSlot(taken, y, -(stemDirection as real));
        WholeStepsKeepSpace(y, r);
        r
      else y
    else
      assert (y + 0.5).Floor == y.Floor && (y - 0.5).Floor == y.Floor - 1;
      if Contains(taken, y) then y + 0.5
      else y - 0.5
  }

  /** As written, the dot of a note on a space skips only taken slots: every space passed
      over between the note and its dot is held by an earlier dot. */
  lemma WrittenDotSkipsOnlyTaken(taken: seq<real>, y: real, stemDirection: int, t: real)
    requires stemDirection == 1 || stemDirection == -1
    requires IsOnSpace(y)
    requires Whole(t - y) && Beyond(t, y, -(stemDirection as real))
    requires Beyond(WrittenDotSlot(taken, y, stemDirection), t, -(stemDirection as real))
    requires t != WrittenDotSlot(taken, y, stemDirection)
    ensures t in taken
  {
    if y in taken {
      FreeSlotFirst(taken, y, -(stemDirection as real), t);
    }
  }

  /** The dot slots positionDots writes for notes at `ys`: every one on a space. */
  function WrittenDotSlots(ys: seq<real>, stemDirection: int): (slots: seq<real>)
    requires stemDirection == 1 || stemDirection == -1
    ensures |slots| == |ys|
    ensures forall i :: 0 <= i < |slots| ==> IsOnSpace(slots[i])
  {
    if ys == [] then []
    else
      var taken := WrittenDotSlots(ys[..|ys| - 1], stemDirection);
      taken + [WrittenDotSlot(taken, ys[|ys| - 1], stemDirection)]
  }

  /** The dot glyphs added for the slots: the vertical positions are negated. */
  function DotGlyphs(slots: seq<real>, numDots: int): (dots: seq<Dot>)
    ensures |dots| == |slots|
    ensures forall i :: 0 <= i < |slots| ==> dots[i] == Dot(numDots, -slots[i])
  {
    seq(|slots|, i requires 0 <= i < |slots| => Dot(numDots, -slots[i]))
  }

  /** The stepping loop: from `start`, a whole space at a time the way the stem points,
      until the slot is free. */
  method StepPastTaken(dotYs: seq<real>, start: real, stemDirection: int) returns (space: real)
    requires stemDirection == 1 || stemDirection == -1
    ensures space == FreeSlot(dotYs, start, -(stemDirection as real))
  {
    ghost var step := -(stemDirection as real);
    space := start;
    while Contains(dotYs, space)
      invariant FreeSlot(dotYs, space, step) == FreeSlot(dotYs, start, step)
      decreases Ahead(dotYs, space, step)
    {
      AheadShrinks(dotYs, space, step);
      space := space + 1.0 * -(stemDirection as real);
    }
  }

  /** The slot of one note: a note on a space steps from its own slot when that is
      taken; a note on a line goes half a space below when its own position is taken and
      half a space above otherwise. */
  method NextDotSlot(dotYs: seq<real>, y: real, stemDirection: int) returns (space: real)
    requires stemDirection == 1 || stemDirection == -1
    ensures space == WrittenDotSlot(dotYs, y, stemDirection)
  {
    if IsOnSpace(y) {
      if Contains(dotYs, y) {
        space := StepPastTaken(dotYs, y, stemDirection);
      } else {
        space := y;
      }
    } else {
      if Contains(dotYs, y) {
        space := y + 0.5;
      } else {
        space := y - 0.5;
      }
    }
  }

  /** The slot loop of positionDots over the sorted notes. */
  method DotPositions(ns: seq<Note>, stemDirection: int) returns (dotYs: seq<real>)
    requires stemDirection == 1 || stemDirection == -1
    ensures dotYs == WrittenDotSlots(Ys(ns), stemDirection)
  {
    ghost var ys := Ys(ns);
    dotYs := [];
    for i := 0 to |ns|
      invariant dotYs == WrittenDotSlots(ys[..i], stemDirection)
    {
      var space := NextDotSlot(dotYs, ns[i].renderY, stemDirection);
      assert ys[..i + 1][..i] == ys[..i] && ys[..i + 1][i] == ns[i].renderY;
      dotYs := dotYs + [space];
    }
    assert ys[..|ns|] == ys;
  }

  /** The glyph loop of positionDots: one dot glyph per slot, added in order. */
  method AddDots(dots: seq<Dot>, dotYs: seq<real>, numDots: int) returns (r: seq<Dot>)
    ensures r == dots + DotGlyphs(dotYs, numDots)
  {
    r := dots;
    for i := 0 to |dotYs|
      invariant r == dots + DotGlyphs(dotYs[..i], numDots)
    {
      assert DotGlyphs(dotYs[..i + 1], numDots) == DotGlyphs(dotYs[..i], numDots) + [Dot(numDots, -dotYs[i])];
      r := r + [Dot(numDots, -dotYs[i])];
    }
    assert dotYs[..|dotYs|] == dotYs;
  }

  /** With dots to draw: for a chord, places the dot group right of the note group, sorts
      the notes with the highest pitch first for an up stem (lowest first otherwise) and
      adds one dot per note at its slot, negated; for a rest, places the group right of
      the rest and adds one dot half a space below it. Without dots, changes nothing. */
  method PositionDots(c: Chord)
    requires c.hasNoteGroup && c.numDots != 0 ==> c.stemDirection == 1 || c.stemDirection == -1
    modifies c`notes, c`dotsX, c`dots
    ensures c.stemDirection == old(c.stemDirection) && c.stemStartY == old(c.stemStartY)
      && c.stemEndY == old(c.stemEndY) && c.width == old(c.width)
      && c.topLeftX == old(c.topLeftX) && c.articulation == old(c.articulation)
      && c.insideLedgerLines == old(c.insideLedgerLines)
    ensures c.numDots == 0 ==>
      c.notes == old(c.notes) && c.dotsX == old(c.dotsX) && c.dots == old(c.dots)
    ensures c.numDots != 0 && c.hasNoteGroup ==>
      && IsPitchOrder(c.notes, old(c.notes), c.stemDirection == 1)
      && c.dotsX == c.groupBox.topLeftX + c.groupBox.width + 0.5
      && c.dots == old(c.dots) + DotGlyphs(WrittenDotSlots(Ys(c.notes), c.stemDirection), c.numDots)
    ensures c.numDots != 0 && !c.hasNoteGroup ==>
      && c.notes == old(c.notes)
      && c.dotsX == c.restBox.topLeftX + c.restBox.width + 0.5
      && c.dots == old(c.dots) + [Dot(c.numDots, c.restBox.renderY + 0.5)]
  {
    if c.numDots != 0 {
      if c.hasNoteGroup {
        c.dotsX := c.groupBox.topLeftX + c.groupBox.width + 0.5;
        c.SortNotesByPitch(c.stemDirection == 1);
        var dotYs := DotPositions(c.notes, c.stemDirection);
        c.dots := AddDots(c.dots, dotYs, c.numDots);
      } else {
        c.dotsX := c.restBox.topLeftX + c.restBox.width + 0.5;
        c.dots := c.dots + [Dot(c.numDots, c.restBox.renderY + 0.5)];
      }
    }
  }

  /** The dot slots of the first `i` notes do not depend on the notes after them. */
  lemma {:induction false} DotSlotsPrefix(ys: seq<real>, stemDirection: int, i: nat)
    requires stemDirection == 1 || stemDirection == -1
    requires i <= |ys|
    ensures DotSlots(ys, stemDirection)[..i] == DotSlots(ys[..i], stemDirection)
    decreases |ys|
  {
    if i < |ys| {
      assert ys[..|ys| - 1][..i] == ys[..i];
      DotSlotsPrefix(ys[..|ys| - 1], stemDirection, i);
    } else {
      assert ys[..i] == ys;
    }
  }

  /** Note `i` sees exactly the slots of the notes before it. */
  lemma DotSlotAt(ys: seq<real>, stemDirection: int, i: nat)
    requires stemDirection == 1 || stemDirection == -1
    requires i < |ys|
    ensures DotSlots(ys, stemDirection)[i] == DotSlot(DotSlots(ys[..i], stemDirection), ys[i], stemDirection)
  {
    DotSlotsPrefix(ys, stemDirection, i + 1);
    assert ys[..i + 1][..i] == ys[..i];
  }

  /** Every dot lands on a space, whatever the notes. */
  lemma DotSlotsOnSpaces(ys: seq<real>, stemDirection: int)
    requires stemDirection == 1 || stemDirection == -1
    ensures forall i :: 0 <= i < |ys| ==> IsOnSpace(DotSlots(ys, stemDirection)[i])
  {
    forall i | 0 <= i < |ys|
      ensures IsOnSpace(DotSlots(ys, stemDirection)[i])
    {
      DotSlotAt(ys, stemDirection, i);
    }
  }

  /** No two dots of a chord share a slot. */
  lemma DotSlotsDistinct(ys: seq<real>, stemDirection: int)
    requires stemDirection == 1 || stemDirection == -1
    ensures forall i, j :: 0 <= i < j < |ys| ==>
      DotSlots(ys, stemDirection)[i] != DotSlots(ys, stemDirection)[j]
  {
    forall i, j | 0 <= i < j < |ys|
      ensures DotSlots(ys, stemDirection)[i] != DotSlots(ys, stemDirection)[j]
    {
      DotSlotAt(ys, stemDirection, j);
      DotSlotsPrefix(ys, stemDirection, j);
      assert DotSlots(ys, stemDirection)[..j][i] == DotSlots(ys, stemDirection)[i];
    }
  }

  /** Each note's dot goes to the nearest free space from its start, the way the stem
      points: a whole number of spaces from the start, on a space, not held by an
      earlier dot, and the note's own slot when that is free. */
  lemma DotIsNearestFree(ys: seq<real>, stemDirection: int, i: nat)
    requires stemDirection == 1 || stemDirection == -1
    requires i < |ys|
    ensures DotSlots(ys, stemDirection)[i] !in DotSlots(ys, stemDirection)[..i]
    ensures IsOnSpace(DotSlots(ys, stemDirection)[i])
    ensures Beyond(DotSlots(ys, stemDirection)[i], DotStart(ys[i]), -(stemDirection as real))
    ensures Whole(DotSlots(ys, stemDirection)[i] - DotStart(ys[i]))
    ensures DotStart(ys[i]) !in DotSlots(ys, stemDirection)[..i] ==>
      DotSlots(ys, stemDirection)[i] == DotStart(ys[i])
  {
    DotSlotAt(ys, stemDirection, i);
    DotSlotsPrefix(ys, stemDirection, i);
  }

  /** Every slot passed over between a note's start and its dot is held by an earlier
      dot: no free space is skipped. */
  lemma DotSkipsOnlyTaken(ys: seq<real>, stemDirection: int, i: nat, t: real)
    requires stemDirection == 1 || stemDirection == -1
    requires i < |ys|
    requires Whole(t - DotStart(ys[i])) && Beyond(t, DotStart(ys[i]), -(stemDirection as real))
    requires Beyond(DotSlots(ys, stemDirection)[i], t, -(stemDirection as real))
    requires t != DotSlots(ys, stemDirection)[i]
    ensures t in DotSlots(ys, stemDirection)[..i]
  {
    DotSlotAt(ys, stemDirection, i);
    DotSlotsPrefix(ys, stemDirection, i);
    FreeSlotFirst(DotSlots(ys[..i], stemDirection), DotStart(ys[i]), -(stemDirection as real), t);
  }

  /** The dots of a second, at 0.5 and 1 with an up stem, go to different spaces: the
      line note's dot steps past the space its neighbour's dot holds. */
  lemma SecondDotsSeparate()
    ensures DotSlots([0.5, 1.0], 1) == [0.5, -0.5]
  {
    assert [0.5, 1.0][..1] == [0.5];
    assert [0.5][..0] == [];
    assert IsOnSpace(0.5) by { assert (0.5).Floor == 0; }
    assert !IsOnSpace(1.0) by { assert (1.0).Floor == 1; }
    assert DotStart(0.5) == 0.5 && DotStart(1.0) == 0.5;
    assert DotSlot([], 0.5, 1) == 0.5;
    assert DotSlots([0.5], 1) == [0.5];
    assert FreeSlot([0.5], -0.5, -1.0) == -0.5;
    assert FreeSlot([0.5], 0.5, -1.0) == -0.5;
    assert DotSlot([0.5], 1.0, 1) == -0.5;
  }

  /** As written, a note on a line always gets its dot half a space above it: no earlier
      dot can sit on a line, so the branch that moves the dot below is never taken, and
      the slot above is used whether or not it is free. */
  lemma LineDotAbove(ys: seq<real>, stemDirection: int, i: nat)
    requires stemDirection == 1 || stemDirection == -1
    requires i < |ys| && !IsOnSpace(ys[i])
    ensures WrittenDotSlots(ys, stemDirection)[i] == ys[i] - 0.5
  {
    assert WrittenDotSlots(ys, stemDirection)[..i + 1] == WrittenDotSlots(ys[..i + 1], stemDirection) by {
      WrittenDotSlotsPrefix(ys, stemDirection, i + 1);
    }
    assert ys[..i + 1][..i] == ys[..i];
    var taken := WrittenDotSlots(ys[..i], stemDirection);
    assert ys[i] !in taken;
  }

  /** As written, the dot slots of the first `i` notes do not depend on the notes after
      them. */
  lemma {:induction false} WrittenDotSlotsPrefix(ys: seq<real>, stemDirection: int, i: nat)
    requires stemDirection == 1 || stemDirection == -1
    requires i <= |ys|
    ensures WrittenDotSlots(ys, stemDirection)[..i] == WrittenDotSlots(ys[..i], stemDirection)
    decreases |ys|
  {
    if i < |ys| {
      assert ys[..|ys| - 1][..i] == ys[..i];
      WrittenDotSlotsPrefix(ys[..|ys| - 1], stemDirection, i);
    } else {
      assert ys[..i] == ys;
    }
  }

  /** As written, the two notes of a second, at 0.5 and 1 with an up stem, get their
      dots in the same slot. */
  lemma SecondDotsShareSlot()
    ensures WrittenDotSlots([0.5, 1.0], 1) == [0.5, 0.5]
  {
    assert [0.5, 1.0][..1] == [0.5];
    assert [0.5][..0] == [];
    assert IsOnSpace(0.5) by { assert (0.5).Floor == 0; }
    assert !IsOnSpace(1.0) by { assert (1.0).Floor == 1; }
  }
}

/** Horizontal layout of one measure: a cursor starting one space in places each child
    and advances by the child's ideal space (durational children) or by its width plus
    one space of padding, less the next child's left overhang (other children). The
    measure is at least four spaces wide. */
module MeasureFormatter {
  import opened Notation

  /** The cursor's starting position and the padding after a non-durational child. */
  const InitialPadding: real := 1.0
  const Padding: real := 1.0
  /** The narrowest a measure is drawn. */
  const MinimumWidth: real := 4.0
  /** The duration the neighbourhood constant is computed from when no child is shorter. */
  const ShortestNoteFloor: int := 8

  /** A child of a measure: its duration as a denominator (0 for a child without one, such
      as a key signature), its duration with dots, and its display box. */
  datatype Child = Child(duration: int, durationWithDots: real, info: DisplayInfo)

  /** A measure: its children, whose positions the formatter sets, and its width. */
  class Measure {
    var children: seq<Child>
    var width: real

    constructor (children: seq<Child>)
      ensures this.children == children
    {
      this.children := children;
    }
  }

  /** The child placed at horizontal position `x`. */
  function PlacedAt(c: Child, x: real): (placed: Child)
    ensures placed.info.renderX == x
    ensures placed.duration == c.duration && placed.durationWithDots == c.durationWithDots
    ensures placed.info == c.info.(renderX := x)
  {
    c.(info := c.info.(renderX := x))
  }

  /** The largest duration denominator among the children that have one (the shortest
      note value), or None (minus infinity) when no child has one. */
  function LargestDuration(cs: seq<Child>): (max: Option<int>)
    ensures max.None? <==> forall i :: 0 <= i < |cs| ==> cs[i].duration == 0
    ensures max.Some? ==> exists i :: 0 <= i < |cs| && cs[i].duration != 0 && cs[i].duration == max.value
    ensures max.Some? ==> forall i :: 0 <= i < |cs| && cs[i].duration != 0 ==> cs[i].duration <= max.value
  {
    if |cs| == 0 then None
    else
      var rest := LargestDuration(cs[..|cs| - 1]);
      var last := cs[|cs| - 1];
      assert forall i :: 0 <= i < |cs| - 1 ==> cs[..|cs| - 1][i] == cs[i];
      if last.duration != 0 && (rest.None? || last.duration > rest.value) then Some(last.duration)
      else rest
  }

  /** How far the cursor moves past child `i`: the ideal space for its duration, given
      the measure's shortest note value, or its width plus the padding less the next
      child's left overhang (0 after the last). Every durational child is spaced with
      the same shortest note value, the measure's own, clamped to an eighth. */
  function Advance(cs: seq<Child>, i: nat, spaceAfter: (real, int) -> real): (adv: real)
    requires i < |cs|
    ensures cs[i].duration != 0 ==>
      adv == spaceAfter(cs[i].durationWithDots, ShortestNote(LargestDuration(cs)))
    ensures cs[i].duration == 0 && i + 1 < |cs| ==>
      adv + cs[i + 1].info.topLeftX == cs[i].info.width + Padding
    ensures cs[i].duration == 0 && i + 1 == |cs| ==> adv == cs[i].info.width + Padding
  {
    if cs[i].duration != 0 then spaceAfter(cs[i].durationWithDots, ShortestNote(LargestDuration(cs)))
    else
      var startNext := if i + 1 < |cs| then cs[i + 1].info.topLeftX else 0.0;
      cs[i].info.width + Padding + -startNext
  }

  /** Where the cursor stands before child `i`: one space in before the first. */
  function CursorAt(cs: seq<Child>, i: nat, spaceAfter: (real, int) -> real): (x: real)
    requires i <= |cs|
    ensures i == 0 ==> x == InitialPadding
  {
    if i == 0 then InitialPadding
    else CursorAt(cs, i - 1, spaceAfter) + Advance(cs, i - 1, spaceAfter)
  }

  /** The shortest note value among the children with a duration (the largest
      denominator), or None (minus infinity) when no child has one. */
  method MinimumDuration(m: Measure) returns (max: Option<int>)
    ensures max == LargestDuration(m.children)
    ensures max.None? <==> forall i :: 0 <= i < |m.children| ==> m.children[i].duration == 0
    ensures max.Some? ==> exists i :: 0 <= i < |m.children| && m.children[i].duration != 0 &&
                                     m.children[i].duration == max.value
    ensures max.Some? ==> forall i :: 0 <= i < |m.children| && m.children[i].duration != 0 ==>
                                      m.children[i].duration <= max.value
  {
    max := None;
    for i := 0 to |m.children|
      invariant max == LargestDuration(m.children[..i])
      invariant max.None? <==> forall k :: 0 <= k < i ==> m.children[k].duration == 0
      invariant max.Some? ==> exists k :: 0 <= k < i && m.children[k].duration != 0 &&
                                          m.children[k].duration == max.value
      invariant max.Some? ==> forall k :: 0 <= k < i && m.children[k].duration != 0 ==>
                                         m.children[k].duration <= max.value
    {
      var child := m.children[i];
      if child.duration != 0 && (max.None? || child.duration > max.value) {
        max := Some(child.duration);
      }
      assert m.children[..i + 1][..i] == m.children[..i];
    }
    assert m.children[..|m.children|] == m.children;
  }

  /** The note value the neighbourhood constant is computed from: the shortest in the
      measure, but never longer than an eighth. */
  function ShortestNote(minimumDuration: Option<int>): (shortest: int)
    ensures shortest >= ShortestNoteFloor
    ensures minimumDuration.Some? ==> shortest >= minimumDuration.value
    ensures shortest == ShortestNoteFloor || (minimumDuration.Some? && shortest == minimumDuration.value)
  {
    if minimumDuration.Some? && minimumDuration.value > ShortestNoteFloor then minimumDuration.value
    else ShortestNoteFloor
  }

  /** Places every child at the cursor and returns where the cursor ends. `spaceAfter`
      is the ideal space after a duration, given the shortest note value the
      neighbourhood constant is computed from. */
  method PositionChords(m: Measure, spaceAfter: (real, int) -> real) returns (curX: real)
    modifies m`children
    ensures |m.children| == |old(m.children)|
    ensures forall i :: 0 <= i < |m.children| ==>
      m.children[i] == PlacedAt(old(m.children)[i], CursorAt(old(m.children), i, spaceAfter))
    ensures curX == CursorAt(old(m.children), |old(m.children)|, spaceAfter)
  {
    var minimumDuration := MinimumDuration(m);
    var shortestNote := ShortestNote(minimumDuration);
    var children;
    children, curX := PlaceChildren(m.children, shortestNote, spaceAfter);
    m.children := children;
  }

  /** The loop of positionChords: each child at the cursor, which then moves past it. */
  method PlaceChildren(cs: seq<Child>, shortestNote: int, spaceAfter: (real, int) -> real)
    returns (children: seq<Child>, curX: real)
    requires shortestNote == ShortestNote(LargestDuration(cs))
    ensures |children| == |cs|
    ensures PlacedUpTo(children, cs, |cs|, spaceAfter)
    ensures curX == CursorAt(cs, |cs|, spaceAfter)
  {
    children := cs;
    curX := InitialPadding;
    for i := 0 to |children|
      invariant |children| == |cs|
      invariant curX == CursorAt(cs, i, spaceAfter)
      invariant PlacedUpTo(children, cs, i, spaceAfter)
      invariant forall k :: i <= k < |children| ==> children[k] == cs[k]
    {
      var chord := children[i];
      children := children[i := PlacedAt(chord, curX)];
      if chord.duration != 0 {
        curX := curX + spaceAfter(chord.durationWithDots, shortestNote);
      } else {
        var startNext;
        if i + 1 < |children| {
          startNext := children[i + 1].info.topLeftX;
        } else {
          startNext := 0.0;
        }
        curX := curX + chord.info.width + Padding + -startNext;
      }
      assert curX == CursorAt(cs, i, spaceAfter) + Advance(cs, i, spaceAfter);
    }
  }

  /** The first `i` children are placed at their cursor positions. */
  ghost predicate PlacedUpTo(children: seq<Child>, cs: seq<Child>, i: nat, spaceAfter: (real, int) -> real)
    requires |children| == |cs| && i <= |cs|
  {
    forall k :: 0 <= k < i ==> children[k] == PlacedAt(cs[k], CursorAt(cs, k, spaceAfter))
  }

  /** Lays out the measure: positions the children and sets the width to where the
      cursor ended, but at least four spaces. */
  method Format(m: Measure, spaceAfter: (real, int) -> real)
    modifies m`children, m`width
    ensures |m.children| == |old(m.children)|
    ensures forall i :: 0 <= i < |m.children| ==>
      m.children[i] == PlacedAt(old(m.children)[i], CursorAt(old(m.children), i, spaceAfter))
    ensures |m.children| > 0 ==> m.children[0].info.renderX == InitialPadding
    ensures m.width >= MinimumWidth && m.width >= CursorAt(old(m.children), |old(m.children)|, spaceAfter)
    ensures m.width == MinimumWidth || m.width == CursorAt(old(m.children), |old(m.children)|, spaceAfter)
  {
    var width := PositionChords(m, spaceAfter);
    m.width := if width < MinimumWidth then MinimumWidth else width;
  }

  /** A child without a duration is followed by padding: the next child's left edge
      (its position plus its left offset) lies exactly one padding past this child's
      right edge. */
  lemma GapAfterNonDurational(cs: seq<Child>, i: nat, spaceAfter: (real, int) -> real)
    requires i + 1 < |cs| && cs[i].duration == 0
    ensures CursorAt(cs, i + 1, spaceAfter) + cs[i + 1].info.topLeftX ==
            CursorAt(cs, i, spaceAfter) + cs[i].info.width + Padding
  {
  }

  /** While no advance is negative, the cursor never stands left of where it started. */
  lemma {:induction false} CursorNotBeforeStart(cs: seq<Child>, i: nat, spaceAfter: (real, int) -> real)
    requires i <= |cs|
    requires forall k :: 0 <= k < i ==> Advance(cs, k, spaceAfter) >= 0.0
    ensures CursorAt(cs, i, spaceAfter) >= InitialPadding
  {
    if i > 0 {
      CursorNotBeforeStart(cs, i - 1, spaceAfter);
    }
  }

  /** When every advance is positive, the children are placed strictly left to right. */
  lemma {:induction false} PositionsIncrease(cs: seq<Child>, i: nat, j: nat, spaceAfter: (real, int) -> real)
    requires forall k :: 0 <= k < |cs| ==> Advance(cs, k, spaceAfter) > 0.0
    requires i < j <= |cs|
    ensures CursorAt(cs, i, spaceAfter) < CursorAt(cs, j, spaceAfter)
    decreases j - i
  {
    if i + 1 < j {
      PositionsIncrease(cs, i, j - 1, spaceAfter);
    }
  }
}

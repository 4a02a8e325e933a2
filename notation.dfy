/** The score nodes the layout core reads and writes: notes, dots, articulations,
    display boxes, and the chord whose fields the chord formatter updates in place.
    Positions are in staff spaces; a vertical position (renderY) that is an integer is a
    staff line, a half-integer is a space, and a smaller renderY is a higher pitch. */
module Notation {

  datatype Option<+T> = None | Some(value: T)

  /** A notehead. `accidentalX` is null (None) until the accidental pass assigns it. */
  datatype Note = Note(renderY: real, renderX: real, hasAccidental: bool, accidentalX: Option<real>)

  /** One dot glyph of a chord's dot group: the number of dots and its vertical slot. */
  datatype Dot = Dot(count: int, renderY: real)

  /** An articulation mark: whether it sits close to the notehead (staccato) or far
      (accent), the stem direction it was told, and its position. */
  datatype Articulation = Articulation(isClose: bool, direction: int, renderX: real, renderY: real)

  /** The `displayInfo` record every node carries. */
  datatype DisplayInfo = DisplayInfo(renderX: real, renderY: real, topLeftX: real, width: real, height: real)

  function Abs(x: real): real
  {
    if x < 0.0 then -x else x
  }

  /** `x` is a whole number of staff spaces. */
  predicate Whole(x: real)
  {
    x.Floor as real == x
  }

  lemma WholeSum(a: real, b: real)
    requires Whole(a) && Whole(b)
    ensures Whole(a + b)
  {
    assert a + b == (a.Floor + b.Floor) as real;
  }

  /** The vertical positions of a sequence of notes, in order. */
  function Ys(ns: seq<Note>): (ys: seq<real>)
    ensures |ys| == |ns|
    ensures forall i :: 0 <= i < |ns| ==> ys[i] == ns[i].renderY
  {
    seq(|ns|, i requires 0 <= i < |ns| => ns[i].renderY)
  }

  /** `a` may come before `b` in pitch order: highest pitch first is ascending renderY. */
  predicate InPitchOrder(a: Note, b: Note, highestFirst: bool)
  {
    if highestFirst then a.renderY <= b.renderY else b.renderY <= a.renderY
  }

  predicate PitchOrdered(ns: seq<Note>, highestFirst: bool)
  {
    forall i, j :: 0 <= i < j < |ns| ==> InPitchOrder(ns[i], ns[j], highestFirst)
  }

  /** `s` is `orig` sorted by pitch: what the chord's sortNotesByPitch leaves behind. */
  predicate IsPitchOrder(s: seq<Note>, orig: seq<Note>, highestFirst: bool)
  {
    multiset(s) == multiset(orig) && PitchOrdered(s, highestFirst)
  }

  /** Inserts `n` into a pitch-ordered sequence, keeping it ordered. */
  function InsertByPitch(s: seq<Note>, n: Note, highestFirst: bool): (r: seq<Note>)
    requires PitchOrdered(s, highestFirst)
    ensures PitchOrdered(r, highestFirst)
    ensures multiset(r) == multiset(s) + multiset{n}
  {
    if s == [] || InPitchOrder(n, s[0], highestFirst) then
      assert forall k :: 0 <= k < |s| ==> InPitchOrder(n, s[k], highestFirst) by {
        forall k | 0 <= k < |s| ensures InPitchOrder(n, s[k], highestFirst) {
          if k > 0 { assert InPitchOrder(s[0], s[k], highestFirst); }
        }
      }
      assert s == [] || !InPitchOrder(n, s[0], highestFirst) || PitchOrdered([n] + s, highestFirst);
      [n] + s
    else
      var tail := InsertByPitch(s[1..], n, highestFirst);
      assert s == [s[0]] + s[1..];
      HeadPrecedesInsertion(s, n, tail, highestFirst);
      [s[0]] + tail
  }

  lemma HeadPrecedesInsertion(s: seq<Note>, n: Note, tail: seq<Note>, highestFirst: bool)
    requires s != [] && PitchOrdered(s, highestFirst) && !InPitchOrder(n, s[0], highestFirst)
    requires PitchOrdered(tail, highestFirst)
    requires multiset(tail) == multiset(s[1..]) + multiset{n}
    ensures PitchOrdered([s[0]] + tail, highestFirst)
  {
    forall k | 0 <= k < |tail| ensures InPitchOrder(s[0], tail[k], highestFirst) {
      assert tail[k] in multiset(tail);
      if tail[k] != n {
        assert tail[k] in multiset(s[1..]);
        var j :| 0 <= j < |s[1..]| && s[1..][j] == tail[k];
        assert s[j + 1] == tail[k];
      }
    }
    var r := [s[0]] + tail;
    forall i, j | 0 <= i < j < |r| ensures InPitchOrder(r[i], r[j], highestFirst) {
      if i > 0 { assert r[i] == tail[i - 1] && r[j] == tail[j - 1]; }
      else { assert r[j] == tail[j - 1]; }
    }
  }

  /** The notes, each changed by `f`. */
  function MapNotes(f: Note -> Note, ns: seq<Note>): (r: seq<Note>)
    ensures |r| == |ns|
    ensures forall i :: 0 <= i < |ns| ==> r[i] == f(ns[i])
  {
    seq(|ns|, i requires 0 <= i < |ns| => f(ns[i]))
  }

  /** Changing every note the same way keeps two reorderings of one chord reorderings of
      each other. */
  lemma {:induction false} MapPermutation(f: Note -> Note, a: seq<Note>, b: seq<Note>)
    requires multiset(a) == multiset(b)
    ensures multiset(MapNotes(f, a)) == multiset(MapNotes(f, b))
    decreases |a|
  {
    if a == [] {
      assert |b| == |multiset(b)| == 0;
      assert MapNotes(f, b) == [];
    } else {
      assert a[0] in multiset(b);
      var k :| 0 <= k < |b| && b[k] == a[0];
      var rest := b[..k] + b[k+1..];
      MultisetRemoveMatching(a, b, k);
      MapPermutation(f, a[1..], rest);
      assert MapNotes(f, a) == [f(a[0])] + MapNotes(f, a[1..]);
      assert MapNotes(f, rest) == MapNotes(f, b[..k]) + MapNotes(f, b[k+1..]);
      assert MapNotes(f, b) == MapNotes(f, b[..k]) + [f(b[k])] + MapNotes(f, b[k+1..]);
    }
  }

  /** The positions in reverse order. */
  function Reversed(s: seq<real>): (r: seq<real>)
    ensures |r| == |s|
    ensures forall i :: 0 <= i < |s| ==> r[i] == s[|s| - 1 - i]
  {
    seq(|s|, i requires 0 <= i < |s| => s[|s| - 1 - i])
  }

  lemma {:induction false} ReversedMultiset(s: seq<real>)
    ensures multiset(Reversed(s)) == multiset(s)
    decreases |s|
  {
    if s != [] {
      ReversedMultiset(s[1..]);
      assert Reversed(s) == Reversed(s[1..]) + [s[0]];
      assert s == [s[0]] + s[1..];
    }
  }

  predicate Ascending(s: seq<real>)
  {
    forall i, j :: 0 <= i < j < |s| ==> s[i] <= s[j]
  }

  /** Two ascending sequences holding the same positions are equal. */
  lemma {:induction false} AscendingUnique(a: seq<real>, b: seq<real>)
    requires Ascending(a) && Ascending(b) && multiset(a) == multiset(b)
    ensures a == b
    decreases |a|
  {
    if a == [] {
      assert |b| == |multiset(b)| == 0;
    } else {
      assert b != [] by { assert |b| == |multiset(b)| == |multiset(a)| == |a|; }
      AscendingHeads(a, b);
      TailsPermutation(a, b);
      AscendingTail(a);
      AscendingTail(b);
      AscendingUnique(a[1..], b[1..]);
      SameHeadAndTail(a, b);
    }
  }

  lemma TailsPermutation<T>(a: seq<T>, b: seq<T>)
    requires multiset(a) == multiset(b) && a != [] && b != [] && a[0] == b[0]
    ensures multiset(a[1..]) == multiset(b[1..])
  {
    MultisetRemoveMatching(a, b, 0);
    assert b[..0] + b[1..] == b[1..];
  }

  lemma AscendingTail(s: seq<real>)
    requires Ascending(s) && s != []
    ensures Ascending(s[1..])
  {
    forall i, j | 0 <= i < j < |s| - 1
      ensures s[1..][i] <= s[1..][j]
    {
      assert s[1..][i] == s[i + 1] && s[1..][j] == s[j + 1];
    }
  }

  lemma SameHeadAndTail<T>(a: seq<T>, b: seq<T>)
    requires a != [] && b != [] && a[0] == b[0] && a[1..] == b[1..]
    ensures a == b
  {
    assert a == [a[0]] + a[1..] && b == [b[0]] + b[1..];
  }

  lemma AscendingHeads(a: seq<real>, b: seq<real>)
    requires Ascending(a) && Ascending(b) && multiset(a) == multiset(b)
    requires a != [] && b != []
    ensures a[0] == b[0]
  {
    assert a[0] in multiset(b);
    var k :| 0 <= k < |b| && b[k] == a[0];
    assert b[0] in multiset(a);
    var j :| 0 <= j < |a| && a[j] == b[0];
  }

  /** Reordering the notes keeps the positions they hold. */
  lemma {:induction false} YsPermutation(a: seq<Note>, b: seq<Note>)
    requires multiset(a) == multiset(b)
    ensures multiset(Ys(a)) == multiset(Ys(b))
    decreases |a|
  {
    if a == [] {
      assert |b| == |multiset(b)| == 0;
      assert Ys(b) == [];
    } else {
      assert a[0] in multiset(b);
      var k :| 0 <= k < |b| && b[k] == a[0];
      var rest := b[..k] + b[k+1..];
      MultisetRemoveMatching(a, b, k);
      YsPermutation(a[1..], rest);
      assert Ys(a) == [a[0].renderY] + Ys(a[1..]);
      assert Ys(rest) == Ys(b[..k]) + Ys(b[k+1..]);
      assert Ys(b) == Ys(b[..k]) + [b[k].renderY] + Ys(b[k+1..]);
    }
  }

  /** Notes in the same pitch order holding the same positions hold them in the same
      order, whatever the order of notes of equal pitch. */
  lemma SameOrderYs(a: seq<Note>, b: seq<Note>, highestFirst: bool)
    requires PitchOrdered(a, highestFirst) && PitchOrdered(b, highestFirst)
    requires multiset(Ys(a)) == multiset(Ys(b))
    ensures Ys(a) == Ys(b)
  {
    if highestFirst {
      AscendingUnique(Ys(a), Ys(b));
    } else {
      ReversedMultiset(Ys(a));
      ReversedMultiset(Ys(b));
      AscendingUnique(Reversed(Ys(a)), Reversed(Ys(b)));
      assert Reversed(Reversed(Ys(a))) == Ys(a);
      assert Reversed(Reversed(Ys(b))) == Ys(b);
    }
  }

  /** Sorting notes that are already in pitch order leaves every position where it was
      (notes of equal pitch may trade places). */
  lemma ResortKeepsYs(a: seq<Note>, b: seq<Note>, highestFirst: bool)
    requires IsPitchOrder(a, b, highestFirst) && PitchOrdered(b, highestFirst)
    ensures Ys(a) == Ys(b)
  {
    YsPermutation(a, b);
    SameOrderYs(a, b, highestFirst);
  }

  /** Two pitch orders of notes holding the same positions agree on them: exactly for the
      same order, reversed for opposite orders. */
  lemma OrderedYs(a: seq<Note>, b: seq<Note>, highestFirst: bool)
    requires PitchOrdered(a, true) && PitchOrdered(b, highestFirst)
    requires multiset(Ys(a)) == multiset(Ys(b))
    ensures Ys(b) == if highestFirst then Ys(a) else Reversed(Ys(a))
  {
    if highestFirst {
      AscendingUnique(Ys(a), Ys(b));
    } else {
      ReversedMultiset(Ys(b));
      AscendingUnique(Ys(a), Reversed(Ys(b)));
      assert Reversed(Reversed(Ys(b))) == Ys(b);
    }
  }

  /** The sum of the notes' vertical positions (the chord's "centre of gravity"). */
  function SumY(ns: seq<Note>): real
  {
    if ns == [] then 0.0 else ns[0].renderY + SumY(ns[1..])
  }

  lemma {:induction false} SumYAppend(a: seq<Note>, b: seq<Note>)
    ensures SumY(a + b) == SumY(a) + SumY(b)
  {
    if a == [] {
      assert a + b == b;
    } else {
      assert (a + b)[1..] == a[1..] + b;
      SumYAppend(a[1..], b);
    }
  }

  lemma {:induction false} SumYRemove(b: seq<Note>, k: nat)
    requires k < |b|
    ensures SumY(b) == b[k].renderY + SumY(b[..k] + b[k+1..])
  {
    if k > 0 {
      SumYRemove(b[1..], k - 1);
      assert b[1..][..k - 1] + b[1..][k..] == (b[..k] + b[k+1..])[1..];
    } else {
      assert b[..k] + b[k+1..] == b[1..];
    }
  }

  lemma MultisetRemoveMatching<T>(a: seq<T>, b: seq<T>, k: nat)
    requires multiset(a) == multiset(b) && a != [] && k < |b| && b[k] == a[0]
    ensures multiset(a[1..]) == multiset(b[..k] + b[k+1..])
  {
    assert b == b[..k] + [b[k]] + b[k+1..];
    assert a == [a[0]] + a[1..];
    calc {
      multiset(a[1..]);
      multiset(a) - multiset{a[0]};
      multiset(b) - multiset{b[k]};
      multiset(b[..k]) + multiset(b[k+1..]);
      multiset(b[..k] + b[k+1..]);
    }
  }

  /** Reordering the notes does not change their sum, so no sort by pitch changes the
      stem direction computed from it. */
  lemma {:induction false} SumYPermutation(a: seq<Note>, b: seq<Note>)
    requires multiset(a) == multiset(b)
    ensures SumY(a) == SumY(b)
    decreases |a|
  {
    if a == [] {
      assert |b| == |multiset(b)| == 0;
    } else {
      assert a[0] in multiset(b);
      var k :| 0 <= k < |b| && b[k] == a[0];
      var rest := b[..k] + b[k+1..];
      MultisetRemoveMatching(a, b, k);
      SumYPermutation(a[1..], rest);
      SumYRemove(b, k);
    }
  }

  /** A chord: its notes (the note group's children; none for a rest), its stem, dot
      group, articulation and ledger lines. Fields that the chord formatter writes are
      `var`s; what it only reads is `const`. */
  class Chord {
    /** The duration as a denominator (4 is a quarter). */
    const duration: int
    const numDots: int
    /** Whether the stem table has an entry for this duration. */
    const hasStem: bool
    /** False for a rest, which has no note group. */
    const hasNoteGroup: bool
    /** The note group's box, as the metrics of the tree had it before formatting. */
    const groupBox: DisplayInfo
    /** The rest glyph's box (used only when there is no note group). */
    const restBox: DisplayInfo

    var notes: seq<Note>
    var stemDirection: int
    var stemStartY: real
    var stemEndY: real
    var topLeftX: real
    var width: real
    /** The dot group's horizontal position and its dots. */
    var dotsX: real
    var dots: seq<Dot>
    var articulation: Option<Articulation>
    var insideLedgerLines: seq<int>

    constructor (duration: int, numDots: int, hasStem: bool, hasNoteGroup: bool,
                 groupBox: DisplayInfo, restBox: DisplayInfo,
                 notes: seq<Note>, articulation: Option<Articulation>)
      ensures this.duration == duration && this.numDots == numDots
      ensures this.hasStem == hasStem && this.hasNoteGroup == hasNoteGroup
      ensures this.groupBox == groupBox && this.restBox == restBox
      ensures this.notes == notes && this.articulation == articulation
      ensures this.dots == [] && this.insideLedgerLines == []
    {
      this.duration := duration;
      this.numDots := numDots;
      this.hasStem := hasStem;
      this.hasNoteGroup := hasNoteGroup;
      this.groupBox := groupBox;
      this.restBox := restBox;
      this.notes := notes;
      this.articulation := articulation;
      this.dots := [];
      this.insideLedgerLines := [];
    }

    /** Reorders the notes by pitch, highest first when `highestFirst`. The code lives
        outside the layout core; callers rely on this contract only, and the order of
        notes of equal pitch is left open. */
    method SortNotesByPitch(highestFirst: bool)
      modifies this`notes
      ensures stemDirection == old(stemDirection) && stemStartY == old(stemStartY)
        && stemEndY == old(stemEndY) && width == old(width) && topLeftX == old(topLeftX)
        && dotsX == old(dotsX) && dots == old(dots) && articulation == old(articulation)
        && insideLedgerLines == old(insideLedgerLines)
      ensures IsPitchOrder(notes, old(notes), highestFirst)
    {
      var sorted: seq<Note> := [];
      for i := 0 to |notes|
        invariant PitchOrdered(sorted, highestFirst)
        invariant multiset(sorted) == multiset(notes[..i])
      {
        assert notes[..i + 1] == notes[..i] + [notes[i]];
        sorted := InsertByPitch(sorted, notes[i], highestFirst);
      }
      assert notes[..|notes|] == notes;
      notes := sorted;
    }
  }
}

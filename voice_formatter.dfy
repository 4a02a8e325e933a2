/** Horizontal layout of one voice: its measures are placed side by side from one space
    in, with no padding between them, and the voice is as wide as the cursor went. */
module VoiceFormatter {
  import opened Notation

  const InitialPadding: real := 1.0
  const Padding: real := 0.0

  /** A voice: the display boxes of its measures, which the formatter places, and its
      width. */
  class Voice {
    var children: seq<DisplayInfo>
    var width: real

    constructor (children: seq<DisplayInfo>)
      ensures this.children == children
    {
      this.children := children;
    }
  }

  /** The total width of the measures: not negative when no width is. */
  function SumWidths(ms: seq<DisplayInfo>): (total: real)
    ensures ms == [] ==> total == 0.0
    ensures (forall k :: 0 <= k < |ms| ==> ms[k].width >= 0.0) ==> total >= 0.0
  {
    if ms == [] then 0.0 else SumWidths(ms[..|ms| - 1]) + ms[|ms| - 1].width
  }

  /** Places each measure at the cursor, one space plus the widths of the measures
      before it, and returns the cursor after the last. */
  method PositionMeasures(v: Voice) returns (curX: real)
    modifies v`children
    ensures |v.children| == |old(v.children)|
    ensures forall i :: 0 <= i < |v.children| ==>
      v.children[i] == old(v.children)[i].(renderX := InitialPadding + SumWidths(old(v.children)[..i]))
    ensures curX == InitialPadding + SumWidths(old(v.children))
  {
    ghost var ms := v.children;
    curX := InitialPadding;
    for i := 0 to |v.children|
      invariant |v.children| == |ms|
      invariant curX == InitialPadding + SumWidths(ms[..i])
      invariant forall k :: 0 <= k < i ==> v.children[k] == ms[k].(renderX := InitialPadding + SumWidths(ms[..k]))
      invariant forall k :: i <= k < |ms| ==> v.children[k] == ms[k]
    {
      var measure := v.children[i];
      v.children := v.children[i := measure.(renderX := curX)];
      assert ms[..i + 1][..i] == ms[..i];
      curX := curX + measure.width + Padding;
    }
    assert ms[..|ms|] == ms;
  }

  /** Lays out the voice: places the measures and sets the width to the final cursor. */
  method Format(v: Voice)
    modifies v`children, v`width
    ensures |v.children| == |old(v.children)|
    ensures forall i :: 0 <= i < |v.children| ==>
      v.children[i] == old(v.children)[i].(renderX := InitialPadding + SumWidths(old(v.children)[..i]))
    ensures v.width == InitialPadding + SumWidths(old(v.children))
  {
    var finalWidth := PositionMeasures(v);
    v.width := finalWidth;
  }

  /** Measures abut: each starts where the one before it ends. */
  lemma MeasuresAbut(ms: seq<DisplayInfo>, i: nat)
    requires 0 < i < |ms|
    ensures InitialPadding + SumWidths(ms[..i]) ==
            InitialPadding + SumWidths(ms[..i - 1]) + ms[i - 1].width
  {
    assert ms[..i][..i - 1] == ms[..i - 1];
  }

  /** The widths of the first `i` measures and of the rest add up to the total. */
  lemma {:induction false} SumWidthsSplit(ms: seq<DisplayInfo>, i: nat)
    requires i <= |ms|
    ensures SumWidths(ms) == SumWidths(ms[..i]) + SumWidths(ms[i..])
    decreases |ms|
  {
    if i < |ms| {
      SumWidthsSplit(ms[..|ms| - 1], i);
      assert ms[..|ms| - 1][..i] == ms[..i];
      assert ms[i..][..|ms[i..]| - 1] == ms[..|ms| - 1][i..];
    } else {
      assert ms[..i] == ms;
      assert ms[i..] == [];
    }
  }

  /** With no negative widths, every measure ends within the voice. */
  lemma MeasuresWithinVoice(ms: seq<DisplayInfo>, i: nat)
    requires forall k :: 0 <= k < |ms| ==> ms[k].width >= 0.0
    requires i < |ms|
    ensures InitialPadding + SumWidths(ms[..i]) + ms[i].width <= InitialPadding + SumWidths(ms)
  {
    SumWidthsSplit(ms, i + 1);
    assert ms[..i + 1][..i] == ms[..i];
    var rest := ms[i + 1..];
    assert forall k :: 0 <= k < |rest| ==> rest[k] == ms[i + 1 + k];
  }
}

/** Vertical layout of a score: its parts are stacked twelve spaces apart from the top. */
module ScoreFormatter {
  import opened Notation

  /** The vertical distance from one part's staff to the next. */
  const SpaceBetweenStaves: real := 12.0

  /** A score: the display boxes of its parts, which the formatter places. */
  class Score {
    var children: seq<DisplayInfo>

    constructor (children: seq<DisplayInfo>)
      ensures this.children == children
    {
      this.children := children;
    }
  }

  /** Places part `i` at renderY 12·i and changes nothing else. */
  method PositionParts(s: Score)
    modifies s`children
    ensures |s.children| == |old(s.children)|
    ensures forall i :: 0 <= i < |s.children| ==>
      s.children[i] == old(s.children)[i].(renderY := SpaceBetweenStaves * i as real)
  {
    var curY := 0.0;
    for i := 0 to |s.children|
      invariant |s.children| == |old(s.children)|
      invariant curY == SpaceBetweenStaves * i as real
      invariant forall k :: 0 <= k < i ==> s.children[k] == old(s.children)[k].(renderY := SpaceBetweenStaves * k as real)
      invariant forall k :: i <= k < |s.children| ==> s.children[k] == old(s.children)[k]
    {
      var part := s.children[i];
      s.children := s.children[i := part.(renderY := curY)];
      curY := curY + 12.0;
    }
  }
}

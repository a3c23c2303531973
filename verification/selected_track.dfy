/** The selected track: an overlay that starts at the track's centre and
    grows towards the thumb. Its width follows three branches keyed on
    whether the value sits exactly on the minimum, exactly on the maximum,
    or in between. */
module SelectedTrack {
  import opened Layout
  import opened Mapping
  import opened RealFacts

  /** The overlay's frame along x: its origin and its signed width (negative
      when the thumb is left of the centre). */
  datatype Span = Span(x: real, width: real) {
    function End(): real { x + width }
  }

  /** Places the overlay for a thumb centred at `thumbX`. The thumb's frame
      starts half a thumb left of its centre; the width is the distance from
      the track centre to that frame's left edge, plus nothing at the minimum,
      a whole thumb at the maximum and half a thumb in between. */
  function SelectedSpan(t: Track, thumbX: real, thumbSize: real, v: real, mn: real, mx: real): (s: Span)
    ensures s.x == t.CenterX()
    ensures v == mn ==> s.End() == thumbX - thumbSize / 2.0
    ensures v != mn && v == mx ==> s.End() == thumbX + thumbSize / 2.0
    ensures v != mn && v != mx ==> s.End() == thumbX
  {
    var thumbLeft := thumbX - thumbSize / 2.0;
    var halfWidthThumb := thumbSize * 0.5;
    var diff := thumbLeft - t.CenterX();
    var width :=
      if v == mn then diff
      else if v == mx then diff + halfWidthThumb * 2.0
      else diff + halfWidthThumb;
    Span(t.CenterX(), width)
  }

  /** The overlay for the thumb the forward map places. */
  function SpanFor(t: Track, thumbSize: real, mn: real, mx: real, v: real): Span
    requires mx != mn
  {
    SelectedSpan(t, ThumbCenter(t, thumbSize, mn, mx, v).x, thumbSize, v, mn, mx)
  }

  /** With the forward map's thumb, the overlay ends exactly on the track's
      left edge at the minimum, on its right edge at the maximum, and under
      the thumb's centre in between. */
  lemma SelectedReachesTrackEdges(t: Track, thumbSize: real, mn: real, mx: real, v: real)
    requires mx != mn
    ensures SpanFor(t, thumbSize, mn, mx, v).x == t.CenterX()
    ensures v == mn ==> SpanFor(t, thumbSize, mn, mx, v).End() == t.left
    ensures v == mx ==> SpanFor(t, thumbSize, mn, mx, v).End() == t.Right()
    ensures v != mn && v != mx
        ==> SpanFor(t, thumbSize, mn, mx, v).End() == ThumbCenter(t, thumbSize, mn, mx, v).x
  {
  }

  /** Over a track at least as wide as the thumb, the overlay's end never
      moves left as the value grows, across all three branches, and stays
      on the track. */
  lemma SelectedEndMonotone(t: Track, thumbSize: real, mn: real, mx: real, v1: real, v2: real)
    requires mn < mx && mn <= v1 <= v2 <= mx
    requires 0.0 <= thumbSize <= t.width
    ensures t.left <= SpanFor(t, thumbSize, mn, mx, v1).End()
    ensures SpanFor(t, thumbSize, mn, mx, v1).End() <= SpanFor(t, thumbSize, mn, mx, v2).End()
    ensures SpanFor(t, thumbSize, mn, mx, v2).End() <= t.Right()
  {
    ThumbMonotone(t, thumbSize, mn, mx, mn, v1);
    ThumbMonotone(t, thumbSize, mn, mx, v1, v2);
    ThumbMonotone(t, thumbSize, mn, mx, v2, mx);
  }
}

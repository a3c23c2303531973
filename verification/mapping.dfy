/** The two maps between values and x coordinates: the forward map places
    the thumb for a value, the inverse map turns a touch into a value.
    They are not inverse to each other: the forward map keeps the thumb
    inside the track by spanning `width - thumbSize` from `left + thumbSize/2`,
    while the inverse map spans the whole track width from its left edge. */
module Mapping {
  import opened Geometry
  import opened ValueStore
  import opened Layout
  import opened RealFacts

  /** Where the thumb's centre goes for value `v`. The platform divides by
      `mx - mn` unguarded, so equal bounds are excluded here. */
  function ThumbCenter(t: Track, thumbSize: real, mn: real, mx: real, v: real): (p: Point)
    requires mx != mn
    ensures p.y == t.midY
    ensures v == mn ==> p.x == t.left + thumbSize / 2.0
    ensures v == mx ==> p.x == t.Right() - thumbSize / 2.0
  {
    var perc := (v - mn) / (mx - mn);
    var trackWidth := t.width - thumbSize;
    var left := t.CenterX() - trackWidth / 2.0;
    DivSelf(mx - mn);
    Point(left + trackWidth * perc, t.midY)
  }

  /** The value a touch at `x` stands for: the touch's fraction of the track
      width, pinned to `[0, 1]`, scaled onto the value range. */
  function ValueForLocation(t: Track, mn: real, mx: real, x: real): (r: real)
    requires t.width != 0.0
    ensures mn <= mx ==> mn <= r <= mx
    ensures mx <= mn ==> mx <= r <= mn
    ensures t.width > 0.0 && x <= t.left ==> r == mn
    ensures t.width > 0.0 && t.Right() <= x ==> r == mx
  {
    var perc := Clamp((x - t.left) / t.width, 0.0, 1.0);
    DivAtLeastOne(x - t.left, t.width);
    ScaleOnto(perc, mn, mx)
  }

  /** `perc * (mx - mn) + mn`, the point a fraction of the way from mn to mx. */
  function ScaleOnto(perc: real, mn: real, mx: real): (r: real)
    requires 0.0 <= perc <= 1.0
    ensures mn <= mx ==> mn <= r <= mx
    ensures mx <= mn ==> mx <= r <= mn
    ensures perc == 0.0 ==> r == mn
    ensures perc == 1.0 ==> r == mx
  {
    FractionBetween(perc, mx - mn);
    perc * (mx - mn) + mn
  }

  lemma ScaleOntoMonotone(p1: real, p2: real, mn: real, mx: real)
    requires 0.0 <= p1 <= p2 <= 1.0 && mn <= mx
    ensures ScaleOnto(p1, mn, mx) <= ScaleOnto(p2, mn, mx)
  {
    MulLeftMonotone(mx - mn, p1, p2);
    assert (mx - mn) * p1 <= (mx - mn) * p2;
    assert p1 * (mx - mn) <= p2 * (mx - mn);
    assert ScaleOnto(p1, mn, mx) == p1 * (mx - mn) + mn;
  }

  /** For ascending bounds and a track at least as wide as the thumb, a larger
      value never moves the thumb to the left. */
  lemma ThumbMonotone(t: Track, thumbSize: real, mn: real, mx: real, v1: real, v2: real)
    requires mn < mx && thumbSize <= t.width && v1 <= v2
    ensures ThumbCenter(t, thumbSize, mn, mx, v1).x <= ThumbCenter(t, thumbSize, mn, mx, v2).x
  {
    DivMonotone(v1 - mn, v2 - mn, mx - mn);
    MulLeftMonotone(t.width - thumbSize, (v1 - mn) / (mx - mn), (v2 - mn) / (mx - mn));
  }

  /** A touch further right never gives a smaller value (ascending bounds,
      positive width). */
  lemma ValueForLocationMonotone(t: Track, mn: real, mx: real, x1: real, x2: real)
    requires t.width > 0.0 && mn <= mx && x1 <= x2
    ensures ValueForLocation(t, mn, mx, x1) <= ValueForLocation(t, mn, mx, x2)
  {
    DivMonotone(x1 - t.left, x2 - t.left, t.width);
    var p1 := Clamp((x1 - t.left) / t.width, 0.0, 1.0);
    var p2 := Clamp((x2 - t.left) / t.width, 0.0, 1.0);
    ClampMonotone((x1 - t.left) / t.width, (x2 - t.left) / t.width, 0.0, 1.0);
    ScaleOntoMonotone(p1, p2, mn, mx);
    assert ValueForLocation(t, mn, mx, x1) == ScaleOnto(p1, mn, mx);
    assert ValueForLocation(t, mn, mx, x2) == ScaleOnto(p2, mn, mx);
  }

  /** The thumb's centre measured from the track's left edge: half a thumb
      plus the value's fraction of the track width left after the thumb. */
  lemma ThumbOffset(t: Track, thumbSize: real, mn: real, mx: real, v: real)
    requires mx != mn
    ensures ThumbCenter(t, thumbSize, mn, mx, v).x - t.left
         == thumbSize / 2.0 + (t.width - thumbSize) * ((v - mn) / (mx - mn))
  {
  }

  /** Touching the thumb's centre gives back the thumb's value exactly when
      the thumb has no size or the value is the middle of the range: the
      forward map insets the thumb by half its size at both ends and the
      inverse map does not. */
  lemma RoundTripIff(t: Track, thumbSize: real, mn: real, mx: real, v: real)
    requires mn < mx && mn <= v <= mx
    requires 0.0 <= thumbSize <= t.width && 0.0 < t.width
    ensures ValueForLocation(t, mn, mx, ThumbCenter(t, thumbSize, mn, mx, v).x) == v
        <==> thumbSize == 0.0 || v == (mn + mx) / 2.0
  {
    RoundTripValue(t, thumbSize, mn, mx, v);
    RoundTripClosedForm(t.width, thumbSize, mn, mx, v);
  }

  /** The round trip's closed form returns `v` iff the thumb has no size or
      `v` is the middle of the range. */
  lemma RoundTripClosedForm(w: real, thumbSize: real, mn: real, mx: real, v: real)
    requires mn < mx && mn <= v <= mx
    requires 0.0 <= thumbSize <= w && 0.0 < w
    ensures (thumbSize / 2.0 + (w - thumbSize) * ((v - mn) / (mx - mn))) / w * (mx - mn) + mn == v
        <==> thumbSize == 0.0 || v == (mn + mx) / 2.0
  {
    var d := mx - mn;
    var p := (v - mn) / d;
    FractionInRange(v - mn, d);
    RoundTripAlgebra(p, d, w, thumbSize, mn, v);
    HalfIff(p, d, mn, mx, v);
  }

  /** The value read back from the thumb's centre, in closed form. */
  lemma RoundTripValue(t: Track, thumbSize: real, mn: real, mx: real, v: real)
    requires mn < mx && mn <= v <= mx
    requires 0.0 <= thumbSize <= t.width && 0.0 < t.width
    ensures ValueForLocation(t, mn, mx, ThumbCenter(t, thumbSize, mn, mx, v).x)
         == (thumbSize / 2.0 + (t.width - thumbSize) * ((v - mn) / (mx - mn))) / t.width * (mx - mn) + mn
  {
    var p := (v - mn) / (mx - mn);
    FractionInRange(v - mn, mx - mn);
    var off := thumbSize / 2.0 + (t.width - thumbSize) * p;
    ThumbOffsetBounds(p, t.width, thumbSize);
    ThumbOffset(t, thumbSize, mn, mx, v);
    OffsetInverse(t, mn, mx, off, ThumbCenter(t, thumbSize, mn, mx, v).x);
  }

  /** The arithmetic core of the round trip: reading `v`'s fraction `p` back
      through the half-thumb inset returns `v` iff `ts == 0` or `p == 1/2`. */
  lemma RoundTripAlgebra(p: real, d: real, w: real, ts: real, mn: real, v: real)
    requires 0.0 < d && 0.0 < w && 0.0 <= p <= 1.0 && 0.0 <= ts <= w
    requires v == p * d + mn
    ensures (ts / 2.0 + (w - ts) * p) / w * d + mn == v <==> ts == 0.0 || p == 0.5
  {
    var off := ts / 2.0 + (w - ts) * p;
    var q := off / w;
    ThumbOffsetBounds(p, w, ts);
    FractionInRange(off, w);
    MulCancel(q, p, d);
    MulCancel(q, p, w);
    assert off - p * w == ts * (0.5 - p);
    ZeroProduct(ts, 0.5 - p);
  }

  lemma HalfIff(p: real, d: real, mn: real, mx: real, v: real)
    requires d == mx - mn && 0.0 < d && v == p * d + mn
    ensures p == 0.5 <==> v == (mn + mx) / 2.0
  {
    MulCancel(p, 0.5, d);
  }

  /** Half a thumb plus a fraction of the rest of the track stays on the track. */
  lemma ThumbOffsetBounds(p: real, w: real, ts: real)
    requires 0.0 <= p <= 1.0 && 0.0 <= ts <= w
    ensures 0.0 <= ts / 2.0 + (w - ts) * p <= w
  {
    assert 0.0 <= w - ts;
    FractionBetween(p, w - ts);
    assert 0.0 <= p * (w - ts) <= w - ts;
    assert (w - ts) * p == p * (w - ts);
  }

  /** A touch `off` points into a positive-width track maps to the fraction
      `off / width` of the value range. */
  lemma OffsetInverse(t: Track, mn: real, mx: real, off: real, x: real)
    requires 0.0 < t.width && 0.0 <= off <= t.width && x == t.left + off
    ensures 0.0 <= off / t.width <= 1.0
    ensures ValueForLocation(t, mn, mx, x) == off / t.width * (mx - mn) + mn
  {
    FractionInRange(off, t.width);
    assert (x - t.left) / t.width == off / t.width;
  }

  /** The default thumb (28 points) on a 200-point track from x = 10 over the
      range [0, 100]: the minimum value puts the thumb's centre at x = 24, and
      a touch there maps to 7, not 0; the middle value 50 and x = 110 do map
      onto each other. */
  lemma RoundTripWithDefaultThumb()
    ensures ThumbCenter(Track(10.0, 200.0, 20.0), 28.0, 0.0, 100.0, 0.0).x == 24.0
    ensures ValueForLocation(Track(10.0, 200.0, 20.0), 0.0, 100.0, 24.0) == 7.0
    ensures ThumbCenter(Track(10.0, 200.0, 20.0), 28.0, 0.0, 100.0, 50.0).x == 110.0
    ensures ValueForLocation(Track(10.0, 200.0, 20.0), 0.0, 100.0, 110.0) == 50.0
  {
  }
}

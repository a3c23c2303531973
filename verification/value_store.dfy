/** The slider's value store: every write through `setValue` pins the value
    to the configured bounds with `max(min(v, maximum), minimum)`. */
module ValueStore {
  import opened Geometry

  /** Pins `v` into `[lo, hi]`: first capped by `hi`, then raised to `lo`,
      so that `lo` wins when the bounds are inverted. */
  function Clamp(v: real, lo: real, hi: real): (r: real)
    ensures lo <= hi ==> lo <= r <= hi
    ensures lo <= v <= hi ==> r == v
    ensures v < lo ==> r == lo
    ensures lo <= hi && hi < v ==> r == hi
    ensures hi < lo ==> r == lo
  {
    Max(Min(v, hi), lo)
  }

  /** Clamping a clamped value changes nothing. */
  lemma ClampIdempotent(v: real, lo: real, hi: real)
    ensures Clamp(Clamp(v, lo, hi), lo, hi) == Clamp(v, lo, hi)
  {
  }

  /** Clamping preserves the order of its inputs. */
  lemma ClampMonotone(v1: real, v2: real, lo: real, hi: real)
    requires v1 <= v2
    ensures Clamp(v1, lo, hi) <= Clamp(v2, lo, hi)
  {
  }
}

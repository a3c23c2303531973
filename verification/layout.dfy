/** Layout of the slider's track inside the control's bounds: the optional
    leading and trailing images each take their own width plus a 13-point
    gap, and an edge without an image keeps a 2-point inset. */
module Layout {
  import opened Geometry

  /** Inset kept at an edge that shows no image. */
  const EdgeInset: real := 2.0
  /** Gap between an edge image and the track. */
  const ImageGap: real := 13.0

  /** The configuration the geometry depends on: the control's bounds size,
      the widths of the minimum- and maximum-value images when they are set,
      and the thumb's side length. */
  datatype Config = Config(
    boundsWidth: real,
    boundsHeight: real,
    leadingImageWidth: Option<real>,
    trailingImageWidth: Option<real>,
    thumbSize: real)

  /** The unselected track as laid out: its left edge, its signed width and
      the vertical middle of the control, where track, dot and thumb sit. */
  datatype Track = Track(left: real, width: real, midY: real) {
    function Right(): real { left + width }

    /** The x coordinate of the track's position, which is also the centre
        dot's and the selected track's origin. */
    function CenterX(): real { left + width / 2.0 }

    function Center(): Point { Point(CenterX(), midY) }
  }

  /** Horizontal space an edge takes: its image plus the gap, or the inset. */
  function EdgeSpace(image: Option<real>): (r: real)
    ensures image.None? ==> r == EdgeInset
    ensures image.Some? ==> r == image.value + ImageGap
  {
    match image
    case None => EdgeInset
    case Some(iw) => iw + ImageGap
  }

  /** The layout pass: the track starts after the leading edge's space and
      ends before the trailing edge's space, taking what remains between. */
  function LayoutTrack(cfg: Config): (t: Track)
    ensures t.left == EdgeSpace(cfg.leadingImageWidth)
    ensures t.Right() == cfg.boundsWidth - EdgeSpace(cfg.trailingImageWidth)
    ensures t.midY == cfg.boundsHeight / 2.0
  {
    var left := match cfg.leadingImageWidth
      case Some(iw) => iw + ImageGap
      case None => EdgeInset;
    var w := cfg.boundsWidth - left;
    var w := match cfg.trailingImageWidth
      case Some(iw) => w - (iw + ImageGap)
      case None => w - EdgeInset;
    Track(left, w, cfg.boundsHeight / 2.0)
  }

  /** The centre dot sits exactly halfway between the track's two ends. */
  lemma CenterDotHalfway(cfg: Config)
    ensures LayoutTrack(cfg).Center().x - LayoutTrack(cfg).left
         == LayoutTrack(cfg).Right() - LayoutTrack(cfg).Center().x
    ensures LayoutTrack(cfg).Center().y == cfg.boundsHeight / 2.0
  {
  }

  /** The span the touch mapping measures against, computed separately from
      the layout pass: it starts at the bounds' origin (taken as 0) and
      subtracts each edge's space from the bounds width. */
  function TouchSpan(cfg: Config): (span: (real, real))
    ensures span.0 + span.1 + EdgeSpace(cfg.trailingImageWidth) == cfg.boundsWidth
    ensures span == (LayoutTrack(cfg).left, LayoutTrack(cfg).width)
  {
    var left := 0.0;
    var w := cfg.boundsWidth;
    var (left, w) := match cfg.leadingImageWidth
      case Some(iw) => (left + (iw + ImageGap), w - (iw + ImageGap))
      case None => (left + EdgeInset, w - EdgeInset);
    var w := match cfg.trailingImageWidth
      case Some(iw) => w - (iw + ImageGap)
      case None => w - EdgeInset;
    (left, w)
  }
}

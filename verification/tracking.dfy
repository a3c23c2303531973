/** The slider control's state and its touch protocol. The state is an
    immutable record; every operation returns the next state. What the
    control hands to the outside world (its action block and the control
    events it sends) is appended to a log of notices. */
module Tracking {
  import opened Geometry
  import opened ValueStore
  import opened Layout
  import opened Mapping
  import opened SelectedTrack

  /** The smallest side of the square a touch must land in to grab the thumb. */
  const MinTouchTarget: real := 44.0

  const DefaultMinimum: real := 0.0
  const DefaultMaximum: real := 1.0
  const DefaultContinuous: bool := true

  datatype ControlEvent = TouchDown | ValueChanged | TouchUpInside

  /** One thing the control told the outside world: a call of its action
      block with a value, or one dispatch of a set of control events. */
  datatype Notice = Action(value: real) | Sent(events: set<ControlEvent>)

  /** The control. `thumb` and `selected` are the positions last given to the
      thumb and the selected-track layers. They are `None` when the bounds
      coincide: the forward map then divides 0 by 0 and the position it
      computes is NaN, which this model does not represent further. */
  datatype Slider = Slider(
    cfg: Config,
    value: real,
    minimumValue: real,
    maximumValue: real,
    continuous: bool,
    hasActionBlock: bool,
    thumb: Option<Point>,
    selected: Option<Span>,
    log: seq<Notice>)
  {
    function TrackLayout(): Track { LayoutTrack(cfg) }

    /** The value lies within the bounds. */
    predicate InRange() { minimumValue <= value <= maximumValue }

    /** The thumb and the overlay show the current value for the current bounds. */
    predicate GeometryCurrent() {
      if minimumValue == maximumValue then thumb.None? && selected.None?
      else
        thumb == Some(ThumbCenter(TrackLayout(), cfg.thumbSize, minimumValue, maximumValue, value)) &&
        selected == Some(SpanFor(TrackLayout(), cfg.thumbSize, minimumValue, maximumValue, value))
    }
  }

  /** The action block's call with `v`, if a block is installed. */
  function ActionCall(s: Slider, v: real): seq<Notice>
  {
    if s.hasActionBlock then [Action(v)] else []
  }

  /** Moves the thumb and the overlay to where the current value puts them. */
  function UpdateThumbPosition(s: Slider): (r: Slider)
    ensures r.GeometryCurrent()
    ensures r == s.(thumb := r.thumb, selected := r.selected)
    ensures r.thumb.Some? ==> r.thumb.value.y == s.cfg.boundsHeight / 2.0
  {
    if s.minimumValue == s.maximumValue then s.(thumb := None, selected := None)
    else
      var t := s.TrackLayout();
      var c := ThumbCenter(t, s.cfg.thumbSize, s.minimumValue, s.maximumValue, s.value);
      s.(thumb := Some(c),
         selected := Some(SelectedSpan(t, c.x, s.cfg.thumbSize, s.value, s.minimumValue, s.maximumValue)))
  }

  /** A freshly created control after its first layout pass: value 0 within
      the default bounds [0, 1], continuous, nothing sent yet. */
  function Initial(cfg: Config, hasActionBlock: bool): (r: Slider)
    ensures r.InRange() && r.GeometryCurrent()
    ensures r.minimumValue == DefaultMinimum && r.maximumValue == DefaultMaximum
    ensures r.value == 0.0 && r.continuous && r.log == []
    ensures r.cfg == cfg && r.hasActionBlock == hasActionBlock
  {
    UpdateThumbPosition(Slider(cfg, 0.0, DefaultMinimum, DefaultMaximum, DefaultContinuous,
                               hasActionBlock, None, None, []))
  }

  /** Stores `v` pinned to the bounds and moves the thumb. The `animated`
      flag of the platform only chooses whether the layers animate and is
      not modelled. */
  function SetValue(s: Slider, v: real): (r: Slider)
    ensures s.minimumValue <= s.maximumValue ==> r.InRange()
    ensures s.minimumValue <= v <= s.maximumValue ==> r.value == v
    ensures v < s.minimumValue ==> r.value == s.minimumValue
    ensures s.minimumValue <= s.maximumValue < v ==> r.value == s.maximumValue
    ensures s.maximumValue < s.minimumValue ==> r.value == s.minimumValue
    ensures r.GeometryCurrent()
    ensures r == s.(value := r.value, thumb := r.thumb, selected := r.selected)
  {
    UpdateThumbPosition(s.(value := Clamp(v, s.minimumValue, s.maximumValue)))
  }

  /** Assigns the lower bound. Nothing is pinned and nothing is redrawn. */
  function SetMinimum(s: Slider, m: real): (r: Slider)
    ensures r.minimumValue == m
    ensures r.value == s.value && r.thumb == s.thumb && r.selected == s.selected
    ensures r == s.(minimumValue := r.minimumValue)
  {
    s.(minimumValue := m)
  }

  /** Assigns the upper bound. Nothing is pinned and nothing is redrawn. */
  function SetMaximum(s: Slider, m: real): (r: Slider)
    ensures r.maximumValue == m
    ensures r.value == s.value && r.thumb == s.thumb && r.selected == s.selected
    ensures r == s.(maximumValue := r.maximumValue)
  {
    s.(maximumValue := m)
  }

  /** Raising the lower bound above the stored value leaves that value out
      of range, and the thumb where it was, until the next write pins it to
      the new minimum. */
  lemma BoundsAssignmentSkipsClamp(s: Slider, m: real)
    requires s.value < m
    ensures !SetMinimum(s, m).InRange()
    ensures SetMinimum(s, m).value == s.value && SetMinimum(s, m).thumb == s.thumb
    ensures SetValue(SetMinimum(s, m), s.value).value == m
  {
  }

  /** Lowering the upper bound below the stored value leaves that value out
      of range until the next write pins it: to the new maximum when it is
      still at least the minimum, and to the minimum otherwise. */
  lemma MaximumAssignmentSkipsClamp(s: Slider, m: real)
    requires m < s.value
    ensures !SetMaximum(s, m).InRange()
    ensures SetMaximum(s, m).value == s.value && SetMaximum(s, m).thumb == s.thumb
    ensures SetValue(SetMaximum(s, m), s.value).value
         == (if s.minimumValue <= m then m else s.minimumValue)
  {
  }

  /** The square, centred on `center`, in which a touch grabs the thumb; its
      side is the thumb size but at least the minimum touch target. */
  function HitSquare(center: Point, thumbSize: real): (r: Rect)
    ensures r.width == r.height >= MinTouchTarget
    ensures r.x + r.width / 2.0 == center.x && r.y + r.height / 2.0 == center.y
    ensures thumbSize <= r.width
    ensures r.width == thumbSize || r.width == MinTouchTarget
  {
    var diameter := Max(thumbSize, MinTouchTarget);
    Rect(center.x - diameter / 2.0, center.y - diameter / 2.0, diameter, diameter)
  }

  /** A touch begins a drag only inside the hit square around the thumb's
      last position, and then TouchDown is sent; otherwise nothing happens. */
  function BeginTracking(s: Slider, pt: Point): (res: (Slider, bool))
    ensures var half := Max(s.cfg.thumbSize, MinTouchTarget) / 2.0;
      res.1 <==> (s.thumb.Some? &&
                  s.thumb.value.x - half <= pt.x < s.thumb.value.x + half &&
                  s.thumb.value.y - half <= pt.y < s.thumb.value.y + half)
    ensures res.1 ==> res.0 == s.(log := s.log + [Sent({TouchDown})])
    ensures !res.1 ==> res.0 == s
  {
    match s.thumb
    case None => (s, false)
    case Some(center) =>
      if HitSquare(center, s.cfg.thumbSize).Contains(pt) then
        (s.(log := s.log + [Sent({TouchDown})]), true)
      else (s, false)
  }

  /** A move during a drag: the touch is mapped to a value, stored pinned, and
      in continuous mode the action block gets the mapped value and
      ValueChanged is sent. The platform keeps tracking afterwards. */
  function ContinueTracking(s: Slider, pt: Point): (r: Slider)
    requires s.TrackLayout().width != 0.0
    ensures var mapped := ValueForLocation(s.TrackLayout(), s.minimumValue, s.maximumValue, pt.x);
      && (s.minimumValue <= s.maximumValue ==> r.value == mapped)
      && r.log == s.log + (if s.continuous then ActionCall(s, mapped) + [Sent({ValueChanged})] else [])
    ensures s.minimumValue <= s.maximumValue ==> r.InRange()
    ensures r.maximumValue < r.minimumValue ==> r.value == r.minimumValue
    ensures r.GeometryCurrent()
    ensures r == s.(value := r.value, thumb := r.thumb, selected := r.selected, log := r.log)
  {
    var newValue := ValueForLocation(s.TrackLayout(), s.minimumValue, s.maximumValue, pt.x);
    var s1 := SetValue(s, newValue);
    if s.continuous then
      s1.(log := s1.log + ActionCall(s, newValue) + [Sent({ValueChanged})])
    else s1
  }

  /** The end-of-drag hook's default: keeps the computed value. */
  function KeepValue(pt: Point, v: real): (r: real)
    ensures r == v
  {
    v
  }

  /** The end of a drag. With a touch location, the mapped value passes
      through `hook` and is stored pinned; without one the value stays. Either
      way the action block then gets the stored value and ValueChanged and
      TouchUpInside are sent together. */
  function EndTracking(s: Slider, touch: Option<Point>, hook: (Point, real) -> real): (r: Slider)
    requires touch.Some? ==> s.TrackLayout().width != 0.0
    ensures touch.None? ==> r.value == s.value && r.thumb == s.thumb && r.selected == s.selected
    ensures touch.Some? ==> r.GeometryCurrent()
    ensures touch.Some? ==>
      var mapped := ValueForLocation(s.TrackLayout(), s.minimumValue, s.maximumValue, touch.value.x);
      r.value == Clamp(hook(touch.value, mapped), s.minimumValue, s.maximumValue)
    ensures s.InRange() || (touch.Some? && s.minimumValue <= s.maximumValue) ==> r.InRange()
    ensures r.log == s.log + ActionCall(s, r.value) + [Sent({ValueChanged, TouchUpInside})]
    ensures r == s.(value := r.value, thumb := r.thumb, selected := r.selected, log := r.log)
  {
    var s1 := match touch
      case None => s
      case Some(pt) =>
        var newValue := ValueForLocation(s.TrackLayout(), s.minimumValue, s.maximumValue, pt.x);
        SetValue(s, hook(pt, newValue));
    s1.(log := s1.log + ActionCall(s1, s1.value) + [Sent({ValueChanged, TouchUpInside})])
  }

  /** With the default hook, a drag that ends at x stores the value x maps to. */
  lemma EndWithDefaultHook(s: Slider, pt: Point)
    requires s.TrackLayout().width != 0.0 && s.minimumValue <= s.maximumValue
    ensures EndTracking(s, Some(pt), KeepValue).value
         == ValueForLocation(s.TrackLayout(), s.minimumValue, s.maximumValue, pt.x)
  {
  }

  /** The moves of a drag, in order. */
  function Moves(s: Slider, pts: seq<Point>): (r: Slider)
    requires s.TrackLayout().width != 0.0
    ensures r.cfg == s.cfg && r.continuous == s.continuous && r.hasActionBlock == s.hasActionBlock
    ensures r.minimumValue == s.minimumValue && r.maximumValue == s.maximumValue
    ensures !s.continuous ==> r.log == s.log
    ensures |r.log| >= |s.log| && r.log[..|s.log|] == s.log
    ensures s.InRange() || (|pts| > 0 && s.minimumValue <= s.maximumValue) ==> r.InRange()
    ensures |pts| > 0 ==> r.GeometryCurrent()
    decreases |pts|
  {
    if |pts| == 0 then s
    else Moves(ContinueTracking(s, pts[0]), pts[1..])
  }

  /** One move calls the action block once in continuous mode with a block
      installed, and sends ValueChanged once in continuous mode. */
  lemma StepCounts(s: Slider, pt: Point)
    requires s.TrackLayout().width != 0.0
    ensures Actions(ContinueTracking(s, pt).log)
         == Actions(s.log) + (if s.continuous && s.hasActionBlock then 1 else 0)
    ensures ValueChanges(ContinueTracking(s, pt).log)
         == ValueChanges(s.log) + (if s.continuous then 1 else 0)
  {
    if s.continuous {
      var mapped := ValueForLocation(s.TrackLayout(), s.minimumValue, s.maximumValue, pt.x);
      var tail := ActionCall(s, mapped) + [Sent({ValueChanged})];
      ActionsAppend(s.log, tail);
      if s.hasActionBlock {
        ActionsAppend([Action(mapped)], [Sent({ValueChanged})]);
        ActionsAppend([], [Action(mapped)]);
      }
      ActionsAppend([], [Sent({ValueChanged})]);
    }
  }

  /** n moves call the action block and send ValueChanged n times each in
      continuous mode (the block only when installed), and never otherwise. */
  lemma {:induction false} MovesCounts(s: Slider, pts: seq<Point>)
    requires s.TrackLayout().width != 0.0
    ensures Actions(Moves(s, pts).log)
         == Actions(s.log) + (if s.continuous && s.hasActionBlock then |pts| else 0)
    ensures ValueChanges(Moves(s, pts).log)
         == ValueChanges(s.log) + (if s.continuous then |pts| else 0)
    decreases |pts|
  {
    if |pts| > 0 {
      StepCounts(s, pts[0]);
      MovesCounts(ContinueTracking(s, pts[0]), pts[1..]);
    }
  }

  /** How many times the log calls the action block. */
  function Actions(log: seq<Notice>): nat
  {
    if |log| == 0 then 0
    else Actions(log[..|log| - 1]) + (if log[|log| - 1].Action? then 1 else 0)
  }

  /** How many dispatches in the log include ValueChanged. */
  function ValueChanges(log: seq<Notice>): nat
  {
    if |log| == 0 then 0
    else
      var last := log[|log| - 1];
      ValueChanges(log[..|log| - 1]) + (if last.Sent? && ValueChanged in last.events then 1 else 0)
  }

  /** Counting over a log grown at its end adds the count of the new part. */
  lemma {:induction false} ActionsAppend(a: seq<Notice>, b: seq<Notice>)
    ensures Actions(a + b) == Actions(a) + Actions(b)
    ensures ValueChanges(a + b) == ValueChanges(a) + ValueChanges(b)
    decreases |b|
  {
    if |b| > 0 {
      assert (a + b)[..|a + b| - 1] == a + b[..|b| - 1];
      ActionsAppend(a, b[..|b| - 1]);
    } else {
      assert a + b == a;
    }
  }

  /** One complete touch sequence as the platform drives it: a touch down,
      and only when that begins tracking, the moves and then the end. */
  function Drag(s: Slider, down: Point, moves: seq<Point>, up: Option<Point>,
                hook: (Point, real) -> real): (res: (Slider, bool))
    requires s.TrackLayout().width != 0.0
    ensures res.1 == BeginTracking(s, down).1
    ensures !res.1 ==> res.0 == s
  {
    var (s1, began) := BeginTracking(s, down);
    if !began then (s, false)
    else (EndTracking(Moves(s1, moves), up, hook), true)
  }

  /** Callbacks per drag: a drag that began calls the action block once per
      move and once at the end in continuous mode, and only once, at the end,
      otherwise; ValueChanged is sent the same number of times. */
  lemma DragCallbacks(s: Slider, down: Point, moves: seq<Point>, up: Option<Point>,
                      hook: (Point, real) -> real)
    requires s.TrackLayout().width != 0.0 && s.hasActionBlock
    requires Drag(s, down, moves, up, hook).1
    ensures var r := Drag(s, down, moves, up, hook).0;
      Actions(r.log) == Actions(s.log) + (if s.continuous then |moves| + 1 else 1)
    ensures var r := Drag(s, down, moves, up, hook).0;
      ValueChanges(r.log) == ValueChanges(s.log) + (if s.continuous then |moves| + 1 else 1)
  {
    var s1 := BeginTracking(s, down).0;
    var s2 := Moves(s1, moves);
    NoticeCounts(s.log, [Sent({TouchDown})]);
    MovesCounts(s1, moves);
    NoticeCounts(s2.log, ActionCall(s2, EndTracking(s2, up, hook).value)
                         + [Sent({ValueChanged, TouchUpInside})]);
  }

  /** The notices a drag's start or end appends, counted: TouchDown calls no
      block and sends no ValueChanged; the end's pair calls the block once when
      one is installed and sends ValueChanged once. */
  lemma NoticeCounts(log: seq<Notice>, tail: seq<Notice>)
    requires || tail == [Sent({TouchDown})]
             || tail == [Sent({ValueChanged, TouchUpInside})]
             || (|tail| == 2 && tail[0].Action? && tail[1] == Sent({ValueChanged, TouchUpInside}))
    ensures Actions(log + tail) == Actions(log) + (if tail[0].Action? then 1 else 0)
    ensures ValueChanges(log + tail) == ValueChanges(log) + (if tail[0].Sent? && tail[0].events == {TouchDown} then 0 else 1)
  {
    ActionsAppend(log, tail);
    if |tail| == 2 {
      ActionsAppend([tail[0]], [tail[1]]);
      ActionsAppend([], [tail[0]]);
      ActionsAppend([], [tail[1]]);
      assert [tail[0]] + [tail[1]] == tail;
    } else {
      ActionsAppend([], tail);
    }
  }

  /** Outside continuous mode a drag that began tells the outside world
      exactly three things: TouchDown, then the action block with the final
      stored value, then ValueChanged with TouchUpInside. */
  lemma QuietDrag(s: Slider, down: Point, moves: seq<Point>, up: Option<Point>,
                  hook: (Point, real) -> real)
    requires s.TrackLayout().width != 0.0 && !s.continuous
    requires Drag(s, down, moves, up, hook).1
    ensures var r := Drag(s, down, moves, up, hook).0;
      r.log == s.log + [Sent({TouchDown})] + ActionCall(s, r.value) + [Sent({ValueChanged, TouchUpInside})]
  {
  }

  /** With ordered bounds, a drag keeps a value in range, and a drag that
      began and ends on a touch location brings any value into range. */
  lemma DragKeepsRange(s: Slider, down: Point, moves: seq<Point>, up: Option<Point>,
                       hook: (Point, real) -> real)
    requires s.TrackLayout().width != 0.0 && s.minimumValue <= s.maximumValue
    ensures s.InRange() ==> Drag(s, down, moves, up, hook).0.InRange()
    ensures Drag(s, down, moves, up, hook).1 && up.Some? ==> Drag(s, down, moves, up, hook).0.InRange()
  {
  }

  /** The thumb at (110, 20) with the default 28-point thumb: the hit square
      has side 44, so (120, 20) and the corner (130, 40) grab the thumb, while
      (150, 20) and the exclusive right edge (132, 20) do not. The corner
      lies about 28 points from the centre, beyond a 44-point circle. */
  lemma HitRegionIsSquare(s: Slider)
    requires s.thumb == Some(Point(110.0, 20.0)) && s.cfg.thumbSize == 28.0
    ensures BeginTracking(s, Point(120.0, 20.0)).1
    ensures BeginTracking(s, Point(130.0, 40.0)).1
    ensures (130.0 - 110.0) * (130.0 - 110.0) + (40.0 - 20.0) * (40.0 - 20.0) > 22.0 * 22.0
    ensures !BeginTracking(s, Point(150.0, 20.0)).1
    ensures !BeginTracking(s, Point(132.0, 20.0)).1
    ensures BeginTracking(s, Point(88.0, 20.0)).1
  {
  }
}

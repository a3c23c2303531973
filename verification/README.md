# GVCenterSlider — value mapping, layout and touch protocol

`GVCenterSlider` is a horizontal slider control whose "selected" overlay grows
from the centre of the track towards the thumb, not from the left end. It can
show an image on either side of the track. This project models the logic inside
the control as pure Dafny functions over `real`:

- **Value store** (`ValueStore`, `Tracking`). `setValue` pins a value into
  `[minimumValue, maximumValue]` with `max(min(v, maximum), minimum)`. Assigning
  either bound stores it and does nothing else.
- **Track layout** (`Layout`). An edge with an image takes the image's width plus
  13 points. An edge without one keeps a 2-point inset. The track fills the rest,
  and the centre dot sits at the track's centre.
- **Forward and inverse maps** (`Mapping`).
  - Value → thumb centre: `left + thumbSize/2 + perc·(width − thumbSize)`.
  - Touch x → value: the touch's fraction of the whole track width, pinned to
    `[0, 1]`, then scaled onto the range.
- **Selected-track width** (`SelectedTrack`). Three branches: exactly at the
  minimum, exactly at the maximum, and in between.
- **Touch protocol** (`Tracking`).
  - The hit test that begins a drag.
  - Moves, and the end of the drag with its overridable end-of-drag hook.
  - What the control tells the outside world: calls of its action block and the
    control events it sends. These go into an append-only log of notices.

The control's state is an immutable `Slider` record. Each operation returns the
next state.

All of the modelled code is in `GVCenterSliderExample/Sources/GVCenterSlider.swift`; the table
below cites it by path.

The code's two maps are not inverses of each other. The forward map insets the
thumb by half its size at both ends; the inverse map spans the whole track width.
`Mapping.RoundTripIff` proves exactly when touching the thumb's centre gives its
value back: only when the thumb has size 0 or the value is the middle of the
range. `Mapping.RoundTripWithDefaultThumb` gives a concrete case with the default
28-point thumb: the minimum value 0 reads back as 7. The model follows the code
here. It does not claim a round trip.

The hit region that begins a drag is the axis-aligned square that the code
builds (`CGRectContainsPoint`: minimum edges inclusive, maximum edges exclusive),
not a circle. `Tracking.HitRegionIsSquare` shows a corner point that grabs the
thumb although it lies outside a circle of the same diameter.

## Model

| member | source | states |
|---|---|---|
| ValueStore.Clamp | GVCenterSliderExample/Sources/GVCenterSlider.swift:48-51 | with ordered bounds the result lies in them and a value already inside is kept; a value below the minimum gives the minimum, one above an ordered maximum gives the maximum; with inverted bounds the minimum always wins |
| ValueStore.ClampIdempotent | GVCenterSliderExample/Sources/GVCenterSlider.swift:49 | pinning a pinned value changes nothing |
| ValueStore.ClampMonotone | GVCenterSliderExample/Sources/GVCenterSlider.swift:49 | pinning keeps the order of two values |
| Layout.LayoutTrack | GVCenterSliderExample/Sources/GVCenterSlider.swift:317-335 | the track starts after the leading edge's space (2, or image width + 13) and ends before the trailing edge's space, and sits at half the bounds height |
| Layout.CenterDotHalfway | GVCenterSliderExample/Sources/GVCenterSlider.swift:335-337 | the centre dot is equally far from both ends of the track, at half the bounds height |
| Layout.TouchSpan | GVCenterSliderExample/Sources/GVCenterSlider.swift:417-433 | the left edge and width that the touch mapping computes by itself are exactly the laid-out track's |
| Mapping.ThumbCenter | GVCenterSliderExample/Sources/GVCenterSlider.swift:392-400 | the thumb sits at mid-height; at the minimum its centre is half a thumb right of the track's left edge, at the maximum half a thumb left of its right edge |
| Mapping.ThumbOffset | GVCenterSliderExample/Sources/GVCenterSlider.swift:392-399 | the thumb's centre lies half a thumb plus the value's fraction of (track width − thumb size) right of the track's left edge |
| Mapping.ThumbMonotone | GVCenterSliderExample/Sources/GVCenterSlider.swift:392-400 | with ascending bounds and a track at least as wide as the thumb, a larger value never moves the thumb left |
| Mapping.ValueForLocation | GVCenterSliderExample/Sources/GVCenterSlider.swift:435-439 | the mapped value lies between the bounds (either order); on a positive-width track a touch at or left of the left edge gives the minimum, at or right of the right edge the maximum |
| Mapping.ValueForLocationMonotone | GVCenterSliderExample/Sources/GVCenterSlider.swift:435-439 | with ordered bounds and positive width, a touch further right never gives a smaller value |
| Mapping.RoundTripIff | GVCenterSliderExample/Sources/GVCenterSlider.swift:392-440 | for a value in range, touching the thumb's centre reads the value back exactly when the thumb size is 0 or the value is the middle of the range |
| Mapping.RoundTripWithDefaultThumb | GVCenterSliderExample/Sources/GVCenterSlider.swift:392-440 | with thumb 28, track from 10 of width 200, range [0, 100]: value 0 puts the thumb at 24, which reads back as 7; value 50 and x = 110 map onto each other |
| SelectedTrack.SelectedSpan | GVCenterSliderExample/Sources/GVCenterSlider.swift:442-456 | the overlay starts at the track centre and ends on the thumb's left edge at the minimum, on its right edge at the maximum, and under its centre in between |
| SelectedTrack.SelectedReachesTrackEdges | GVCenterSliderExample/Sources/GVCenterSlider.swift:392-456 | with the forward map's thumb, the overlay ends exactly on the track's left edge at the minimum and its right edge at the maximum |
| SelectedTrack.SelectedEndMonotone | GVCenterSliderExample/Sources/GVCenterSlider.swift:442-456 | across all three branches the overlay's end never moves left as the value grows, and stays between the track's ends |
| Tracking.UpdateThumbPosition | GVCenterSliderExample/Sources/GVCenterSlider.swift:402-415 | only the thumb and the overlay change, and afterwards they show the current value; both are undefined when the bounds coincide |
| Tracking.Initial | GVCenterSliderExample/Sources/GVCenterSlider.swift:11-14 | a new control holds value 0 within the default bounds [0, 1], keeps the given configuration and action-block flag, is continuous, has sent nothing, and shows the thumb for its value |
| Tracking.SetValue | GVCenterSliderExample/Sources/GVCenterSlider.swift:43-51 | the stored value is pinned into ordered bounds, kept when already inside, the minimum when the bounds are inverted; the thumb is redrawn; nothing else changes |
| Tracking.SetMinimum | GVCenterSliderExample/Sources/GVCenterSlider.swift:53 | assigning the lower bound leaves the stored value and the thumb untouched |
| Tracking.SetMaximum | GVCenterSliderExample/Sources/GVCenterSlider.swift:54 | assigning the upper bound leaves the stored value and the thumb untouched |
| Tracking.BoundsAssignmentSkipsClamp | GVCenterSliderExample/Sources/GVCenterSlider.swift:53-54 | for every control, raising the minimum above the stored value leaves the value and the thumb as they were, so the value is out of range, until the next setValue pins it to the new minimum |
| Tracking.MaximumAssignmentSkipsClamp | GVCenterSliderExample/Sources/GVCenterSlider.swift:53-54 | for every control, lowering the maximum below the stored value leaves the value and the thumb as they were, until the next setValue pins it to the new maximum, or to the minimum when the bounds are now inverted |
| Tracking.HitSquare | GVCenterSliderExample/Sources/GVCenterSlider.swift:359-361 | the hit region is a square centred on the thumb whose side is exactly the larger of the thumb size and 44 |
| Tracking.BeginTracking | GVCenterSliderExample/Sources/GVCenterSlider.swift:356-367 | tracking begins iff the touch is in the half-open square around the thumb's last position; then exactly TouchDown is logged, otherwise nothing changes |
| Tracking.HitRegionIsSquare | GVCenterSliderExample/Sources/GVCenterSlider.swift:356-367 | around a thumb at (110, 20), (120, 20) and the corner (130, 40) hit, (150, 20) and the exclusive edge (132, 20) miss |
| Tracking.ContinueTracking | GVCenterSliderExample/Sources/GVCenterSlider.swift:369-378 | a move stores the mapped touch value (the minimum under inverted bounds); in continuous mode the action block gets the mapped value and ValueChanged is sent, otherwise nothing is logged |
| Tracking.KeepValue | GVCenterSliderExample/Sources/GVCenterSlider.swift:23-25 | the default end-of-drag hook returns the computed value unchanged, whatever the touch point |
| Tracking.EndWithDefaultHook | GVCenterSliderExample/Sources/GVCenterSlider.swift:23-25 | with the default end-of-drag hook the drag ends on the value the touch maps to |
| Tracking.EndTracking | GVCenterSliderExample/Sources/GVCenterSlider.swift:380-388 | with a touch location, the hook's result is stored pinned, without one the value stays; then the action block always gets the stored value and ValueChanged with TouchUpInside is sent |
| Tracking.Moves | GVCenterSliderExample/Sources/GVCenterSlider.swift:369-378 | moves leave bounds, mode and configuration as they were and only extend the log; outside continuous mode they log nothing; ordered bounds keep the value in range; after at least one move the thumb shows the stored value |
| Tracking.StepCounts | GVCenterSliderExample/Sources/GVCenterSlider.swift:373-376 | one move calls the action block once in continuous mode when a block is installed and sends ValueChanged once in continuous mode; otherwise it adds neither |
| Tracking.MovesCounts | GVCenterSliderExample/Sources/GVCenterSlider.swift:369-378 | n moves call the action block n times in continuous mode with a block installed, send ValueChanged n times in continuous mode, and add neither otherwise |
| Tracking.Drag | GVCenterSliderExample/Sources/GVCenterSlider.swift:356-388 | a drag proceeds only when the touch down began tracking; otherwise the control is unchanged |
| Tracking.DragCallbacks | GVCenterSliderExample/Sources/GVCenterSlider.swift:369-388 | a drag with n moves calls the action block, and sends ValueChanged, n + 1 times in continuous mode and once otherwise |
| Tracking.QuietDrag | GVCenterSliderExample/Sources/GVCenterSlider.swift:369-388 | outside continuous mode a drag logs exactly TouchDown, one action-block call with the final stored value, and ValueChanged with TouchUpInside |
| Tracking.DragKeepsRange | GVCenterSliderExample/Sources/GVCenterSlider.swift:369-388 | with ordered bounds a drag keeps a value in range, and a drag that ends on a touch location brings the value into range |

## Left out

- Layer construction, colours, borders, shadows, corner radii, image contents and animation transactions are rendering only. The `animated` flag of `setValue` only picks whether layers animate, so the model drops it.
- Thumb-icon sizing and the `thumbColor`/`thumbIcon` interplay are cosmetic and not modelled.
- `intrinsicContentSize` and `alignmentRectInsets` are not modelled. They are sizing hints for the host layout system.
- Archiving and unarchiving are not modelled (`init(coder:)`, `encodeWithCoder`). Two quirks are worth knowing. First, `value` is decoded before the bounds, so it is pinned against the default `[0, 1]`. Second, a missing `continuous` key decodes as false, so the default `true` never applies there.
- The action block's closure and the platform's event dispatch are abstract. They appear as `Notice` entries in the log. Whether a block is installed is the flag `hasActionBlock`.
- The host screen in `GVCenterSliderExample/GVCenterSlider/ViewController.swift` only prints values. It is not part of this model.
- Floating point is modelled as `real`. Divisions by zero become preconditions instead:
  - `ThumbCenter` requires the bounds to differ. With equal bounds, `setValue` stores the minimum and the forward map divides 0 by 0, so the thumb position it assigns is NaN. At state level the thumb and the overlay are then `None`. `None` stands for that NaN position, and the model does not represent what the platform does with it. `BeginTracking` treats `None` as a miss.
  - `ValueForLocation`, and every move or end that uses it, requires a track width other than 0.
- The layout pass is assumed to have run with the current configuration: the track is always computed from `Config`. The control's configuration (bounds, images, thumb size) stays fixed during a drag.
- The bounds' origin is taken as 0 in the touch mapping.
- Frame normalisation for negative sizes is not modelled. The overlay's width is kept signed, so it is negative at the minimum. The thumb size is used as given and is expected to be non-negative.
- The forward map reads the track layer's bounds width, which the platform reports as non-negative. The model uses the signed layout width, so a track narrower than its insets is not modelled for the forward map either.
- A cancelled touch is not modelled; the control does not override the platform's cancel handling. Neither is the platform's rule that it calls the move and end handlers only after a touch down began tracking, beyond the `Drag` function that follows that rule.

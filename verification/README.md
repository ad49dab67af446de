# GPX track statistics — a Dafny model

This project models the statistics pass of a GPS track viewer, written in
Python. `GPXFile.__init__` takes the points of a parsed GPX track and derives:

- the segment lengths and the route length;
- the total and per-segment elapsed times, and a flag saying whether every
  segment has a time;
- the lowest and highest elevation;
- ascent, descent and net height change;
- the average velocity;
- the steepest segment.

`plots()` derives a cumulative-distance series and a speed series. The
application window does two more things: it splits the total time into
hours, minutes and seconds, and it thins the track to a limited number of
map markers.

Every computation is a pure Dafny function over the flattened track. Each
loop of the source is a left fold (recursion on the prefix). Each fold's
contract describes its result independently of the loop: element by element,
as a sum, as bounds, or as an earliest argmax. Lemmas connect the folds to
each other.

Modelling choices:

- **Timestamps** are `int` microseconds. The source reads `timedelta.seconds`,
  which is the within-day component, so it is modelled as
  `((b - a) / 1000000) % 86400` (`TimeDelta.DeltaSeconds`). Dafny's `/` and
  `%` round down for a positive divisor, as Python's `timedelta`
  normalisation does. A negative difference, or one longer than a day, wraps
  into `[0, 86400)`: `.seconds` never reports a negative elapsed time.
- **Projection and distance.** The trigonometric projection `_to_xyz` and
  the Euclidean distance `_dist` are not modelled. The caller supplies one
  projected point per track point (`TrackSummary.Projected`) and a distance
  function `dist`. Segment lengths are the values of `dist` on consecutive
  projected points.
- **Heights.** Ascent, descent and the steepest segment use the third
  Cartesian coordinate of the projected point (gpx2.py:84-85), not the
  recorded elevation. That coordinate is an `Option<real>`, so the model
  keeps the rule at gpx2.py:86-88: a missing height on either end counts as
  a change of 0. The projection always produces a value, so callers pass
  `Some` and that branch is never taken in the source.
- **Reals.** Lengths, heights, speeds and grades are `real`. This idealises
  floating point: sums are exact and there is no rounding.
- **Sentinels.** `min_z`/`max_z` start at 99999999 and -99999999 and keep
  those values when no elevation is known.
- **No steepest segment.** When no segment has positive length, `hardest` is
  `None` and `nach_max` stays -1.
- **Hours.** main.py:60 computes `int(T) / 3600`. In Python 3 that is a
  float, which `'%d'` truncates. For `T >= 0` that is floor division, as
  modelled.

## Model

| member | source | states |
|---|---|---|
| Segments.SegmentLengths | gpx2.py:42-47 | `segments_len` has one entry per consecutive pair, `max(n-1, 0)` in all, and entry `i` is the distance between projected points `i` and `i+1` |
| Segments.TotalLengthNonnegative | gpx2.py:42-47 | the route length, the sum of the segment lengths, is at least 0 when every consecutive distance is |
| TrackSummary.RouteLength | gpx2.py:42-47 | `len` is the sum of `segments_len`, one length per pair, and is non-negative for non-negative distances |
| TimeDelta.DeltaSeconds | gpx2.py:61 | `.seconds` of a difference always lies in `[0, 86400)` |
| TimeDelta.DeltaSecondsDecomposes | gpx2.py:61 | the difference equals whole days plus `.seconds` whole seconds plus a microsecond remainder, as a normalised `timedelta` |
| TimeDelta.DeltaSecondsWithinDay | gpx2.py:61 | for a forward difference shorter than a day, `.seconds` is the exact number of whole seconds elapsed |
| TimeDelta.DeltaSecondsWrapsBackwards | gpx2.py:52 | a timestamp one second before its predecessor gives 86399, not -1 |
| TimeDelta.DeltaSecondsWrapsPastDay | gpx2.py:52 | a difference of one day and one second gives 1 |
| Segments.PairSeconds | gpx2.py:60-64 | a segment's time is `None` exactly when one of its endpoint timestamps is |
| Segments.SegmentTimes | gpx2.py:57-65 | one entry per pair; the entry is `None` iff an endpoint timestamp is missing, otherwise the `.seconds` of the endpoints' difference, within `[0, 86400)` |
| Segments.SegmentTimeMissing | gpx2.py:59-65 | a single segment time is `None` iff either endpoint timestamp is `None` |
| Segments.AllSegmentsHaveTime | gpx2.py:58-63 | `all_segments_has_time` holds iff every consecutive pair has both timestamps, vacuously below two points |
| Segments.FlagMatchesSegmentTimes | gpx2.py:57-65 | the flag is set iff no entry of `segments_times` is `None` |
| Segments.FlagMeansEveryPointTimed | gpx2.py:58-63 | from two points on, the flag holds iff every point has a timestamp; below two points it always holds |
| Segments.HeightDiffs | gpx2.py:82-91 | `segments_diff` has one entry per pair: the height change, or 0 when either height is missing |
| Segments.HeightDiffsTelescope | gpx2.py:82-101 | with every height known, `sum_diff` is the last height minus the first |
| Elevation.ElevationBounds | gpx2.py:68-75 | every known elevation lies within `[min_z, max_z]`; each bound is its sentinel or a known elevation |
| Elevation.NoElevationKeepsSentinels | gpx2.py:68-75 | with no known elevation, `min_z` and `max_z` stay 99999999 and -99999999 |
| Elevation.BoundsAttained | gpx2.py:68-75 | when some known elevation lies within the sentinel range, both bounds are known elevations |
| Elevation.Ascents | gpx2.py:92-94 | `segments_asc` contains only positive changes, and as a multiset exactly the positive changes |
| Elevation.Descents | gpx2.py:95-97 | `segments_desc` contains only negative changes, and as a multiset exactly the negative changes |
| Elevation.AscentPlusDescentIsNet | gpx2.py:99-101 | `sum_asc + sum_desc == sum_diff`; zero changes enter neither list |
| Elevation.AscentDescentSigns | gpx2.py:99-100 | `sum_asc >= 0` and `sum_desc <= 0` |
| TrackSummary.TrackClimb | gpx2.py:79-101 | change i is the rise from height i to i+1 (0 if either is missing); `segments_asc`/`segments_desc` are, as multisets, exactly the positive/negative changes; `sum_asc`, `sum_desc`, `sum_diff` are their sums, with `sum_asc >= 0`, `sum_desc <= 0`, `sum_asc + sum_desc == sum_diff`, and telescoping when all heights are known |
| Steepest.Slope | gpx2.py:115 | a grade is non-negative, and grade times length is the absolute height change |
| Steepest.ArgSteepest | gpx2.py:111-117 | no segment is chosen and `nach_max == -1` iff no segment has positive length; otherwise the chosen segment has positive length and grade `nach_max`, every segment of positive length has grade at most `nach_max`, and every earlier one has a strictly smaller grade |
| Steepest.Hardest | gpx2.py:111-118 | `hardest` is `None` iff no segment has positive length |
| Steepest.HardestIsEarliestSteepest | gpx2.py:113-117 | `hardest` is the start of the earliest segment of positive length with the maximal grade |
| Steepest.TieKeepsEarliest | gpx2.py:115 | of two segments with equal maximal grade, the first is reported, because the comparison is strict |
| TrackSummary.SteepestSegment | gpx2.py:109-118 | every segment of positive length has grade at most `nach_max`; `hardest` is `None`, with `nach_max == -1`, iff there is none; otherwise `hardest` is the (lat, lon) of the earliest segment whose grade is `nach_max` |
| TrackSummary.TotalTime | gpx2.py:51-54 | `total_time` is `None` iff the track is empty, an endpoint timestamp is missing, or the endpoint `.seconds` is 0 (the rule at lines 104-106); it is `None` for every track of at most one point, and otherwise lies in `(0, 86400)` |
| TrackSummary.AverageVelocity | gpx2.py:104-107 | `avg_vel` is present iff `total_time` is, and then `avg_vel * total_time == len` |
| TrackSummary.TrackTiming | gpx2.py:51-65 | a segment time is `None` iff an endpoint timestamp is, and otherwise the wrapped seconds between them; the flag holds iff no segment time is `None`; `total_time` is `None` iff the track is empty, an endpoint timestamp is missing or the wrapped difference is 0, and otherwise is that difference, in `(0, 86400)`; short tracks have no total time and a set flag |
| TrackSummary.PointBounds | gpx2.py:68-75 | every known elevation lies between `min_z` and `max_z`; each bound is its sentinel or a point's known elevation; both are the sentinels when no elevation is known |
| TrackSummary.Summarize | gpx2.py:36-119 | the per-segment lists all have `max(n-1, 0)` entries, `avg_vel` is present iff `total_time` is, and every known elevation lies between `min_z` and `max_z` |
| TrackSummary.ShortTrack | gpx2.py:42-118 | a track of fewer than two points has length 0, no total time, no average velocity, a set flag, no `hardest` and `nach_max == -1` |
| PlotSeries.CumulativeLengths | gpx2.py:161-165 | `len_cum` has one entry per segment, and entry `i` is the sum of the first `i+1` segment lengths |
| PlotSeries.CumulativeEndsAtTotal | gpx2.py:161-165 | the last cumulative distance is the route length |
| PlotSeries.CumulativeNondecreasing | gpx2.py:161-165 | with non-negative lengths, `len_cum` never decreases |
| PlotSeries.SegmentSpeed | gpx2.py:166-169 | the speed is 0 when the time is `None` or 0; otherwise speed times time is the length; it is non-negative for non-negative inputs |
| PlotSeries.Velocities | gpx2.py:160-169 | `vel` has one entry per zipped pair, and each entry is that segment's speed |
| PlotSeries.VelocitiesNonnegative | gpx2.py:163-169 | with non-negative lengths and times, every speed is non-negative |
| Display.SplitTime | main.py:56-63 | for `T >= 0`: `0 <= m < 60`, `0 <= s < 60`, `3600h + 60m + s == T`, and `h < 24` when `T < 86400`, as `.seconds` guarantees |
| Display.SplitClockSeconds | main.py:60-62 | splitting the seconds of a well-formed reading gives the reading back |
| Display.EveryKth | main.py:100-101 | `s[::k]` has `ceil(n/k)` elements |
| Display.EveryKthIndex | main.py:100-101 | element `j` of `s[::k]` is element `j*k` of `s` |
| Display.Step | main.py:98 | with more than 50 points the step `n div 50` is at least 1 and `50*step <= n < 50*step + 50` |
| Display.Decimate | main.py:96-101 | at most 50 points are left unchanged; beyond that both lists are sliced with the same step from the latitude count, keeping every step-th element |
| Display.DecimateAligned | main.py:96-101 | equally long lists stay equally long and aligned, and the first point is kept |
| Display.DecimateKeepsAtLeastFifty | main.py:96-101 | beyond 50 points at least 50 are kept |
| Display.DecimateKeepsNinetyNine | main.py:98-101 | with 99 points the step is 1 and all 99 are kept |
| Display.CappedStep | main.py:98-99 | the rounded-up step `ceil(n/50)` is at least 1 and `n <= 50*step < n + 50` |
| Display.DecimateCapped | main.py:96-101 | thinning with the rounded-up step slices both lists alike |
| Display.DecimateCappedAtMostFifty | main.py:98-99 | with the rounded-up step, at most 50 markers are kept |

## Left out

- `_to_xyz` (gpx2.py:127-140) and `_dist` (gpx2.py:123-125) are trigonometry and a square root. Projected points and the distance function are parameters. The call at gpx2.py:38-39 passes longitude as `lat`; that only affects the projection.
- `angle_max = atan(nach_max) / pi * 180` (gpx2.py:119) is left out. It is a monotone transcendental function of `nach_max`, which is modelled.
- File reading and `gpxpy.parse` (gpx2.py:20-34) are I/O and an external library. The input is the flattened point sequence. Flattening tracks and segments is plain concatenation.
- The `print` calls, `__str__` formatting (gpx2.py:142-150) and the matplotlib drawing in `plots()` (gpx2.py:171-186) render output and compute nothing.
- The rest of main.py is Kivy UI: widgets, label text, popups, map layers and markers, map centring (a float mean), clearing and start-up. This includes the failure at main.py:80 when `hardest` is `None`.
- Summarize: its contract states only the cross-part facts. The facts about each part are in the contracts of `RouteLength`, `TrackTiming`, `PointBounds`, `TrackClimb`, `SteepestSegment` and `AverageVelocity`, which build its result.
- Floating-point rounding is not modelled; lengths, heights and speeds are exact reals.

## Findings

| source | as written | input that shows it | evidently intended | confidence | as-written member | corrected member |
|---|---|---|---|---|---|---|
| main.py:98-101 | the step is `int(n / 50)`, rounded down, and the message promises 50/51 markers | 99 points: the step is 1 and all 99 markers are drawn | about 50 markers; rounding the step up, `ceil(n / 50)`, gives at most 50 | medium, not executed | Display.DecimateKeepsNinetyNine | Display.DecimateCappedAtMostFifty |

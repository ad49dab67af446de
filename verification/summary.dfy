/** The statistics pass of a GPX track (gpx2.py:36-119): from the points of an
    already parsed track and their projected positions, the route length, the
    timing, the elevation statistics and the steepest segment.

    The projection to Cartesian coordinates and the distance between two
    projected points are trigonometry and a square root; they are not modelled.
    The caller supplies the projected points and the distance function. */
module TrackSummary {

  import opened Optional
  import opened Sums
  import opened TimeDelta
  import opened Segments
  import opened Elevation
  import opened Steepest

  /** One recorded sample: degrees of latitude and longitude, an elevation in
      metres if known and a naive timestamp in microseconds if known. */
  datatype Point = Point(lat: real, lon: real, ele: Option<real>, time: Option<int>)

  /** A point as projected by `_to_xyz`. The height `z` used for ascent and
      descent is this third coordinate, not the recorded elevation; the
      projection always produces one, so callers supply `Some`, and `None`
      models the never-taken branch at gpx2.py:86-88. */
  datatype Projected = Projected(x: real, y: real, z: Option<real>)

  function Times(pts: seq<Point>): (r: seq<Option<int>>)
    ensures |r| == |pts| && forall i :: 0 <= i < |pts| ==> r[i] == pts[i].time
  {
    seq(|pts|, i requires 0 <= i < |pts| => pts[i].time)
  }

  function Elevations(pts: seq<Point>): (r: seq<Option<real>>)
    ensures |r| == |pts| && forall i :: 0 <= i < |pts| ==> r[i] == pts[i].ele
  {
    seq(|pts|, i requires 0 <= i < |pts| => pts[i].ele)
  }

  function Heights(xyz: seq<Projected>): (r: seq<Option<real>>)
    ensures |r| == |xyz| && forall i :: 0 <= i < |xyz| ==> r[i] == xyz[i].z
  {
    seq(|xyz|, i requires 0 <= i < |xyz| => xyz[i].z)
  }

  /** `total_time`: `(dates[-1] - dates[0]).seconds`, `None` when the track is
      empty or an endpoint timestamp is missing (the `except` at gpx2.py:51-54),
      and also `None` when it comes out as 0 (gpx2.py:104-106) — which every
      single-point track does. */
  function TotalTime(dates: seq<Option<int>>): (r: Option<int>)
    ensures r.None? <==>
              |dates| == 0 || !BothKnown(dates[0], dates[|dates| - 1])
              || DeltaSeconds(dates[0].value, dates[|dates| - 1].value) == 0
    ensures r.Some? ==> 0 < r.value < SecondsPerDay
    ensures r.Some? ==> r.value == DeltaSeconds(dates[0].value, dates[|dates| - 1].value)
    ensures |dates| <= 1 ==> r.None?
  {
    if |dates| == 0 || dates[0].None? || dates[|dates| - 1].None? then None
    else
      var t := DeltaSeconds(dates[0].value, dates[|dates| - 1].value);
      if t == 0 then None else Some(t)
  }

  /** `avg_vel`: route length over total time, `None` without a total time
      (gpx2.py:107). The zero total time has already been turned into `None`,
      so the division is never by zero. */
  function AverageVelocity(length: real, total: Option<int>): (v: Option<real>)
    requires total.None? || total.value != 0
    ensures v.Some? <==> total.Some?
    ensures v.Some? ==> v.value * (total.value as real) == length
    ensures v.Some? && length >= 0.0 && total.value > 0 ==> v.value >= 0.0
  {
    if total.None? then None else Some(length / (total.value as real))
  }

  /** Route length: the segment lengths and their running total `len`
      (gpx2.py:42-47). */
  datatype Distance = Distance(segmentsLen: seq<real>, length: real)

  function RouteLength(xyz: seq<Projected>, dist: (Projected, Projected) -> real): (d: Distance)
    ensures |d.segmentsLen| == Pairs(|xyz|)
    ensures forall i :: 0 <= i < |d.segmentsLen| ==> d.segmentsLen[i] == dist(xyz[i], xyz[i + 1])
    ensures d.length == Sum(d.segmentsLen)
    ensures (forall i :: 0 <= i < |xyz| - 1 ==> dist(xyz[i], xyz[i + 1]) >= 0.0) ==> d.length >= 0.0
  {
    var lens := SegmentLengths(xyz, dist);
    assert (forall i :: 0 <= i < |xyz| - 1 ==> dist(xyz[i], xyz[i + 1]) >= 0.0) ==> Sum(lens) >= 0.0 by {
      if forall i :: 0 <= i < |xyz| - 1 ==> dist(xyz[i], xyz[i + 1]) >= 0.0 {
        TotalLengthNonnegative(xyz, dist);
      }
    }
    Distance(lens, Sum(lens))
  }

  /** Timing: `total_time`, `segments_times` and `all_segments_has_time`
      (gpx2.py:51-65, 104-106). */
  datatype Timing = Timing(totalTime: Option<int>, segmentsTimes: seq<Option<int>>, allSegmentsHaveTime: bool)

  function TrackTiming(dates: seq<Option<int>>): (t: Timing)
    ensures |t.segmentsTimes| == Pairs(|dates|)
    ensures forall i :: 0 <= i < |t.segmentsTimes| ==>
              (t.segmentsTimes[i].None? <==> !BothKnown(dates[i], dates[i + 1]))
    ensures forall i :: 0 <= i < |t.segmentsTimes| && BothKnown(dates[i], dates[i + 1]) ==>
              t.segmentsTimes[i] == Some(DeltaSeconds(dates[i].value, dates[i + 1].value))
    ensures t.allSegmentsHaveTime <==> forall i :: 0 <= i < |t.segmentsTimes| ==> t.segmentsTimes[i].Some?
    ensures t.totalTime.None? <==>
              |dates| == 0 || !BothKnown(dates[0], dates[|dates| - 1])
              || DeltaSeconds(dates[0].value, dates[|dates| - 1].value) == 0
    ensures t.totalTime.Some? ==>
              0 < t.totalTime.value < SecondsPerDay
              && t.totalTime.value == DeltaSeconds(dates[0].value, dates[|dates| - 1].value)
    ensures |dates| <= 1 ==> t.totalTime.None? && t.allSegmentsHaveTime
  {
    var times, flag := SegmentTimes(dates), AllSegmentsHaveTime(dates);
    FlagMatchesSegmentTimes(dates);
    assert flag <==> forall i :: 0 <= i < |times| ==> times[i].Some?;
    Timing(TotalTime(dates), times, flag)
  }

  /** Height changes and their classification (gpx2.py:79-101). */
  datatype Climb = Climb(
    segmentsDiff: seq<real>, segmentsAsc: seq<real>, segmentsDesc: seq<real>,
    sumAsc: real, sumDesc: real, sumDiff: real)

  function TrackClimb(zs: seq<Option<real>>): (c: Climb)
    ensures |c.segmentsDiff| == Pairs(|zs|)
    ensures forall i :: 0 <= i < |c.segmentsDiff| ==> c.segmentsDiff[i] == Rise(zs[i], zs[i + 1])
    ensures forall i :: 0 <= i < |c.segmentsAsc| ==> c.segmentsAsc[i] > 0.0
    ensures forall x :: multiset(c.segmentsAsc)[x] == (if x > 0.0 then multiset(c.segmentsDiff)[x] else 0)
    ensures forall i :: 0 <= i < |c.segmentsDesc| ==> c.segmentsDesc[i] < 0.0
    ensures forall x :: multiset(c.segmentsDesc)[x] == (if x < 0.0 then multiset(c.segmentsDiff)[x] else 0)
    ensures c.sumAsc == Sum(c.segmentsAsc) && c.sumDesc == Sum(c.segmentsDesc)
    ensures c.sumDiff == Sum(c.segmentsDiff)
    ensures c.sumAsc >= 0.0 && c.sumDesc <= 0.0
    ensures c.sumAsc + c.sumDesc == c.sumDiff
    ensures (|zs| > 0 && forall i :: 0 <= i < |zs| ==> zs[i].Some?) ==>
              c.sumDiff == zs[|zs| - 1].value - zs[0].value
  {
    var diffs := HeightDiffs(zs);
    var asc, desc := Ascents(diffs), Descents(diffs);
    AscentPlusDescentIsNet(diffs);
    AscentDescentSigns(diffs);
    assert (|zs| > 0 && forall i :: 0 <= i < |zs| ==> zs[i].Some?) ==>
             Sum(diffs) == zs[|zs| - 1].value - zs[0].value by {
      if |zs| > 0 && forall i :: 0 <= i < |zs| ==> zs[i].Some? {
        HeightDiffsTelescope(zs);
      }
    }
    Climb(diffs, asc, desc, Sum(asc), Sum(desc), Sum(diffs))
  }

  /** The segments seen by the steepest-segment search:
      `zip(lat[:-1], lon[:-1], segments_len, segments_diff)` (gpx2.py:113). */
  function SearchSegments(pts: seq<Point>, lens: seq<real>, diffs: seq<real>): (r: seq<Segment>)
    requires |lens| == Pairs(|pts|) && |diffs| == Pairs(|pts|)
    ensures |r| == Pairs(|pts|)
    ensures forall i :: 0 <= i < |r| ==> r[i] == Segment(pts[i].lat, pts[i].lon, lens[i], diffs[i])
  {
    seq(Pairs(|pts|), i requires 0 <= i < Pairs(|pts|) => Segment(pts[i].lat, pts[i].lon, lens[i], diffs[i]))
  }

  /** `min_z` and `max_z` over the recorded elevations of the points
      (gpx2.py:68-75). */
  function PointBounds(pts: seq<Point>): (b: Bounds)
    ensures forall i :: 0 <= i < |pts| && pts[i].ele.Some? ==> b.min <= pts[i].ele.value <= b.max
    ensures b.min == Sentinel || exists i :: 0 <= i < |pts| && pts[i].ele == Some(b.min)
    ensures b.max == -Sentinel || exists i :: 0 <= i < |pts| && pts[i].ele == Some(b.max)
    ensures (forall i :: 0 <= i < |pts| ==> pts[i].ele.None?) ==> b == Bounds(Sentinel, -Sentinel)
  {
    var el := Elevations(pts);
    var r := ElevationBounds(el);
    assert forall i :: 0 <= i < |pts| ==> el[i] == pts[i].ele;
    assert (forall i :: 0 <= i < |pts| ==> pts[i].ele.None?) ==> r == Bounds(Sentinel, -Sentinel) by {
      if forall i :: 0 <= i < |pts| ==> pts[i].ele.None? {
        NoElevationKeepsSentinels(el);
      }
    }
    r
  }

  /** The steepest segment: `hardest` and `nach_max` (gpx2.py:111-118). */
  datatype Steep = Steep(hardest: Option<(real, real)>, gradeMax: real)

  function SteepestSegment(pts: seq<Point>, lens: seq<real>, diffs: seq<real>): (r: Steep)
    requires |lens| == Pairs(|pts|) && |diffs| == Pairs(|pts|)
    ensures forall i :: 0 <= i < |lens| && lens[i] > 0.0 ==> Slope(diffs[i], lens[i]) <= r.gradeMax
    ensures r.hardest.None? <==> forall i :: 0 <= i < |lens| ==> lens[i] <= 0.0
    ensures r.hardest.None? ==> r.gradeMax == -1.0
    ensures r.hardest.Some? ==>
              exists k :: 0 <= k < |lens| && lens[k] > 0.0
                && r.hardest.value == (pts[k].lat, pts[k].lon)
                && Slope(diffs[k], lens[k]) == r.gradeMax
                && forall j :: 0 <= j < k && lens[j] > 0.0 ==> Slope(diffs[j], lens[j]) < r.gradeMax
  {
    var segs := SearchSegments(pts, lens, diffs);
    var peak := ArgSteepest(segs);
    assert forall i :: 0 <= i < |segs| ==> segs[i].len == lens[i] && segs[i].diff == diffs[i];
    assert peak.index.Some? ==>
             var k := peak.index.value;
             segs[k] == Segment(pts[k].lat, pts[k].lon, lens[k], diffs[k]);
    Steep(Hardest(segs), peak.grade)
  }

  /** The attributes computed by `GPXFile.__init__`, grouped by the part of
      the pass that computes them, with `avg_vel` on its own. */
  datatype Stats = Stats(
    distance: Distance, timing: Timing, bounds: Bounds, climb: Climb,
    avgVel: Option<real>, steep: Steep)

  /** The whole statistics pass (gpx2.py:36-119). */
  function Summarize(pts: seq<Point>, xyz: seq<Projected>, dist: (Projected, Projected) -> real): (s: Stats)
    requires |xyz| == |pts|
    ensures |s.distance.segmentsLen| == |s.timing.segmentsTimes| == |s.climb.segmentsDiff| == Pairs(|pts|)
    ensures s.avgVel.Some? <==> s.timing.totalTime.Some?
    ensures forall i :: 0 <= i < |pts| && pts[i].ele.Some? ==> s.bounds.min <= pts[i].ele.value <= s.bounds.max
  {
    var d := RouteLength(xyz, dist);
    var t := TrackTiming(Times(pts));
    var c := TrackClimb(Heights(xyz));
    var b := PointBounds(pts);
    Stats(d, t, b, c,
          AverageVelocity(d.length, t.totalTime),
          SteepestSegment(pts, d.segmentsLen, c.segmentsDiff))
  }

  /** A track of fewer than two points has length 0, no total time, no
      average velocity and no steepest segment, and its flag is set. */
  lemma ShortTrack(pts: seq<Point>, xyz: seq<Projected>, dist: (Projected, Projected) -> real)
    requires |xyz| == |pts| <= 1
    ensures var s := Summarize(pts, xyz, dist);
            && s.distance.length == 0.0 && s.timing.totalTime.None? && s.avgVel.None?
            && s.timing.allSegmentsHaveTime && s.steep.hardest.None? && s.steep.gradeMax == -1.0
  {
  }
}

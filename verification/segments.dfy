/** The per-segment sequences of the track statistics (gpx2.py:41-65 and
    78-97): one entry per pair of consecutive points, built by the loops over
    `zip(points[:-1], points[1:])`. Each sequence is defined as that loop's
    left fold and characterised element by element in its contract. */
module Segments {

  import opened Optional
  import opened Sums
  import opened TimeDelta

  /** Number of consecutive pairs among `n` points: `max(n - 1, 0)`. */
  function Pairs(n: nat): nat
  {
    if n == 0 then 0 else n - 1
  }

  /** `segments_len`: the length of every segment, `dist` being the distance
      between the projected endpoints (gpx2.py:42-47). */
  function SegmentLengths<P>(pts: seq<P>, dist: (P, P) -> real): (r: seq<real>)
    ensures |r| == Pairs(|pts|)
    ensures forall i :: 0 <= i < |r| ==> r[i] == dist(pts[i], pts[i + 1])
  {
    if |pts| < 2 then []
    else SegmentLengths(pts[..|pts| - 1], dist) + [dist(pts[|pts| - 2], pts[|pts| - 1])]
  }

  /** The route length `len` is the sum of the segment lengths, and so is never
      negative when no distance between consecutive points is. */
  lemma {:induction false} TotalLengthNonnegative<P>(pts: seq<P>, dist: (P, P) -> real)
    requires forall i :: 0 <= i < |pts| - 1 ==> dist(pts[i], pts[i + 1]) >= 0.0
    ensures Sum(SegmentLengths(pts, dist)) >= 0.0
  {
    var lens := SegmentLengths(pts, dist);
    forall i | 0 <= i < |lens|
      ensures lens[i] >= 0.0
    {
      assert lens[i] == dist(pts[i], pts[i + 1]);
    }
    SumNonnegative(lens);
  }

  /** Whether both endpoints of a pair carry a value. */
  predicate BothKnown<T>(a: Option<T>, b: Option<T>)
  {
    a.Some? && b.Some?
  }

  /** Elapsed seconds of one segment: `(ptB - ptA).seconds` when both
      timestamps are known, `None` otherwise (gpx2.py:60-64). */
  function PairSeconds(a: Option<int>, b: Option<int>): (r: Option<int>)
    ensures r.None? <==> a.None? || b.None?
  {
    if BothKnown(a, b) then Some(DeltaSeconds(a.value, b.value)) else None
  }

  /** `segments_times`: a segment's elapsed seconds when both endpoint
      timestamps are known, `None` otherwise; a known value has wrapped into
      one day (gpx2.py:57-65). */
  function SegmentTimes(dates: seq<Option<int>>): (r: seq<Option<int>>)
    ensures |r| == Pairs(|dates|)
    ensures forall i :: 0 <= i < |r| ==> r[i] == PairSeconds(dates[i], dates[i + 1])
    ensures forall i :: 0 <= i < |r| ==> (r[i].None? <==> !BothKnown(dates[i], dates[i + 1]))
    ensures forall i :: 0 <= i < |r| && BothKnown(dates[i], dates[i + 1]) ==>
              r[i] == Some(DeltaSeconds(dates[i].value, dates[i + 1].value))
    ensures forall i :: 0 <= i < |r| && r[i].Some? ==> 0 <= r[i].value < SecondsPerDay
  {
    if |dates| < 2 then []
    else SegmentTimes(dates[..|dates| - 1]) + [PairSeconds(dates[|dates| - 2], dates[|dates| - 1])]
  }

  /** A segment time is missing exactly when one of its endpoint timestamps
      is. */
  lemma SegmentTimeMissing(dates: seq<Option<int>>, i: nat)
    requires i < |SegmentTimes(dates)|
    ensures SegmentTimes(dates)[i].None? <==> dates[i].None? || dates[i + 1].None?
  {
    assert SegmentTimes(dates)[i] == PairSeconds(dates[i], dates[i + 1]);
  }

  /** `all_segments_has_time`: starts true and is cleared by any segment with a
      missing endpoint timestamp, so it is vacuously true below two points
      (gpx2.py:58-63). */
  function AllSegmentsHaveTime(dates: seq<Option<int>>): (b: bool)
    ensures b <==> forall i :: 0 <= i < |dates| - 1 ==> BothKnown(dates[i], dates[i + 1])
  {
    if |dates| < 2 then true
    else AllSegmentsHaveTime(dates[..|dates| - 1]) && BothKnown(dates[|dates| - 2], dates[|dates| - 1])
  }

  /** The flag agrees with the segment times: it is set exactly when no
      segment time is `None`. */
  lemma FlagMatchesSegmentTimes(dates: seq<Option<int>>)
    ensures AllSegmentsHaveTime(dates) <==>
            forall i :: 0 <= i < |SegmentTimes(dates)| ==> SegmentTimes(dates)[i].Some?
  {
    if AllSegmentsHaveTime(dates) {
      forall i | 0 <= i < |SegmentTimes(dates)|
        ensures SegmentTimes(dates)[i].Some?
      {
        assert BothKnown(dates[i], dates[i + 1]);
      }
    } else {
      var i :| 0 <= i < |dates| - 1 && !BothKnown(dates[i], dates[i + 1]);
      assert 0 <= i < |SegmentTimes(dates)| && !SegmentTimes(dates)[i].Some?;
    }
  }

  /** From two points on, the flag says that every timestamp of the track is
      known; with fewer points it holds whatever the timestamps are. */
  lemma {:induction false} FlagMeansEveryPointTimed(dates: seq<Option<int>>)
    ensures |dates| >= 2 ==> (AllSegmentsHaveTime(dates) <==> forall i :: 0 <= i < |dates| ==> dates[i].Some?)
    ensures |dates| < 2 ==> AllSegmentsHaveTime(dates)
  {
    if |dates| >= 2 && AllSegmentsHaveTime(dates) {
      forall i | 0 <= i < |dates|
        ensures dates[i].Some?
      {
        if i < |dates| - 1 {
          assert BothKnown(dates[i], dates[i + 1]);
        } else {
          assert BothKnown(dates[i - 1], dates[i]);
        }
      }
    }
  }

  /** Height change over one segment, from the heights of its endpoints: when
      either is missing both are taken as 0, so the change is 0
      (gpx2.py:84-90). */
  function Rise(za: Option<real>, zb: Option<real>): real
  {
    if za.None? || zb.None? then 0.0 else zb.value - za.value
  }

  /** `segments_diff`: the height change of every segment (gpx2.py:82-91). */
  function HeightDiffs(zs: seq<Option<real>>): (r: seq<real>)
    ensures |r| == Pairs(|zs|)
    ensures forall i :: 0 <= i < |r| ==> r[i] == Rise(zs[i], zs[i + 1])
  {
    if |zs| < 2 then []
    else HeightDiffs(zs[..|zs| - 1]) + [Rise(zs[|zs| - 2], zs[|zs| - 1])]
  }

  /** When every height is known the changes telescope: `sum_diff` is the last
      height minus the first (gpx2.py:101). */
  lemma {:induction false} HeightDiffsTelescope(zs: seq<Option<real>>)
    requires |zs| > 0
    requires forall i :: 0 <= i < |zs| ==> zs[i].Some?
    ensures Sum(HeightDiffs(zs)) == zs[|zs| - 1].value - zs[0].value
  {
    if |zs| >= 2 {
      var init := zs[..|zs| - 1];
      HeightDiffsTelescope(init);
      assert HeightDiffs(zs) == HeightDiffs(init) + [Rise(zs[|zs| - 2], zs[|zs| - 1])];
      var d := HeightDiffs(zs);
      assert d[..|d| - 1] == HeightDiffs(init);
    }
  }
}

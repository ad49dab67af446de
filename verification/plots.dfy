/** The two series plotted against each other by `plots()` (gpx2.py:158-169):
    the cumulative distance at the end of each segment and the speed over each
    segment. The drawing itself is not modelled. */
module PlotSeries {

  import opened Optional
  import opened Sums

  /** `len_cum`: the running total `l += x` recorded after every segment
      (gpx2.py:161-165). Entry `i` is the distance covered up to the end of
      segment `i`. */
  function CumulativeLengths(lens: seq<real>): (r: seq<real>)
    ensures |r| == |lens|
    ensures forall i :: 0 <= i < |r| ==> r[i] == Sum(lens[..i + 1])
  {
    if |lens| == 0 then []
    else
      var c := CumulativeLengths(lens[..|lens| - 1]);
      var l := (if |c| == 0 then 0.0 else c[|c| - 1]) + lens[|lens| - 1];
      assert lens[..|lens|] == lens;
      assert |c| > 0 ==> lens[..|lens| - 1][..|c|] == lens[..|lens| - 1];
      assert forall i :: 0 <= i < |c| ==> c[i] == Sum(lens[..i + 1]) by {
        forall i | 0 <= i < |c|
          ensures c[i] == Sum(lens[..i + 1])
        {
          assert lens[..|lens| - 1][..i + 1] == lens[..i + 1];
        }
      }
      c + [l]
  }

  /** The last cumulative distance is the route length `len`. */
  lemma CumulativeEndsAtTotal(lens: seq<real>)
    requires |lens| > 0
    ensures CumulativeLengths(lens)[|lens| - 1] == Sum(lens)
  {
    assert lens[..|lens|] == lens;
  }

  /** With non-negative segment lengths the cumulative distance never
      decreases. */
  lemma {:induction false} CumulativeNondecreasing(lens: seq<real>, i: nat, j: nat)
    requires forall k :: 0 <= k < |lens| ==> lens[k] >= 0.0
    requires i <= j < |lens|
    ensures CumulativeLengths(lens)[i] <= CumulativeLengths(lens)[j]
    decreases j - i
  {
    if i < j {
      CumulativeNondecreasing(lens, i, j - 1);
      var c := CumulativeLengths(lens);
      assert lens[..j + 1][..j] == lens[..j];
      assert c[j] == c[j - 1] + lens[j];
    }
  }

  /** Speed over one segment, `x / t`, with 0 standing in when the segment time
      is unknown or zero (gpx2.py:166-169). */
  function SegmentSpeed(x: real, t: Option<int>): (v: real)
    ensures t.Some? && t.value != 0 ==> v * (t.value as real) == x
    ensures t.None? || t.value == 0 ==> v == 0.0
    ensures x >= 0.0 && (t.None? || t.value >= 0) ==> v >= 0.0
  {
    if t.None? || t.value == 0 then 0.0 else x / (t.value as real)
  }

  /** `vel`: the speed of every segment. `zip` stops at the shorter input; the
      two inputs have one entry per segment, so the series has one too
      (gpx2.py:160-169). */
  function Velocities(lens: seq<real>, times: seq<Option<int>>): (r: seq<real>)
    ensures |r| == if |lens| < |times| then |lens| else |times|
    ensures forall i :: 0 <= i < |r| ==> r[i] == SegmentSpeed(lens[i], times[i])
  {
    if |lens| == 0 || |times| == 0 then []
    else if |lens| < |times| then Velocities(lens, times[..|lens|])
    else if |times| < |lens| then Velocities(lens[..|times|], times)
    else Velocities(lens[..|lens| - 1], times[..|times| - 1]) + [SegmentSpeed(lens[|lens| - 1], times[|times| - 1])]
  }

  /** Speeds are never negative when lengths and times are not. */
  lemma VelocitiesNonnegative(lens: seq<real>, times: seq<Option<int>>)
    requires forall k :: 0 <= k < |lens| ==> lens[k] >= 0.0
    requires forall k :: 0 <= k < |times| && times[k].Some? ==> times[k].value >= 0
    ensures forall i :: 0 <= i < |Velocities(lens, times)| ==> Velocities(lens, times)[i] >= 0.0
  {
  }
}

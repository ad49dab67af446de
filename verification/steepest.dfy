/** The steepest ("hardest") segment of a track (gpx2.py:109-118): among the
    segments of positive length, the first one whose grade `|dh| / length` is
    the largest, and the latitude/longitude of its start point. */
module Steepest {

  import opened Optional

  /** One segment as the search sees it: the coordinates of its start point,
      its length and its height change. */
  datatype Segment = Segment(lat: real, lon: real, len: real, diff: real)

  function Abs(x: real): real
  {
    if x < 0.0 then -x else x
  }

  /** The grade `abs(h_diff) / dist` of a height change over a positive
      length (gpx2.py:115). */
  function Slope(diff: real, len: real): (g: real)
    requires len > 0.0
    ensures g >= 0.0
    ensures g * len == Abs(diff)
  {
    Abs(diff) / len
  }

  /** The grade of a segment of positive length. */
  function Grade(s: Segment): real
    requires s.len > 0.0
  {
    Slope(s.diff, s.len)
  }

  /** Result of the search: the index of the chosen segment, if any, and
      `nach_max`, the best grade found (-1 when none). */
  datatype Peak = Peak(index: Option<nat>, grade: real)

  /** The search as a left fold: `nach_max` starts at -1, and a segment of
      positive length replaces the current best only when its grade is
      strictly greater, so ties keep the earliest segment (gpx2.py:111-117). */
  function ArgSteepest(segs: seq<Segment>): (r: Peak)
    ensures r.index.None? <==> forall i :: 0 <= i < |segs| ==> segs[i].len <= 0.0
    ensures r.index.None? ==> r.grade == -1.0
    ensures r.index.Some? ==>
              r.index.value < |segs| && segs[r.index.value].len > 0.0
              && Grade(segs[r.index.value]) == r.grade
    ensures forall i :: 0 <= i < |segs| && segs[i].len > 0.0 ==> Grade(segs[i]) <= r.grade
    ensures r.index.Some? ==>
              forall j :: 0 <= j < r.index.value && segs[j].len > 0.0 ==> Grade(segs[j]) < r.grade
  {
    if |segs| == 0 then Peak(None, -1.0)
    else
      var p := ArgSteepest(segs[..|segs| - 1]);
      var s := segs[|segs| - 1];
      if s.len > 0.0 && Grade(s) > p.grade then Peak(Some(|segs| - 1), Grade(s)) else p
  }

  /** `hardest`: the (lat, lon) of the start of the steepest segment, `None`
      when no segment has positive length (gpx2.py:111, 117-118). */
  function Hardest(segs: seq<Segment>): (h: Option<(real, real)>)
    ensures h.None? <==> forall i :: 0 <= i < |segs| ==> segs[i].len <= 0.0
  {
    var p := ArgSteepest(segs);
    if p.index.Some? then Some((segs[p.index.value].lat, segs[p.index.value].lon)) else None
  }

  /** `hardest` is the start of a segment of positive length attaining the
      maximum grade, and no earlier segment attains it. */
  lemma HardestIsEarliestSteepest(segs: seq<Segment>)
    requires Hardest(segs).Some?
    ensures exists k :: 0 <= k < |segs| && segs[k].len > 0.0
              && Hardest(segs).value == (segs[k].lat, segs[k].lon)
              && (forall i :: 0 <= i < |segs| && segs[i].len > 0.0 ==> Grade(segs[i]) <= Grade(segs[k]))
              && (forall j :: 0 <= j < k && segs[j].len > 0.0 ==> Grade(segs[j]) < Grade(segs[k]))
  {
    var k := ArgSteepest(segs).index.value;
    assert segs[k].len > 0.0;
  }

  /** Two segments with the same maximal grade: the earlier one is reported. */
  lemma TieKeepsEarliest(a: Segment, b: Segment)
    requires a.len > 0.0 && b.len > 0.0 && Grade(a) == Grade(b)
    ensures Hardest([a, b]) == Some((a.lat, a.lon))
  {
    assert [a, b][..1] == [a];
    assert [a][..0] == [];
    assert ArgSteepest([a]) == Peak(Some(0), Grade(a));
    assert ArgSteepest([a, b]) == Peak(Some(0), Grade(a));
  }
}

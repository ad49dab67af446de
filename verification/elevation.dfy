/** Elevation statistics of a track: the extremes of the recorded elevations
    (gpx2.py:67-75) and the ascent, descent and net height change accumulated
    from the per-segment height changes (gpx2.py:79-101). */
module Elevation {

  import opened Optional
  import opened Sums

  /** The magnitude of the starting bounds: `min_z` starts at 99999999 and
      `max_z` at -99999999, and both keep these values when no elevation is
      known (gpx2.py:68-69). */
  const Sentinel: real := 99999999.0

  datatype Bounds = Bounds(min: real, max: real)

  /** `min_z` and `max_z`: a left fold over the elevations that skips the
      unknown ones and narrows each bound by a strict comparison
      (gpx2.py:68-75). Every known elevation lies between the bounds, and each
      bound is either its sentinel or one of the known elevations. */
  function ElevationBounds(el: seq<Option<real>>): (r: Bounds)
    ensures forall i :: 0 <= i < |el| && el[i].Some? ==> r.min <= el[i].value <= r.max
    ensures r.min <= Sentinel && r.max >= -Sentinel
    ensures r.min == Sentinel || Some(r.min) in el
    ensures r.max == -Sentinel || Some(r.max) in el
  {
    if |el| == 0 then Bounds(Sentinel, -Sentinel)
    else
      var b := ElevationBounds(el[..|el| - 1]);
      match el[|el| - 1]
      case None => b
      case Some(z) =>
        Bounds(if z < b.min then z else b.min, if z > b.max then z else b.max)
  }

  /** With no known elevation the bounds stay at their sentinels. */
  lemma {:induction false} NoElevationKeepsSentinels(el: seq<Option<real>>)
    requires forall i :: 0 <= i < |el| ==> el[i].None?
    ensures ElevationBounds(el) == Bounds(Sentinel, -Sentinel)
  {
    if |el| > 0 {
      NoElevationKeepsSentinels(el[..|el| - 1]);
    }
  }

  /** When some known elevation lies within the sentinel range, both bounds
      are attained: `min_z` is the least and `max_z` the greatest known
      elevation. */
  lemma BoundsAttained(el: seq<Option<real>>, k: nat)
    requires k < |el| && el[k].Some?
    requires -Sentinel <= el[k].value <= Sentinel
    ensures Some(ElevationBounds(el).min) in el
    ensures Some(ElevationBounds(el).max) in el
  {
    var b := ElevationBounds(el);
    if b.min == Sentinel {
      assert el[k].value == Sentinel;
      assert el[k] == Some(b.min);
    }
    if b.max == -Sentinel {
      assert el[k].value == -Sentinel;
      assert el[k] == Some(b.max);
    }
  }

  /** `segments_asc`: the positive height changes, in order (gpx2.py:92-94).
      As a multiset it is exactly the positive part of `d`. */
  function Ascents(d: seq<real>): (r: seq<real>)
    ensures forall i :: 0 <= i < |r| ==> r[i] > 0.0
    ensures forall x :: multiset(r)[x] == (if x > 0.0 then multiset(d)[x] else 0)
  {
    if |d| == 0 then []
    else
      var last := d[|d| - 1];
      assert d == d[..|d| - 1] + [last];
      Ascents(d[..|d| - 1]) + (if last > 0.0 then [last] else [])
  }

  /** `segments_desc`: the negative height changes, in order (gpx2.py:95-97).
      As a multiset it is exactly the negative part of `d`. */
  function Descents(d: seq<real>): (r: seq<real>)
    ensures forall i :: 0 <= i < |r| ==> r[i] < 0.0
    ensures forall x :: multiset(r)[x] == (if x < 0.0 then multiset(d)[x] else 0)
  {
    if |d| == 0 then []
    else
      var last := d[|d| - 1];
      assert d == d[..|d| - 1] + [last];
      Descents(d[..|d| - 1]) + (if last < 0.0 then [last] else [])
  }

  /** Ascent plus descent is the net height change: `sum_asc + sum_desc ==
      sum_diff`, zero changes entering neither list (gpx2.py:99-101). */
  lemma {:induction false} AscentPlusDescentIsNet(d: seq<real>)
    ensures Sum(Ascents(d)) + Sum(Descents(d)) == Sum(d)
  {
    if |d| > 0 {
      var init, last := d[..|d| - 1], d[|d| - 1];
      AscentPlusDescentIsNet(init);
      var up := if last > 0.0 then [last] else [];
      var down := if last < 0.0 then [last] else [];
      SumAppend(Ascents(init), up);
      SumAppend(Descents(init), down);
      assert Sum(up) + Sum(down) == last by {
        assert Sum([]) == 0.0;
        assert Sum([last]) == last by { assert [last][..0] == []; }
      }
    }
  }

  /** `sum_asc` is never negative and `sum_desc` never positive. */
  lemma AscentDescentSigns(d: seq<real>)
    ensures Sum(Ascents(d)) >= 0.0
    ensures Sum(Descents(d)) <= 0.0
  {
    SumNonnegative(Ascents(d));
    SumNonpositive(Descents(d));
  }
}

/** The two computations the application window performs on a track's
    statistics: splitting the total time into hours, minutes and seconds for
    its label (main.py:56-63), and thinning the points drawn as map markers
    (main.py:96-101). */
module Display {

  /** A duration as shown in the time label, `'%dh %dm %ds'`. */
  datatype Clock = Clock(h: nat, m: nat, s: nat)

  /** Seconds represented by a clock reading. */
  function ClockSeconds(c: Clock): nat
  {
    3600 * c.h + 60 * c.m + c.s
  }

  /** The label's split of `T` seconds (main.py:60-62). In Python 3
      `int(T) / 3600` is a float that `%d` truncates, and `int(T / 60)`
      truncates towards zero; for `T >= 0` both are floor division. The result
      is the unique reading with minutes and seconds below 60 that adds up to
      `T`. */
  function SplitTime(t: nat): (c: Clock)
    ensures c.m < 60 && c.s < 60
    ensures ClockSeconds(c) == t
    ensures t < 86400 ==> c.h < 24
  {
    Clock(t / 3600, (t / 60) % 60, t % 60)
  }

  /** Splitting the seconds of a well-formed clock reading gives it back. */
  lemma SplitClockSeconds(c: Clock)
    requires c.m < 60 && c.s < 60
    ensures SplitTime(ClockSeconds(c)) == c
  {
    var t := ClockSeconds(c);
    DivUnique(t, 3600, c.h, 60 * c.m + c.s);
    DivUnique(t, 60, 60 * c.h + c.m, c.s);
    DivUnique(60 * c.h + c.m, 60, c.h, c.m);
  }

  /** Number of elements of `s[::k]` for `|s| == n`: `ceil(n / k)`. */
  function CeilDiv(n: nat, k: nat): nat
    requires k >= 1
  {
    (n + k - 1) / k
  }

  lemma MulLe(x: int, y: int, k: nat)
    requires x <= y
    ensures x * k <= y * k
  {
    assert y * k == x * k + (y - x) * k;
  }

  /** Integer division is determined by any quotient/remainder split. */
  lemma DivUnique(a: int, k: int, q: int, r: int)
    requires k > 0 && 0 <= r < k && a == q * k + r
    ensures a / k == q
  {
    var q' := a / k;
    assert a == q' * k + a % k;
    if q' > q {
      MulLe(q + 1, q', k);
    } else if q' < q {
      MulLe(q' + 1, q, k);
    }
  }

  /** Dropping the first `k` of more than `k` elements drops one slice
      element. */
  lemma CeilDivStep(n: nat, k: nat)
    requires 1 <= k < n
    ensures CeilDiv(n, k) == CeilDiv(n - k, k) + 1
  {
    var q, r := (n - 1) / k, (n - 1) % k;
    assert n - 1 == q * k + r;
    assert n + k - 1 == (q + 1) * k + r;
    DivUnique(n + k - 1, k, q + 1, r);
  }

  lemma MulSucc(j: nat, k: nat)
    requires j >= 1
    ensures j * k == (j - 1) * k + k
  {
  }

  /** `s[::k]`: the first element of `s`, then `s[k:][::k]`. */
  function EveryKth<T>(s: seq<T>, k: nat): (r: seq<T>)
    requires k >= 1
    ensures |r| == CeilDiv(|s|, k)
    decreases |s|
  {
    if |s| == 0 then []
    else if |s| <= k then
      DivUnique(|s| + k - 1, k, 1, |s| - 1);
      [s[0]]
    else
      CeilDivStep(|s|, k);
      [s[0]] + EveryKth(s[k..], k)
  }

  /** Element `j` of `s[::k]` is element `j * k` of `s`. */
  lemma {:induction false} EveryKthIndex<T>(s: seq<T>, k: nat, j: nat)
    requires k >= 1 && j < |EveryKth(s, k)|
    ensures j * k < |s| && EveryKth(s, k)[j] == s[j * k]
    decreases j
  {
    if j > 0 {
      var rest := s[k..];
      EveryKthIndex(rest, k, j - 1);
      MulSucc(j, k);
    }
  }

  /** All elements of `s[::k]` at once. */
  lemma EveryKthElements<T>(s: seq<T>, k: nat)
    requires k >= 1
    ensures forall j :: 0 <= j < |EveryKth(s, k)| ==> j * k < |s| && EveryKth(s, k)[j] == s[j * k]
  {
    forall j | 0 <= j < |EveryKth(s, k)|
      ensures j * k < |s| && EveryKth(s, k)[j] == s[j * k]
    {
      EveryKthIndex(s, k, j);
    }
  }

  /** Marker coordinates after thinning. */
  datatype Markers = Markers(lats: seq<real>, lons: seq<real>)

  /** The thinning step `int(len(lats) / 50)` for more than 50 points
      (main.py:98). */
  function Step(n: nat): (k: nat)
    requires n > 50
    ensures k >= 1 && 50 * k <= n < 50 * k + 50
  {
    n / 50
  }

  /** `draw_markers`' thinning (main.py:96-101): at most 50 points are kept as
      they are; beyond that both lists are sliced with the same step, computed
      from the number of latitudes. */
  function Decimate(lats: seq<real>, lons: seq<real>): (r: Markers)
    ensures |lats| <= 50 ==> r == Markers(lats, lons)
    ensures |lats| > 50 ==>
              var k := Step(|lats|);
              && |r.lats| == CeilDiv(|lats|, k)
              && (forall j :: 0 <= j < |r.lats| ==> j * k < |lats| && r.lats[j] == lats[j * k])
              && |r.lons| == CeilDiv(|lons|, k)
              && (forall j :: 0 <= j < |r.lons| ==> j * k < |lons| && r.lons[j] == lons[j * k])
  {
    if |lats| <= 50 then Markers(lats, lons)
    else
      var k := Step(|lats|);
      EveryKthElements(lats, k);
      EveryKthElements(lons, k);
      Markers(EveryKth(lats, k), EveryKth(lons, k))
  }

  /** Thinning keeps the lists aligned: equal lengths stay equal, and the
      first point is always drawn. */
  lemma DecimateAligned(lats: seq<real>, lons: seq<real>)
    requires |lats| == |lons| && |lats| > 0
    ensures |Decimate(lats, lons).lats| == |Decimate(lats, lons).lons| > 0
    ensures Decimate(lats, lons).lats[0] == lats[0]
    ensures Decimate(lats, lons).lons[0] == lons[0]
  {
  }

  /** Beyond 50 points, thinning never leaves fewer than 50. */
  lemma DecimateKeepsAtLeastFifty(lats: seq<real>, lons: seq<real>)
    requires |lats| > 50
    ensures |Decimate(lats, lons).lats| >= 50
  {
    var n := |lats|;
    var k := Step(n);
    assert n + k - 1 >= 50 * k;
    LowerBoundDiv(n + k - 1, k, 50);
  }

  lemma LowerBoundDiv(a: nat, k: nat, q: nat)
    requires k >= 1 && q * k <= a
    ensures a / k >= q
  {
    assert a == (a / k) * k + a % k;
    if a / k < q {
      MulLe(a / k + 1, q, k);
    }
  }

  /** The message at main.py:99 announces 50 or 51 markers, but with 99
      points the step is 1 and all 99 are drawn. */
  lemma DecimateKeepsNinetyNine(lats: seq<real>, lons: seq<real>)
    requires |lats| == 99
    ensures |Decimate(lats, lons).lats| == 99
  {
  }

  /** The step the message evidently intends: `ceil(n / 50)`. */
  function CappedStep(n: nat): (k: nat)
    requires n > 50
    ensures k >= 1 && n <= 50 * k < n + 50
  {
    (n + 49) / 50
  }

  /** Thinning with the rounded-up step: both lists sliced alike, as in
      `Decimate`. */
  function DecimateCapped(lats: seq<real>, lons: seq<real>): (r: Markers)
    ensures |lats| <= 50 ==> r == Markers(lats, lons)
    ensures |lats| > 50 ==>
              var k := CappedStep(|lats|);
              && |r.lats| == CeilDiv(|lats|, k)
              && (forall j :: 0 <= j < |r.lats| ==> j * k < |lats| && r.lats[j] == lats[j * k])
              && |r.lons| == CeilDiv(|lons|, k)
              && (forall j :: 0 <= j < |r.lons| ==> j * k < |lons| && r.lons[j] == lons[j * k])
  {
    if |lats| <= 50 then Markers(lats, lons)
    else
      var k := CappedStep(|lats|);
      EveryKthElements(lats, k);
      EveryKthElements(lons, k);
      Markers(EveryKth(lats, k), EveryKth(lons, k))
  }

  /** With the rounded-up step at most 50 markers are ever drawn. */
  lemma DecimateCappedAtMostFifty(lats: seq<real>, lons: seq<real>)
    ensures |DecimateCapped(lats, lons).lats| <= 50
  {
    var n := |lats|;
    if n > 50 {
      var k := CappedStep(n);
      UpperBoundDiv(n + k - 1, k, 50);
    }
  }

  lemma UpperBoundDiv(a: nat, k: nat, q: nat)
    requires k >= 1 && a < (q + 1) * k
    ensures a / k <= q
  {
    assert a == (a / k) * k + a % k;
    if a / k > q {
      MulLe(q + 1, a / k, k);
    }
  }
}

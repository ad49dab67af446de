/** Left-to-right sums of real sequences, as computed by the running
    accumulators (`self.len += l`) and the `sum(...)` calls of the track
    statistics. */
module Sums {

  /** Sum of the elements of `s`, accumulated from the left as Python's `sum`
      does. */
  function Sum(s: seq<real>): real
  {
    if |s| == 0 then 0.0 else Sum(s[..|s| - 1]) + s[|s| - 1]
  }

  /** Summation distributes over concatenation. */
  lemma {:induction false} SumAppend(a: seq<real>, b: seq<real>)
    ensures Sum(a + b) == Sum(a) + Sum(b)
  {
    if |b| == 0 {
      assert a + b == a;
    } else {
      assert (a + b)[..|a + b| - 1] == a + b[..|b| - 1];
      SumAppend(a, b[..|b| - 1]);
    }
  }

  /** A sum of non-negative terms is non-negative. */
  lemma {:induction false} SumNonnegative(s: seq<real>)
    requires forall i :: 0 <= i < |s| ==> s[i] >= 0.0
    ensures Sum(s) >= 0.0
  {
    if |s| > 0 {
      SumNonnegative(s[..|s| - 1]);
    }
  }

  /** A sum of non-positive terms is non-positive. */
  lemma {:induction false} SumNonpositive(s: seq<real>)
    requires forall i :: 0 <= i < |s| ==> s[i] <= 0.0
    ensures Sum(s) <= 0.0
  {
    if |s| > 0 {
      SumNonpositive(s[..|s| - 1]);
    }
  }
}

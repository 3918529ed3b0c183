/**
 * The trailing moving average applied to each thread's count series before
 * it is written to the report. Means are exact rationals here.
 */
module Smoothing {

  import opened Timeline

  /** The arithmetic mean of a non-empty series. */
  function Mean(s: seq<int>): real
    requires |s| > 0
  {
    Sum(s) as real / |s| as real
  }

  /**
   * Python's `xs[k:]` for an integer k: a negative k counts from the end and
   * clamps at the front, so `xs[-0:]` is the whole list.
   */
  function SliceFrom(xs: seq<int>, k: int): seq<int>
  {
    if k >= 0 then xs[(if k <= |xs| then k else |xs|)..]
    else xs[(if |xs| + k >= 0 then |xs| + k else 0)..]
  }

  /**
   * Index of the first input still in the buffer after input i: the buffer
   * keeps the last n inputs, or all of them when n is 0.
   */
  function BufferStart(n: nat, i: nat): nat
  {
    if n == 0 || i < n then 0 else i + 1 - n
  }

  /** The value the moving average yields for input i. */
  function TrailingMean(lst: seq<int>, n: nat, i: nat): real
    requires i < |lst|
  {
    Mean(lst[BufferStart(n, i)..i + 1])
  }

  /**
   * The trailing slice averaged at position i holds min(n, i + 1) inputs
   * (all i + 1 when n is 0) and ends at input i.
   */
  lemma TrailingWindowSize(lst: seq<int>, n: nat, i: nat)
    requires i < |lst|
    ensures var w := lst[BufferStart(n, i)..i + 1];
      && |w| == (if n == 0 || i + 1 < n then i + 1 else n)
      && w[|w| - 1] == lst[i]
  {
  }

  /**
   * n_step_moving_average: append each input to the buffer, cut the buffer to
   * its last n items, and yield the buffer's mean.
   */
  method MovingAverage(lst: seq<int>, n: nat) returns (avgs: seq<real>)
    ensures |avgs| == |lst|
    ensures forall i :: 0 <= i < |lst| ==> avgs[i] == TrailingMean(lst, n, i)
  {
    var buffer: seq<int> := [];
    avgs := [];
    var i := 0;
    while i < |lst|
      invariant i <= |lst| && |avgs| == i
      invariant buffer == lst[(if i == 0 then 0 else BufferStart(n, i - 1))..i]
      invariant forall k :: 0 <= k < i ==> avgs[k] == TrailingMean(lst, n, k)
    {
      buffer := buffer + [lst[i]];
      buffer := SliceFrom(buffer, -(n as int));
      assert buffer == lst[BufferStart(n, i)..i + 1];
      avgs := avgs + [Mean(buffer)];
      i := i + 1;
    }
  }

  /** With a buffer of one item the moving average is the input itself. */
  lemma MovingAverageOfOne(lst: seq<int>, i: nat)
    requires i < |lst|
    ensures TrailingMean(lst, 1, i) == lst[i] as real
  {
    assert lst[BufferStart(1, i)..i + 1] == [lst[i]];
    assert Sum([lst[i]]) == lst[i] + Sum([]);
  }

  lemma {:induction false} SumBounds(s: seq<int>, lo: int, hi: int)
    requires forall k :: 0 <= k < |s| ==> lo <= s[k] <= hi
    ensures lo * |s| <= Sum(s) <= hi * |s|
  {
    if s != [] {
      SumBounds(s[1..], lo, hi);
    }
  }

  lemma DivideBounds(x: real, len: real, lo: real, hi: real)
    requires len > 0.0 && lo * len <= x <= hi * len
    ensures lo <= x / len <= hi
  {
  }

  lemma ProductAsReal(a: int, b: int)
    ensures (a * b) as real == a as real * b as real
  {
  }

  /** A smoothed value stays within the least and greatest count averaged into it. */
  lemma MeanWithinBounds(s: seq<int>, lo: int, hi: int)
    requires |s| > 0
    requires forall k :: 0 <= k < |s| ==> lo <= s[k] <= hi
    ensures lo as real <= Mean(s) <= hi as real
  {
    SumBounds(s, lo, hi);
    var len := |s| as real;
    ProductAsReal(lo, |s|);
    ProductAsReal(hi, |s|);
    DivideBounds(Sum(s) as real, len, lo as real, hi as real);
  }

  /** Counts are never negative, so neither is any smoothed value. */
  lemma TrailingMeanNonNegative(lst: seq<int>, n: nat, i: nat)
    requires i < |lst|
    requires forall k :: 0 <= k < |lst| ==> lst[k] >= 0
    ensures TrailingMean(lst, n, i) >= 0.0
  {
    var w := lst[BufferStart(n, i)..i + 1];
    var hi := Sum(w);
    SumNonNegativeBound(w);
    MeanWithinBounds(w, 0, hi);
  }

  lemma {:induction false} SumNonNegativeBound(s: seq<int>)
    requires forall k :: 0 <= k < |s| ==> s[k] >= 0
    ensures forall k :: 0 <= k < |s| ==> s[k] <= Sum(s)
    ensures Sum(s) >= 0
  {
    if s != [] {
      SumNonNegativeBound(s[1..]);
    }
  }

  /** The worked example: [1, 2, 3, 4, 5] smoothed over 3 items is [1, 1.5, 2, 3, 4]. */
  lemma ExampleSmoothing()
    ensures var lst := [1, 2, 3, 4, 5];
      && TrailingMean(lst, 3, 0) == 1.0
      && TrailingMean(lst, 3, 1) == 1.5
      && TrailingMean(lst, 3, 2) == 2.0
      && TrailingMean(lst, 3, 3) == 3.0
      && TrailingMean(lst, 3, 4) == 4.0
  {
    var lst := [1, 2, 3, 4, 5];
    assert lst[0..1] == [1] && lst[0..2] == [1, 2] && lst[0..3] == [1, 2, 3];
    assert lst[1..4] == [2, 3, 4] && lst[2..5] == [3, 4, 5];
  }
}

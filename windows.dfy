/**
 * The window layout shared by the binner and the report's column labels:
 * starting at `startTime`, consecutive windows of width `increment`, kept
 * while their cutoff does not pass `endTime`.
 */
module Windows {

  import opened Timeline

  /**
   * How many windows the layout loop emits. The last cutoff is at most
   * `endTime`, and one more window would end past it.
   */
  function WindowCount(startTime: int, endTime: int, increment: int): (n: nat)
    requires increment > 0
    ensures n > 0 ==> startTime + n * increment <= endTime
    ensures endTime < startTime + (n + 1) * increment
    ensures n == 0 <==> endTime - startTime < increment
    decreases endTime - startTime
  {
    if startTime + increment > endTime then 0
    else
      var rest := WindowCount(startTime + increment, endTime, increment);
      assert (rest + 1) * increment == rest * increment + increment;
      assert (rest + 2) * increment == (rest + 1) * increment + increment;
      rest + 1
  }

  /** Window number k of the layout. */
  function WindowAt(startTime: int, increment: int, k: nat): Window
  {
    Window(startTime + k * increment, startTime + (k + 1) * increment)
  }

  function Layout(startTime: int, endTime: int, increment: int): (ws: seq<Window>)
    requires increment > 0
  {
    seq(WindowCount(startTime, endTime, increment), k requires 0 <= k => WindowAt(startTime, increment, k))
  }

  lemma MulMonotone(a: nat, b: nat, c: nat)
    requires a <= b
    ensures a * c <= b * c
  {
  }

  /**
   * Closed form: on a non-empty range the number of windows is the floor of
   * the range's length over the increment.
   */
  lemma {:induction false} WindowCountIsQuotient(startTime: int, endTime: int, increment: int)
    requires increment > 0 && startTime <= endTime
    ensures WindowCount(startTime, endTime, increment) == (endTime - startTime) / increment
  {
    var n := WindowCount(startTime, endTime, increment);
    var d := endTime - startTime;
    var q := d / increment;
    assert d == q * increment + d % increment;
    assert (q + 1) * increment == q * increment + increment;
    assert n * increment <= d < n * increment + increment by {
      assert (n + 1) * increment == n * increment + increment;
    }
    if n < q {
      MulMonotone(n + 1, q, increment);
    } else if q < n {
      MulMonotone(q + 1, n, increment);
    }
  }

  /**
   * The layout is the partition the binner promises: equal-width windows,
   * each inside [startTime, endTime], every cutoff the next window's start.
   */
  lemma LayoutShape(startTime: int, endTime: int, increment: int)
    requires increment > 0
    ensures var ws := Layout(startTime, endTime, increment);
      && (forall k :: 0 <= k < |ws| ==> ws[k].cutoff == ws[k].start + increment)
      && (forall k :: 0 <= k < |ws| ==> startTime <= ws[k].start && ws[k].cutoff <= endTime)
      && (forall k :: 0 <= k < |ws| ==> ws[k].cutoff <= startTime + |ws| * increment)
      && (forall k :: 0 <= k < |ws| - 1 ==> ws[k].cutoff == ws[k + 1].start)
      && (|ws| > 0 ==> ws[0].start == startTime && ws[|ws| - 1].cutoff == startTime + |ws| * increment)
  {
    var ws := Layout(startTime, endTime, increment);
    forall k | 0 <= k < |ws|
      ensures startTime <= ws[k].start && ws[k].cutoff <= startTime + |ws| * increment <= endTime
    {
      MulMonotone(0, k, increment);
      MulMonotone(k + 1, |ws|, increment);
    }
  }

  /** Window starts strictly increase, so ordering the windows by start keeps them where they are. */
  lemma LayoutAscending(startTime: int, endTime: int, increment: int)
    requires increment > 0
    ensures var ws := Layout(startTime, endTime, increment);
      forall i, j :: 0 <= i < j < |ws| ==> ws[i].start < ws[j].start
  {
    var ws := Layout(startTime, endTime, increment);
    forall i, j | 0 <= i < j < |ws|
      ensures ws[i].start < ws[j].start
    {
      MulMonotone(i + 1, j, increment);
    }
  }
}

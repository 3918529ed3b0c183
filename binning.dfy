/**
 * The window binner: lays out the windows, then walks the thread's messages
 * with one forward cursor, filling each window's bin in turn.
 */
module Binning {

  import opened Timeline
  import opened Windows

  /** A window together with the messages placed in it. */
  datatype Bin = Bin(window: Window, messages: seq<Message>)

  /**
   * How far the cursor advances while serving window `w`: the length of the
   * longest prefix of `ms` whose messages all fall inside `w`.
   */
  function Take(w: Window, ms: seq<Message>): (n: nat)
    ensures n <= |ms|
    ensures forall i :: 0 <= i < n ==> Contains(w, ms[i].time)
    ensures n < |ms| ==> !Contains(w, ms[n].time)
  {
    if ms == [] || !Contains(w, ms[0].time) then 0 else 1 + Take(w, ms[1..])
  }

  /**
   * Reference merge: the messages the cursor places in each window, in window
   * order. Each window takes the longest run of remaining messages it contains;
   * the next window starts where that run ended.
   */
  function Assign(ws: seq<Window>, ms: seq<Message>): (bins: seq<seq<Message>>)
    ensures |bins| == |ws|
  {
    if ws == [] then []
    else
      var n := Take(ws[0], ms);
      [ms[..n]] + Assign(ws[1..], ms[n..])
  }

  function Flatten(bins: seq<seq<Message>>): seq<Message>
  {
    if bins == [] then [] else bins[0] + Flatten(bins[1..])
  }

  function Lengths(bins: seq<seq<Message>>): (counts: seq<int>)
  {
    seq(|bins|, k requires 0 <= k < |bins| => |bins[k]|)
  }

  /** Every message placed in bin k lies inside window k. */
  lemma {:induction false} AssignInWindow(ws: seq<Window>, ms: seq<Message>)
    ensures forall k, i :: 0 <= k < |ws| && 0 <= i < |Assign(ws, ms)[k]| ==>
      Contains(ws[k], Assign(ws, ms)[k][i].time)
  {
    if ws != [] {
      var n := Take(ws[0], ms);
      AssignInWindow(ws[1..], ms[n..]);
      assert forall k :: 1 <= k < |ws| ==> Assign(ws, ms)[k] == Assign(ws[1..], ms[n..])[k - 1];
    }
  }

  /**
   * The bins, read in window order, are exactly a prefix of the messages: no
   * message is counted twice and none is skipped over by the cursor.
   */
  lemma {:induction false} AssignIsPrefix(ws: seq<Window>, ms: seq<Message>)
    ensures Flatten(Assign(ws, ms)) <= ms
  {
    if ws != [] {
      var n := Take(ws[0], ms);
      AssignIsPrefix(ws[1..], ms[n..]);
      assert ms == ms[..n] + ms[n..];
    }
  }

  /** Flattening a bin in front of others puts its messages in front. */
  lemma FlattenCons(bin: seq<Message>, bins: seq<seq<Message>>)
    ensures Flatten([bin] + bins) == bin + Flatten(bins)
  {
    assert ([bin] + bins)[1..] == bins;
  }

  lemma SplitAt(ms: seq<Message>, n: nat)
    requires n <= |ms|
    ensures ms[..n] + ms[n..] == ms
  {
  }

  lemma {:induction false} SumLengths(bins: seq<seq<Message>>)
    ensures Sum(Lengths(bins)) == |Flatten(bins)|
  {
    if bins != [] {
      SumLengths(bins[1..]);
      assert Lengths(bins)[1..] == Lengths(bins[1..]);
    }
  }

  /** At most every message is counted. */
  lemma TotalAtMostMessages(ws: seq<Window>, ms: seq<Message>)
    ensures Sum(Lengths(Assign(ws, ms))) <= |ms|
  {
    SumLengths(Assign(ws, ms));
    AssignIsPrefix(ws, ms);
  }

  predicate Chained(ws: seq<Window>)
  {
    forall k :: 0 <= k < |ws| - 1 ==> ws[k].cutoff == ws[k + 1].start
  }

  /**
   * Take is pinned down by its two facts: a run of m messages inside the
   * window, followed by the end or by a message outside it, gives m.
   */
  lemma TakeExactly(w: Window, ms: seq<Message>, m: nat)
    requires m <= |ms|
    requires forall i :: 0 <= i < m ==> Contains(w, ms[i].time)
    requires m < |ms| ==> !Contains(w, ms[m].time)
    ensures Take(w, ms) == m
  {
  }

  lemma SortedSuffix(ms: seq<Message>, n: nat)
    requires Sorted(ms) && n <= |ms|
    ensures Sorted(ms[n..])
  {
    var rest := ms[n..];
    forall i, j | 0 <= i <= j < |rest|
      ensures rest[i].time <= rest[j].time
    {
      assert rest[i] == ms[n + i] && rest[j] == ms[n + j];
    }
  }

  /** What the next window sees: the messages the first window did not take all lie at or after its cutoff. */
  lemma RemainderAfterCutoff(w: Window, ms: seq<Message>, hi: int)
    requires Sorted(ms)
    requires forall i :: 0 <= i < |ms| ==> w.start <= ms[i].time < hi
    ensures var rest := ms[Take(w, ms)..];
      forall i :: 0 <= i < |rest| ==> w.cutoff <= rest[i].time < hi
  {
    var n := Take(w, ms);
    var rest := ms[n..];
    forall i | 0 <= i < |rest|
      ensures w.cutoff <= rest[i].time < hi
    {
      assert !Contains(w, ms[n].time);
      assert rest[i] == ms[n + i];
      assert ms[n].time <= ms[n + i].time;
    }
  }

  /** What is left after the first window is served meets AssignComplete's demands on the remaining windows. */
  lemma AssignCompleteStep(ws: seq<Window>, ms: seq<Message>)
    requires |ws| > 1 && Chained(ws) && Sorted(ms)
    requires forall i :: 0 <= i < |ms| ==> ws[0].start <= ms[i].time < ws[|ws| - 1].cutoff
    ensures var tail, rest := ws[1..], ms[Take(ws[0], ms)..];
      Chained(tail) && Sorted(rest) &&
      forall i :: 0 <= i < |rest| ==> tail[0].start <= rest[i].time < tail[|tail| - 1].cutoff
  {
    SortedSuffix(ms, Take(ws[0], ms));
    RemainderAfterCutoff(ws[0], ms, ws[|ws| - 1].cutoff);
  }

  /**
   * Over chained windows, sorted messages that all lie between the first start
   * and the last cutoff are all placed.
   */
  lemma {:induction false} AssignComplete(ws: seq<Window>, ms: seq<Message>)
    requires |ws| > 0 && Chained(ws) && Sorted(ms)
    requires forall i :: 0 <= i < |ms| ==> ws[0].start <= ms[i].time < ws[|ws| - 1].cutoff
    ensures Flatten(Assign(ws, ms)) == ms
  {
    var n := Take(ws[0], ms);
    assert Assign(ws, ms) == [ms[..n]] + Assign(ws[1..], ms[n..]);
    FlattenCons(ms[..n], Assign(ws[1..], ms[n..]));
    if |ws| == 1 {
      TakeExactly(ws[0], ms, |ms|);
      assert ms[..n] == ms;
    } else {
      AssignCompleteStep(ws, ms);
      AssignComplete(ws[1..], ms[n..]);
      SplitAt(ms, n);
    }
  }

  /** Every placed message lies in the span the windows cover. */
  lemma {:induction false} PlacedInSpan(ws: seq<Window>, ms: seq<Message>, lo: int, hi: int)
    requires forall k :: 0 <= k < |ws| ==> lo <= ws[k].start && ws[k].cutoff <= hi
    ensures forall i :: 0 <= i < |Flatten(Assign(ws, ms))| ==> lo <= Flatten(Assign(ws, ms))[i].time < hi
  {
    if ws != [] {
      var n := Take(ws[0], ms);
      PlacedInSpan(ws[1..], ms[n..], lo, hi);
    }
  }

  lemma PrefixOfSameLength(a: seq<Message>, b: seq<Message>)
    requires a <= b && |a| == |b|
    ensures a == b
  {
    assert b[..|a|] == b;
  }

  /** If every message is counted, every message lies in [startTime, last cutoff). */
  lemma AllCountedInSpan(startTime: int, endTime: int, increment: int, ms: seq<Message>)
    requires increment > 0
    requires Sum(Lengths(Assign(Layout(startTime, endTime, increment), ms))) == |ms|
    ensures var n := WindowCount(startTime, endTime, increment);
      forall i :: 0 <= i < |ms| ==> startTime <= ms[i].time < startTime + n * increment
  {
    var ws := Layout(startTime, endTime, increment);
    LayoutShape(startTime, endTime, increment);
    SumLengths(Assign(ws, ms));
    AssignIsPrefix(ws, ms);
    PrefixOfSameLength(Flatten(Assign(ws, ms)), ms);
    PlacedInSpan(ws, ms, startTime, startTime + |ws| * increment);
  }

  /** Sorted messages that all lie in [startTime, last cutoff) are all counted. */
  lemma InSpanAllCounted(startTime: int, endTime: int, increment: int, ms: seq<Message>)
    requires increment > 0 && Sorted(ms)
    requires var n := WindowCount(startTime, endTime, increment);
      forall i :: 0 <= i < |ms| ==> startTime <= ms[i].time < startTime + n * increment
    ensures Sum(Lengths(Assign(Layout(startTime, endTime, increment), ms))) == |ms|
  {
    var ws := Layout(startTime, endTime, increment);
    SumLengths(Assign(ws, ms));
    if ms == [] {
      AssignIsPrefix(ws, ms);
    } else {
      var n := WindowCount(startTime, endTime, increment);
      assert startTime <= ms[0].time < startTime + n * increment;
      LayoutShape(startTime, endTime, increment);
      AssignComplete(ws, ms);
    }
  }

  /**
   * With the layout's windows and sorted messages, every message is counted
   * exactly when every message lies in [startTime, last cutoff). Messages in
   * [last cutoff, endTime] are not counted.
   */
  lemma AllCountedIffInSpan(startTime: int, endTime: int, increment: int, ms: seq<Message>)
    requires increment > 0 && Sorted(ms)
    ensures var n := WindowCount(startTime, endTime, increment);
      Sum(Lengths(Assign(Layout(startTime, endTime, increment), ms))) == |ms| <==>
      forall i :: 0 <= i < |ms| ==> startTime <= ms[i].time < startTime + n * increment
  {
    var n := WindowCount(startTime, endTime, increment);
    if Sum(Lengths(Assign(Layout(startTime, endTime, increment), ms))) == |ms| {
      AllCountedInSpan(startTime, endTime, increment, ms);
    }
    if forall i :: 0 <= i < |ms| ==> startTime <= ms[i].time < startTime + n * increment {
      InSpanAllCounted(startTime, endTime, increment, ms);
    }
  }

  /**
   * A message earlier than every window blocks the cursor for good: it is
   * never placed and neither is anything after it.
   */
  lemma {:induction false} EarlyMessageStallsCursor(ws: seq<Window>, ms: seq<Message>)
    requires ms != [] && forall k :: 0 <= k < |ws| ==> ms[0].time < ws[k].start
    ensures forall k :: 0 <= k < |ws| ==> Assign(ws, ms)[k] == []
  {
    if ws != [] {
      assert Take(ws[0], ms) == 0;
      EarlyMessageStallsCursor(ws[1..], ms);
    }
  }

  /** The window loop of bin_thread_by_messages: one empty bin per window of the layout, in order. */
  method EmptyBins(startTime: int, endTime: int, increment: int) returns (bins: seq<Bin>)
    requires increment > 0
    ensures |bins| == WindowCount(startTime, endTime, increment)
    ensures forall k :: 0 <= k < |bins| ==> bins[k] == Bin(WindowAt(startTime, increment, k), [])
  {
    var time := startTime;
    var cutoffTime := startTime + increment;
    bins := [];
    while cutoffTime <= endTime
      invariant cutoffTime == time + increment
      invariant time == startTime + |bins| * increment
      invariant WindowCount(startTime, endTime, increment) == |bins| + WindowCount(time, endTime, increment)
      invariant forall k :: 0 <= k < |bins| ==> bins[k] == Bin(WindowAt(startTime, increment, k), [])
      decreases endTime - time
    {
      assert (|bins| + 1) * increment == |bins| * increment + increment;
      assert Window(time, cutoffTime) == WindowAt(startTime, increment, |bins|);
      bins := bins + [Bin(Window(time, cutoffTime), [])];
      time := cutoffTime;
      cutoffTime := time + increment;
    }
  }

  /**
   * The cursor loop for one window: from `messageIdx`, take messages while
   * they fall inside `window`; stop at the end of the thread or at the first
   * message outside it.
   */
  method FillWindow(messages: seq<Message>, window: Window, messageIdx: nat) returns (placed: seq<Message>, nextIdx: nat)
    requires messageIdx <= |messages|
    ensures nextIdx == messageIdx + Take(window, messages[messageIdx..])
    ensures placed == messages[messageIdx..nextIdx]
  {
    placed := [];
    nextIdx := messageIdx;
    while true
      invariant messageIdx <= nextIdx <= |messages|
      invariant placed == messages[messageIdx..nextIdx]
      invariant forall i :: messageIdx <= i < nextIdx ==> Contains(window, messages[i].time)
      decreases |messages| - nextIdx
    {
      if nextIdx >= |messages| {
        break;
      }
      var message := messages[nextIdx];
      if window.start <= message.time < window.cutoff {
        placed := placed + [message];
        nextIdx := nextIdx + 1;
      } else {
        break;
      }
    }
    TakeExactly(window, messages[messageIdx..], nextIdx - messageIdx);
  }

  /**
   * One turn of the cursor loop: if windows j.. of the layout see the messages
   * from `idx` on, window j takes the next Take(..) of them and the windows
   * after it see the rest.
   */
  lemma AssignStep(ws: seq<Window>, ms: seq<Message>, j: nat, idx: nat, next: nat)
    requires j < |ws| && idx <= |ms|
    requires Assign(ws, ms)[j..] == Assign(ws[j..], ms[idx..])
    requires next == idx + Take(ws[j], ms[idx..])
    ensures next <= |ms|
    ensures Assign(ws, ms)[j] == ms[idx..next]
    ensures Assign(ws, ms)[j + 1..] == Assign(ws[j + 1..], ms[next..])
  {
    var rest := ms[idx..];
    var n := Take(ws[j], rest);
    assert ws[j..][0] == ws[j];
    assert ws[j..][1..] == ws[j + 1..];
    assert rest[n..] == ms[next..];
    assert rest[..n] == ms[idx..next];
    var later := Assign(ws[j + 1..], ms[next..]);
    assert Assign(ws[j..], rest) == [ms[idx..next]] + later;
    var all := Assign(ws, ms);
    assert all[j] == all[j..][0];
    assert all[j + 1..] == all[j..][1..];
  }

  /** The windows of a sequence of bins, in order. */
  function WindowsOf(bins: seq<Bin>): (ws: seq<Window>)
    ensures |ws| == |bins|
  {
    seq(|bins|, k requires 0 <= k < |bins| => bins[k].window)
  }

  /**
   * The message loop of bin_thread_by_messages: one cursor walks the messages
   * once, and each bin in turn takes what FillWindow gives it.
   */
  method FillBins(bins: seq<Bin>, messages: seq<Message>) returns (filled: seq<Bin>)
    ensures |filled| == |bins|
    ensures forall k :: 0 <= k < |bins| ==> filled[k].window == bins[k].window
    ensures forall k :: 0 <= k < |bins| ==> filled[k].messages == Assign(WindowsOf(bins), messages)[k]
  {
    ghost var ws := WindowsOf(bins);
    filled := bins;
    var messageIdx: nat := 0;
    var j := 0;
    while j < |filled|
      invariant j <= |filled| == |ws| && messageIdx <= |messages|
      invariant forall k :: 0 <= k < |filled| ==> filled[k].window == ws[k]
      invariant forall k :: 0 <= k < j ==> filled[k].messages == Assign(ws, messages)[k]
      invariant Assign(ws, messages)[j..] == Assign(ws[j..], messages[messageIdx..])
    {
      var placed, nextIdx := FillWindow(messages, filled[j].window, messageIdx);
      AssignStep(ws, messages, j, messageIdx, nextIdx);
      filled := filled[j := filled[j].(messages := placed)];
      messageIdx := nextIdx;
      j := j + 1;
    }
  }

  /**
   * bin_thread_by_messages: builds the windows in ascending order, then fills
   * them with one cursor that is never reset.
   */
  method BinThread(thread: Thread, startTime: int, endTime: int, increment: int) returns (bins: seq<Bin>)
    requires increment > 0
    ensures |bins| == WindowCount(startTime, endTime, increment)
    ensures forall k :: 0 <= k < |bins| ==> bins[k].window == WindowAt(startTime, increment, k)
    ensures forall k :: 0 <= k < |bins| ==>
      bins[k].messages == Assign(Layout(startTime, endTime, increment), thread.messages)[k]
  {
    var empty := EmptyBins(startTime, endTime, increment);
    assert WindowsOf(empty) == Layout(startTime, endTime, increment);
    bins := FillBins(empty, thread.messages);
  }

  /** Each bin starts no earlier than the one before it. */
  predicate AscendingByStart(bins: seq<Bin>)
  {
    forall i :: 0 < i < |bins| ==> bins[i - 1].window.start <= bins[i].window.start
  }

  /** Each bin starts strictly later than the one before it. */
  predicate StrictlyAscendingByStart(bins: seq<Bin>)
  {
    forall i :: 0 < i < |bins| ==> bins[i - 1].window.start < bins[i].window.start
  }

  /** Places `b` before the first bin whose start is not earlier, so equal starts keep their order. */
  function InsertByStart(b: Bin, bins: seq<Bin>): (r: seq<Bin>)
    requires AscendingByStart(bins)
    ensures |r| == |bins| + 1
    ensures r[0] == b || (bins != [] && r[0] == bins[0])
    ensures AscendingByStart(r)
  {
    if bins == [] || b.window.start <= bins[0].window.start then [b] + bins
    else
      var tail := InsertByStart(b, bins[1..]);
      assert bins[0].window.start <= tail[0].window.start;
      [bins[0]] + tail
  }

  /** Inserting adds `b` and loses nothing. */
  lemma {:induction false} InsertByStartPermutes(b: Bin, bins: seq<Bin>)
    requires AscendingByStart(bins)
    ensures multiset(InsertByStart(b, bins)) == multiset(bins) + multiset{b}
  {
    if bins != [] && b.window.start > bins[0].window.start {
      InsertByStartPermutes(b, bins[1..]);
      MultisetOfCons(bins);
    }
  }

  /**
   * The stable sort of the bins by window start (Python's `sorted` with
   * `key=lambda x: x[0]` over the (start, cutoff) keys).
   */
  function SortByStart(bins: seq<Bin>): (r: seq<Bin>)
    ensures |r| == |bins|
    ensures AscendingByStart(r)
  {
    if bins == [] then [] else InsertByStart(bins[0], SortByStart(bins[1..]))
  }

  lemma MultisetOfCons(bins: seq<Bin>)
    requires bins != []
    ensures multiset(bins) == multiset(bins[1..]) + multiset{bins[0]}
  {
    assert bins == [bins[0]] + bins[1..];
  }

  /** The sort is a permutation of its input. */
  lemma {:induction false} SortByStartPermutes(bins: seq<Bin>)
    ensures multiset(SortByStart(bins)) == multiset(bins)
  {
    if bins != [] {
      var rest := SortByStart(bins[1..]);
      SortByStartPermutes(bins[1..]);
      InsertByStartPermutes(bins[0], rest);
      assert SortByStart(bins) == InsertByStart(bins[0], rest);
      MultisetOfCons(bins);
    }
  }

  /** Bins already in strictly ascending start order come out of the sort unchanged. */
  lemma {:induction false} SortByStartKeepsAscending(bins: seq<Bin>)
    requires StrictlyAscendingByStart(bins)
    ensures SortByStart(bins) == bins
  {
    if bins != [] {
      SortByStartKeepsAscending(bins[1..]);
      assert bins == [bins[0]] + bins[1..];
    }
  }

  /** The bins come out of BinThread in layout order, so sorting them by start changes nothing. */
  lemma LayoutBinsSorted(bins: seq<Bin>, startTime: int, endTime: int, increment: int)
    requires increment > 0
    requires |bins| == WindowCount(startTime, endTime, increment)
    requires forall k :: 0 <= k < |bins| ==> bins[k].window == WindowAt(startTime, increment, k)
    ensures SortByStart(bins) == bins
  {
    var ws := Layout(startTime, endTime, increment);
    assert StrictlyAscendingByStart(bins) by {
      LayoutAscending(startTime, endTime, increment);
      assert forall k :: 0 <= k < |bins| ==> bins[k].window == ws[k];
    }
    SortByStartKeepsAscending(bins);
  }

  /**
   * What the per-window counts of a thread say: one count per window, at most
   * every message counted, and, for a sorted thread, every message counted
   * exactly when every message lies in [startTime, last cutoff).
   */
  lemma CountsMeaning(startTime: int, endTime: int, increment: int, ms: seq<Message>)
    requires increment > 0
    ensures var counts := Lengths(Assign(Layout(startTime, endTime, increment), ms));
      |counts| == WindowCount(startTime, endTime, increment) &&
      Sum(counts) <= |ms| &&
      (Sorted(ms) ==>
        (Sum(counts) == |ms| <==>
         forall i :: 0 <= i < |ms| ==> startTime <= ms[i].time < startTime + |counts| * increment))
  {
    TotalAtMostMessages(Layout(startTime, endTime, increment), ms);
    if Sorted(ms) {
      AllCountedIffInSpan(startTime, endTime, increment, ms);
    }
  }

  /**
   * thread_to_num_messages: bins the thread, orders the bins by window start
   * and returns the size of each bin.
   */
  method ThreadToNumMessages(thread: Thread, startTime: int, endTime: int, increment: int) returns (numMessages: seq<int>)
    requires increment > 0
    ensures |numMessages| == WindowCount(startTime, endTime, increment)
    ensures numMessages == Lengths(Assign(Layout(startTime, endTime, increment), thread.messages))
    ensures Sum(numMessages) <= |thread.messages|
    ensures Sorted(thread.messages) ==>
      (Sum(numMessages) == |thread.messages| <==>
       forall i :: 0 <= i < |thread.messages| ==>
         startTime <= thread.messages[i].time < startTime + |numMessages| * increment)
  {
    var binned := BinThread(thread, startTime, endTime, increment);
    LayoutBinsSorted(binned, startTime, endTime, increment);
    var sortedBins := SortByStart(binned);
    numMessages := seq(|sortedBins|, k requires 0 <= k < |sortedBins| => |sortedBins[k].messages|);
    ghost var expected := Lengths(Assign(Layout(startTime, endTime, increment), thread.messages));
    assert forall k :: 0 <= k < |expected| ==> numMessages[k] == |binned[k].messages| == expected[k];
    assert numMessages == expected;
    CountsMeaning(startTime, endTime, increment, thread.messages);
  }
}

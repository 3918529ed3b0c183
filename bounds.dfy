/** The shared time axis: the earliest first message and the latest last message over all threads. */
module Bounds {

  import opened Wrappers
  import opened Timeline

  function FirstTime(t: Thread): int
    requires |t.messages| > 0
  {
    t.messages[0].time
  }

  function LastTime(t: Thread): int
    requires |t.messages| > 0
  {
    t.messages[|t.messages| - 1].time
  }

  /**
   * get_convo_bounds: one pass over the threads keeping the least first time
   * and the greatest last time seen so far. Both bounds are None when there
   * are no threads.
   */
  method ConvoBounds(threads: seq<Thread>) returns (startTime: Option<int>, endTime: Option<int>)
    requires forall k :: 0 <= k < |threads| ==> |threads[k].messages| > 0
    ensures startTime.None? <==> threads == []
    ensures endTime.None? <==> threads == []
    ensures startTime.Some? ==> forall k :: 0 <= k < |threads| ==> startTime.value <= FirstTime(threads[k])
    ensures startTime.Some? ==> exists k :: 0 <= k < |threads| && FirstTime(threads[k]) == startTime.value
    ensures endTime.Some? ==> forall k :: 0 <= k < |threads| ==> LastTime(threads[k]) <= endTime.value
    ensures endTime.Some? ==> exists k :: 0 <= k < |threads| && LastTime(threads[k]) == endTime.value
    ensures threads != [] && (forall k :: 0 <= k < |threads| ==> Sorted(threads[k].messages)) ==>
      startTime.value <= endTime.value
  {
    startTime, endTime := None, None;
    var i := 0;
    while i < |threads|
      invariant i <= |threads|
      invariant startTime.None? <==> i == 0
      invariant endTime.None? <==> i == 0
      invariant startTime.Some? ==> forall k :: 0 <= k < i ==> startTime.value <= FirstTime(threads[k])
      invariant startTime.Some? ==> exists k :: 0 <= k < i && FirstTime(threads[k]) == startTime.value
      invariant endTime.Some? ==> forall k :: 0 <= k < i ==> LastTime(threads[k]) <= endTime.value
      invariant endTime.Some? ==> exists k :: 0 <= k < i && LastTime(threads[k]) == endTime.value
    {
      var thread := threads[i];
      if startTime.None? || thread.messages[0].time < startTime.value {
        startTime := Some(thread.messages[0].time);
      }
      if endTime.None? || thread.messages[|thread.messages| - 1].time > endTime.value {
        endTime := Some(thread.messages[|thread.messages| - 1].time);
      }
      i := i + 1;
    }
    if threads != [] && forall k :: 0 <= k < |threads| ==> Sorted(threads[k].messages) {
      var ms := threads[0].messages;
      assert ms[0].time <= ms[|ms| - 1].time;
    }
  }
}

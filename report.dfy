/**
 * The two stages after loading: computing each thread's count series on the
 * shared window layout (the snapshot the source pickles), and turning a
 * snapshot into report rows whose columns are the windows' cutoff times.
 */
module Report {

  import opened Wrappers
  import opened Timeline
  import opened Windows
  import opened Binning
  import opened Smoothing
  import opened Bounds
  import opened Loader
  import opened Initials

  /** The name a removed account's conversation shows under; such rows are dropped. */
  const Placeholder := "Facebook User"

  /** How many windows the report's moving average spans. */
  const SmoothingWindow: nat := 120

  /** One thread's name and its per-window message counts. */
  datatype Score = Score(name: string, numMessages: seq<int>)

  /** What compute_thread_scores returns and the report stage reads back. */
  datatype Snapshot = Snapshot(scores: seq<Score>, startTime: Option<int>, endTime: Option<int>, increment: int)

  /** One report cell: a window's cutoff (the column) and the smoothed count under it. */
  datatype Cell = Cell(cutoff: int, average: real)

  datatype Row = Row(name: string, imageUrl: string, cells: seq<Cell>)

  /** Every score has one count per window of the snapshot's layout. */
  predicate Aligned(snapshot: Snapshot)
  {
    && snapshot.increment > 0
    && (snapshot.startTime.Some? <==> snapshot.endTime.Some?)
    && (snapshot.startTime.Some? ==>
          forall k :: 0 <= k < |snapshot.scores| ==>
            |snapshot.scores[k].numMessages|
              == WindowCount(snapshot.startTime.value, snapshot.endTime.value, snapshot.increment))
  }

  /**
   * The bounds get_convo_bounds finds for these conversations: `startTime` is
   * the least first-message time and `endTime` the greatest last-message
   * time, each attained by some conversation.
   */
  ghost predicate SharedBounds(convos: seq<seq<Message>>, startTime: int, endTime: int)
  {
    && (forall k :: 0 <= k < |convos| ==> |convos[k]| > 0 && startTime <= convos[k][0].time)
    && (exists k :: 0 <= k < |convos| && |convos[k]| > 0 && convos[k][0].time == startTime)
    && (forall k :: 0 <= k < |convos| ==> |convos[k]| > 0 && convos[k][|convos[k]| - 1].time <= endTime)
    && (exists k :: 0 <= k < |convos| && |convos[k]| > 0 && convos[k][|convos[k]| - 1].time == endTime)
  }

  /** The scoring loop of compute_thread_scores: each thread's name and counts on one shared layout. */
  method ScoreThreads(threads: seq<Thread>, startTime: int, endTime: int, increment: int) returns (scores: seq<Score>)
    requires increment > 0
    ensures |scores| == |threads|
    ensures forall k :: 0 <= k < |scores| ==> scores[k].name == threads[k].name
    ensures forall k :: 0 <= k < |scores| ==>
      scores[k].numMessages == Lengths(Assign(Layout(startTime, endTime, increment), threads[k].messages))
    ensures forall k :: 0 <= k < |scores| ==>
      |scores[k].numMessages| == WindowCount(startTime, endTime, increment)
  {
    ghost var ws := Layout(startTime, endTime, increment);
    ghost var expected := seq(|threads|, k requires 0 <= k < |threads| => Lengths(Assign(ws, threads[k].messages)));
    scores := [];
    var i := 0;
    while i < |threads|
      invariant i <= |threads| && |scores| == i
      invariant forall k :: 0 <= k < i ==> scores[k].name == threads[k].name
      invariant forall k :: 0 <= k < i ==> scores[k].numMessages == expected[k]
      invariant forall k :: 0 <= k < i ==> |expected[k]| == |ws|
    {
      var numMessages := ThreadToNumMessages(threads[i], startTime, endTime, increment);
      scores := scores + [Score(threads[i].name, numMessages)];
      i := i + 1;
    }
  }

  /** The bounds ConvoBounds finds over loaded threads are those of the conversations they hold. */
  lemma BoundsOfKept(threads: seq<Thread>, kept: seq<seq<Message>>, startTime: int, endTime: int)
    requires |threads| == |kept|
    requires forall k :: 0 <= k < |threads| ==> threads[k].messages == kept[k] && |kept[k]| > 0
    requires forall k :: 0 <= k < |threads| ==> startTime <= FirstTime(threads[k])
    requires exists k :: 0 <= k < |threads| && FirstTime(threads[k]) == startTime
    requires forall k :: 0 <= k < |threads| ==> LastTime(threads[k]) <= endTime
    requires exists k :: 0 <= k < |threads| && LastTime(threads[k]) == endTime
    ensures SharedBounds(kept, startTime, endTime)
  {
    var i :| 0 <= i < |threads| && FirstTime(threads[i]) == startTime;
    var j :| 0 <= j < |threads| && LastTime(threads[j]) == endTime;
    assert |kept[i]| > 0 && kept[i][0].time == startTime;
    assert |kept[j]| > 0 && kept[j][|kept[j]| - 1].time == endTime;
  }

  /**
   * compute_thread_scores: load the threads, find the shared bounds, and
   * count each thread's messages per window of that layout.
   */
  method ComputeThreadScores(convos: seq<seq<Message>>, increment: int, yourName: string,
                             useRandomNames: bool, randomNames: seq<string>)
    returns (snapshot: Option<Snapshot>)
    requires increment > 0
    ensures snapshot.None? <==> useRandomNames && |randomNames| < |KeptConvos(convos, yourName)|
    ensures snapshot.Some? ==> Aligned(snapshot.value) && snapshot.value.increment == increment
    ensures snapshot.Some? ==> |snapshot.value.scores| == |KeptConvos(convos, yourName)|
    ensures snapshot.Some? ==> (snapshot.value.startTime.None? <==> KeptConvos(convos, yourName) == [])
    ensures snapshot.Some? ==>
      var kept := KeptConvos(convos, yourName);
      forall k :: 0 <= k < |snapshot.value.scores| ==>
        snapshot.value.scores[k].name
          == (if useRandomNames then randomNames[k] else Counterpart(kept[k], yourName))
    ensures snapshot.Some? && snapshot.value.startTime.Some? ==>
      SharedBounds(KeptConvos(convos, yourName), snapshot.value.startTime.value, snapshot.value.endTime.value)
    ensures snapshot.Some? && snapshot.value.startTime.Some? ==>
      var s := snapshot.value;
      forall k :: 0 <= k < |s.scores| ==>
        s.scores[k].numMessages
          == Lengths(Assign(Layout(s.startTime.value, s.endTime.value, increment), KeptConvos(convos, yourName)[k]))
  {
    var loaded := LoadThreads(convos, yourName, useRandomNames, randomNames);
    if loaded.None? {
      return None;
    }
    var threads := loaded.value;
    ghost var kept := KeptConvos(convos, yourName);
    assert |threads| == |kept| && forall k :: 0 <= k < |threads| ==> threads[k].messages == kept[k];
    forall k | 0 <= k < |threads|
      ensures |threads[k].messages| > 0
    {
      TwoPartyHasMessages(kept[k], yourName);
    }
    var startTime, endTime := ConvoBounds(threads);
    if startTime.Some? {
      BoundsOfKept(threads, kept, startTime.value, endTime.value);
    }
    var scores: seq<Score> := [];
    if startTime.Some? {
      scores := ScoreThreads(threads, startTime.value, endTime.value, increment);
    }
    snapshot := Some(Snapshot(scores, startTime, endTime, increment));
  }

  /** The cutoff-label loop of build_csv: the end of every window, in order. */
  method CutoffTimes(startTime: int, endTime: int, increment: int) returns (cutoffTimes: seq<int>)
    requires increment > 0
    ensures |cutoffTimes| == WindowCount(startTime, endTime, increment)
    ensures forall k :: 0 <= k < |cutoffTimes| ==>
      cutoffTimes[k] == Layout(startTime, endTime, increment)[k].cutoff
  {
    var cutoffTime := startTime + increment;
    cutoffTimes := [];
    while cutoffTime <= endTime
      invariant cutoffTime == startTime + (|cutoffTimes| + 1) * increment
      invariant WindowCount(startTime, endTime, increment)
        == |cutoffTimes| + WindowCount(cutoffTime - increment, endTime, increment)
      invariant forall k :: 0 <= k < |cutoffTimes| ==> cutoffTimes[k] == startTime + (k + 1) * increment
      decreases endTime - cutoffTime
    {
      cutoffTimes := cutoffTimes + [cutoffTime];
      var time := cutoffTime;
      assert (|cutoffTimes| + 1) * increment == |cutoffTimes| * increment + increment;
      cutoffTime := time + increment;
    }
  }

  /** The scores that get a row: all but the placeholder account's, in order. */
  function Retained(scores: seq<Score>): (kept: seq<Score>)
    ensures |kept| <= |scores|
    ensures forall k :: 0 <= k < |kept| ==> kept[k].name != Placeholder && kept[k] in scores
  {
    if scores == [] then []
    else
      var last := scores[|scores| - 1];
      Retained(scores[..|scores| - 1]) + (if last.name == Placeholder then [] else [last])
  }

  function Min(a: int, b: int): int
  {
    if a <= b then a else b
  }

  /**
   * The row build_csv writes for one score: the name, its initials link, and
   * the smoothed counts paired with the labels (Python's `zip`, which stops at
   * the shorter of the two).
   */
  ghost predicate RowOf(row: Row, score: Score, labels: seq<int>)
  {
    && row.name == score.name
    && InitialsLink(score.name) == Some(row.imageUrl)
    && |row.cells| == Min(|labels|, |score.numMessages|)
    && forall c :: 0 <= c < |row.cells| ==>
         row.cells[c] == Cell(labels[c], TrailingMean(score.numMessages, SmoothingWindow, c))
  }

  /** The step of the row loop: one more score adds itself unless it is the placeholder's. */
  lemma RetainedStep(scores: seq<Score>, i: nat)
    requires i < |scores|
    ensures Retained(scores[..i + 1])
      == Retained(scores[..i]) + (if scores[i].name == Placeholder then [] else [scores[i]])
  {
    var seen := scores[..i + 1];
    assert seen[..|seen| - 1] == scores[..i] && seen[|seen| - 1] == scores[i];
  }

  lemma {:induction false} RetainedPrefix(scores: seq<Score>, j: nat)
    requires j <= |scores|
    ensures Retained(scores[..j]) <= Retained(scores)
  {
    if j < |scores| {
      var init := scores[..|scores| - 1];
      assert scores[..j] == init[..j];
      RetainedPrefix(init, j);
    } else {
      assert scores[..j] == scores;
    }
  }

  /** Python's `zip` of the labels with the smoothed counts: pairs up to the shorter of the two. */
  method ZipCells(labels: seq<int>, avgs: seq<real>) returns (cells: seq<Cell>)
    ensures |cells| == Min(|labels|, |avgs|)
    ensures forall c :: 0 <= c < |cells| ==> cells[c] == Cell(labels[c], avgs[c])
  {
    cells := [];
    var c := 0;
    while c < |labels| && c < |avgs|
      invariant c <= |labels| && c <= |avgs| && |cells| == c
      invariant forall d :: 0 <= d < c ==> cells[d] == Cell(labels[d], avgs[d])
    {
      cells := cells + [Cell(labels[c], avgs[c])];
      c := c + 1;
    }
  }

  /**
   * The body of build_csv's row loop for one score: smooth the counts, pair
   * them with the labels and attach the initials link; no row when the name
   * has no initials.
   */
  method BuildRow(score: Score, labels: seq<int>) returns (row: Option<Row>)
    ensures row.None? <==> InitialsLink(score.name).None?
    ensures row.Some? ==> RowOf(row.value, score, labels)
  {
    var avgs := MovingAverage(score.numMessages, SmoothingWindow);
    var cells := ZipCells(labels, avgs);
    var link := InitialsLink(score.name);
    if link.None? {
      return None;
    }
    row := Some(Row(score.name, link.value, cells));
  }

  /**
   * The row loop of build_csv: skip the placeholder account, smooth the
   * counts, pair them with the labels and attach the initials link. A name
   * without initials raises in the source and ends the report: `completed` is
   * false and `rows` holds the rows written before it.
   */
  method BuildRows(scores: seq<Score>, labels: seq<int>) returns (rows: seq<Row>, completed: bool)
    ensures |rows| <= |Retained(scores)|
    ensures forall k :: 0 <= k < |rows| ==> RowOf(rows[k], Retained(scores)[k], labels)
    ensures forall k :: 0 <= k < |rows| ==> rows[k].name != Placeholder
    ensures completed <==> |rows| == |Retained(scores)|
    ensures !completed ==> InitialsLink(Retained(scores)[|rows|].name).None?
  {
    rows := [];
    ghost var done: seq<Score> := [];
    var i := 0;
    while i < |scores|
      invariant i <= |scores|
      invariant done == Retained(scores[..i]) && |rows| == |done|
      invariant forall k :: 0 <= k < |rows| ==> RowOf(rows[k], done[k], labels)
    {
      RetainedStep(scores, i);
      var score := scores[i];
      if score.name == Placeholder {
        i := i + 1;
        continue;
      }
      var row := BuildRow(score, labels);
      if row.None? {
        RetainedPrefix(scores, i + 1);
        completed := false;
        return;
      }
      rows := rows + [row.value];
      done := done + [score];
      i := i + 1;
    }
    assert scores[..i] == scores;
    completed := true;
  }

  /**
   * build_csv on a snapshot: the labels are the windows' cutoffs, and one row
   * per retained score. Without bounds (no threads were kept) the source
   * fails on its first addition: nothing is produced and `completed` is false.
   */
  method BuildCsv(snapshot: Snapshot) returns (labels: seq<int>, rows: seq<Row>, completed: bool)
    requires snapshot.increment > 0
    ensures snapshot.startTime.None? || snapshot.endTime.None? ==> labels == [] && rows == [] && !completed
    ensures snapshot.startTime.Some? && snapshot.endTime.Some? ==>
      var ws := Layout(snapshot.startTime.value, snapshot.endTime.value, snapshot.increment);
      |labels| == |ws| && forall k :: 0 <= k < |labels| ==> labels[k] == ws[k].cutoff
    ensures |rows| <= |Retained(snapshot.scores)|
    ensures forall k :: 0 <= k < |rows| ==> RowOf(rows[k], Retained(snapshot.scores)[k], labels)
    ensures forall k :: 0 <= k < |rows| ==> rows[k].name != Placeholder
    ensures Aligned(snapshot) ==> forall k :: 0 <= k < |rows| ==> |rows[k].cells| == |labels|
    ensures snapshot.startTime.Some? && snapshot.endTime.Some? ==>
      && (completed <==> |rows| == |Retained(snapshot.scores)|)
      && (!completed ==> InitialsLink(Retained(snapshot.scores)[|rows|].name).None?)
  {
    if snapshot.startTime.None? || snapshot.endTime.None? {
      return [], [], false;
    }
    labels := CutoffTimes(snapshot.startTime.value, snapshot.endTime.value, snapshot.increment);
    rows, completed := BuildRows(snapshot.scores, labels);
  }
}

/**
 * The values every stage of the pipeline passes around: messages, threads and
 * the half-open time windows that messages are counted in.
 * Timestamps are whole numbers (for instance minutes since some epoch).
 */
module Timeline {

  /** One parsed chat message. The message text is never looked at, so it is not kept. */
  datatype Message = Message(time: int, author: string)

  /** A conversation: the counterpart's (possibly substituted) name and its messages, oldest first. */
  datatype Thread = Thread(name: string, messages: seq<Message>)

  /** The half-open interval [start, cutoff). */
  datatype Window = Window(start: int, cutoff: int)

  predicate Contains(w: Window, t: int)
  {
    w.start <= t < w.cutoff
  }

  /** Messages ordered by time, oldest first. */
  predicate Sorted(ms: seq<Message>)
  {
    forall i, j :: 0 <= i <= j < |ms| ==> ms[i].time <= ms[j].time
  }

  function Sum(s: seq<int>): int
  {
    if s == [] then 0 else s[0] + Sum(s[1..])
  }
}

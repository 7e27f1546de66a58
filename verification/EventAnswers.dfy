/** One answer at a time: what a session makes of a batch, what the host makes of the answer, and when a checkpoint is rewritten. */
module EventAnswers {
  import opened Common
  import opened Events

  /** Not more than a hundred events, and within the session's byte limit. */
  predicate Small(b: Batch) {
    |b.events| <= 100 && Weight(b.events, true) + 2 <= 524288
  }

  /** The session has none of the batch past its cursor, or all of it already. */
  predicate Known(s: Session, b: Batch) {
    b.first + |b.events| <= s.cursor + 1
  }

  /**
   A session takes a batch in exactly when it is not empty, small enough, brings something new and starts at
   the next number, and neither its text nor its run stands against it. Everything else leaves the session as
   it is: what it has already is acknowledged again, a gap or a text that does not match is rejected with the
   number it waits for, and an oversized batch or a failing one is an error.
   */
  lemma AnswersExactly(s: Session, b: Batch, fate: Fate)
    ensures var (s', r) := Receive(s, b, fate);
            var next := b.events != [] && Small(b) && !Known(s, b) && b.first == s.cursor + 1;
            && (next && (fate == Apply || fate == Swallow) ==>
                  s' == Session(s.cursor + |b.events|, s.consumed + b.events) && r == Accepted(s.cursor + |b.events|, false))
            && (!(next && (fate == Apply || fate == Swallow)) ==> s' == s)
            && (r == Accepted(s.cursor, true) <==> b.events == [] || (Small(b) && Known(s, b)))
            && (r == Rejected(s.cursor + 1) <==> b.events != [] && Small(b) && !Known(s, b) && (b.first != s.cursor + 1 || fate == TextMismatch))
            && (r == Failed <==> b.events != [] && (!Small(b) || (next && fate == Throw)))
            && (r.Rejected? ==> r.expected == s.cursor + 1)
  {
    hide Weight;
  }

  /**
   The host goes on exactly when an acknowledgement covers the batch it sent and nothing it never attempted,
   or, without an execution, when a rejection asks for a number inside the batch or the one after it; it then
   drops what is known to have arrived. Any other answer is an error and drops nothing.
   */
  lemma HearsExactly(o: Outbox, b: Batch, r: Reply)
    ensures var (o', ok) := Hear(o, b, r);
            && (ok <==> || (r.Accepted? && b.first + |b.events| <= r.acknowledged + 1 && r.acknowledged <= o.attempted)
                        || (r.Rejected? && !o.fenced && b.first < r.expected && r.expected <= b.first + |b.events|))
            && (!ok ==> o' == o)
            && (ok ==> o' == o.(base := Max(o.base, if r.Accepted? then r.acknowledged else r.expected - 1)))
  {}

  /**
   A checkpoint takes the place of the newest event exactly when that is a queued checkpoint that was never
   handed to an upload and is in none now; otherwise it is one more event. Nothing before it changes.
   */
  lemma CheckpointsCoalesceExactly(o: Outbox, body: string, bytes: nat, inFlight: nat)
    ensures var (n, o') := (|o.stream|, AppendCheckpoint(o, body, bytes, inFlight));
            var coalesces := n > 0 && o.base < n && o.attempted < n && inFlight < n && o.stream[n - 1].checkpoint;
            && |o'.stream| == (if coalesces then n else n + 1)
            && o'.stream[|o'.stream| - 1] == Event(true, body, bytes)
            && o'.stream[..|o'.stream| - 1] == (if coalesces then o.stream[..n - 1] else o.stream)
            && o' == o.(stream := o'.stream)
  {}

  /** An event is shortened exactly when it is a checkpoint at the head of the queue that fits no upload, and only that one. */
  lemma ShortensExactly(o: Outbox, body: string, bytes: nat)
    requires o.base < |o.stream| && o.envelope >= 2
    ensures var o' := Shorten(o, body, bytes);
            o' == if o.stream[o.base].checkpoint && o.envelope + o.stream[o.base].bytes > 516096
                  then o.(stream := o.stream[o.base := Event(true, body, bytes)]) else o
  {
    assert Queue(o) != [] && Queue(o)[0] == o.stream[o.base];
    var grown := o.envelope + Queue(o)[0].bytes;
  }
}

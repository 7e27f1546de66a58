/**
 One event stream from a host to a session: the host's outbox (packages/overlay-agent-host/src/state.ts,
 runtime.ts and outbox-packing.ts) and the session's cursor (applyRemoteEventsByServer in convex/agents/connectedAgents.ts).
 Batches may be lost, repeated or delayed, answers may be lost, and the newest checkpoint may be rewritten
 in the outbox while it is still unsent.
 */
module Events {
  import opened Common

  const MAX_BATCH: nat := 100
  const MAX_BATCH_BYTES: nat := 512 * 1024
  const HEADROOM_BYTES: nat := 8 * 1024
  const BUDGET: nat := MAX_BATCH_BYTES - HEADROOM_BYTES

  /** `bytes` is the length of the encoded event. */
  datatype Event = Event(checkpoint: bool, body: string, bytes: nat)

  /** `first` is the sequence number of the first event; the others follow it. */
  datatype Batch = Batch(first: nat, events: seq<Event>)

  function LastOf(b: Batch): int {
    b.first + |b.events| - 1
  }

  // ----- the session -------------------------------------------------------------------------------------

  /** `consumed` is every event the session took in, in the order it took them. */
  datatype Session = Session(cursor: nat, consumed: seq<Event>)

  /** What becomes of a batch that passes the cursor check. */
  datatype Fate = Apply | Swallow | TextMismatch | Throw

  datatype Reply = Accepted(acknowledged: nat, duplicate: bool) | Rejected(expected: nat) | Failed

  /** Encoded length of a list of events without its brackets, or of its rest when something precedes it. */
  function Weight(events: seq<Event>, leading: bool): nat {
    if events == [] then 0
    else events[0].bytes + (if leading then 0 else 1) + Weight(events[1..], false)
  }

  function Receive(s: Session, b: Batch, fate: Fate): (Session, Reply) {
    if b.events == [] then (s, Accepted(s.cursor, true))
    else if |b.events| > MAX_BATCH || Weight(b.events, true) + 2 > MAX_BATCH_BYTES then (s, Failed)
    else if LastOf(b) <= s.cursor then (s, Accepted(s.cursor, true))
    else if b.first != s.cursor + 1 then (s, Rejected(s.cursor + 1))
    else
      match fate
      case Throw => (s, Failed)
      case TextMismatch => (s, Rejected(s.cursor + 1))
      case _ => (Session(LastOf(b), s.consumed + b.events), Accepted(LastOf(b), false))
  }

  // ----- the outbox ----------------------------------------------------------------------------------------

  /**
   `stream` is every event the host ever numbered, from 1; those up to `base` are no longer queued.
   `attempted` is the highest number that was ever handed to an upload, `fenced` whether the events carry
   an execution, and `envelope` the encoded length of a batch without events.
   */
  datatype Outbox = Outbox(stream: seq<Event>, base: nat, attempted: nat, fenced: bool, envelope: nat)

  function Append(o: Outbox, e: Event): Outbox {
    o.(stream := o.stream + [e])
  }

  /** A checkpoint replaces the queued one when that is the newest event and was never sent. */
  function AppendCheckpoint(o: Outbox, body: string, bytes: nat, inFlight: nat): Outbox {
    var last := |o.stream|;
    if last > o.base && last > Max(inFlight, o.attempted) && o.stream[last - 1].checkpoint
    then o.(stream := o.stream[last - 1 := Event(true, body, bytes)])
    else Append(o, Event(true, body, bytes))
  }

  /** The queued events the next upload may take: a retry does not take in later ones. */
  function Queue(o: Outbox): (q: seq<Event>)
    ensures |q| <= MAX_BATCH && o.base + |q| <= Max(o.base, |o.stream|)
  {
    if o.base > |o.stream| then []
    else
      var limit := Min(|o.stream|, o.base + MAX_BATCH);
      o.stream[o.base..if o.attempted >= o.base + 1 then Min(limit, o.attempted) else limit]
  }

  /** The length of the longest prefix of `events` that an upload of `size` bytes so far still holds. */
  function Fitting(events: seq<Event>, size: nat, leading: bool): (n: nat)
    ensures n <= |events|
  {
    if events == [] then 0
    else
      var grown := size + events[0].bytes + (if leading then 0 else 1);
      if grown > BUDGET then 0 else 1 + Fitting(events[1..], grown, false)
  }

  /** How many events the next upload takes. */
  function Pack(o: Outbox): (n: nat)
    ensures n <= |Queue(o)|
  {
    Fitting(Queue(o), o.envelope, true)
  }

  /** The first queued event fits an upload of its own, so the next upload takes something. */
  predicate CanUpload(o: Outbox) {
    Pack(o) > 0
  }

  /** The first queued event does not fit any upload; a text checkpoint is then shortened in place. */
  function Shorten(o: Outbox, body: string, bytes: nat): Outbox {
    if Queue(o) != [] && !CanUpload(o) && Queue(o)[0].checkpoint
    then o.(stream := o.stream[o.base := Event(true, body, bytes)]) else o
  }

  function BatchOf(o: Outbox): Batch
    requires CanUpload(o)
  {
    Batch(o.base + 1, o.stream[o.base..o.base + Pack(o)])
  }

  function Attempt(o: Outbox): Outbox {
    o.(attempted := Max(o.attempted, o.base + Pack(o)))
  }

  /** The answer to the batch just sent; false when the host gives up with an error. */
  function Hear(o: Outbox, b: Batch, r: Reply): (Outbox, bool) {
    match r
    case Failed => (o, false)
    case Accepted(ack, _) =>
      if ack < LastOf(b) || ack > o.attempted then (o, false) else (o.(base := Max(o.base, ack)), true)
    case Rejected(expected) =>
      if !o.fenced && b.first < expected <= LastOf(b) + 1 then (o.(base := Max(o.base, expected - 1)), true) else (o, false)
  }

  // ----- the two together -----------------------------------------------------------------------------------

  datatype Link = Link(outbox: Outbox, session: Session, sent: seq<Batch>)

  datatype Action =
    | Emit(e: Event)
    | EmitCheckpoint(body: string, bytes: nat, inFlight: nat)
    | Shrink(shorter: string, left: nat)
    | Send
    | Exchange(fate: Fate, answered: bool)
    | Redeliver(k: nat, again: Fate)

  /** Upload, delivery and, unless it is lost, the answer. */
  function ExchangeOne(l: Link, fate: Fate, answered: bool): Link
    requires CanUpload(l.outbox)
  {
    var b, o := BatchOf(l.outbox), Attempt(l.outbox);
    var (s, r) := Receive(l.session, b, fate);
    Link(if answered then Hear(o, b, r).0 else o, s, l.sent + [b])
  }

  function Step(l: Link, a: Action): Link {
    match a
    case Emit(e) => l.(outbox := Append(l.outbox, e))
    case EmitCheckpoint(body, bytes, inFlight) => l.(outbox := AppendCheckpoint(l.outbox, body, bytes, inFlight))
    case Shrink(body, bytes) => l.(outbox := Shorten(l.outbox, body, bytes))
    case Send => if CanUpload(l.outbox) then l.(outbox := Attempt(l.outbox), sent := l.sent + [BatchOf(l.outbox)]) else l
    case Exchange(fate, answered) => if CanUpload(l.outbox) then ExchangeOne(l, fate, answered) else l
    case Redeliver(k, fate) => if k < |l.sent| then l.(session := Receive(l.session, l.sent[k], fate).0) else l
  }

  function Run(l: Link, actions: seq<Action>): Link
    decreases |actions|
  {
    if actions == [] then l else Run(Step(l, actions[0]), actions[1..])
  }

  /** The envelope holds at least the brackets of the event list. */
  function Fresh(fenced: bool, envelope: nat): Link
    requires envelope >= 2
  {
    Link(Outbox([], 0, 0, fenced, envelope), Session(0, []), [])
  }

  // ----- packing --------------------------------------------------------------------------------------------------

  /** An event fits an upload of its own. */
  predicate Fits(o: Outbox, e: Event) {
    o.envelope + e.bytes <= BUDGET
  }

  /** What is packed fits, and so does each event of it alone. */
  lemma {:induction false} FittingFits(events: seq<Event>, size: nat, leading: bool)
    ensures var n := Fitting(events, size, leading);
            && (n > 0 ==> size + Weight(events[..n], leading) <= BUDGET)
            && (forall i :: 0 <= i < n ==> size + events[i].bytes <= BUDGET)
    decreases |events|
  {
    if events != [] {
      var grown := size + events[0].bytes + (if leading then 0 else 1);
      assert events[..1][1..] == [];
      if grown <= BUDGET {
        FittingFits(events[1..], grown, false);
        var n := Fitting(events[1..], grown, false);
        assert events[..n + 1][1..] == events[1..][..n];
        assert forall i :: 0 < i < n + 1 ==> events[i] == events[1..][i - 1];
      }
    }
  }

  /** One event more would not fit. */
  lemma {:induction false} FittingStops(events: seq<Event>, size: nat, leading: bool)
    ensures var n := Fitting(events, size, leading); n < |events| ==> size + Weight(events[..n + 1], leading) > BUDGET
    decreases |events|
  {
    if events != [] {
      var grown := size + events[0].bytes + (if leading then 0 else 1);
      assert events[..1][1..] == [];
      if grown <= BUDGET {
        FittingStops(events[1..], grown, false);
        var n := Fitting(events[1..], grown, false);
        if n + 1 < |events| {
          assert events[..n + 2][1..] == events[1..][..n + 1];
        }
      }
    }
  }

  /** Packing takes the longest prefix that fits. */
  lemma FittingIsLongest(events: seq<Event>, size: nat, leading: bool)
    ensures var n := Fitting(events, size, leading);
            && (n > 0 ==> size + Weight(events[..n], leading) <= BUDGET)
            && (n < |events| ==> size + Weight(events[..n + 1], leading) > BUDGET)
  {
    hide Fitting, Weight;
    FittingFits(events, size, leading);
    FittingStops(events, size, leading);
  }

  /** Packing what was packed takes all of it. */
  lemma {:induction false} PackedFitsAgain(events: seq<Event>, size: nat, leading: bool)
    ensures var n := Fitting(events, size, leading); Fitting(events[..n], size, leading) == n
    decreases |events|
  {
    if events != [] {
      var grown := size + events[0].bytes + (if leading then 0 else 1);
      if grown <= BUDGET {
        PackedFitsAgain(events[1..], grown, false);
        var n := Fitting(events[1..], grown, false);
        assert events[..n + 1][1..] == events[1..][..n];
      }
    }
  }

  /** A batch is not empty, every event of it fits on its own, and the session never refuses it for its size. */
  lemma BatchFits(o: Outbox)
    requires CanUpload(o) && o.envelope >= 2
    ensures var b := BatchOf(o);
            && 1 <= |b.events| <= MAX_BATCH && Weight(b.events, true) + 2 <= MAX_BATCH_BYTES
            && b.events == Queue(o)[..Pack(o)]
            && forall i :: 0 <= i < |b.events| ==> Fits(o, b.events[i])
  {
    FittingFits(Queue(o), o.envelope, true);
    assert BatchOf(o).events == Queue(o)[..Pack(o)];
  }

  // ----- the invariant ------------------------------------------------------------------------------------------

  predicate CutFrom(stream: seq<Event>, b: Batch, limit: nat) {
    1 <= b.first <= LastOf(b) <= limit && limit <= |stream| && b.events == stream[b.first - 1..LastOf(b)]
  }

  /** What was attempted fits, so it is never shortened. */
  predicate AttemptedFit(o: Outbox)
    requires o.attempted <= |o.stream|
  {
    forall i :: 0 <= i < o.attempted ==> Fits(o, o.stream[i])
  }

  ghost predicate Inv(l: Link) {
    var o, s := l.outbox, l.session;
    && o.envelope >= 2
    && o.base <= s.cursor <= o.attempted <= |o.stream|
    && AttemptedFit(o)
    && s.consumed == o.stream[..s.cursor]
    && forall k :: 0 <= k < |l.sent| ==> CutFrom(o.stream, l.sent[k], o.attempted)
  }

  /** A batch cut from the stream leaves the session at a longer prefix of it, or where it was. */
  lemma ReceiveKeepsPrefix(stream: seq<Event>, s: Session, b: Batch, fate: Fate, limit: nat)
    requires s.cursor <= limit <= |stream| && s.consumed == stream[..s.cursor] && CutFrom(stream, b, limit)
    ensures var s' := Receive(s, b, fate).0; s.cursor <= s'.cursor <= limit && s'.consumed == stream[..s'.cursor]
  {
    hide Weight;
    if b.first == s.cursor + 1 {
      assert stream[..LastOf(b)] == stream[..s.cursor] + b.events;
    }
  }

  /** Nothing that was handed to an upload is ever rewritten. */
  lemma RewriteKeepsAttempted(l: Link, a: Action)
    requires Inv(l) && (a.Emit? || a.EmitCheckpoint? || a.Shrink?)
    ensures var (o, o') := (l.outbox, Step(l, a).outbox);
            |o.stream| <= |o'.stream| && o'.stream[..o.attempted] == o.stream[..o.attempted] && o'.attempted == o.attempted
  {
    var o := l.outbox;
    if a.Shrink? && Queue(o) != [] && !CanUpload(o) {
      assert Queue(o)[0] == o.stream[o.base];
      assert !Fits(o, o.stream[o.base]);
      assert o.base >= o.attempted;
    }
  }

  lemma RewriteKeepsInv(l: Link, stream: seq<Event>)
    requires Inv(l) && |stream| >= |l.outbox.stream|
    requires stream[..l.outbox.attempted] == l.outbox.stream[..l.outbox.attempted]
    ensures Inv(l.(outbox := l.outbox.(stream := stream)))
  {
    var o, s := l.outbox, l.session;
    assert s.consumed == o.stream[..o.attempted][..s.cursor];
    assert s.consumed == stream[..o.attempted][..s.cursor];
    assert s.consumed == stream[..s.cursor];
    forall i | 0 <= i < o.attempted
      ensures Fits(o, stream[i])
    {
      assert stream[i] == stream[..o.attempted][i] == o.stream[..o.attempted][i];
    }
    forall k | 0 <= k < |l.sent|
      ensures CutFrom(stream, l.sent[k], o.attempted)
    {
      var b := l.sent[k];
      assert CutFrom(o.stream, b, o.attempted);
      assert b.events == o.stream[..o.attempted][b.first - 1..LastOf(b)];
      assert b.events == stream[..o.attempted][b.first - 1..LastOf(b)];
    }
  }

  lemma AttemptKeepsInv(l: Link)
    requires Inv(l) && CanUpload(l.outbox)
    ensures Inv(l.(outbox := Attempt(l.outbox), sent := l.sent + [BatchOf(l.outbox)]))
    ensures CutFrom(l.outbox.stream, BatchOf(l.outbox), Attempt(l.outbox).attempted)
  {
    hide Fitting, Weight;
    var o, b := l.outbox, BatchOf(l.outbox);
    BatchFits(o);
    assert b.events == o.stream[b.first - 1..LastOf(b)];
    forall i | o.attempted <= i < Attempt(o).attempted
      ensures Fits(o, o.stream[i])
    {
      assert b.events[i - o.base] == o.stream[i];
    }
    forall k | 0 <= k < |l.sent|
      ensures CutFrom(o.stream, l.sent[k], Attempt(o).attempted)
    {
      assert CutFrom(o.stream, l.sent[k], o.attempted);
    }
  }

  lemma ExchangeKeepsInv(l: Link, fate: Fate, answered: bool)
    requires Inv(l) && CanUpload(l.outbox)
    ensures Inv(ExchangeOne(l, fate, answered))
  {
    hide Fitting, Weight;
    AttemptKeepsInv(l);
    var o, b := Attempt(l.outbox), BatchOf(l.outbox);
    ReceiveKeepsPrefix(o.stream, l.session, b, fate, o.attempted);
  }

  lemma StepKeepsInv(l: Link, a: Action)
    requires Inv(l)
    ensures Inv(Step(l, a))
  {
    hide Inv;
    match a
    case Send =>
      if CanUpload(l.outbox) {
        AttemptKeepsInv(l);
      }
    case Exchange(fate, answered) =>
      if CanUpload(l.outbox) {
        ExchangeKeepsInv(l, fate, answered);
      }
    case Redeliver(k, fate) =>
      if k < |l.sent| {
        RedeliverKeepsInv(l, k, fate);
      }
    case _ =>
      RewriteKeepsAttempted(l, a);
      RewriteKeepsInv(l, Step(l, a).outbox.stream);
  }

  lemma RedeliverKeepsInv(l: Link, k: nat, fate: Fate)
    requires Inv(l) && k < |l.sent|
    ensures Inv(l.(session := Receive(l.session, l.sent[k], fate).0))
  {
    ReceiveKeepsPrefix(l.outbox.stream, l.session, l.sent[k], fate, l.outbox.attempted);
  }

  lemma {:induction false} RunKeepsInv(l: Link, actions: seq<Action>)
    requires Inv(l)
    ensures Inv(Run(l, actions))
    decreases |actions|
  {
    hide Inv, Step;
    if actions != [] {
      StepKeepsInv(l, actions[0]);
      RunKeepsInv(Step(l, actions[0]), actions[1..]);
    }
  }

  // ----- main results -------------------------------------------------------------------------------------------------

  /**
   Exactly-once consumption: whatever is lost, repeated or delayed, the session has taken in exactly the
   host's events 1..cursor, in order and once each, with the content the host still has for them; and the
   host drops only events the session has.
   */
  lemma ConsumedIsTheStream(fenced: bool, envelope: nat, actions: seq<Action>)
    requires envelope >= 2
    ensures var l := Run(Fresh(fenced, envelope), actions);
            && l.session.cursor <= |l.outbox.stream|
            && l.session.consumed == l.outbox.stream[..l.session.cursor]
            && l.outbox.base <= l.session.cursor
  {
    RunKeepsInv(Fresh(fenced, envelope), actions);
  }

  lemma StepOnlyGrows(l: Link, a: Action)
    requires Inv(l)
    ensures l.session.cursor <= Step(l, a).session.cursor && l.session.consumed <= Step(l, a).session.consumed
  {
    hide Weight, Fitting, Queue, AppendCheckpoint, Shorten;
  }

  /** What the session has taken in is never taken back. */
  lemma {:induction false} ConsumedOnlyGrows(l: Link, actions: seq<Action>)
    requires Inv(l)
    ensures l.session.cursor <= Run(l, actions).session.cursor
    ensures l.session.consumed <= Run(l, actions).session.consumed
    decreases |actions|
  {
    hide Inv, Step;
    if actions != [] {
      StepKeepsInv(l, actions[0]);
      StepOnlyGrows(l, actions[0]);
      ConsumedOnlyGrows(Step(l, actions[0]), actions[1..]);
    }
  }

  /** The host never has to give up over an acknowledgement: an accepting answer always covers the batch and never more than was sent. */
  lemma AcknowledgementsFit(l: Link, fate: Fate)
    requires Inv(l) && CanUpload(l.outbox)
    ensures var b, o := BatchOf(l.outbox), Attempt(l.outbox);
            var r := Receive(l.session, b, fate).1;
            r.Accepted? ==> LastOf(b) <= r.acknowledged <= o.attempted && r.acknowledged == Receive(l.session, b, fate).0.cursor && Hear(o, b, r).1
  {
    hide Weight, Fitting;
  }

  /**
   The batch starts inside what the session has and ends beyond it. The invariant leaves room for this, but
   no run comes to it, as `RetriesRepeatTheBatch` below shows; the next two lemmas say what the answer to
   such a batch would do.
   */
  predicate Straddles(l: Link) {
    l.outbox.base < l.session.cursor < l.outbox.base + Pack(l.outbox)
  }

  /**
   An answered exchange moves the outbox on, to the cursor or to the end of the batch, exactly unless the
   events carry an execution and the batch straddles the cursor: then the host refuses the expected number.
   */
  lemma ExchangeProgressesExactly(l: Link, fate: Fate)
    requires Inv(l) && CanUpload(l.outbox) && (fate.Apply? || fate.Swallow?)
    ensures var l' := ExchangeOne(l, fate, true);
            && (l'.outbox.base > l.outbox.base <==> !(l.outbox.fenced && Straddles(l)))
            && (l.outbox.fenced && Straddles(l) ==> l'.outbox.base == l.outbox.base && l'.session == l.session)
            && (!Straddles(l) ==> l'.outbox.base == l'.session.cursor == Max(l.session.cursor, l.outbox.base + Pack(l.outbox)))
            && (Straddles(l) && !l.outbox.fenced ==> l'.outbox.base == l'.session.cursor == l.session.cursor)
  {
    hide Weight, Fitting;
    BatchFits(l.outbox);
  }

  /** A host that resumes from the expected number always passes the cursor check. */
  lemma ResumePassesCursorCheck(l: Link, fate: Fate, next: Fate)
    requires Inv(l) && CanUpload(l.outbox) && !l.outbox.fenced && Receive(l.session, BatchOf(l.outbox), fate) == (l.session, Rejected(l.session.cursor + 1))
    requires Straddles(l)
    requires CanUpload(ExchangeOne(l, fate, true).outbox)
    ensures var l' := ExchangeOne(l, fate, true);
            var b := BatchOf(l'.outbox);
            b.first == l'.session.cursor + 1 && (next.Apply? || next.Swallow? ==> Receive(l'.session, b, next).1 == Accepted(LastOf(b), false))
  {
    hide Weight, Fitting;
    ExchangeKeepsInv(l, fate, true);
    BatchFits(ExchangeOne(l, fate, true).outbox);
  }

  // ----- retries repeat the batch ----------------------------------------------------------------------------------

  /**
   At most one batch is open, and packing its events again takes all of them. The session has all of it or
   none, and every other batch is done with.
   */
  ghost predicate OneOpen(l: Link) {
    var o := l.outbox;
    && o.base <= o.attempted <= |o.stream| && o.attempted - o.base <= MAX_BATCH
    && Fitting(o.stream[o.base..o.attempted], o.envelope, true) == o.attempted - o.base
    && (l.session.cursor == o.base || l.session.cursor == o.attempted)
    && forall k :: 0 <= k < |l.sent| ==> LastOf(l.sent[k]) <= o.base || OpenBatch(o, l.sent[k])
  }

  ghost predicate OpenBatch(o: Outbox, b: Batch)
    requires o.base <= o.attempted <= |o.stream|
  {
    b == Batch(o.base + 1, o.stream[o.base..o.attempted])
  }

  /** The next upload is the open batch again, or a new one when none is open. */
  lemma NextIsTheOpenBatch(l: Link)
    requires Inv(l) && OneOpen(l)
    ensures var o := l.outbox;
            && (o.base < o.attempted ==> CanUpload(o) && OpenBatch(o, BatchOf(o)))
            && (CanUpload(o) ==> OpenBatch(Attempt(o), BatchOf(o)))
            && Fitting(o.stream[o.base..o.base + Pack(o)], o.envelope, true) == Pack(o)
  {
    var o := l.outbox;
    if o.base < o.attempted {
      assert Queue(o) == o.stream[o.base..o.attempted];
    }
    PackedFitsAgain(Queue(o), o.envelope, true);
    assert Queue(o)[..Pack(o)] == o.stream[o.base..o.base + Pack(o)];
  }

  lemma AttemptKeepsOneOpen(l: Link)
    requires Inv(l) && OneOpen(l) && CanUpload(l.outbox)
    ensures OneOpen(l.(outbox := Attempt(l.outbox), sent := l.sent + [BatchOf(l.outbox)]))
  {
    hide Fitting, Queue, Pack;
    NextIsTheOpenBatch(l);
  }

  lemma ExchangeKeepsOneOpen(l: Link, fate: Fate, answered: bool)
    requires Inv(l) && OneOpen(l) && CanUpload(l.outbox)
    ensures OneOpen(ExchangeOne(l, fate, answered))
  {
    hide Weight;
    AttemptKeepsOneOpen(l);
    NextIsTheOpenBatch(l);
    AcknowledgementsFit(l, fate);
  }

  lemma RewriteKeepsOneOpen(l: Link, a: Action)
    requires Inv(l) && OneOpen(l) && (a.Emit? || a.EmitCheckpoint? || a.Shrink?)
    ensures OneOpen(Step(l, a))
  {
    hide Fitting;
    RewriteKeepsAttempted(l, a);
    var o, o' := l.outbox, Step(l, a).outbox;
    assert o.stream[o.base..o.attempted] == o.stream[..o.attempted][o.base..];
    assert o'.stream[o.base..o.attempted] == o'.stream[..o.attempted][o.base..];
  }

  lemma StepKeepsOneOpen(l: Link, a: Action)
    requires Inv(l) && OneOpen(l)
    ensures OneOpen(Step(l, a))
  {
    match a
    case Send =>
      if CanUpload(l.outbox) {
        AttemptKeepsOneOpen(l);
      }
    case Exchange(fate, answered) =>
      if CanUpload(l.outbox) {
        ExchangeKeepsOneOpen(l, fate, answered);
      }
    case Redeliver(k, fate) =>
      if k < |l.sent| {
        assert CutFrom(l.outbox.stream, l.sent[k], l.outbox.attempted);
      }
    case _ =>
      RewriteKeepsOneOpen(l, a);
  }

  lemma {:induction false} RunKeepsOneOpen(l: Link, actions: seq<Action>)
    requires Inv(l) && OneOpen(l)
    ensures Inv(Run(l, actions)) && OneOpen(Run(l, actions))
    decreases |actions|
  {
    hide Inv, OneOpen, Step;
    if actions != [] {
      StepKeepsInv(l, actions[0]);
      StepKeepsOneOpen(l, actions[0]);
      RunKeepsOneOpen(Step(l, actions[0]), actions[1..]);
    }
  }

  /**
   After any run a retry is the batch that was attempted, event for event, and no batch straddles the
   cursor: the session has all of the next upload or none of it.
   */
  lemma RetriesRepeatTheBatch(fenced: bool, envelope: nat, actions: seq<Action>)
    requires envelope >= 2
    ensures var l := Run(Fresh(fenced, envelope), actions);
            && !Straddles(l)
            && forall k :: 0 <= k < |l.sent| && LastOf(l.sent[k]) > l.outbox.base ==> CanUpload(l.outbox) && BatchOf(l.outbox) == l.sent[k]
  {
    var l := Run(Fresh(fenced, envelope), actions);
    RunKeepsOneOpen(Fresh(fenced, envelope), actions);
    NextIsTheOpenBatch(l);
  }

  /** The host never has to resume from an expected number: when its batch is rejected it stops with an error. */
  lemma RejectionIsFinal(fenced: bool, envelope: nat, actions: seq<Action>, fate: Fate)
    requires envelope >= 2 && CanUpload(Run(Fresh(fenced, envelope), actions).outbox)
    ensures var l := Run(Fresh(fenced, envelope), actions);
            var (b, o) := (BatchOf(l.outbox), Attempt(l.outbox));
            var r := Receive(l.session, b, fate).1;
            r.Rejected? ==> fate.TextMismatch? && Hear(o, b, r) == (o, false)
  {
    hide Weight;
    var l := Run(Fresh(fenced, envelope), actions);
    RunKeepsOneOpen(Fresh(fenced, envelope), actions);
    NextIsTheOpenBatch(l);
  }

  // ----- delivery ---------------------------------------------------------------------------------------------------

  /** One pass of the upload loop: what becomes of the upload, or else what an oversized checkpoint is shortened to. */
  datatype Pass = Pass(fate: Fate, body: string, bytes: nat)

  /** The upload is answered by a session that keeps or swallows what it is given, and a shortened checkpoint fits. */
  predicate Clean(o: Outbox, p: Pass) {
    (p.fate.Apply? || p.fate.Swallow?) && o.envelope + p.bytes <= BUDGET
  }

  function Flush(l: Link, p: Pass): Link {
    if CanUpload(l.outbox) then ExchangeOne(l, p.fate, true) else l.(outbox := Shorten(l.outbox, p.body, p.bytes))
  }

  function FlushAll(l: Link, passes: seq<Pass>): Link
    decreases |passes|
  {
    if passes == [] then l else FlushAll(Flush(l, passes[0]), passes[1..])
  }

  ghost predicate AllClean(o: Outbox, passes: seq<Pass>) {
    forall k :: 0 <= k < |passes| ==> Clean(o, passes[k])
  }

  /** Every queued event fits an upload of its own, or can be shortened. */
  predicate Deliverable(o: Outbox)
    requires o.base <= |o.stream|
  {
    forall i :: o.base <= i < |o.stream| ==> o.stream[i].checkpoint || Fits(o, o.stream[i])
  }

  /** Two passes for each queued event, but one for the first if it fits. */
  function PassesFor(o: Outbox): nat
    requires o.base <= |o.stream|
  {
    2 * (|o.stream| - o.base) - if o.base < |o.stream| && Fits(o, o.stream[o.base]) then 1 else 0
  }

  /** Only oversized checkpoints were rewritten, and they are still checkpoints. */
  ghost predicate OnlyShortened(o: Outbox, o': Outbox) {
    && |o'.stream| == |o.stream| && o'.envelope == o.envelope && o'.base >= o.base
    && forall i :: 0 <= i < |o.stream| && o'.stream[i] != o.stream[i] ==>
         o.base <= i && o.stream[i].checkpoint && !Fits(o, o.stream[i]) && o'.stream[i].checkpoint
  }

  /** Something can be uploaded exactly when the first queued event fits. */
  lemma FirstDecides(o: Outbox)
    requires o.base < |o.stream|
    ensures CanUpload(o) <==> Fits(o, o.stream[o.base])
  {
    assert Queue(o) != [] && Queue(o)[0] == o.stream[o.base];
  }

  /** A pass that uploads closes a whole batch of events that fit. */
  lemma UploadPass(l: Link, p: Pass)
    requires Inv(l) && OneOpen(l) && Clean(l.outbox, p) && CanUpload(l.outbox)
    ensures var (o, o') := (l.outbox, Flush(l, p).outbox);
            && Inv(Flush(l, p)) && OneOpen(Flush(l, p))
            && o'.stream == o.stream && o'.envelope == o.envelope
            && o.base < o'.base <= |o.stream|
            && forall i :: o.base <= i < o'.base ==> Fits(o, o.stream[i])
  {
    hide Inv, OneOpen, Receive, BatchOf, Pack, Hear;
    StepKeepsInv(l, Exchange(p.fate, true));
    StepKeepsOneOpen(l, Exchange(p.fate, true));
    UploadClosesBatch(l, p.fate);
  }

  lemma UploadClosesBatch(l: Link, fate: Fate)
    requires Inv(l) && OneOpen(l) && (fate.Apply? || fate.Swallow?) && CanUpload(l.outbox)
    ensures var (o, o') := (l.outbox, ExchangeOne(l, fate, true).outbox);
            && o'.stream == o.stream && o'.envelope == o.envelope
            && o.base < o'.base <= |o.stream|
            && forall i :: o.base <= i < o'.base ==> Fits(o, o.stream[i])
  {
    hide Weight, Fitting, Queue;
    var o := l.outbox;
    NextIsTheOpenBatch(l);
    ExchangeProgressesExactly(l, fate);
    BatchFits(o);
    assert forall i :: o.base <= i < o.base + Pack(o) ==> o.stream[i] == BatchOf(o).events[i - o.base];
  }

  /** A pass that shortens makes the first queued event fit. */
  lemma ShorteningPass(l: Link, p: Pass)
    requires Inv(l) && OneOpen(l) && Clean(l.outbox, p) && !CanUpload(l.outbox)
    requires l.outbox.base < |l.outbox.stream| && l.outbox.stream[l.outbox.base].checkpoint
    ensures var o := l.outbox;
            && Inv(Flush(l, p)) && OneOpen(Flush(l, p))
            && Flush(l, p).outbox == o.(stream := o.stream[o.base := Event(true, p.body, p.bytes)])
            && !Fits(o, o.stream[o.base]) && Fits(o, Event(true, p.body, p.bytes))
  {
    StepKeepsInv(l, Shrink(p.body, p.bytes));
    StepKeepsOneOpen(l, Shrink(p.body, p.bytes));
    FirstDecides(l.outbox);
    assert Queue(l.outbox) != [] && Queue(l.outbox)[0] == l.outbox.stream[l.outbox.base];
  }

  /** What fits no upload and cannot be shortened holds up everything behind it; an empty queue stays empty. */
  lemma {:induction false} NothingMoves(l: Link, passes: seq<Pass>)
    requires !CanUpload(l.outbox) && (Queue(l.outbox) != [] ==> !Queue(l.outbox)[0].checkpoint)
    ensures FlushAll(l, passes) == l
    decreases |passes|
  {
    if passes != [] {
      NothingMoves(l, passes[1..]);
    }
  }

  lemma EmptyOrStuck(o: Outbox)
    requires o.base <= |o.stream| && (o.base == |o.stream| || (!o.stream[o.base].checkpoint && !Fits(o, o.stream[o.base])))
    ensures !CanUpload(o) && (Queue(o) != [] ==> !Queue(o)[0].checkpoint)
  {
    if o.base < |o.stream| {
      FirstDecides(o);
      assert Queue(o)[0] == o.stream[o.base];
    } else {
      assert Queue(o) == [];
    }
  }

  /**
   Once answers come through, enough passes of the upload loop deliver everything, with or without an
   execution, exactly when every queued event fits an upload or is a text checkpoint; what the session has
   then is the stream, in which only oversized checkpoints were shortened.
   */
  lemma {:induction false} EverythingArrives(l: Link, passes: seq<Pass>)
    requires Inv(l) && OneOpen(l) && AllClean(l.outbox, passes) && |passes| >= PassesFor(l.outbox)
    ensures var l' := FlushAll(l, passes);
            && OnlyShortened(l.outbox, l'.outbox)
            && (Deliverable(l.outbox) <==> l'.outbox.base == |l.outbox.stream|)
            && (Deliverable(l.outbox) ==> l'.session.consumed == l'.outbox.stream)
    decreases |passes|
  {
    hide Inv, OneOpen, Flush, Queue, CanUpload, Clean;
    var o := l.outbox;
    InvGivesBase(l);
    if o.base == |o.stream| || (!o.stream[o.base].checkpoint && !Fits(o, o.stream[o.base])) {
      EmptyOrStuck(o);
      NothingMoves(l, passes);
      if o.base == |o.stream| {
        DoneIsConsumed(l);
      }
    } else {
      assert Clean(o, passes[0]);
      FirstDecides(o);
      if CanUpload(o) {
        UploadPass(l, passes[0]);
      } else {
        ShorteningPass(l, passes[0]);
      }
      SameEnvelope(o, Flush(l, passes[0]).outbox, passes[1..]);
      EverythingArrives(Flush(l, passes[0]), passes[1..]);
    }
  }

  lemma InvGivesBase(l: Link)
    requires Inv(l)
    ensures l.outbox.base <= |l.outbox.stream|
  {}

  lemma DoneIsConsumed(l: Link)
    requires Inv(l) && l.outbox.base == |l.outbox.stream|
    ensures l.session.consumed == l.outbox.stream
  {
    assert l.outbox.stream[..|l.outbox.stream|] == l.outbox.stream;
  }

  lemma SameEnvelope(o: Outbox, o': Outbox, passes: seq<Pass>)
    requires o'.envelope == o.envelope && AllClean(o, passes)
    ensures AllClean(o', passes)
  {
    forall k | 0 <= k < |passes|
      ensures Clean(o', passes[k])
    {
      assert Clean(o, passes[k]);
    }
  }

  /** The same from the start: any run, and then enough passes. */
  lemma EverythingArrivesAfterAnyRun(fenced: bool, envelope: nat, before: seq<Action>, passes: seq<Pass>)
    requires envelope >= 2 && AllClean(Run(Fresh(fenced, envelope), before).outbox, passes)
    requires var o := Run(Fresh(fenced, envelope), before).outbox; o.base <= |o.stream| ==> |passes| >= PassesFor(o)
    ensures var l := Run(Fresh(fenced, envelope), before);
            var l' := FlushAll(l, passes);
            && l.outbox.base <= |l.outbox.stream| && OnlyShortened(l.outbox, l'.outbox)
            && (Deliverable(l.outbox) <==> l'.outbox.base == |l.outbox.stream|)
            && (Deliverable(l.outbox) ==> l'.session.consumed == l'.outbox.stream)
  {
    hide Run;
    RunKeepsOneOpen(Fresh(fenced, envelope), before);
    EverythingArrives(Run(Fresh(fenced, envelope), before), passes);
  }

  /** A run in which a large event that is no checkpoint, such as a long diff, keeps everything behind it from arriving. */
  lemma LargeEventHoldsUp(fenced: bool, envelope: nat, body: string, behind: Event, passes: seq<Pass>)
    requires envelope >= 2
    ensures var l := FlushAll(Run(Fresh(fenced, envelope), [Emit(Event(false, body, 600000)), Emit(behind)]), passes);
            l.outbox.stream == [Event(false, body, 600000), behind] && l.outbox.base == 0 && l.session.consumed == []
  {
    var large := Event(false, body, 600000);
    var l1 := Step(Fresh(fenced, envelope), Emit(large));
    var l2 := Step(l1, Emit(behind));
    assert [Emit(large), Emit(behind)][1..] == [Emit(behind)] && [Emit(behind)][1..] == [];
    assert l2.outbox.stream == [large, behind];
    assert Run(Fresh(fenced, envelope), [Emit(large), Emit(behind)]) == Run(l1, [Emit(behind)]) == Run(l2, []) == l2;
    EmptyOrStuck(l2.outbox);
    NothingMoves(l2, passes);
  }

  // ----- the two ends as they run ------------------------------------------------------------------------------------------

  /** The longest prefix that fits the byte budget, found one event at a time. */
  method PackEventBatch(events: seq<Event>, envelope: nat) returns (n: nat)
    ensures n == Fitting(events, envelope, true)
  {
    var size: nat := envelope;
    n := 0;
    while n < |events|
      invariant n <= |events|
      invariant Fitting(events, envelope, true) == n + Fitting(events[n..], size, n == 0)
    {
      var added := events[n].bytes + (if n > 0 then 1 else 0);
      if size + added > BUDGET {
        break;
      }
      assert events[n..][1..] == events[n + 1..];
      n, size := n + 1, size + added;
    }
  }

  class RemoteSession {
    var cursor: nat
    var consumed: seq<Event>

    constructor ()
      ensures Session(cursor, consumed) == Session(0, [])
    {
      cursor, consumed := 0, [];
    }

    method ApplyEvents(b: Batch, fate: Fate) returns (r: Reply)
      modifies this
      ensures (Session(cursor, consumed), r) == Receive(Session(old(cursor), old(consumed)), b, fate)
    {
      if b.events == [] {
        return Accepted(cursor, true);
      }
      if |b.events| > MAX_BATCH || Weight(b.events, true) + 2 > MAX_BATCH_BYTES {
        return Failed;
      }
      var last := LastOf(b);
      if last <= cursor {
        return Accepted(cursor, true);
      }
      var expected := cursor + 1;
      if b.first != expected {
        return Rejected(expected);
      }
      if fate.Throw? {
        return Failed;
      }
      if fate.TextMismatch? {
        return Rejected(expected);
      }
      cursor, consumed := last, consumed + b.events;
      return Accepted(last, false);
    }
  }

  class HostOutbox {
    var stream: seq<Event>
    var base: nat
    var attempted: nat
    const fenced: bool
    const envelope: nat

    function State(): Outbox
      reads this
    {
      Outbox(stream, base, attempted, fenced, envelope)
    }

    constructor (fenced: bool, envelope: nat)
      requires envelope >= 2
      ensures State() == Fresh(fenced, envelope).outbox
    {
      stream, base, attempted := [], 0, 0;
      this.fenced, this.envelope := fenced, envelope;
    }

    method AppendOrReplaceCheckpoint(body: string, bytes: nat, inFlight: nat)
      modifies this`stream
      ensures State() == AppendCheckpoint(old(State()), body, bytes, inFlight)
    {
      var last := |stream|;
      if last > base && last > Max(inFlight, attempted) && stream[last - 1].checkpoint {
        stream := stream[last - 1 := Event(true, body, bytes)];
      } else {
        stream := stream + [Event(true, body, bytes)];
      }
    }

    /**
     One pass of the upload loop up to the upload: the packed batch, marked as attempted before it leaves.
     Nothing leaves when nothing is queued, and an oversized checkpoint is shortened instead.
     */
    method NextBatch(body: string, bytes: nat) returns (b: Option<Batch>)
      requires base <= |stream|
      modifies this`attempted, this`stream
      ensures b == if CanUpload(old(State())) then Some(BatchOf(old(State()))) else None
      ensures State() == if CanUpload(old(State())) then Attempt(old(State())) else Shorten(old(State()), body, bytes)
    {
      hide Fitting;
      var limit := Min(|stream|, base + MAX_BATCH);
      var events := stream[base..if attempted >= base + 1 then Min(limit, attempted) else limit];
      var n := PackEventBatch(events, envelope);
      if n > 0 {
        b := Some(Batch(base + 1, stream[base..base + n]));
        attempted := Max(attempted, base + n);
      } else {
        b := None;
        if events != [] && events[0].checkpoint {
          stream := stream[base := Event(true, body, bytes)];
        }
      }
    }

    method HandleReply(b: Batch, r: Reply) returns (ok: bool)
      modifies this`base
      ensures (State(), ok) == Hear(old(State()), b, r)
    {
      match r {
        case Failed => ok := false;
        case Accepted(ack, _) =>
          ok := ack >= LastOf(b) && ack <= attempted;
          if ok {
            base := Max(base, ack);
          }
        case Rejected(expected) =>
          ok := !fenced && b.first < expected <= LastOf(b) + 1;
          if ok {
            base := Max(base, expected - 1);
          }
      }
    }
  }
}

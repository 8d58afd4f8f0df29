/** Sessions of the running system: what a stream hears after its replay, when that leaves no gap, and what
    a client that reconnects receives over a chain of streams. */
module StreamSessions {
  import opened Wrappers
  import opened EventStream
  import opened StreamSystem
  import opened StreamHistories
  import EventLog

  lemma RunAround(steps: seq<Step>, n: nat)
    requires n <= |steps|
    ensures Run(INIT, steps) == Run(Run(INIT, steps[..n]), steps[n..])
  {
    assert steps[..n] + steps[n..] == steps;
    RunConcat(INIT, steps[..n], steps[n..]);
  }

  // ── What a stream hears ─────────────────────────────────────────────────────────

  /** The message that a step brings to stream `c`, if it is still open. */
  function HeardNow(s: State, step: Step, c: nat): seq<EventLog.Event> {
    if Hears(s, step, c) then [step.event] else []
  }

  function Heard(s: State, steps: seq<Step>, c: nat): seq<EventLog.Event>
    decreases |steps|
  {
    if steps == [] then [] else HeardNow(s, steps[0], c) + Heard(Next(s, steps[0]), steps[1..], c)
  }

  /** `u` is the stream in the system, with its heartbeat started at some point or not yet; `v` is the same
      stream if nothing happens to it but the messages. They differ only once `u` has ended. */
  predicate Mirrors(u: Stream, v: Stream) {
    && u.sent == v.sent && !u.phase.Replaying? && !v.phase.Replaying?
    && (v.phase.Live? ==> u.phase.Live?)
    && (!u.ended ==> !v.ended && u.highWaterMark == v.highWaterMark && u.closed == v.closed)
  }

  lemma MirrorStep(s: State, step: Step, c: nat, v: Stream)
    requires c in s.streams && Mirrors(s.streams[c], v)
    ensures var heard := HeardNow(s, step, c);
            && c in Next(s, step).streams
            && Mirrors(Next(s, step).streams[c], if heard == [] then v else Receive(v, heard[0]))
  {
  }

  lemma {:induction false} NothingHeardOnceEnded(s: State, steps: seq<Step>, c: nat)
    requires c in s.streams && s.streams[c].ended && !s.streams[c].phase.Replaying?
    ensures Heard(s, steps, c) == []
    ensures c in Run(s, steps).streams && Run(s, steps).streams[c].sent == s.streams[c].sent
    decreases |steps|
  {
    if steps != [] {
      MirrorStep(s, steps[0], c, s.streams[c]);
      NothingHeardOnceEnded(Next(s, steps[0]), steps[1..], c);
    }
  }

  /** Whatever else happens in the system, and whenever the heartbeat starts: after its replay a stream sends
      what it makes of the messages it hears. */
  lemma {:induction false} HeardIsSent(s: State, steps: seq<Step>, c: nat, v: Stream)
    requires c in s.streams && Mirrors(s.streams[c], v)
    ensures c in Run(s, steps).streams
    ensures Run(s, steps).streams[c].sent == ReceiveAll(v, Heard(s, steps, c)).sent
    decreases |steps|
  {
    if steps != [] {
      if s.streams[c].ended {
        NothingHeardOnceEnded(s, steps, c);
      } else {
        var t, heard := Next(s, steps[0]), HeardNow(s, steps[0], c);
        MirrorStep(s, steps[0], c, v);
        if heard == [] {
          HeardIsSent(t, steps[1..], c, v);
          assert heard + Heard(t, steps[1..], c) == Heard(t, steps[1..], c);
        } else {
          HeardIsSent(t, steps[1..], c, Receive(v, heard[0]));
          assert (heard + Heard(t, steps[1..], c))[1..] == Heard(t, steps[1..], c);
        }
      }
    }
  }

  /** The message with index `i` is newer than `mark` and than every one before it. */
  predicate IsRecord(mark: nat, es: seq<EventLog.Event>, i: nat)
    requires i < |es|
  {
    es[i].sequence > mark && forall j :: 0 <= j < i ==> es[j].sequence < es[i].sequence
  }

  /** The frames of these messages, in the order in which they are heard. */
  function RecordFrames(mark: nat, es: seq<EventLog.Event>): seq<Frame> {
    if es == [] then []
    else
      var n := |es| - 1;
      RecordFrames(mark, es[..n])
      + (if IsRecord(mark, es, n) then [Frame(es[n].sequence, es[n].kind, es[n].payload)] else [])
  }

  /** `mark` was the high-water mark before `es` were heard, and `high` is it now. */
  predicate Marks(mark: nat, es: seq<EventLog.Event>, high: nat) {
    && mark <= high && (forall j :: 0 <= j < |es| ==> es[j].sequence <= high)
    && (high == mark || exists j :: 0 <= j < |es| && es[j].sequence == high)
  }

  lemma RecordsSnoc(mark: nat, es: seq<EventLog.Event>, e: EventLog.Event, high: nat)
    requires Marks(mark, es, high)
    ensures RecordFrames(mark, es + [e])
         == RecordFrames(mark, es) + (if e.sequence > high then [FrameOf(e)] else [])
    ensures Marks(mark, es + [e], if e.sequence > high then e.sequence else high)
  {
    var more := es + [e];
    assert more[..|es|] == es && more[|es|] == e;
    assert forall j :: 0 <= j < |es| ==> more[j] == es[j];
    if high != mark {
      var j :| 0 <= j < |es| && es[j].sequence == high;
      assert more[j].sequence == high;
    }
  }

  lemma HeardLast(s: State, steps: seq<Step>, c: nat)
    requires steps != []
    ensures var front, last := steps[..|steps| - 1], steps[|steps| - 1];
            && Run(s, steps) == Next(Run(s, front), last)
            && Heard(s, steps, c) == Heard(s, front, c) + HeardNow(Run(s, front), last, c)
  {
    var front, last := steps[..|steps| - 1], [steps[|steps| - 1]];
    assert steps == front + last && last[1..] == [];
    RunConcat(s, front, last);
    HeardConcat(s, front, last, c);
    var t := Run(s, front);
    assert Run(t, last) == Run(Next(t, last[0]), []);
    assert Heard(t, last, c) == HeardNow(t, last[0], c) + Heard(Next(t, last[0]), [], c);
  }

  /** What a stream has sent since it subscribed with high-water mark `mark` and `sent` sent. */
  predicate SentRecords(t: Stream, mark: nat, sent: seq<Frame>, es: seq<EventLog.Event>) {
    && !t.phase.Replaying? && t.sent == sent + RecordFrames(mark, es)
    && (!t.ended ==> Marks(mark, es, t.highWaterMark))
  }

  lemma SendsRecord(s: State, step: Step, c: nat, mark: nat, sent: seq<Frame>, es: seq<EventLog.Event>)
    requires c in s.streams && SentRecords(s.streams[c], mark, sent, es)
    ensures c in Next(s, step).streams
    ensures SentRecords(Next(s, step).streams[c], mark, sent, es + HeardNow(s, step, c))
  {
    if Hears(s, step, c) {
      RecordsSnoc(mark, es, step.event, s.streams[c].highWaterMark);
    } else {
      assert es + HeardNow(s, step, c) == es;
    }
  }

  /** From any moment after its replay, whatever is lost, repeated or reordered and whatever else happens in the
      system: what a stream sends is exactly the frames of the messages it hears that are newer than its mark
      and than every one before them, gaps or not. */
  lemma {:induction false} SendsRecords(s: State, steps: seq<Step>, c: nat)
    requires c in s.streams && !s.streams[c].phase.Replaying?
    ensures c in Run(s, steps).streams
    ensures var t := s.streams[c];
            SentRecords(Run(s, steps).streams[c], t.highWaterMark, t.sent, Heard(s, steps, c))
    decreases |steps|
  {
    var t := s.streams[c];
    if steps == [] {
      assert t.sent + [] == t.sent;
    } else {
      var front, last := steps[..|steps| - 1], steps[|steps| - 1];
      SendsRecords(s, front, c);
      HeardLast(s, steps, c);
      SendsRecord(Run(s, front), last, c, t.highWaterMark, t.sent, Heard(s, front, c));
    }
  }

  // ── Gaps of one session ─────────────────────────────────────────────────────────

  /** The `n`-th step is the page read after which stream `c` subscribes. */
  predicate ReplayEnds(steps: seq<Step>, c: nat, n: nat) {
    && 0 < n <= |steps| && steps[n - 1] == ReadPage(c)
    && c in Run(INIT, steps[..n - 1]).streams
    && Run(INIT, steps[..n - 1]).streams[c].phase.Replaying?
    && !Run(INIT, steps[..n - 1]).streams[c].ended
    && c in Run(INIT, steps[..n]).streams
    && Run(INIT, steps[..n]).streams[c].phase.Subscribing?
  }

  /** The log of the stream's execution at that page read. */
  function LogAt(steps: seq<Step>, c: nat, n: nat): seq<EventLog.Event>
    requires n <= |steps| && c in Run(INIT, steps[..n]).streams
  {
    LogFor(Run(INIT, steps[..n]), Run(INIT, steps[..n]).streams[c])
  }

  lemma CompleteAt(steps: seq<Step>, c: nat, n: nat)
    requires ReplayEnds(steps, c, n)
    ensures var t := Run(INIT, steps[..n]).streams[c];
            && Complete(t, LogAt(steps, c, n)) && EventLog.Dense(LogAt(steps, c, n)) && !t.ended
  {
    var s, s' := Run(INIT, steps[..n - 1]), Run(INIT, steps[..n]);
    var last := [ReadPage(c)];
    assert steps[..n] == steps[..n - 1] + last;
    RunConcat(INIT, steps[..n - 1], last);
    assert Run(s, last) == Run(Next(s, ReadPage(c)), last[1..]) == Next(s, ReadPage(c));
    RunKeepsInv(INIT, steps[..n - 1]);
    var t := s.streams[c];
    var log := LogFor(s, t);
    EventLog.LogOfUniqueIds(s.log.rows, t.executionId);
    assert EventLog.Dense(log);
    PageStep(t, log);
    var u := ReplayPage(t, log);
    SendItemsKeepsRest(t, EventPages.GetEvents(log, PAGE_SIZE, t.cursor, t.after).items);
    assert s' == Next(s, ReadPage(c)) && s'.streams[c] == u;
    assert PageDone(t, u, log) && u.executionId == t.executionId && !u.phase.Replaying?;
    assert LogAt(steps, c, n) == log;
  }

  /** The channel is in order and lossless for this session: after the subscribe stream `c` hears exactly
      events `p` up to `q` of the log; the first `p` were published before. */
  predicate InOrder(steps: seq<Step>, c: nat, n: nat, p: nat, q: nat) {
    && ReplayEnds(steps, c, n) && c in Run(INIT, steps).streams
    && p <= q <= |LogFor(Run(INIT, steps), Run(INIT, steps).streams[c])|
    && Heard(Run(INIT, steps[..n]), steps[n..], c) == LogFor(Run(INIT, steps), Run(INIT, steps).streams[c])[p..q]
  }

  /** Of the events published before the subscribe none was stored after the last page read, apart from those
      the client has skipped; or nothing was heard. */
  predicate NothingMissed(steps: seq<Step>, c: nat, n: nat, p: nat, q: nat)
    requires ReplayEnds(steps, c, n)
  {
    p <= Max(Run(INIT, steps[..n]).streams[c].after, |LogAt(steps, c, n)|) || p == q
  }

  lemma {:induction false} AsAskedStays(s: State, steps: seq<Step>, c: nat)
    requires c in s.streams
    ensures c in Run(s, steps).streams
    ensures var t, u := s.streams[c], Run(s, steps).streams[c];
            u.after == t.after && u.executionId == t.executionId
    decreases |steps|
  {
    if steps != [] {
      StreamExtends(s, steps[0], c);
      AsAskedStays(Next(s, steps[0]), steps[1..], c);
    }
  }

  /** Over every run of the system, with the heartbeat and the close at any point: a session with an ordered,
      lossless channel is free of gaps exactly if no event was stored after its last page read and yet
      published before its subscribe, or nothing was heard. */
  lemma OrderedSessionGapFreeIff(steps: seq<Step>, c: nat, n: nat, p: nat, q: nat)
    requires InOrder(steps, c, n, p, q)
    ensures var t := Run(INIT, steps).streams[c];
            GapFree(t.sent, t.after) <==> NothingMissed(steps, c, n, p, q)
  {
    var s0, s := Run(INIT, steps[..n]), Run(INIT, steps);
    var t0, log0, log := s0.streams[c], LogAt(steps, c, n), LogFor(s, s.streams[c]);
    RunAround(steps, n);
    CompleteAt(steps, c, n);
    RunKeepsInv(INIT, steps);
    assert EventLog.Dense(log);
    AsAskedStays(s0, steps[n..], c);
    HeardIsSent(s0, steps[n..], c, t0);
    ReplayIsGapFree(t0, log0);
    MarkAfterReplay(t0, log0);
    LiveGapFreeIff(t0, log, p, q);
  }

  lemma MarkAfterReplay(t: Stream, log: seq<EventLog.Event>)
    requires Complete(t, log) && !t.ended
    ensures t.highWaterMark == t.after + |t.sent| == Max(t.after, |log|)
  {
    CutIsFirstTerminal(log, EventPages.StartOf(log, t.after));
  }

  // ── All that a session sends ────────────────────────────────────────────────────

  /** The `k`-th step opens stream `c` on execution `x` behind `after`. */
  predicate Opens(steps: seq<Step>, c: nat, k: nat, x: nat, after: nat) {
    k < |steps| && steps[k] == Open(c, x, after) && c !in StateAt(steps, k).streams
  }

  lemma ReplaySent(steps: seq<Step>, c: nat, n: nat)
    requires ReplayEnds(steps, c, n)
    ensures var t, log := StateAt(steps, n).streams[c], LogAt(steps, c, n);
            && t.sent == Frames(log, EventPages.StartOf(log, t.after), |log|)
            && t.highWaterMark == Max(t.after, |log|) && !t.phase.Replaying?
  {
    var t, log := StateAt(steps, n).streams[c], LogAt(steps, c, n);
    CompleteAt(steps, c, n);
    MarkAfterReplay(t, log);
    CutIsFirstTerminal(log, EventPages.StartOf(log, t.after));
  }

  /** Everything that a session delivers, over every history and any channel: the stored events behind the
      `Last-Event-ID` that it was opened with, as they were at its last page read, and then exactly the frames of
      the messages it hears that are newer than these and than every message before. */
  lemma SessionSends(steps: seq<Step>, c: nat, k: nat, n: nat, x: nat, after: nat)
    requires Opens(steps, c, k, x, after) && k < n && ReplayEnds(steps, c, n)
    ensures c in Run(INIT, steps).streams
    ensures var t, log := Run(INIT, steps).streams[c], EventLog.LogOf(StateAt(steps, n).log.rows, x);
            var from := if after <= |log| then after else |log|;
            && t.after == after && t.executionId == x
            && t.sent == Frames(log, from, |log|)
                         + RecordFrames(Max(after, |log|), Heard(StateAt(steps, n), steps[n..], c))
  {
    var s := StateAt(steps, n);
    OpenedAsAsked(steps, c, k, n, x, after);
    ReplaySent(steps, c, n);
    RunAround(steps, n);
    SendsRecords(s, steps[n..], c);
    AsAskedStays(s, steps[n..], c);
  }

  lemma OpenedAsAsked(steps: seq<Step>, c: nat, k: nat, n: nat, x: nat, after: nat)
    requires Opens(steps, c, k, x, after) && k < n <= |steps|
    ensures var t := StateAt(steps, n).streams; c in t && t[c].after == after && t[c].executionId == x
  {
    StateAtNext(steps, k);
    var rest := steps[..n][k + 1..];
    assert steps[..n] == steps[..k + 1] + rest;
    RunConcat(INIT, steps[..k + 1], rest);
    AsAskedStays(StateAt(steps, k + 1), rest, c);
  }

  // ── A frame behind a terminal frame ─────────────────────────────────────────────

  /** The three steps of one appender, and the delivery of its event to stream `c`. */
  function AppendAndDeliver(a: nat, c: nat, e: EventLog.Event): seq<Step> {
    [Append(EventLog.Read(a, e.executionId, e.kind, e.payload)), Append(EventLog.Insert(a, e.id)),
     Append(EventLog.Publish(a)), Deliver(c, e)]
  }

  lemma RunFour(s: State, a: Step, b: Step, c: Step, d: Step)
    ensures Run(s, [a, b, c, d]) == Next(Next(Next(Next(s, a), b), c), d)
  {
    assert [a, b, c, d][1..] == [b, c, d] && [b, c, d][1..] == [c, d] && [c, d][1..] == [d] && [d][1..] == [];
    assert Run(s, [a, b, c, d]) == Run(Next(s, a), [b, c, d]);
    assert Run(Next(s, a), [b, c, d]) == Run(Next(Next(s, a), b), [c, d]);
    assert Run(Next(Next(s, a), b), [c, d]) == Run(Next(Next(Next(s, a), b), c), [d]);
  }

  /** An event with the next sequence and a new id is stored, published and handed to the stream. */
  lemma StoredAndDelivered(s: State, a: nat, c: nat, e: EventLog.Event)
    requires Inv(s) && a !in s.log.appenders
    requires c in s.streams && s.streams[c].executionId == e.executionId
    requires e.sequence == |EventLog.LogOf(s.log.rows, e.executionId)| + 1
    requires forall r :: r in s.log.rows ==> r.id != e.id
    ensures var t := Run(s, AppendAndDeliver(a, c, e));
            && t.log.rows == s.log.rows + [e] && t.log.published == s.log.published + {e}
            && t.log.appenders == s.log.appenders
            && t.streams == s.streams[c := Receive(s.streams[c], e)]
  {
    EventLog.MaxSequenceIsLength(s.log.rows, e.executionId);
    var read := EventLog.Next(s.log, EventLog.Read(a, e.executionId, e.kind, e.payload));
    forall r | r in s.log.rows && r.executionId == e.executionId ensures r.sequence < e.sequence {
      EventLog.LogOfMember(s.log.rows, e.executionId, r);
      StoredAtSequence(EventLog.LogOf(s.log.rows, e.executionId), r);
    }
    var inserted := EventLog.Next(read, EventLog.Insert(a, e.id));
    assert inserted.rows == s.log.rows + [e];
    var published := EventLog.Next(inserted, EventLog.Publish(a));
    assert published.appenders == s.log.appenders;
    RunFour(s, Append(EventLog.Read(a, e.executionId, e.kind, e.payload)), Append(EventLog.Insert(a, e.id)),
            Append(EventLog.Publish(a)), Deliver(c, e));
  }

  /** A stream that has just subscribed to an execution without events. */
  predicate JustSubscribed(s: State, c: nat, x: Uuid) {
    && s.log == EventLog.INIT && c in s.streams
    && s.streams[c] == Stream(x, 0, Subscribing, None, 0, [], false, false, false)
  }

  lemma ReceiveTwo(t: Stream, e: EventLog.Event, f: EventLog.Event)
    requires t.phase.Subscribing? && t.sent == [] && t.highWaterMark < e.sequence < f.sequence
    requires !t.ended && !t.closed && Terminal(e.kind) && !Terminal(f.kind)
    ensures var u := Receive(Receive(t, e), f);
            u.sent == [FrameOf(e), FrameOf(f)] && u.phase.Subscribing? && !u.ended
  {
    assert Receive(t, e).sent == [FrameOf(e)];
  }

  /** The first event of the execution, stored, published and delivered. */
  predicate OneDelivered(s: State, t: State, c: nat, e: EventLog.Event)
    requires c in s.streams
  {
    && t.log.rows == [e] && t.log.published == {e} && t.log.appenders == map[]
    && t.streams == s.streams[c := Receive(s.streams[c], e)]
  }

  lemma FirstEvent(s: State, c: nat, e: EventLog.Event)
    requires Inv(s) && JustSubscribed(s, c, e.executionId) && e.sequence == 1
    ensures OneDelivered(s, Run(s, AppendAndDeliver(0, c, e)), c, e)
  {
    StoredAndDelivered(s, 0, c, e);
  }

  lemma SecondEvent(s: State, t: State, c: nat, e: EventLog.Event, f: EventLog.Event)
    requires Inv(t) && c in s.streams && OneDelivered(s, t, c, e)
    requires Receive(s.streams[c], e).executionId == e.executionId == f.executionId
    requires f.sequence == 2 && e.id != f.id
    ensures var u := Run(t, AppendAndDeliver(0, c, f));
            && u.log.rows == [e] + [f] && u.log.published == {e} + {f} && c in u.streams
            && u.streams[c] == Receive(Receive(s.streams[c], e), f)
  {
    EventLog.LogOfAppend([], e, e.executionId);
    assert [] + [e] == [e];
    StoredAndDelivered(t, 0, c, f);
  }

  /** A terminal event and a later one, both stored, published and delivered before the heartbeat starts. */
  lemma TwoBeforeHeartbeat(s: State, c: nat, e: EventLog.Event, f: EventLog.Event)
    requires Inv(s) && JustSubscribed(s, c, e.executionId)
    requires e.sequence == 1 && f.sequence == 2 && e.id != f.id && e.executionId == f.executionId
    requires Terminal(e.kind) && !Terminal(f.kind)
    ensures var t := Run(Run(s, AppendAndDeliver(0, c, e)), AppendAndDeliver(0, c, f));
            && t.log.rows == [e] + [f] && t.log.published == {e} + {f} && c in t.streams
            && t.streams[c].sent == [FrameOf(e), FrameOf(f)] && t.streams[c].phase.Subscribing? && !t.streams[c].ended
  {
    FirstEvent(s, c, e);
    RunKeepsInv(s, AppendAndDeliver(0, c, e));
    SecondEvent(s, Run(s, AppendAndDeliver(0, c, e)), c, e, f);
    ReceiveTwo(s.streams[c], e, f);
  }

  lemma SubscribedAtOnce(c: nat, x: Uuid)
    ensures JustSubscribed(Run(INIT, [Open(c, x, 0), ReadPage(c)]), c, x)
  {
    RunTwo(INIT, Open(c, x, 0), ReadPage(c));
    PageStep(Connect(x, 0), []);
    var t := ReplayPage(Connect(x, 0), []);
    assert EventPages.GetEvents([], PAGE_SIZE, None, 0).items == [];
    assert t == Stream(x, 0, Subscribing, None, 0, [], false, false, false);
  }

  lemma HeartbeatLast(steps: seq<Step>, c: nat)
    requires c in Run(INIT, steps).streams && Run(INIT, steps).streams[c].phase.Subscribing?
    ensures var s, t := Run(INIT, steps), Run(INIT, steps + [Heartbeat(c)]);
            && t.log == s.log && c in t.streams && t.streams[c] == s.streams[c].(phase := Live)
  {
    var last := [Heartbeat(c)];
    RunConcat(INIT, steps, last);
    assert last[1..] == [];
    assert Run(Run(INIT, steps), last) == Next(Run(INIT, steps), Heartbeat(c));
  }

  /** The promise that nothing follows a terminal event fails in runs of the system: for every execution and any
      terminal event, the event and a later one are stored, published and delivered after the subscribe, and
      only then the heartbeat timer is created. Both frames reach the client, and the stream stays open. */
  lemma FrameAfterTerminal(c: nat, e: EventLog.Event, f: EventLog.Event) returns (steps: seq<Step>)
    requires e.sequence == 1 && f.sequence == 2 && e.id != f.id && e.executionId == f.executionId
    requires Terminal(e.kind) && !Terminal(f.kind)
    ensures var s := Run(INIT, steps);
            && s.log.rows == [e] + [f] && s.log.published == {e} + {f}
            && c in s.streams && s.streams[c].sent == [FrameOf(e), FrameOf(f)]
            && s.streams[c].phase.Live? && !s.streams[c].ended
    ensures !NeverEarly(steps, c) && !NeverHearsClosed(steps, c)
  {
    var first := [Open(c, e.executionId, 0), ReadPage(c)];
    var a, b := AppendAndDeliver(0, c, e), AppendAndDeliver(0, c, f);
    SubscribedAtOnce(c, e.executionId);
    RunKeepsInv(INIT, first);
    TwoBeforeHeartbeat(Run(INIT, first), c, e, f);
    RunConcat(INIT, first + a, b);
    RunConcat(INIT, first, a);
    HeartbeatLast(first + a + b, c);
    steps := first + a + b + [Heartbeat(c)];
    EveryStreamIsSound(steps, c);
    assert Terminal(Run(INIT, steps).streams[c].sent[0].kind);
  }

  // ── A gap ───────────────────────────────────────────────────────────────────────

  /** The three steps of one appender. */
  function AppendOnly(a: nat, e: EventLog.Event): seq<Step> {
    [Append(EventLog.Read(a, e.executionId, e.kind, e.payload)), Append(EventLog.Insert(a, e.id)),
     Append(EventLog.Publish(a))]
  }

  /** The same event, not delivered to the stream. */
  lemma StoredOnly(s: State, a: nat, c: nat, e: EventLog.Event)
    requires Inv(s) && a !in s.log.appenders
    requires c in s.streams && s.streams[c].executionId == e.executionId
    requires e.sequence == |EventLog.LogOf(s.log.rows, e.executionId)| + 1
    requires forall r :: r in s.log.rows ==> r.id != e.id
    ensures var t := Run(s, AppendOnly(a, e));
            && t.log.rows == s.log.rows + [e] && t.log.published == s.log.published + {e}
            && t.log.appenders == s.log.appenders && t.streams == s.streams
    ensures Heard(s, AppendOnly(a, e), c) == []
  {
    StoredAndDelivered(s, a, c, e);
    var most, last := AppendOnly(a, e), [Deliver(c, e)];
    assert AppendAndDeliver(a, c, e) == most + last && last[1..] == [];
    RunConcat(s, most, last);
    assert Run(Run(s, most), last) == Next(Run(s, most), Deliver(c, e));
    OnlyAppends(s, most, c);
  }

  lemma {:induction false} OnlyAppends(s: State, steps: seq<Step>, c: nat)
    requires forall k :: 0 <= k < |steps| ==> steps[k].Append?
    ensures Run(s, steps).streams == s.streams && Heard(s, steps, c) == []
    decreases |steps|
  {
    if steps != [] {
      OnlyAppends(Next(s, steps[0]), steps[1..], c);
    }
  }

  lemma {:induction false} HeardConcat(s: State, a: seq<Step>, b: seq<Step>, c: nat)
    ensures Heard(s, a + b, c) == Heard(s, a, c) + Heard(Run(s, a), b, c)
    decreases |a|
  {
    if a == [] {
      assert a + b == b;
    } else {
      assert (a + b)[1..] == a[1..] + b;
      HeardConcat(Next(s, a[0]), a[1..], b, c);
    }
  }

  lemma HeardDelivered(s: State, a: nat, c: nat, e: EventLog.Event)
    requires c in s.streams && !s.streams[c].ended && !s.streams[c].phase.Replaying?
    requires s.streams[c].executionId == e.executionId
    requires e in Run(s, AppendOnly(a, e)).log.published
    ensures Heard(s, AppendAndDeliver(a, c, e), c) == [e]
  {
    var most, last := AppendOnly(a, e), [Deliver(c, e)];
    assert AppendAndDeliver(a, c, e) == most + last;
    OnlyAppends(s, most, c);
    HeardConcat(s, most, last, c);
    assert last[1..] == [] && Heard(Next(Run(s, most), last[0]), last[1..], c) == [];
  }

  /** A stream that has just subscribed, after one event that it does not hear. */
  predicate OneUnheard(s: State, t: State, c: nat, e: EventLog.Event) {
    t.log.rows == [e] && t.log.published == {e} && t.log.appenders == map[] && t.streams == s.streams
  }

  lemma FirstUnheard(s: State, c: nat, e: EventLog.Event)
    requires Inv(s) && JustSubscribed(s, c, e.executionId) && e.sequence == 1
    ensures OneUnheard(s, Run(s, AppendOnly(0, e)), c, e) && Heard(s, AppendOnly(0, e), c) == []
  {
    StoredOnly(s, 0, c, e);
  }

  lemma SecondHeard(s: State, t: State, c: nat, e: EventLog.Event, f: EventLog.Event)
    requires Inv(t) && JustSubscribed(s, c, e.executionId) && OneUnheard(s, t, c, e)
    requires e.sequence == 1 && f.sequence == 2 && e.id != f.id && e.executionId == f.executionId
    ensures var u := Run(t, AppendAndDeliver(0, c, f));
            && u.log.rows == [e] + [f] && c in u.streams
            && u.streams[c].sent == [FrameOf(f)] && u.streams[c].after == 0 && u.streams[c].executionId == f.executionId
    ensures Heard(t, AppendAndDeliver(0, c, f), c) == [f]
  {
    EventLog.LogOfAppend([], e, e.executionId);
    assert [] + [e] == [e];
    StoredOnly(t, 0, c, f);
    HeardDelivered(t, 0, c, f);
    StoredAndDelivered(t, 0, c, f);
  }

  /** The log of two events of the same execution. */
  lemma LogOfTwo(e: EventLog.Event, f: EventLog.Event)
    requires e.executionId == f.executionId
    ensures EventLog.LogOf([e] + [f], e.executionId) == [e] + [f]
  {
    EventLog.LogOfAppend([], e, e.executionId);
    assert [] + [e] == [e];
    EventLog.LogOfAppend([e], f, e.executionId);
  }

  /** The promise to resume without gaps fails in runs of the system, and even over an ordered, lossless channel: for
      any two first events of an execution, the first is stored and published between the last page read and the
      subscribe, and the client receives the second alone. */
  lemma GapAfterReplay(c: nat, e: EventLog.Event, f: EventLog.Event) returns (steps: seq<Step>)
    requires e.sequence == 1 && f.sequence == 2 && e.id != f.id && e.executionId == f.executionId
    ensures var s := Run(INIT, steps);
            && s.log.rows == [e] + [f] && c in s.streams && s.streams[c].sent == [FrameOf(f)]
            && !GapFree(s.streams[c].sent, s.streams[c].after)
    ensures InOrder(steps, c, 2, 1, 2) && !NothingMissed(steps, c, 2, 1, 2)
    ensures !NeverSkips(steps, c)
  {
    var first := [Open(c, e.executionId, 0), ReadPage(c)];
    var a, b := AppendOnly(0, e), AppendAndDeliver(0, c, f);
    var s0 := Run(INIT, first);
    SubscribedAtOnce(c, e.executionId);
    RunKeepsInv(INIT, first);
    FirstUnheard(s0, c, e);
    RunKeepsInv(s0, a);
    SecondHeard(s0, Run(s0, a), c, e, f);
    steps := first + (a + b);
    RunConcat(INIT, first, a + b);
    RunConcat(s0, a, b);
    HeardConcat(s0, a, b, c);
    assert Run(INIT, steps).streams[c].sent[0].id == 2;
    SessionGapFreeIff(steps, c);
    GapIsInOrder(steps, first, a + b, c, e, f);
  }

  lemma GapIsInOrder(steps: seq<Step>, first: seq<Step>, rest: seq<Step>, c: nat, e: EventLog.Event, f: EventLog.Event)
    requires first == [Open(c, e.executionId, 0), ReadPage(c)] && steps == first + rest
    requires e.executionId == f.executionId && JustSubscribed(Run(INIT, first), c, e.executionId)
    requires var s := Run(INIT, steps);
             s.log.rows == [e] + [f] && c in s.streams && s.streams[c].executionId == e.executionId
    requires Heard(Run(INIT, first), rest, c) == [f]
    ensures InOrder(steps, c, 2, 1, 2) && !NothingMissed(steps, c, 2, 1, 2)
  {
    assert steps[..2] == first && steps[2..] == rest && steps[..1] == [Open(c, e.executionId, 0)];
    assert steps[..1][1..] == [];
    assert Run(INIT, steps[..1]) == Run(Next(INIT, Open(c, e.executionId, 0)), []);
    LogOfTwo(e, f);
    assert ([e] + [f])[1..2] == [f];
  }

  lemma RunTwo(s: State, a: Step, b: Step)
    ensures Run(s, [a, b]) == Next(Next(s, a), b)
  {
    assert [a, b][1..] == [b] && [b][1..] == [];
    assert Run(s, [a, b]) == Run(Next(s, a), [b]);
  }

  // ── Chains of sessions ──────────────────────────────────────────────────────────

  function SessionOf(t: Stream): Session {
    Session(t.after, t.sent)
  }

  /** Streams of one execution, in the order in which one client was connected to them. */
  predicate AreStreams(s: State, x: Uuid, cs: seq<nat>) {
    forall i :: 0 <= i < |cs| ==> cs[i] in s.streams && s.streams[cs[i]].executionId == x
  }

  function SessionsOf(s: State, x: Uuid, cs: seq<nat>): seq<Session>
    requires AreStreams(s, x, cs)
  {
    seq(|cs|, i requires 0 <= i < |cs| => SessionOf(s.streams[cs[i]]))
  }

  /** Each stream resumes from the last id received on the one before. */
  predicate IsChain(s: State, x: Uuid, cs: seq<nat>) {
    cs != [] && AreStreams(s, x, cs) && Chained(SessionsOf(s, x, cs))
  }

  /** The frames are the events behind `after`, without a gap, as the log has them. */
  predicate IsStretch(fs: seq<Frame>, after: nat, log: seq<EventLog.Event>) {
    fs == [] || (after + |fs| <= |log| && fs == Frames(log, after, after + |fs|))
  }

  lemma {:induction false} DeliveryIsGenuine(sessions: seq<Session>, log: seq<EventLog.Event>)
    requires forall i :: 0 <= i < |sessions| ==> Genuine(sessions[i].sent, log)
    ensures Genuine(Delivery(sessions), log)
    decreases |sessions|
  {
    if sessions != [] {
      DeliveryIsGenuine(sessions[..|sessions| - 1], log);
    }
  }

  lemma StretchIffGapFree(fs: seq<Frame>, after: nat, log: seq<EventLog.Event>)
    requires EventLog.Dense(log) && Genuine(fs, log)
    ensures IsStretch(fs, after, log) <==> GapFree(fs, after)
  {
    if IsStretch(fs, after, log) && fs != [] {
      forall i | 0 <= i < |fs| ensures fs[i].id == after + i + 1 {
        assert fs[i] == FrameOf(log[after + i]);
      }
    }
    if GapFree(fs, after) && fs != [] {
      assert fs[0].id == after + 1;
      GapFreeIsStretch(fs, after, log);
    }
  }

  lemma SessionsAreSound(s: State, x: Uuid, cs: seq<nat>)
    requires Inv(s) && AreStreams(s, x, cs)
    ensures AllIncreasing(SessionsOf(s, x, cs))
    ensures forall i :: 0 <= i < |cs| ==> Genuine(SessionsOf(s, x, cs)[i].sent, EventLog.LogOf(s.log.rows, x))
  {
    forall i | 0 <= i < |cs|
      ensures StreamInv(s.streams[cs[i]], EventLog.LogOf(s.log.rows, x))
    {
    }
  }

  /** Over every run of the system and any chain of its streams, each resumed from the last id received:
      nothing is delivered twice, every frame of the whole delivery is the stored event with its number, and
      the delivery is a gap-free stretch of the log exactly if every session is free of gaps. */
  lemma ChainDelivers(steps: seq<Step>, x: Uuid, cs: seq<nat>)
    requires IsChain(Run(INIT, steps), x, cs)
    ensures var s := Run(INIT, steps);
            var sessions, log := SessionsOf(s, x, cs), EventLog.LogOf(s.log.rows, x);
            var after := sessions[0].after;
            && StrictlyIncreasing(Delivery(sessions), after)
            && Genuine(Delivery(sessions), log)
            && (IsStretch(Delivery(sessions), after, log) <==> AllGapFree(sessions))
  {
    RunKeepsInv(INIT, steps);
    var s := Run(INIT, steps);
    var sessions, log := SessionsOf(s, x, cs), EventLog.LogOf(s.log.rows, x);
    SessionsAreSound(s, x, cs);
    NothingTwice(sessions);
    DeliveryIsGenuine(sessions, log);
    GapFreeChainIff(sessions);
    assert EventLog.Dense(log);
    StretchIffGapFree(Delivery(sessions), sessions[0].after, log);
  }

  /** Reconnecting composes: over every run of the system, with a channel that loses, repeats and reorders, and
      any chain of its streams, what the client receives is a gap-free stretch of the log if and only if no stream
      of the chain hears, while it is open, a message further ahead than the next one. */
  lemma ChainIsStretchIff(steps: seq<Step>, x: Uuid, cs: seq<nat>)
    requires IsChain(Run(INIT, steps), x, cs)
    ensures var s := Run(INIT, steps);
            var sessions := SessionsOf(s, x, cs);
            IsStretch(Delivery(sessions), sessions[0].after, EventLog.LogOf(s.log.rows, x)) <==>
            forall i :: 0 <= i < |cs| ==> NeverSkips(steps, cs[i])
  {
    ChainDelivers(steps, x, cs);
    var sessions := SessionsOf(Run(INIT, steps), x, cs);
    forall i | 0 <= i < |cs| ensures GapFree(sessions[i].sent, sessions[i].after) <==> NeverSkips(steps, cs[i]) {
      SessionGapFreeIff(steps, cs[i]);
    }
  }
}

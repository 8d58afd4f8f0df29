/** Appenders, a lossy and reordering channel, and any number of streams, interleaved step by
    step; then chains of sessions that each resume from the last id received. */
module StreamSystem {
  import opened Wrappers
  import opened EventLog
  import opened EventPages
  import opened EventStream

  datatype State = System(log: EventLog.State, streams: map<nat, Stream>)

  /** `Deliver` hands any published event of the right channel to a stream: messages may be
      lost, repeated and reordered at will. */
  datatype Step =
    | Append(step: EventLog.Step)
    | Open(c: nat, executionId: Uuid, lastEventId: nat)
    | ReadPage(c: nat)
    | Deliver(c: nat, event: Event)
    | Heartbeat(c: nat)
    | Close(c: nat)

  const INIT := System(EventLog.INIT, map[])

  function Next(s: State, step: Step): State {
    match step
    case Append(a) => s.(log := EventLog.Next(s.log, a))
    case Open(c, x, after) =>
      if c in s.streams then s else s.(streams := s.streams[c := Connect(x, after)])
    case ReadPage(c) =>
      if c !in s.streams then s
      else s.(streams := s.streams[c := ReplayPage(s.streams[c], LogOf(s.log.rows, s.streams[c].executionId))])
    case Deliver(c, e) =>
      if c in s.streams && e in s.log.published && e.executionId == s.streams[c].executionId
      then s.(streams := s.streams[c := Receive(s.streams[c], e)])
      else s
    case Heartbeat(c) =>
      if c in s.streams then s.(streams := s.streams[c := StartHeartbeat(s.streams[c])]) else s
    case Close(c) =>
      if c in s.streams then s.(streams := s.streams[c := Drop(s.streams[c])]) else s
  }

  function Run(s: State, steps: seq<Step>): State
    decreases |steps|
  {
    if steps == [] then s else Run(Next(s, steps[0]), steps[1..])
  }

  function LogFor(s: State, t: Stream): seq<Event> {
    LogOf(s.log.rows, t.executionId)
  }

  ghost predicate Inv(s: State) {
    && EventLog.Inv(s.log)
    && forall c :: c in s.streams ==> StreamInv(s.streams[c], LogFor(s, s.streams[c]))
  }

  lemma SendItemsKeepsExecution(t: Stream, items: seq<Event>)
    ensures SendItems(t, items).executionId == t.executionId
    decreases |items|
  {
  }

  lemma StreamStepKeepsInv(s: State, c: nat, u: Stream)
    requires Inv(s) && c in s.streams
    requires u.executionId == s.streams[c].executionId && StreamInv(u, LogFor(s, u))
    ensures Inv(s.(streams := s.streams[c := u]))
  {
    var t := s.(streams := s.streams[c := u]);
    forall d | d in t.streams ensures StreamInv(t.streams[d], LogFor(t, t.streams[d])) {
    }
  }

  lemma StepKeepsInv(s: State, step: Step)
    requires Inv(s)
    ensures Inv(Next(s, step))
  {
    match step
    case Append(a) =>
      EventLog.StepKeepsInv(s.log, a);
      var t := Next(s, step);
      forall c | c in t.streams ensures StreamInv(t.streams[c], LogFor(t, t.streams[c])) {
        var u := s.streams[c];
        LogOfPrefix(s.log.rows, t.log.rows, u.executionId);
        InvGrows(u, LogFor(s, u), LogFor(t, u));
      }
    case Open(c, x, after) =>
    case ReadPage(c) =>
      if c in s.streams {
        var u := s.streams[c];
        var log := LogFor(s, u);
        LogOfUniqueIds(s.log.rows, u.executionId);
        assert Dense(log);
        PageKeepsInv(u, log);
        SendItemsKeepsExecution(u, GetEvents(log, PAGE_SIZE, u.cursor, u.after).items);
        StreamStepKeepsInv(s, c, ReplayPage(u, log));
      }
    case Deliver(c, e) =>
      if c in s.streams && e in s.log.published && e.executionId == s.streams[c].executionId {
        var u := s.streams[c];
        LogOfMember(s.log.rows, u.executionId, e);
        assert Dense(LogFor(s, u));
        ReceiveKeepsInv(u, e, LogFor(s, u));
        StreamStepKeepsInv(s, c, Receive(u, e));
      }
    case Heartbeat(c) =>
      if c in s.streams {
        StreamStepKeepsInv(s, c, StartHeartbeat(s.streams[c]));
      }
    case Close(c) =>
      if c in s.streams {
        StreamStepKeepsInv(s, c, Drop(s.streams[c]));
      }
  }

  lemma {:induction false} RunKeepsInv(s: State, steps: seq<Step>)
    requires Inv(s)
    ensures Inv(Run(s, steps))
    decreases |steps|
  {
    if steps != [] {
      StepKeepsInv(s, steps[0]);
      RunKeepsInv(Next(s, steps[0]), steps[1..]);
    }
  }

  /** Frame `f` is the stored event of execution `x` with that sequence number. */
  ghost predicate IsStored(f: Frame, x: Uuid, rows: seq<Event>) {
    exists r :: r in rows && r.executionId == x && f == Frame(r.sequence, r.kind, r.payload)
  }

  // ── Reconnection ────────────────────────────────────────────────────────────────

  /** One session of a client: where it resumed, and the event frames it received. */
  datatype Session = Session(after: nat, sent: seq<Frame>)

  /** The id the client holds at the end; the greeting frame carries `after` itself. */
  function LastReceived(s: Session): nat {
    if s.sent == [] then s.after else s.sent[|s.sent| - 1].id
  }

  predicate Chained(sessions: seq<Session>) {
    forall i :: 0 < i < |sessions| ==> sessions[i].after == LastReceived(sessions[i - 1])
  }

  predicate AllIncreasing(sessions: seq<Session>) {
    forall i :: 0 <= i < |sessions| ==> StrictlyIncreasing(sessions[i].sent, sessions[i].after)
  }

  function Delivery(sessions: seq<Session>): seq<Frame> {
    if sessions == [] then [] else Delivery(sessions[..|sessions| - 1]) + sessions[|sessions| - 1].sent
  }

  lemma {:induction false} DeliveryEndsAt(sessions: seq<Session>)
    requires sessions != [] && Chained(sessions) && AllIncreasing(sessions)
    ensures var d := Delivery(sessions);
            LastReceived(sessions[|sessions| - 1]) == LastReceived(Session(sessions[0].after, d))
  {
    var front, last := sessions[..|sessions| - 1], sessions[|sessions| - 1];
    if front != [] {
      DeliveryEndsAt(front);
      assert Delivery(sessions) == Delivery(front) + last.sent;
    }
  }

  lemma IncreasingConcat(a: seq<Frame>, b: seq<Frame>, after: nat)
    requires StrictlyIncreasing(a, after) && StrictlyIncreasing(b, LastReceived(Session(after, a)))
    ensures StrictlyIncreasing(a + b, after)
  {
  }

  /** Over any chain of sessions, each resumed from the last id received and whatever was lost
      in between, no event is delivered twice: the ids of the whole delivery increase strictly. */
  lemma {:induction false} NothingTwice(sessions: seq<Session>)
    requires sessions != [] && Chained(sessions) && AllIncreasing(sessions)
    ensures StrictlyIncreasing(Delivery(sessions), sessions[0].after)
  {
    var front, last := sessions[..|sessions| - 1], sessions[|sessions| - 1];
    if front != [] {
      NothingTwice(front);
      DeliveryEndsAt(front);
      IncreasingConcat(Delivery(front), last.sent, sessions[0].after);
    } else {
      assert Delivery(sessions) == last.sent;
    }
  }

  lemma GapFreeConcatIff(a: seq<Frame>, b: seq<Frame>, after: nat)
    ensures GapFree(a + b, after) <==> GapFree(a, after) && GapFree(b, after + |a|)
  {
    assert forall i :: 0 <= i < |a| ==> (a + b)[i] == a[i];
    assert forall i :: 0 <= i < |b| ==> b[i] == (a + b)[|a| + i];
  }

  predicate AllGapFree(sessions: seq<Session>) {
    forall i :: 0 <= i < |sessions| ==> GapFree(sessions[i].sent, sessions[i].after)
  }

  lemma AllGapFreeSnoc(sessions: seq<Session>)
    requires sessions != []
    ensures var front, last := sessions[..|sessions| - 1], sessions[|sessions| - 1];
            AllGapFree(sessions) <==> AllGapFree(front) && GapFree(last.sent, last.after)
  {
    var front := sessions[..|sessions| - 1];
    assert forall i :: 0 <= i < |front| ==> sessions[i] == front[i];
  }

  lemma GapFreeEnd(d: seq<Frame>, after: nat)
    requires GapFree(d, after)
    ensures LastReceived(Session(after, d)) == after + |d|
  {
  }

  /** The whole delivery is a gap-free stretch of the log exactly if every session of the
      chain is: gaps neither arise nor disappear at a reconnect. */
  lemma {:induction false} GapFreeChainIff(sessions: seq<Session>)
    requires sessions != [] && Chained(sessions) && AllIncreasing(sessions)
    ensures GapFree(Delivery(sessions), sessions[0].after) <==> AllGapFree(sessions)
    decreases |sessions|
  {
    var front, last := sessions[..|sessions| - 1], sessions[|sessions| - 1];
    AllGapFreeSnoc(sessions);
    if front == [] {
      assert Delivery(sessions) == last.sent;
    } else {
      var d, after := Delivery(front), sessions[0].after;
      GapFreeChainIff(front);
      DeliveryEndsAt(front);
      GapFreeConcatIff(d, last.sent, after);
      if GapFree(d, after) {
        GapFreeEnd(d, after);
      }
    }
  }

  /** A gap-free delivery of genuine frames is a stretch of the log itself. */
  lemma GapFreeIsStretch(fs: seq<Frame>, after: nat, log: seq<Event>)
    requires Genuine(fs, log) && GapFree(fs, after) && after <= |log|
    ensures after + |fs| <= |log|
    ensures fs == Frames(log, after, after + |fs|)
  {
    if fs != [] {
      assert fs[|fs| - 1].id == after + |fs|;
    }
    forall i | 0 <= i < |fs| ensures fs[i] == FrameOf(log[after + i]) {
      assert fs[i].id == after + i + 1;
    }
  }
}

/** What holds of a stream along the whole history of the system: it is sound; it ends as promised, and it has no
    gap, exactly if certain steps do not occur. */
module StreamHistories {
  import opened EventStream
  import opened StreamSystem
  import EventLog
  import EventPages

  lemma {:induction false} RunConcat(s: State, a: seq<Step>, b: seq<Step>)
    ensures Run(s, a + b) == Run(Run(s, a), b)
    decreases |a|
  {
    if a == [] {
      assert a + b == b;
    } else {
      assert (a + b)[1..] == a[1..] + b;
      RunConcat(Next(s, a[0]), a[1..], b);
    }
  }

  /** The state after the first `k` steps. */
  function StateAt(steps: seq<Step>, k: nat): State
    requires k <= |steps|
  {
    Run(INIT, steps[..k])
  }

  lemma RunLast(steps: seq<Step>)
    requires steps != []
    ensures Run(INIT, steps) == Next(Run(INIT, steps[..|steps| - 1]), steps[|steps| - 1])
  {
    var front, last := steps[..|steps| - 1], [steps[|steps| - 1]];
    assert steps == front + last && last[1..] == [];
    RunConcat(INIT, front, last);
    assert Run(Run(INIT, front), last) == Run(Next(Run(INIT, front), last[0]), []);
  }

  lemma StateAtNext(steps: seq<Step>, k: nat)
    requires k < |steps|
    ensures StateAt(steps, k + 1) == Next(StateAt(steps, k), steps[k])
    ensures Inv(StateAt(steps, k))
  {
    assert steps[..k + 1][..k] == steps[..k];
    RunLast(steps[..k + 1]);
    RunKeepsInv(INIT, steps[..k]);
  }

  // ── One step of one stream ──────────────────────────────────────────────────────

  /** The step brings a published message of its execution to stream `c`, which has subscribed and is open. */
  predicate Hears(s: State, step: Step, c: nat) {
    && step.Deliver? && step.c == c && c in s.streams && !s.streams[c].ended && !s.streams[c].phase.Replaying?
    && step.event in s.log.published && step.event.executionId == s.streams[c].executionId
  }

  lemma SendItemsKeepsRest(t: Stream, items: seq<EventLog.Event>)
    ensures var u := SendItems(t, items);
            u.after == t.after && u.phase == t.phase && u.early == t.early && u.closed == t.closed && t.sent <= u.sent
    decreases |items|
  {
  }

  lemma PageExtends(t: Stream, log: seq<EventLog.Event>)
    ensures var u := ReplayPage(t, log);
            && u.after == t.after && u.early == t.early && u.closed == t.closed && t.sent <= u.sent
            && u.executionId == t.executionId
    ensures t.phase.Replaying? && ReplayPage(t, log).ended ==> ReplayPage(t, log).phase.Replaying?
  {
    SendItemsKeepsRest(t, EventPages.GetEvents(log, PAGE_SIZE, t.cursor, t.after).items);
    SendItemsKeepsExecution(t, EventPages.GetEvents(log, PAGE_SIZE, t.cursor, t.after).items);
  }

  lemma StreamExtends(s: State, step: Step, c: nat)
    requires c in s.streams
    ensures var t := Next(s, step).streams;
            && c in t && t[c].after == s.streams[c].after && t[c].executionId == s.streams[c].executionId
            && s.streams[c].sent <= t[c].sent && (s.streams[c].ended ==> t[c].ended)
  {
    if step.ReadPage? && step.c == c {
      PageExtends(s.streams[c], LogFor(s, s.streams[c]));
    }
  }

  // ── How a stream ends ───────────────────────────────────────────────────────────

  /** The branch that breaks the promise: a newer terminal message is heard while the handler is attached and the
      heartbeat timer does not exist yet, and cleanup has not run. */
  predicate EarlyTerminal(s: State, step: Step, c: nat) {
    && Hears(s, step, c) && Terminal(step.event.kind) && step.event.sequence > s.streams[c].highWaterMark
    && s.streams[c].phase.Subscribing? && !s.streams[c].closed
  }

  predicate NeverEarly(steps: seq<Step>, c: nat) {
    forall k :: 0 <= k < |steps| ==> !EarlyTerminal(StateAt(steps, k), steps[k], c)
  }

  /** At the moment `k`: a terminal frame is the last, and the response has ended. */
  predicate EndsAt(steps: seq<Step>, c: nat, k: nat)
    requires k <= |steps|
  {
    c in StateAt(steps, k).streams ==> TerminalEnds(StateAt(steps, k).streams[c])
  }

  predicate AlwaysEnds(steps: seq<Step>, c: nat) {
    forall k :: 0 <= k <= |steps| ==> EndsAt(steps, c, k)
  }

  predicate NotEarly(s: State, c: nat) {
    c in s.streams ==> !s.streams[c].early
  }

  lemma EarlyStep(s: State, step: Step, c: nat)
    requires NotEarly(s, c)
    ensures NotEarly(Next(s, step), c) <==> !EarlyTerminal(s, step, c)
    ensures EarlyTerminal(s, step, c) ==> !TerminalEnds(Next(s, step).streams[c])
  {
    if step.ReadPage? && step.c == c && c in s.streams {
      PageExtends(s.streams[c], LogFor(s, s.streams[c]));
    }
    if EarlyTerminal(s, step, c) {
      var t := Next(s, step).streams[c];
      assert t.sent[|t.sent| - 1] == FrameOf(step.event);
    }
  }

  lemma {:induction false} NotEarlyUpTo(steps: seq<Step>, c: nat, k: nat)
    requires k <= |steps| && forall j :: 0 <= j < k ==> !EarlyTerminal(StateAt(steps, j), steps[j], c)
    ensures NotEarly(StateAt(steps, k), c) && EndsAt(steps, c, k)
    decreases k
  {
    if k > 0 {
      NotEarlyUpTo(steps, c, k - 1);
      StateAtNext(steps, k - 1);
      EarlyStep(StateAt(steps, k - 1), steps[k - 1], c);
      StepKeepsInv(StateAt(steps, k - 1), steps[k - 1]);
    }
  }

  lemma FirstEarly(steps: seq<Step>, c: nat, k: nat) returns (j: nat)
    requires k < |steps| && EarlyTerminal(StateAt(steps, k), steps[k], c)
    ensures j <= k && EarlyTerminal(StateAt(steps, j), steps[j], c)
    ensures forall i :: 0 <= i < j ==> !EarlyTerminal(StateAt(steps, i), steps[i], c)
  {
    j := 0;
    while !EarlyTerminal(StateAt(steps, j), steps[j], c)
      invariant j <= k && forall i :: 0 <= i < j ==> !EarlyTerminal(StateAt(steps, i), steps[i], c)
      decreases k - j
    {
      j := j + 1;
    }
  }

  /** Over every history: at every moment a terminal frame of stream `c` is its last and has ended the response, if
      and only if no newer terminal message is heard before the heartbeat timer exists. */
  lemma EndsOnTerminalIff(steps: seq<Step>, c: nat)
    ensures AlwaysEnds(steps, c) <==> NeverEarly(steps, c)
  {
    if NeverEarly(steps, c) {
      forall k | 0 <= k <= |steps| ensures EndsAt(steps, c, k) {
        NotEarlyUpTo(steps, c, k);
      }
    } else {
      var k :| 0 <= k < |steps| && EarlyTerminal(StateAt(steps, k), steps[k], c);
      var j := FirstEarly(steps, c, k);
      NotEarlyUpTo(steps, c, j);
      StateAtNext(steps, j);
      EarlyStep(StateAt(steps, j), steps[j], c);
      assert !EndsAt(steps, c, j + 1);
    }
  }

  /** The steps that end an open stream: the client or the subscriber goes away, a page brings a terminal event, or
      a newer terminal message is heard and cleanup does not throw. */
  predicate Ending(s: State, step: Step, c: nat)
    requires c in s.streams
  {
    var t := s.streams[c];
    || step == Close(c)
    || (step == ReadPage(c) && t.phase.Replaying? && exists e ::
          e in EventPages.GetEvents(LogFor(s, t), PAGE_SIZE, t.cursor, t.after).items && Terminal(e.kind))
    || (Hears(s, step, c) && Terminal(step.event.kind) && step.event.sequence > t.highWaterMark
        && !EarlyTerminal(s, step, c))
  }

  lemma {:induction false} SendItemsEnds(t: Stream, items: seq<EventLog.Event>)
    requires !t.ended
    ensures SendItems(t, items).ended <==> exists e :: e in items && Terminal(e.kind)
    decreases |items|
  {
    if items != [] {
      var u := SendReplayed(t, items[0]);
      assert items == [items[0]] + items[1..];
      if !u.ended {
        SendItemsEnds(u, items[1..]);
      } else {
        assert items[0] in items && Terminal(items[0].kind);
      }
    }
  }

  lemma EndsNowIff(s: State, step: Step, c: nat)
    requires c in s.streams && !s.streams[c].ended
    ensures c in Next(s, step).streams
    ensures Next(s, step).streams[c].ended <==> Ending(s, step, c)
  {
    if step == ReadPage(c) {
      var t := s.streams[c];
      SendItemsEnds(t, EventPages.GetEvents(LogFor(s, t), PAGE_SIZE, t.cursor, t.after).items);
    }
  }

  predicate EndingAt(steps: seq<Step>, c: nat, k: nat)
    requires k < |steps|
  {
    c in StateAt(steps, k).streams && Ending(StateAt(steps, k), steps[k], c)
  }

  /** Over every history: a stream has ended if and only if one of its steps was one that ends it. */
  lemma {:induction false} EndedIff(steps: seq<Step>, c: nat, n: nat)
    requires n <= |steps|
    ensures c in StateAt(steps, n).streams && StateAt(steps, n).streams[c].ended <==>
            exists k :: 0 <= k < n && EndingAt(steps, c, k)
    decreases n
  {
    if n > 0 {
      var s := StateAt(steps, n - 1);
      EndedIff(steps, c, n - 1);
      StateAtNext(steps, n - 1);
      if c in s.streams {
        StreamExtends(s, steps[n - 1], c);
        if !s.streams[c].ended {
          EndsNowIff(s, steps[n - 1], c);
          assert EndingAt(steps, c, n - 1) <==> StateAt(steps, n).streams[c].ended;
        }
      }
    }
  }

  /** No frame stands behind a terminal one. */
  predicate NothingBehind(fs: seq<Frame>) {
    forall i :: 0 <= i < |fs| - 1 ==> !Terminal(fs[i].kind)
  }

  /** The branch that puts a frame behind a terminal one: a newer message is heard although cleanup has run. */
  predicate HearsClosed(s: State, step: Step, c: nat) {
    Hears(s, step, c) && s.streams[c].closed && step.event.sequence > s.streams[c].highWaterMark
  }

  predicate NeverHearsClosed(steps: seq<Step>, c: nat) {
    forall k :: 0 <= k < |steps| ==> !HearsClosed(StateAt(steps, k), steps[k], c)
  }

  lemma BehindStays(fs: seq<Frame>, more: seq<Frame>)
    requires fs <= more && !NothingBehind(fs)
    ensures !NothingBehind(more)
  {
    var i :| 0 <= i < |fs| - 1 && Terminal(fs[i].kind);
    assert more[i] == fs[i];
  }

  lemma EndedIsNothingBehind(t: Stream)
    requires TerminalEnds(t)
    ensures NothingBehind(t.sent)
  {
  }

  /** While a stream is open, cleanup has run exactly if a terminal frame was sent. */
  lemma ClosedIffTerminal(t: Stream)
    requires EndingRules(t) && !t.ended
    ensures t.closed <==> HasTerminal(t.sent)
  {
  }

  lemma BehindReceive(t: Stream, e: EventLog.Event)
    requires EndingRules(t) && NothingBehind(t.sent) && !t.ended && !t.phase.Replaying?
    ensures NothingBehind(Receive(t, e).sent) <==> !(t.closed && e.sequence > t.highWaterMark)
  {
    ClosedIffTerminal(t);
    var u := Receive(t, e);
    if e.sequence > t.highWaterMark {
      assert u.sent == t.sent + [FrameOf(e)];
      if HasTerminal(t.sent) {
        var i :| 0 <= i < |t.sent| && Terminal(t.sent[i].kind);
        assert u.sent[i] == t.sent[i];
      }
      assert forall i :: 0 <= i < |t.sent| ==> u.sent[i] == t.sent[i];
    }
  }

  lemma BehindStep(s: State, step: Step, c: nat)
    requires Inv(s) && c in s.streams && NothingBehind(s.streams[c].sent)
    ensures c in Next(s, step).streams
    ensures NothingBehind(Next(s, step).streams[c].sent) <==> !HearsClosed(s, step, c)
  {
    var t := s.streams[c];
    assert StreamInv(t, LogFor(s, t));
    if Hears(s, step, c) {
      BehindReceive(t, step.event);
    } else if step.ReadPage? && step.c == c && t.phase.Replaying? && !t.ended {
      StepKeepsInv(s, step);
      PageExtends(t, LogFor(s, t));
      var u := Next(s, step).streams[c];
      assert StreamInv(u, LogFor(Next(s, step), u)) && !u.early;
      EndedIsNothingBehind(u);
    }
  }

  lemma NeverHearsClosedLast(steps: seq<Step>, c: nat)
    requires steps != []
    ensures var front := steps[..|steps| - 1];
            NeverHearsClosed(steps, c) <==>
            NeverHearsClosed(front, c) && !HearsClosed(Run(INIT, front), steps[|steps| - 1], c)
  {
    var n := |steps| - 1;
    forall k | 0 <= k < n ensures StateAt(steps[..n], k) == StateAt(steps, k) {
      assert steps[..n][..k] == steps[..k];
    }
  }

  lemma {:induction false} BehindHistory(steps: seq<Step>, c: nat)
    ensures c !in Run(INIT, steps).streams ==> NeverHearsClosed(steps, c)
    ensures c in Run(INIT, steps).streams ==>
              (NothingBehind(Run(INIT, steps).streams[c].sent) <==> NeverHearsClosed(steps, c))
    decreases |steps|
  {
    if steps != [] {
      var front, last := steps[..|steps| - 1], steps[|steps| - 1];
      var s := Run(INIT, front);
      BehindHistory(front, c);
      RunLast(steps);
      RunKeepsInv(INIT, front);
      NeverHearsClosedLast(steps, c);
      if c in s.streams {
        StreamExtends(s, last, c);
        if NothingBehind(s.streams[c].sent) {
          BehindStep(s, last, c);
        } else {
          BehindStays(s.streams[c].sent, Next(s, last).streams[c].sent);
        }
      }
    }
  }

  // ── Gaps ────────────────────────────────────────────────────────────────────────

  /** The branch that leaves a gap: a message is heard that is further ahead than the next one. */
  predicate SkipsAhead(s: State, step: Step, c: nat) {
    Hears(s, step, c) && step.event.sequence > s.streams[c].highWaterMark + 1
  }

  predicate NeverSkips(steps: seq<Step>, c: nat) {
    forall k :: 0 <= k < |steps| ==> !SkipsAhead(StateAt(steps, k), steps[k], c)
  }

  lemma PageIsOnTrack(t: Stream, log: seq<EventLog.Event>)
    requires EventLog.Dense(log) && EventLog.UniqueIds(log) && StreamInv(t, log) && OnTrack(t)
    ensures OnTrack(ReplayPage(t, log))
  {
    if t.phase.Replaying? && !t.ended {
      PageStep(t, log);
      var u := ReplayPage(t, log);
      if u.ended || !u.phase.Replaying? {
        ReplayIsGapFree(u, log);
      } else {
        forall i | 0 <= i < |u.sent| ensures u.sent[i].id == u.after + i + 1 {
          assert u.sent[i] == FrameOf(log[u.after + i]);
        }
      }
    }
  }

  lemma GapStep(s: State, step: Step, c: nat)
    requires Inv(s) && c in s.streams && OnTrack(s.streams[c])
    ensures var t := Next(s, step).streams;
            && c in t && (GapFree(t[c].sent, t[c].after) <==> !SkipsAhead(s, step, c))
            && (!SkipsAhead(s, step, c) ==> OnTrack(t[c]))
  {
    var t := s.streams[c];
    if Hears(s, step, c) {
      ReceiveNext(t, step.event);
    } else if step.ReadPage? && step.c == c {
      GapPage(s, c);
    }
  }

  lemma GapPage(s: State, c: nat)
    requires Inv(s) && c in s.streams && OnTrack(s.streams[c])
    ensures c in Next(s, ReadPage(c)).streams && OnTrack(Next(s, ReadPage(c)).streams[c])
  {
    var t := s.streams[c];
    EventLog.LogOfUniqueIds(s.log.rows, t.executionId);
    assert EventLog.Dense(LogFor(s, t));
    PageIsOnTrack(t, LogFor(s, t));
  }

  lemma NeverSkipsLast(steps: seq<Step>, c: nat)
    requires steps != []
    ensures var front := steps[..|steps| - 1];
            NeverSkips(steps, c) <==> NeverSkips(front, c) && !SkipsAhead(Run(INIT, front), steps[|steps| - 1], c)
  {
    var n := |steps| - 1;
    forall k | 0 <= k < n ensures StateAt(steps[..n], k) == StateAt(steps, k) {
      assert steps[..n][..k] == steps[..k];
    }
  }

  lemma {:induction false} GapHistory(steps: seq<Step>, c: nat)
    ensures c !in Run(INIT, steps).streams ==> NeverSkips(steps, c)
    ensures c in Run(INIT, steps).streams ==>
              var t := Run(INIT, steps).streams[c];
              (NeverSkips(steps, c) ==> OnTrack(t)) && (GapFree(t.sent, t.after) ==> NeverSkips(steps, c))
    decreases |steps|
  {
    if steps != [] {
      var front, last := steps[..|steps| - 1], steps[|steps| - 1];
      var s := Run(INIT, front);
      GapHistory(front, c);
      RunLast(steps);
      RunKeepsInv(INIT, front);
      NeverSkipsLast(steps, c);
      if c in s.streams {
        StreamExtends(s, last, c);
        if NeverSkips(front, c) {
          GapStep(s, last, c);
        } else {
          GapStays(s.streams[c].sent, Next(s, last).streams[c].sent, s.streams[c].after);
        }
      }
    }
  }

  /** Over every history, whatever the channel loses, repeats or reorders: what stream `c` delivers has no gap if and
      only if no message that it hears while it is open is further ahead than the next one. */
  lemma SessionGapFreeIff(steps: seq<Step>, c: nat)
    requires c in Run(INIT, steps).streams
    ensures var t := Run(INIT, steps).streams[c];
            GapFree(t.sent, t.after) <==> NeverSkips(steps, c)
  {
    GapHistory(steps, c);
  }

  /** A session that ends in replay, at its terminal event or because the client or the connection went away,
      has no gap. */
  lemma {:induction false} ReplaySessionIsGapFree(steps: seq<Step>, c: nat)
    requires c in Run(INIT, steps).streams && Run(INIT, steps).streams[c].phase.Replaying?
    ensures GapFree(Run(INIT, steps).streams[c].sent, Run(INIT, steps).streams[c].after)
    decreases |steps|
  {
    if steps != [] {
      var front, last := steps[..|steps| - 1], steps[|steps| - 1];
      RunLast(steps);
      if c in Run(INIT, front).streams {
        RunKeepsInv(INIT, front);
        ReplaySessionIsGapFree(front, c);
        GapStep(Run(INIT, front), last, c);
      }
    }
  }

  // ── All of it ───────────────────────────────────────────────────────────────────

  /** Under every interleaving, loss, repetition and reordering, on every stream: delivered ids increase strictly and
      lie above `Last-Event-ID`; every frame is the persisted event with that sequence; and nothing stands behind a
      terminal frame, if and only if no newer message is heard after cleanup has run. */
  lemma EveryStreamIsSound(steps: seq<Step>, c: nat)
    requires c in Run(INIT, steps).streams
    ensures var s := Run(INIT, steps);
            var t := s.streams[c];
            && StrictlyIncreasing(t.sent, t.after)
            && (forall i :: 0 <= i < |t.sent| ==> IsStored(t.sent[i], t.executionId, s.log.rows))
            && (NothingBehind(t.sent) <==> NeverHearsClosed(steps, c))
            && (NeverEarly(steps, c) ==> TerminalEnds(t) && NothingBehind(t.sent))
  {
    RunKeepsInv(INIT, steps);
    var s := Run(INIT, steps);
    var t := s.streams[c];
    var log := LogFor(s, t);
    forall i | 0 <= i < |t.sent| ensures IsStored(t.sent[i], t.executionId, s.log.rows) {
      var e := log[t.sent[i].id - 1];
      EventLog.LogOfMember(s.log.rows, t.executionId, e);
      assert e in s.log.rows && e.executionId == t.executionId && t.sent[i] == Frame(e.sequence, e.kind, e.payload);
    }
    BehindHistory(steps, c);
    if NeverEarly(steps, c) {
      EndsOnTerminalIff(steps, c);
      assert steps[..|steps|] == steps;
      assert EndsAt(steps, c, |steps|);
      EndedIsNothingBehind(t);
    }
  }
}

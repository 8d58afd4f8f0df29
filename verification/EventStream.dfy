/** One server-sent event stream: replay of the stored log page by page, then live messages
    behind a high-water mark. */
module EventStream {
  import opened Wrappers
  import opened EventLog
  import opened EventPages

  const PAGE_SIZE: nat := 100

  datatype Frame = Frame(id: nat, kind: Kind, payload: string)

  /** `Subscribing` lasts from attaching the message handler until the heartbeat timer exists. */
  datatype Phase = Replaying | Subscribing | Live

  /** The variables of the handler, the event frames that reached the client, and one history
      variable: `early` records that a terminal event arrived before the heartbeat timer existed. */
  datatype Stream = Stream(
    executionId: Uuid, after: nat, phase: Phase, cursor: Option<Uuid>, highWaterMark: nat,
    sent: seq<Frame>, closed: bool, ended: bool, early: bool)

  predicate Terminal(kind: Kind) {
    !kind.Other?
  }

  function FrameOf(e: Event): Frame {
    Frame(e.sequence, e.kind, e.payload)
  }

  /** The frames of events `i` up to `j` of a log. */
  function Frames(log: seq<Event>, i: nat, j: nat): seq<Frame>
    requires i <= j <= |log|
  {
    seq(j - i, n requires 0 <= n < j - i => FrameOf(log[i + n]))
  }

  function Connect(x: Uuid, after: nat): Stream {
    Stream(x, after, Replaying, None, after, [], false, false, false)
  }

  // ── Replay ──────────────────────────────────────────────────────────────────────

  function SendReplayed(s: Stream, e: Event): Stream {
    s.(sent := s.sent + [FrameOf(e)],
       highWaterMark := if e.sequence > s.highWaterMark then e.sequence else s.highWaterMark,
       ended := Terminal(e.kind))
  }

  /** Sends items in order, stopping once the stream has ended. */
  function SendItems(s: Stream, items: seq<Event>): Stream
    decreases |items|
  {
    if items == [] || s.ended then s else SendItems(SendReplayed(s, items[0]), items[1..])
  }

  /** After a page: stop at the end of the stream, go on while there is a cursor, else subscribe. */
  function Settle(t: Stream, nextCursor: Option<Uuid>): Stream {
    if t.ended then t
    else t.(cursor := nextCursor, phase := if nextCursor.Some? then Replaying else Subscribing)
  }

  /** One turn of the replay loop against the log as it is at that moment. */
  function ReplayPage(s: Stream, log: seq<Event>): Stream {
    if s.ended || !s.phase.Replaying? then s else
    var page := GetEvents(log, PAGE_SIZE, s.cursor, s.after);
    Settle(SendItems(s, page.items), page.nextCursor)
  }

  // ── Live ────────────────────────────────────────────────────────────────────────

  /** The message handler. Its cleanup clears the heartbeat timer, which fails while the timer
      does not exist yet: the failure is caught and the response is then not ended. A second
      cleanup returns at once, and what is written after the end reaches nobody. */
  function Receive(s: Stream, e: Event): Stream {
    if s.phase.Replaying? || e.sequence <= s.highWaterMark then s else
    var t := s.(highWaterMark := e.sequence, sent := if s.ended then s.sent else s.sent + [FrameOf(e)]);
    if !Terminal(e.kind) then t
    else if t.closed then t.(ended := true)
    else if t.phase.Live? then t.(closed := true, ended := true)
    else t.(closed := true, early := t.early || !s.ended)
  }

  function ReceiveAll(s: Stream, es: seq<Event>): Stream
    decreases |es|
  {
    if es == [] then s else ReceiveAll(Receive(s, es[0]), es[1..])
  }

  function StartHeartbeat(s: Stream): Stream {
    if s.phase.Subscribing? then s.(phase := Live) else s
  }

  /** The client went away, or the subscriber failed: nothing more is delivered. */
  function Drop(s: Stream): Stream {
    s.(closed := true, ended := true)
  }

  // ── What one stream guarantees ──────────────────────────────────────────────────

  predicate StrictlyIncreasing(fs: seq<Frame>, above: nat) {
    && (forall i :: 0 <= i < |fs| ==> fs[i].id > above)
    && (forall i, j :: 0 <= i < j < |fs| ==> fs[i].id < fs[j].id)
  }

  /** Every frame is the stored event with that sequence number. */
  predicate Genuine(fs: seq<Frame>, log: seq<Event>) {
    forall i :: 0 <= i < |fs| ==> 1 <= fs[i].id <= |log| && fs[i] == FrameOf(log[fs[i].id - 1])
  }

  predicate NoTerminal(fs: seq<Frame>) {
    forall i :: 0 <= i < |fs| ==> !Terminal(fs[i].kind)
  }

  /** At most the last frame is terminal, and it ends the stream. */
  predicate TerminalEnds(s: Stream) {
    forall i :: 0 <= i < |s.sent| && Terminal(s.sent[i].kind) ==> i == |s.sent| - 1 && s.ended
  }

  /** Replay in progress: a contiguous stretch of the log has been sent, and the cursor names its end. */
  predicate Midway(s: Stream, log: seq<Event>) {
    && s.highWaterMark == s.after + |s.sent|
    && NoTerminal(s.sent) && !s.closed && !s.early
    && if s.cursor.None? then s.sent == [] else
         && |s.sent| >= 1 && s.after + |s.sent| <= |log|
         && s.sent == Frames(log, s.after, s.after + |s.sent|)
         && s.cursor.value == log[s.after + |s.sent| - 1].id
  }

  /** What was delivered: increasing, genuine, and not beyond the high-water mark. */
  predicate Sound(s: Stream, log: seq<Event>) {
    && StrictlyIncreasing(s.sent, s.after)
    && Genuine(s.sent, log)
    && s.after <= s.highWaterMark
    && (forall i :: 0 <= i < |s.sent| ==> s.sent[i].id <= s.highWaterMark)
  }

  predicate HasTerminal(fs: seq<Frame>) {
    exists i :: 0 <= i < |fs| && Terminal(fs[i].kind)
  }

  /** Only an early terminal event leaves a stream open behind it. */
  predicate EndingRules(s: Stream) {
    && (s.early || TerminalEnds(s))
    && (s.early ==> s.closed && HasTerminal(s.sent))
    && (!s.ended && s.closed ==> s.early)
  }

  predicate StreamInv(s: Stream, log: seq<Event>) {
    && Sound(s, log)
    && EndingRules(s)
    && (s.phase.Replaying? && !s.ended ==> Midway(s, log))
  }

  /** Where reading a log from position `from` stops: after its first terminal event, or at its end. */
  function CutEnd(log: seq<Event>, from: nat): (k: nat)
    requires from <= |log|
    ensures from <= k <= |log|
    decreases |log| - from
  {
    if from == |log| then from else if Terminal(log[from].kind) then from + 1 else CutEnd(log, from + 1)
  }

  lemma {:induction false} CutIsFirstTerminal(log: seq<Event>, from: nat)
    requires from <= |log|
    ensures forall i :: from <= i < CutEnd(log, from) - 1 ==> !Terminal(log[i].kind)
    ensures CutEnd(log, from) < |log| ==> EndsTerminal(log, from)
    decreases |log| - from
  {
    if from < |log| && !Terminal(log[from].kind) {
      CutIsFirstTerminal(log, from + 1);
    }
  }

  predicate EndsTerminal(log: seq<Event>, from: nat)
    requires from <= |log|
  {
    CutEnd(log, from) > from && Terminal(log[CutEnd(log, from) - 1].kind)
  }

  lemma FramesConcat(log: seq<Event>, i: nat, j: nat, k: nat)
    requires i <= j <= k <= |log|
    ensures Frames(log, i, j) + Frames(log, j, k) == Frames(log, i, k)
  {
  }

  /** The stream once it has sent events `k` up to `c`. */
  function Advanced(s: Stream, log: seq<Event>, k: nat, c: nat): Stream
    requires k <= c <= |log|
  {
    if c == k then s
    else s.(sent := s.sent + Frames(log, k, c), highWaterMark := c, ended := Terminal(log[c - 1].kind))
  }

  lemma AdvancedStep(s: Stream, log: seq<Event>, k: nat, c: nat)
    requires Dense(log) && k < c <= |log| && !s.ended && s.highWaterMark <= k
    ensures Advanced(SendReplayed(s, log[k]), log, k + 1, c) == Advanced(s, log, k, c)
  {
    FramesConcat(log, k, k + 1, c);
    assert Frames(log, k, k + 1) == [FrameOf(log[k])];
    assert log[k].sequence == k + 1;
    assert s.sent + [FrameOf(log[k])] + Frames(log, k + 1, c) == s.sent + Frames(log, k, c);
  }

  /** Sending a stretch of a dense log extends what was sent by exactly that stretch,
      cut after its first terminal event, which ends the stream. */
  lemma {:induction false} SendItemsCuts(s: Stream, log: seq<Event>, k: nat, m: nat)
    requires Dense(log) && k <= m <= |log| && !s.ended
    requires s.highWaterMark <= k
    ensures SendItems(s, log[k..m]) == Advanced(s, log, k, Min(CutEnd(log, k), m))
    decreases m - k
  {
    if k < m {
      var s1 := SendReplayed(s, log[k]);
      assert log[k..m][1..] == log[k + 1..m];
      assert SendItems(s, log[k..m]) == SendItems(s1, log[k + 1..m]);
      if s1.ended {
        AdvancedStep(s, log, k, k + 1);
      } else {
        SendItemsCuts(s1, log, k + 1, m);
        AdvancedStep(s, log, k, Min(CutEnd(log, k), m));
      }
    }
  }

  /** Skipping events that are not terminal does not move the cut. */
  lemma {:induction false} CutSkips(log: seq<Event>, from: nat, k: nat)
    requires from <= k <= |log|
    requires forall i :: from <= i < k ==> !Terminal(log[i].kind)
    ensures CutEnd(log, from) == CutEnd(log, k)
    decreases k - from
  {
    if from < k {
      CutSkips(log, from + 1, k);
    }
  }

  /** Replay is over and was complete: what was sent is exactly the log after `Last-Event-ID`,
      up to its end or up to and including its first terminal event. */
  predicate Complete(s: Stream, log: seq<Event>) {
    var from := StartOf(log, s.after);
    && s.sent == Frames(log, from, CutEnd(log, from))
    && (s.ended <==> EndsTerminal(log, from))
    && s.highWaterMark == s.after + |s.sent|
    && (!s.ended ==> s.phase.Subscribing?)
  }

  /** A page read sends the log from where the cursor stands, one page at most. */
  lemma PageSends(s: Stream, log: seq<Event>, k: nat)
    requires Dense(log) && UniqueIds(log)
    requires s.phase.Replaying? && !s.ended && s.highWaterMark <= k && ReadsFrom(log, s.cursor, s.after, k)
    ensures var m := Min(k + PAGE_SIZE, |log|);
            var t := Advanced(s, log, k, Min(CutEnd(log, k), m));
            ReplayPage(s, log) == Settle(t, if m < |log| then Some(log[m - 1].id) else None)
  {
    PageIsSlice(log, PAGE_SIZE, s.cursor, s.after, k);
    SendItemsCuts(s, log, k, Min(k + PAGE_SIZE, |log|));
  }

  /** While nothing terminal has been sent, the log read on from position `k` stops where the
      log read from the start stops. */
  lemma MidwayCut(s: Stream, log: seq<Event>)
    requires Midway(s, log) && s.after <= |log|
    ensures var k := s.after + |s.sent|;
            && ReadsFrom(log, s.cursor, s.after, k)
            && s.sent == Frames(log, s.after, k)
            && CutEnd(log, s.after) == CutEnd(log, k)
            && (k > s.after ==> !Terminal(log[k - 1].kind))
  {
    var k := s.after + |s.sent|;
    forall i | s.after <= i < k ensures !Terminal(log[i].kind) {
      assert s.sent[i - s.after] == FrameOf(log[i]);
    }
    CutSkips(log, s.after, k);
  }

  /** What a page read leaves: only the variables of replay have changed, and either replay is
      over and complete for the log, or it goes on from the new cursor, one full page further. */
  predicate PageDone(s: Stream, t: Stream, log: seq<Event>) {
    && t == s.(sent := t.sent, highWaterMark := t.highWaterMark, ended := t.ended, phase := t.phase, cursor := t.cursor)
    && if t.ended || !t.phase.Replaying? then Complete(t, log)
       else Midway(t, log) && |t.sent| == |s.sent| + PAGE_SIZE && s.after + |t.sent| < |log|
  }

  /** Advancing to `c`, no further than the first terminal event, leaves exactly events
      `after` up to `c` sent. */
  lemma AdvancedFromStart(s: Stream, log: seq<Event>, c: nat)
    requires Midway(s, log) && !s.ended && s.after <= |log| && s.after + |s.sent| <= |log|
    requires s.after + |s.sent| <= c <= CutEnd(log, s.after + |s.sent|)
    ensures var t := Advanced(s, log, s.after + |s.sent|, c);
            && t.sent == Frames(log, s.after, c)
            && t.highWaterMark == c
            && (!t.ended ==> NoTerminal(t.sent))
            && (t.ended ==> c == CutEnd(log, s.after + |s.sent|) && EndsTerminal(log, s.after + |s.sent|))
  {
    var k := s.after + |s.sent|;
    var t := Advanced(s, log, k, c);
    MidwayCut(s, log);
    FramesConcat(log, s.after, k, c);
    CutIsFirstTerminal(log, k);
    if !t.ended && c > k {
      NoTerminalConcat(s.sent, log, k, c);
    }
  }

  lemma NoTerminalConcat(fs: seq<Frame>, log: seq<Event>, k: nat, c: nat)
    requires NoTerminal(fs) && k <= c <= |log| && forall i :: k <= i < c ==> !Terminal(log[i].kind)
    ensures NoTerminal(fs + Frames(log, k, c))
  {
    var all := fs + Frames(log, k, c);
    forall i | 0 <= i < |all| ensures !Terminal(all[i].kind) {
      assert i >= |fs| ==> all[i] == FrameOf(log[k + (i - |fs|)]);
    }
  }

  /** A page that does not reach its end was cut by a terminal event. */
  lemma CutOrFull(s: Stream, log: seq<Event>, k: nat, m: nat)
    requires k <= m <= |log| && !s.ended
    ensures var c := Min(CutEnd(log, k), m);
            c == m || Advanced(s, log, k, c).ended
  {
    CutIsFirstTerminal(log, k);
  }

  /** The end of the stream, or of the log: replay is over. */
  lemma LastPage(s: Stream, log: seq<Event>, k: nat, c: nat)
    requires s.after <= |log| && s.phase.Replaying? && !s.ended && Midway(s, log)
    requires k == s.after + |s.sent| <= c <= CutEnd(log, k)
    requires Advanced(s, log, k, c).ended || c == |log|
    ensures var t := Advanced(s, log, k, c);
            PageDone(s, Settle(t, None), log) && (t.ended ==> forall next :: Settle(t, next) == t)
  {
    MidwayCut(s, log);
    AdvancedFromStart(s, log, c);
    CutIsFirstTerminal(log, k);
  }

  lemma FullPage(s: Stream, log: seq<Event>, k: nat, m: nat)
    requires s.after <= |log| && s.phase.Replaying? && !s.ended && Midway(s, log)
    requires k == s.after + |s.sent| && m == k + PAGE_SIZE && m < |log| && m <= CutEnd(log, k)
    requires !Advanced(s, log, k, m).ended
    ensures PageDone(s, Settle(Advanced(s, log, k, m), Some(log[m - 1].id)), log)
  {
    AdvancedFromStart(s, log, m);
  }

  lemma SettledPage(s: Stream, log: seq<Event>, k: nat, m: nat)
    requires s.after <= |log| && s.phase.Replaying? && !s.ended && Midway(s, log)
    requires k == s.after + |s.sent| <= |log| && m == Min(k + PAGE_SIZE, |log|)
    ensures var t := Advanced(s, log, k, Min(CutEnd(log, k), m));
            PageDone(s, Settle(t, if m < |log| then Some(log[m - 1].id) else None), log)
  {
    var c := Min(CutEnd(log, k), m);
    CutOrFull(s, log, k, m);
    if Advanced(s, log, k, c).ended || c == |log| {
      LastPage(s, log, k, c);
    } else {
      FullPage(s, log, k, m);
    }
  }

  /** `Last-Event-ID` is beyond the log: there is nothing to replay. */
  lemma NothingToReplay(s: Stream, log: seq<Event>)
    requires Dense(log) && UniqueIds(log) && s.after > |log|
    requires s.phase.Replaying? && !s.ended && Midway(s, log)
    ensures PageDone(s, ReplayPage(s, log), log)
  {
    PageIsSlice(log, PAGE_SIZE, s.cursor, s.after, |log|);
    assert CutEnd(log, |log|) == |log|;
    assert SendItems(s, []) == s;
  }

  /** One page read, against the log as it is at this moment. */
  lemma PageStep(s: Stream, log: seq<Event>)
    requires Dense(log) && UniqueIds(log)
    requires s.phase.Replaying? && !s.ended && Midway(s, log)
    ensures PageDone(s, ReplayPage(s, log), log)
  {
    if s.after <= |log| {
      var k := s.after + |s.sent|;
      MidwayCut(s, log);
      PageSends(s, log, k);
      SettledPage(s, log, k, Min(k + PAGE_SIZE, |log|));
    } else {
      NothingToReplay(s, log);
    }
  }

  lemma FramesGrow(log: seq<Event>, more: seq<Event>, i: nat, j: nat)
    requires log <= more && i <= j <= |log|
    ensures Frames(log, i, j) == Frames(more, i, j)
  {
  }

  lemma MidwayGrows(s: Stream, log: seq<Event>, more: seq<Event>)
    requires log <= more && Midway(s, log)
    ensures Midway(s, more)
  {
    if s.cursor.Some? {
      FramesGrow(log, more, s.after, s.after + |s.sent|);
    }
  }

  // ── Invariants of one stream ────────────────────────────────────────────────────

  lemma InvGrows(s: Stream, log: seq<Event>, more: seq<Event>)
    requires log <= more && StreamInv(s, log)
    ensures StreamInv(s, more)
  {
    if s.phase.Replaying? && !s.ended {
      MidwayGrows(s, log, more);
    }
    forall i | 0 <= i < |s.sent| ensures 1 <= s.sent[i].id <= |more| && s.sent[i] == FrameOf(more[s.sent[i].id - 1]) {
    }
  }

  /** A complete replay satisfies the stream invariant. */
  lemma CompleteIsSound(s: Stream, log: seq<Event>)
    requires Dense(log) && Complete(s, log) && !s.closed && !s.early
    ensures StreamInv(s, log)
  {
    var from := StartOf(log, s.after);
    CutIsFirstTerminal(log, from);
    forall i | 0 <= i < |s.sent|
      ensures s.sent[i].id == s.after + i + 1 && s.sent[i] == FrameOf(log[from + i])
    {
      assert s.sent[i] == FrameOf(log[from + i]) && log[from + i].sequence == from + i + 1;
    }
  }

  lemma MidwayIsSound(s: Stream, log: seq<Event>)
    requires Dense(log) && Midway(s, log) && s.after + |s.sent| <= |log|
    ensures Sound(s, log) && EndingRules(s)
  {
    forall i | 0 <= i < |s.sent| ensures s.sent[i] == FrameOf(log[s.after + i]) && s.sent[i].id == s.after + i + 1 {
    }
  }

  lemma PageKeepsInv(s: Stream, log: seq<Event>)
    requires Dense(log) && UniqueIds(log) && StreamInv(s, log)
    ensures StreamInv(ReplayPage(s, log), log)
  {
    if s.phase.Replaying? && !s.ended {
      PageStep(s, log);
      var t := ReplayPage(s, log);
      if t.ended || !t.phase.Replaying? {
        CompleteIsSound(t, log);
      } else {
        MidwayIsSound(t, log);
      }
    }
  }

  lemma ReceiveKeepsInv(s: Stream, e: Event, log: seq<Event>)
    requires Dense(log) && e in log && StreamInv(s, log)
    ensures StreamInv(Receive(s, e), log)
  {
    ReceiveIsSound(s, e, log);
    ReceiveKeepsRules(s, e);
  }

  lemma AppendIsSound(fs: seq<Frame>, f: Frame, after: nat, mark: nat, log: seq<Event>)
    requires StrictlyIncreasing(fs, after) && Genuine(fs, log)
    requires forall i :: 0 <= i < |fs| ==> fs[i].id <= mark
    requires after <= mark < f.id <= |log| && f == FrameOf(log[f.id - 1])
    ensures StrictlyIncreasing(fs + [f], after) && Genuine(fs + [f], log)
    ensures forall i :: 0 <= i < |fs + [f]| ==> (fs + [f])[i].id <= f.id
  {
  }

  lemma StoredAtSequence(log: seq<Event>, e: Event)
    requires Dense(log) && e in log
    ensures 1 <= e.sequence <= |log| && log[e.sequence - 1] == e
  {
  }

  lemma ReceiveIsSound(s: Stream, e: Event, log: seq<Event>)
    requires Dense(log) && e in log && Sound(s, log)
    ensures Sound(Receive(s, e), log)
  {
    StoredAtSequence(log, e);
    if !s.phase.Replaying? && e.sequence > s.highWaterMark {
      var t := Receive(s, e);
      if s.ended {
        assert t.sent == s.sent;
      } else {
        AppendIsSound(s.sent, FrameOf(e), s.after, s.highWaterMark, log);
        assert t.sent == s.sent + [FrameOf(e)];
      }
    }
  }

  lemma ReceiveKeepsRules(s: Stream, e: Event)
    requires EndingRules(s)
    ensures EndingRules(Receive(s, e))
  {
    var t := Receive(s, e);
    if t.sent != s.sent {
      assert t.sent[|s.sent|] == FrameOf(e);
      assert forall i :: 0 <= i < |s.sent| ==> t.sent[i] == s.sent[i];
    }
  }

  // ── Gaps ────────────────────────────────────────────────────────────────────────

  /** No event between `after` and the last one delivered is missing. */
  predicate GapFree(fs: seq<Frame>, after: nat) {
    forall i :: 0 <= i < |fs| ==> fs[i].id == after + i + 1
  }

  /** A complete replay has no gap. */
  lemma ReplayIsGapFree(s: Stream, log: seq<Event>)
    requires Dense(log) && Complete(s, log)
    ensures GapFree(s.sent, s.after)
  {
    var from := StartOf(log, s.after);
    forall i | 0 <= i < |s.sent| ensures s.sent[i].id == s.after + i + 1 {
      assert s.sent[i] == FrameOf(log[from + i]) && log[from + i].sequence == from + i + 1;
    }
  }

  lemma GapFreeSnoc(fs: seq<Frame>, f: Frame, after: nat)
    requires GapFree(fs, after)
    ensures GapFree(fs + [f], after) <==> f.id == after + |fs| + 1
  {
    var more := fs + [f];
    assert more[|fs|] == f;
    assert forall i :: 0 <= i < |fs| ==> more[i] == fs[i];
  }

  lemma GapStays(fs: seq<Frame>, more: seq<Frame>, after: nat)
    requires fs <= more && !GapFree(fs, after)
    ensures !GapFree(more, after)
  {
    var i :| 0 <= i < |fs| && fs[i].id != after + i + 1;
    assert more[i] == fs[i];
  }

  /** Nothing is missing so far, and the high-water mark says so. */
  predicate OnTrack(s: Stream) {
    GapFree(s.sent, s.after) && (!s.phase.Replaying? && !s.ended ==> s.highWaterMark == s.after + |s.sent|)
  }

  /** A message that is heard leaves a gap exactly if it is further ahead than the next one. */
  lemma ReceiveNext(s: Stream, e: Event)
    requires OnTrack(s) && !s.phase.Replaying? && !s.ended
    ensures var t := Receive(s, e);
            && t.after == s.after && !t.phase.Replaying?
            && (GapFree(t.sent, s.after) <==> e.sequence <= s.highWaterMark + 1)
            && (e.sequence <= s.highWaterMark + 1 ==> OnTrack(t))
  {
    GapFreeSnoc(s.sent, FrameOf(e), s.after);
  }

  /** No message heard while the stream is open is further ahead than the next one. */
  predicate NeverAhead(s: Stream, es: seq<Event>)
    decreases |es|
  {
    es == [] || s.ended || (es[0].sequence <= s.highWaterMark + 1 && NeverAhead(Receive(s, es[0]), es[1..]))
  }

  /** Whatever the channel loses, repeats or reorders: after its replay a stream stays free of gaps exactly if no
      message it hears while it is open is further ahead than the next one. */
  lemma {:induction false} ReceiveAllGapFreeIff(s: Stream, es: seq<Event>)
    requires OnTrack(s) && !s.phase.Replaying?
    ensures GapFree(ReceiveAll(s, es).sent, s.after) <==> NeverAhead(s, es)
    decreases |es|
  {
    if s.ended {
      EndedReceivesNothing(s, es);
    } else if es != [] {
      var t := Receive(s, es[0]);
      ReceiveNext(s, es[0]);
      if OnTrack(t) {
        ReceiveAllGapFreeIff(t, es[1..]);
      }
      if !GapFree(t.sent, s.after) {
        ReceiveAllExtends(t, es[1..]);
        GapStays(t.sent, ReceiveAll(t, es[1..]).sent, s.after);
      }
    }
  }

  lemma {:induction false} OrderedIsNeverAheadIff(s: Stream, log: seq<Event>, p: nat, q: nat)
    requires Dense(log) && p <= q <= |log| && !s.phase.Replaying? && !s.ended
    ensures NeverAhead(s, log[p..q]) <==> p <= s.highWaterMark || p == q
    decreases q - p
  {
    if p < q {
      var t := Receive(s, log[p]);
      assert log[p..q][0] == log[p] && log[p..q][1..] == log[p + 1..q];
      if !t.ended && p <= s.highWaterMark {
        OrderedIsNeverAheadIff(t, log, p + 1, q);
      }
    }
  }

  /** With a channel that delivers `log[p..q]` in order and without loss, where the first `p` events were
      published before the subscribe: the stream stays free of gaps exactly if none of these was
      stored after the last page read, or nothing is delivered at all. */
  lemma LiveGapFreeIff(s: Stream, log: seq<Event>, p: nat, q: nat)
    requires Dense(log) && p <= q <= |log|
    requires !s.phase.Replaying? && !s.ended
    requires GapFree(s.sent, s.after) && s.highWaterMark == s.after + |s.sent|
    ensures GapFree(ReceiveAll(s, log[p..q]).sent, s.after) <==> p <= s.highWaterMark || p == q
    ensures s.sent <= ReceiveAll(s, log[p..q]).sent
  {
    ReceiveAllExtends(s, log[p..q]);
    ReceiveAllGapFreeIff(s, log[p..q]);
    OrderedIsNeverAheadIff(s, log, p, q);
  }

  lemma {:induction false} EndedReceivesNothing(s: Stream, es: seq<Event>)
    requires s.ended
    ensures ReceiveAll(s, es).sent == s.sent
    decreases |es|
  {
    if es != [] {
      EndedReceivesNothing(Receive(s, es[0]), es[1..]);
    }
  }

  lemma {:induction false} ReceiveAllExtends(s: Stream, es: seq<Event>)
    ensures s.sent <= ReceiveAll(s, es).sent
    decreases |es|
  {
    if es != [] {
      ReceiveAllExtends(Receive(s, es[0]), es[1..]);
    }
  }

  /** What was sent is a stretch of the log behind `Last-Event-ID`, without a terminal event. */
  predicate CutShort(s: Stream, log: seq<Event>) {
    && NoTerminal(s.sent)
    && (s.sent == [] || (s.after + |s.sent| <= |log| && s.sent == Frames(log, s.after, s.after + |s.sent|)))
  }

  lemma MidwayIsCutShort(s: Stream, log: seq<Event>)
    requires Midway(s, log)
    ensures CutShort(s.(ended := true), log)
  {
  }

  // ── The handler ─────────────────────────────────────────────────────────────────

  class StreamHandler {
    const executionId: Uuid
    const after: nat
    var phase: Phase
    var cursor: Option<Uuid>
    var highWaterMark: nat
    var sent: seq<Frame>
    var closed: bool
    var ended: bool
    var early: bool

    ghost function State(): Stream
      reads this
    {
      Stream(executionId, after, phase, cursor, highWaterMark, sent, closed, ended, early)
    }

    constructor (x: Uuid, lastEventId: nat)
      ensures State() == Connect(x, lastEventId)
    {
      executionId, after := x, lastEventId;
      phase, cursor, highWaterMark := Replaying, None, lastEventId;
      sent, closed, ended, early := [], false, false, false;
    }

    /** What is written after the response has ended reaches nobody. */
    method WriteEvent(e: Event)
      modifies `sent
      ensures sent == if ended then old(sent) else old(sent) + [FrameOf(e)]
    {
      if !ended {
        sent := sent + [FrameOf(e)];
      }
    }

    /** The replay loop. The log may grow between page reads: `views` are its successive
        contents, and it stays as the last of them. The loop ends. Unless a page read fails (`failAt`
        counts them), what was sent is complete for the log as it was at the last page read; a failing
        read ends the response behind a gap-free stretch of the log. */
    method Replay(views: seq<seq<Event>>, failAt: Option<nat>) returns (ok: bool, last: nat)
      requires State() == Connect(executionId, after)
      requires views != []
      requires forall k :: 0 <= k < |views| ==> Dense(views[k]) && UniqueIds(views[k])
      requires forall k :: 0 <= k < |views| - 1 ==> views[k] <= views[k + 1]
      modifies this
      ensures last < |views|
      ensures failAt.None? ==> ok
      ensures ok ==> Complete(State(), views[last])
      ensures !ok ==> ended && CutShort(State(), views[last])
    {
      var hasMore := true;
      var v, pages := 0, 0;
      last := 0;
      while hasMore
        invariant v < |views| && last < |views| && (hasMore ==> last <= v)
        invariant !closed && !early
        invariant hasMore ==> !ended && phase.Replaying? && Midway(State(), views[v])
        invariant !hasMore ==> Complete(State(), views[last])
        decreases hasMore, |views| - v, |views[v]| - |sent|
      {
        ghost var s0 := State();
        last := v;
        if failAt == Some(pages) {
          MidwayIsCutShort(s0, views[v]);
          ended := true;
          assert State() == s0.(ended := true);
          return false, last;
        }
        pages := pages + 1;
        PageStep(s0, views[v]);
        var page := GetEvents(views[v], PAGE_SIZE, cursor, after);
        SendPage(page.items);
        if ended {
          return true, last;
        }
        hasMore := page.nextCursor.Some?;
        cursor := page.nextCursor;
        phase := if hasMore then Replaying else Subscribing;
        assert State() == ReplayPage(s0, views[v]);
        if hasMore && v + 1 < |views| {
          MidwayGrows(State(), views[v], views[v + 1]);
          v := v + 1;
        }
      }
      ok := true;
    }

    /** Writes the items of a page in order; a terminal one ends the response. */
    method SendPage(items: seq<Event>)
      requires !ended
      modifies `sent, `highWaterMark, `ended
      ensures State() == SendItems(old(State()), items)
    {
      ghost var s0 := State();
      var i := 0;
      while i < |items|
        invariant i <= |items| && !ended
        invariant SendItems(State(), items[i..]) == SendItems(s0, items)
      {
        var event := items[i];
        assert items[i..][0] == event && items[i..][1..] == items[i + 1..];
        ghost var s1 := State();
        WriteEvent(event);
        if event.sequence > highWaterMark {
          highWaterMark := event.sequence;
        }
        if Terminal(event.kind) {
          ended := true;
          assert State() == SendReplayed(s1, event);
          return;
        }
        assert State() == SendReplayed(s1, event);
        i := i + 1;
      }
      assert items[i..] == [];
    }

    /** Returns whether it threw: the timer it clears does not exist before the heartbeat starts. */
    method Cleanup() returns (threw: bool)
      modifies `closed
      ensures closed
      ensures threw <==> !old(closed) && phase.Subscribing?
    {
      if closed {
        return false;
      }
      closed := true;
      threw := phase.Subscribing?;
    }

    /** A message that is not newer than what was sent changes nothing. Any newer one is sent, whatever is missing
        before it; a terminal one ends the response if cleanup does not throw. */
    method OnMessage(e: Event)
      modifies this
      ensures State() == Receive(old(State()), e)
      ensures old(phase).Replaying? || e.sequence <= old(highWaterMark) ==> State() == old(State())
      ensures !old(phase).Replaying? && e.sequence > old(highWaterMark) ==>
                && highWaterMark == e.sequence && phase == old(phase) && cursor == old(cursor)
                && sent == (if old(ended) then old(sent) else old(sent) + [Frame(e.sequence, e.kind, e.payload)])
                && (closed <==> old(closed) || Terminal(e.kind))
                && (ended <==> old(ended) || (Terminal(e.kind) && (old(closed) || old(phase).Live?)))
    {
      if phase.Replaying? || e.sequence <= highWaterMark {
        return;
      }
      highWaterMark := e.sequence;
      WriteEvent(e);
      if Terminal(e.kind) {
        var threw := Cleanup();
        if threw {
          early := early || !ended;
        } else {
          ended := true;
        }
      }
    }
  }
}

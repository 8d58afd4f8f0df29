/** The life of one execution: any number of workers, the cancel endpoint, approval decisions and
    the expiry sweep act on its status, its cancel flag, its event log and its messages. */
module Lifecycle {
  import opened Wrappers
  import opened EventLog
  import opened EventStream

  datatype Status =
    | CREATED | QUEUED | RUNNING | THINKING | WAITING_FOR_USER | WAITING_FOR_APPROVAL
    | Final(kind: Kind)

  /** Where a worker stands in its run: the status has been read; the flag has been read; the
      graph is running, and the poll may have seen the cancel flag. */
  datatype Phase = Loaded | Cleared | Active(sawCancel: bool)

  datatype State = Execution(
    status: Status, cancelFlag: bool, log: seq<Kind>, messages: nat, workers: map<nat, Phase>)

  /** An append of an event may fail: it can lose the race for the next sequence number. */
  datatype Append = Stored | Lost

  datatype Step =
    | Load(w: nat)                     // read the status; skip unless resumable
    | CheckFlag(w: nat, append: Append) // cancel now, or go on
    | Enter(w: nat, name: string)      // write RUNNING and the first event, STARTED or RESUMED
    | NodeEvent(w: nat, name: string)  // a node emitted an event
    | Poll(w: nat)                     // the poll reads the cancel flag
    | Abort(w: nat, append: Append)    // between updates, the poll's result is noticed
    | Pause(w: nat)                    // the act node creates an approval and throws
    | Finish(w: nat, append: Append, again: Append) // the graph ended without error
    | Fail(w: nat, append: Append)     // the graph ended with an error
    | Crash(w: nat)
    | Cancel(append: Append)           // the HTTP handler
    | ApprovalEvent(name: string)      // a decision or an expiry
    | FlagExpires

  const INIT := Execution(CREATED, false, [], 0, map[])

  /** Statuses are `Final` only of the three terminal kinds. */
  predicate Over(s: Status) {
    s.Final? && Terminal(s.kind)
  }

  predicate Resumable(s: Status) {
    s.CREATED? || s.RUNNING? || s.WAITING_FOR_APPROVAL?
  }

  function Logged(log: seq<Kind>, k: Kind, append: Append): seq<Kind> {
    if append.Stored? then log + [k] else log
  }

  /** If the append throws, the flag is not cleared any more. */
  function HandleCancel(s: State, w: nat, append: Append): State {
    s.(status := Final(CANCELLED), log := Logged(s.log, CANCELLED, append),
       cancelFlag := append.Lost? && s.cancelFlag, workers := s.workers - {w})
  }

  /** The message and the status are written before the COMPLETED event. If its append throws, the error
      handler writes FAILED over them, and appends a FAILED event. */
  function Complete(s: State, w: nat, append: Append, again: Append): State {
    if append.Stored?
    then Execution(Final(COMPLETED), false, s.log + [COMPLETED], s.messages + 1, s.workers - {w})
    else Execution(Final(FAILED), s.cancelFlag, Logged(s.log, FAILED, again), s.messages + 1, s.workers - {w})
  }

  function Next(s: State, step: Step): State {
    match step
    case Load(w) =>
      if w !in s.workers && Resumable(s.status) then s.(workers := s.workers[w := Loaded]) else s
    case CheckFlag(w, append) =>
      if w !in s.workers || !s.workers[w].Loaded? then s
      else if s.cancelFlag then HandleCancel(s, w, append)
      else s.(workers := s.workers[w := Cleared])
    case Enter(w, name) =>
      if IsCleared(s, w)
      then s.(status := RUNNING, log := s.log + [Other(name)], workers := s.workers[w := Active(false)])
      else s
    case NodeEvent(w, name) =>
      if IsActive(s, w) then s.(log := s.log + [Other(name)]) else s
    case Poll(w) =>
      if IsActive(s, w) && s.cancelFlag then s.(workers := s.workers[w := Active(true)]) else s
    case Abort(w, append) =>
      if IsActive(s, w) && s.workers[w].sawCancel then HandleCancel(s, w, append) else s
    case Pause(w) =>
      if IsActive(s, w)
      then s.(status := WAITING_FOR_APPROVAL, log := s.log + [Other("WAITING_FOR_APPROVAL")],
              workers := s.workers - {w})
      else s
    case Finish(w, append, again) => if IsActive(s, w) then Complete(s, w, append, again) else s
    case Fail(w, append) =>
      if IsActive(s, w)
      then s.(status := Final(FAILED), log := Logged(s.log, FAILED, append), workers := s.workers - {w})
      else s
    case Crash(w) => s.(workers := s.workers - {w})
    case Cancel(append) =>
      if Over(s.status) then s
      else s.(cancelFlag := true, status := Final(CANCELLED), log := Logged(s.log, CANCELLED, append))
    case ApprovalEvent(name) => s.(log := s.log + [Other(name)])
    case FlagExpires => s.(cancelFlag := false)
  }

  predicate IsCleared(s: State, w: nat) {
    w in s.workers && s.workers[w].Cleared?
  }

  predicate IsActive(s: State, w: nat) {
    w in s.workers && s.workers[w].Active?
  }

  function Run(s: State, steps: seq<Step>): State {
    if steps == [] then s else Next(Run(s, steps[..|steps| - 1]), steps[|steps| - 1])
  }

  // ── Counting ────────────────────────────────────────────────────────────────────

  function TerminalEvents(log: seq<Kind>): seq<Kind> {
    if log == [] then []
    else TerminalEvents(log[..|log| - 1]) + (if Terminal(log[|log| - 1]) then [log[|log| - 1]] else [])
  }

  function Completions(log: seq<Kind>): nat {
    if log == [] then 0
    else Completions(log[..|log| - 1]) + (if log[|log| - 1].COMPLETED? then 1 else 0)
  }

  lemma Appended(log: seq<Kind>, k: Kind)
    ensures TerminalEvents(log + [k]) == TerminalEvents(log) + (if Terminal(k) then [k] else [])
    ensures Completions(log + [k]) == Completions(log) + (if k.COMPLETED? then 1 else 0)
  {
    assert (log + [k])[..|log|] == log;
  }

  // ── What a step writes ──────────────────────────────────────────────────────────

  /** A final status that a step writes, whether its event is stored, and whether a message was created. */
  datatype Writing = Writing(kind: Kind, append: Append, message: bool)

  function Writes(s: State, step: Step): Option<Writing> {
    match step
    case CheckFlag(w, append) =>
      if w in s.workers && s.workers[w].Loaded? && s.cancelFlag then Some(Writing(CANCELLED, append, false)) else None
    case Abort(w, append) =>
      if IsActive(s, w) && s.workers[w].sawCancel then Some(Writing(CANCELLED, append, false)) else None
    case Finish(w, append, again) =>
      if !IsActive(s, w) then None
      else if append.Stored? then Some(Writing(COMPLETED, Stored, true))
      else Some(Writing(FAILED, again, true))
    case Fail(w, append) => if IsActive(s, w) then Some(Writing(FAILED, append, false)) else None
    case Cancel(append) => if Over(s.status) then None else Some(Writing(CANCELLED, append, false))
    case _ => None
  }

  /** A worker enters or pauses: the status it writes is not final. */
  predicate Reopens(s: State, step: Step) {
    || (step.Enter? && IsCleared(s, step.w))
    || (step.Pause? && IsActive(s, step.w))
  }

  lemma WritingEffect(s: State, step: Step)
    requires Writes(s, step).Some?
    ensures var t, x := Next(s, step), Writes(s, step).value;
            && Terminal(x.kind) && t.status == Final(x.kind)
            && TerminalEvents(t.log) == TerminalEvents(s.log) + (if x.append.Stored? then [x.kind] else [])
            && t.messages == s.messages + (if x.message then 1 else 0)
            && Completions(t.log) == Completions(s.log) + (if x.kind.COMPLETED? && x.append.Stored? then 1 else 0)
            && (x.kind.COMPLETED? ==> x.append.Stored? && x.message)
  {
    Appended(s.log, Writes(s, step).value.kind);
  }

  lemma OtherEffect(s: State, step: Step)
    requires Writes(s, step).None?
    ensures var t := Next(s, step);
            && TerminalEvents(t.log) == TerminalEvents(s.log) && Completions(t.log) == Completions(s.log)
            && t.messages == s.messages
            && (Reopens(s, step) ==> !t.status.Final?)
            && (!Reopens(s, step) ==> t.status == s.status)
  {
    var t := Next(s, step);
    if t.log != s.log {
      Appended(s.log, t.log[|s.log|]);
    }
  }

  /** A final status is one of the three terminal kinds, and so is every later one. */
  lemma {:induction false} FinalIsOver(steps: seq<Step>)
    ensures Run(INIT, steps).status.Final? ==> Over(Run(INIT, steps).status)
  {
    if steps != [] {
      var front, last := steps[..|steps| - 1], steps[|steps| - 1];
      FinalIsOver(front);
      if Writes(Run(INIT, front), last).Some? {
        WritingEffect(Run(INIT, front), last);
      } else {
        OtherEffect(Run(INIT, front), last);
      }
    }
  }

  // ── Histories ───────────────────────────────────────────────────────────────────

  /** The state after the first `k` steps of a history. */
  function StateAt(steps: seq<Step>, k: nat): State
    requires k <= |steps|
  {
    Run(INIT, steps[..k])
  }

  lemma StateAtNext(steps: seq<Step>, k: nat)
    requires k < |steps|
    ensures StateAt(steps, k + 1) == Next(StateAt(steps, k), steps[k])
    ensures StateAt(steps, k).status.Final? ==> Over(StateAt(steps, k).status)
  {
    assert steps[..k + 1][..k] == steps[..k];
    FinalIsOver(steps[..k]);
  }

  // ── When status, events and messages agree ──────────────────────────────────────

  predicate LatestIs(log: seq<Kind>, k: Kind) {
    TerminalEvents(log) != [] && TerminalEvents(log)[|TerminalEvents(log)| - 1] == k
  }

  /** One assistant message per COMPLETED event, and a final status is the kind of the latest terminal event. */
  predicate Tracks(s: State) {
    && s.messages == Completions(s.log)
    && (s.status.Final? ==> Over(s.status) && LatestIs(s.log, s.status.kind))
  }

  /** The branches that leave status, events and messages apart: a final status whose event is lost, unless the
      latest terminal event is of its kind, and a message whose COMPLETED event is lost. */
  predicate Untracks(s: State, step: Step) {
    var x := Writes(s, step);
    x.Some? && ((x.value.message && !x.value.kind.COMPLETED?)
                || (x.value.append.Lost? && !LatestIs(s.log, x.value.kind)))
  }

  lemma TracksWritingIff(s: State, step: Step)
    requires Tracks(s) && Writes(s, step).Some?
    ensures Tracks(Next(s, step)) <==> !Untracks(s, step)
  {
    WritingEffect(s, step);
  }

  lemma TracksOther(s: State, step: Step)
    requires Tracks(s) && Writes(s, step).None?
    ensures Tracks(Next(s, step))
  {
    OtherEffect(s, step);
  }

  lemma TracksNextIff(s: State, step: Step)
    requires Tracks(s)
    ensures Tracks(Next(s, step)) <==> !Untracks(s, step)
  {
    if Writes(s, step).Some? {
      TracksWritingIff(s, step);
    } else {
      TracksOther(s, step);
    }
  }

  predicate AlwaysTracks(steps: seq<Step>) {
    forall k :: 0 <= k <= |steps| ==> Tracks(StateAt(steps, k))
  }

  predicate NeverUntracks(steps: seq<Step>) {
    forall k :: 0 <= k < |steps| ==> !Untracks(StateAt(steps, k), steps[k])
  }

  lemma {:induction false} TracksUpTo(steps: seq<Step>, k: nat)
    requires NeverUntracks(steps) && k <= |steps|
    ensures Tracks(StateAt(steps, k))
    decreases k
  {
    if k > 0 {
      TracksUpTo(steps, k - 1);
      StateAtNext(steps, k - 1);
      TracksNextIff(StateAt(steps, k - 1), steps[k - 1]);
    }
  }

  /** For every history, with any number of workers: at every moment there is one assistant message per COMPLETED
      event and a final status is the kind of the latest terminal event, if and only if no final append is lost
      that makes a difference to it. */
  lemma AlwaysTracksIff(steps: seq<Step>)
    ensures AlwaysTracks(steps) <==> NeverUntracks(steps)
  {
    if NeverUntracks(steps) {
      forall k | 0 <= k <= |steps| ensures Tracks(StateAt(steps, k)) {
        TracksUpTo(steps, k);
      }
    }
    if AlwaysTracks(steps) {
      forall k | 0 <= k < |steps| ensures !Untracks(StateAt(steps, k), steps[k]) {
        assert Tracks(StateAt(steps, k)) && Tracks(StateAt(steps, k + 1));
        StateAtNext(steps, k);
        TracksNextIff(StateAt(steps, k), steps[k]);
      }
    }
  }

  // ── When terminal means terminal ────────────────────────────────────────────────

  /** Status, terminal events and messages are those of `s`, after whatever comes. */
  ghost predicate Stable(s: State) {
    forall more :: SameOutcome(s, Run(s, more))
  }

  predicate SameOutcome(s: State, t: State) {
    t.status == s.status && TerminalEvents(t.log) == TerminalEvents(s.log) && t.messages == s.messages
  }

  lemma {:induction false} QuietStaysQuiet(s: State, more: seq<Step>)
    requires Over(s.status) && s.workers == map[]
    ensures SameOutcome(s, Run(s, more)) && Run(s, more).workers == map[]
  {
    if more != [] {
      var t := Run(s, more[..|more| - 1]);
      var step := more[|more| - 1];
      QuietStaysQuiet(s, more[..|more| - 1]);
      assert Writes(t, step).None? && !Reopens(t, step);
      OtherEffect(t, step);
    }
  }

  /** A worker that is still at work can always overturn a final status, within two steps. */
  lemma WorkerOverturns(s: State, w: nat) returns (more: seq<Step>)
    requires Over(s.status) && w in s.workers
    ensures !SameOutcome(s, Run(s, more))
  {
    match s.workers[w]
    case Loaded =>
      more := [CheckFlag(w, Stored)];
      RunOne(s, CheckFlag(w, Stored));
      if s.cancelFlag {
        Appended(s.log, CANCELLED);
      } else {
        more := [CheckFlag(w, Stored), Enter(w, "")];
        RunTwo(s, CheckFlag(w, Stored), Enter(w, ""));
      }
    case Cleared =>
      more := [Enter(w, "")];
      RunOne(s, Enter(w, ""));
    case Active(_) =>
      more := [Fail(w, Stored)];
      RunOne(s, Fail(w, Stored));
      Appended(s.log, FAILED);
  }

  lemma RunOne(s: State, a: Step)
    ensures Run(s, [a]) == Next(s, a)
  {
    assert [a][..0] == [];
  }

  lemma RunTwo(s: State, a: Step, b: Step)
    ensures Run(s, [a, b]) == Next(Next(s, a), b)
  {
    RunOne(s, a);
    assert [a, b][..1] == [a];
  }

  /** A final status is final, with its one event and message, exactly if no worker is at work. */
  lemma StableIffNoWorker(s: State)
    requires Over(s.status)
    ensures Stable(s) <==> s.workers == map[]
  {
    if s.workers == map[] {
      forall more ensures SameOutcome(s, Run(s, more)) {
        QuietStaysQuiet(s, more);
      }
    } else {
      var w :| w in s.workers;
      var more := WorkerOverturns(s, w);
      assert !SameOutcome(s, Run(s, more));
    }
  }

  /** The guard: a step that makes the status final leaves no worker at work. For the cancel
      handler that is: no worker is running the execution. */
  predicate Clean(s: State, step: Step) {
    Over(Next(s, step).status) ==> Next(s, step).workers == map[]
  }

  predicate AllClean(steps: seq<Step>) {
    forall k :: 0 <= k < |steps| ==> Clean(Run(INIT, steps[..k]), steps[k])
  }

  /** One terminal event if the status is final and none otherwise; one assistant message if it
      is COMPLETED and none otherwise. */
  predicate ExactlyOne(s: State) {
    && TerminalEvents(s.log) == (if Over(s.status) then [s.status.kind] else [])
    && s.messages == (if s.status == Final(COMPLETED) then 1 else 0)
  }

  predicate AlwaysQuiet(steps: seq<Step>) {
    forall k :: 0 <= k <= |steps| ==> (Over(StateAt(steps, k).status) ==> StateAt(steps, k).workers == map[])
  }

  lemma CleanIffQuiet(steps: seq<Step>)
    ensures AllClean(steps) <==> AlwaysQuiet(steps)
  {
    assert StateAt(steps, 0) == INIT;
    forall k | 0 <= k < |steps|
      ensures Clean(StateAt(steps, k), steps[k]) <==>
              (Over(StateAt(steps, k + 1).status) ==> StateAt(steps, k + 1).workers == map[])
    {
      StateAtNext(steps, k);
    }
    if AllClean(steps) {
      forall k | 0 <= k <= |steps|
        ensures Over(StateAt(steps, k).status) ==> StateAt(steps, k).workers == map[]
      {
        if k > 0 {
          assert Clean(StateAt(steps, k - 1), steps[k - 1]);
        }
      }
    }
    if AlwaysQuiet(steps) {
      forall k | 0 <= k < |steps| ensures Clean(Run(INIT, steps[..k]), steps[k]) {
        assert 0 <= k + 1 <= |steps|;
        assert Over(StateAt(steps, k + 1).status) ==> StateAt(steps, k + 1).workers == map[];
        StateAtNext(steps, k);
      }
    }
  }

  // ── When the log and the messages stay exact ────────────────────────────────────

  /** The branches that change the outcome of a final status: a worker that has read an earlier one enters or
      pauses, or writes a final status of its own, unless that is the same again and leaves no trace. */
  predicate Overturns(s: State, step: Step) {
    Over(s.status) &&
    match Writes(s, step)
    case None => Reopens(s, step)
    case Some(x) => x.append.Stored? || x.message || x.kind != s.status.kind
  }

  /** The branches that lose what the log must show of a first final status: its event, or the COMPLETED event
      of a message. */
  predicate Loses(s: State, step: Step) {
    var x := Writes(s, step);
    !Over(s.status) && x.Some? && (x.value.append.Lost? || (x.value.message && !x.value.kind.COMPLETED?))
  }

  /** A step keeps the outcome of a final status exactly if it does not overturn it. */
  lemma OutcomeKeptIff(s: State, step: Step)
    requires Over(s.status)
    ensures SameOutcome(s, Next(s, step)) <==> !Overturns(s, step)
  {
    if Writes(s, step).Some? {
      WritingEffect(s, step);
    } else {
      OtherEffect(s, step);
    }
  }

  /** A step keeps exactly one terminal event and one message exactly if it neither overturns a final status nor
      loses what belongs to a first one. */
  lemma ExactKeptIff(s: State, step: Step)
    requires ExactlyOne(s) && (s.status.Final? ==> Over(s.status))
    ensures ExactlyOne(Next(s, step)) <==> !Overturns(s, step) && !Loses(s, step)
  {
    if Writes(s, step).Some? {
      WritingEffect(s, step);
    } else {
      OtherEffect(s, step);
    }
  }

  predicate AlwaysExact(steps: seq<Step>) {
    forall k :: 0 <= k <= |steps| ==> ExactlyOne(StateAt(steps, k))
  }

  predicate FinalAt(steps: seq<Step>, k: nat)
    requires k < |steps|
  {
    Over(StateAt(steps, k).status) ==> SameOutcome(StateAt(steps, k), StateAt(steps, k + 1))
  }

  /** A status once final, with its events and messages, is the same after every later step. */
  predicate AlwaysFinal(steps: seq<Step>) {
    forall k :: 0 <= k < |steps| ==> FinalAt(steps, k)
  }

  predicate NeverOverturned(steps: seq<Step>) {
    forall k :: 0 <= k < |steps| ==> !Overturns(StateAt(steps, k), steps[k])
  }

  predicate NeverLoses(steps: seq<Step>) {
    forall k :: 0 <= k < |steps| ==> !Loses(StateAt(steps, k), steps[k])
  }

  lemma {:induction false} ExactUpTo(steps: seq<Step>, k: nat)
    requires NeverOverturned(steps) && NeverLoses(steps) && k <= |steps|
    ensures ExactlyOne(StateAt(steps, k))
    decreases k
  {
    if k > 0 {
      ExactUpTo(steps, k - 1);
      StateAtNext(steps, k - 1);
      ExactKeptIff(StateAt(steps, k - 1), steps[k - 1]);
    }
  }

  lemma ExactNext(steps: seq<Step>, k: nat)
    requires k < |steps| && ExactlyOne(StateAt(steps, k)) && ExactlyOne(StateAt(steps, k + 1))
    ensures !Overturns(StateAt(steps, k), steps[k]) && !Loses(StateAt(steps, k), steps[k])
  {
    StateAtNext(steps, k);
    ExactKeptIff(StateAt(steps, k), steps[k]);
  }

  lemma FinalAtIff(steps: seq<Step>, k: nat)
    requires k < |steps|
    ensures FinalAt(steps, k) <==> !Overturns(StateAt(steps, k), steps[k])
  {
    StateAtNext(steps, k);
    if Over(StateAt(steps, k).status) {
      OutcomeKeptIff(StateAt(steps, k), steps[k]);
    }
  }

  /** For every history, with any number of workers: each outcome, once reached, stays if and only if no step
      overturns a final status; and at every moment there is exactly one terminal event iff the status is final,
      and one message iff it is COMPLETED, if and only if moreover no final append is lost. */
  lemma HistoryIsExactIff(steps: seq<Step>)
    ensures AlwaysFinal(steps) <==> NeverOverturned(steps)
    ensures AlwaysExact(steps) <==> NeverOverturned(steps) && NeverLoses(steps)
  {
    forall k | 0 <= k < |steps| ensures FinalAt(steps, k) <==> !Overturns(StateAt(steps, k), steps[k]) {
      FinalAtIff(steps, k);
    }
    if NeverOverturned(steps) && NeverLoses(steps) {
      forall k | 0 <= k <= |steps| ensures ExactlyOne(StateAt(steps, k)) {
        ExactUpTo(steps, k);
      }
    }
    if AlwaysExact(steps) {
      forall k | 0 <= k < |steps|
        ensures !Overturns(StateAt(steps, k), steps[k]) && !Loses(StateAt(steps, k), steps[k])
      {
        assert ExactlyOne(StateAt(steps, k + 1));
        ExactNext(steps, k);
      }
    }
  }

  lemma QuietIsNotOverturned(s: State, step: Step)
    requires Over(s.status) ==> s.workers == map[]
    ensures !Overturns(s, step)
  {
  }

  /** In a clean history a final status is final whatever comes, and the log and the messages are exact at every
      moment if and only if no final append is lost. */
  lemma CleanHistoriesAreExact(steps: seq<Step>)
    requires AllClean(steps)
    ensures AlwaysExact(steps) <==> NeverLoses(steps)
    ensures Over(Run(INIT, steps).status) ==> Run(INIT, steps).workers == map[] && Stable(Run(INIT, steps))
  {
    CleanIffQuiet(steps);
    HistoryIsExactIff(steps);
    forall k | 0 <= k < |steps| ensures !Overturns(StateAt(steps, k), steps[k]) {
      QuietIsNotOverturned(StateAt(steps, k), steps[k]);
    }
    assert StateAt(steps, |steps|) == Run(INIT, steps) by {
      assert steps[..|steps|] == steps;
    }
    if Over(Run(INIT, steps).status) {
      StableIffNoWorker(Run(INIT, steps));
    }
  }

  lemma SameOutcomeIsExact(s: State, t: State)
    requires Over(s.status) && ExactlyOne(s)
    ensures SameOutcome(s, t) <==> ExactlyOne(t) && t.status == s.status
  {
  }

  /** A worker that is still at work can always spoil the log within two steps. */
  lemma WorkerSpoils(s: State, w: nat) returns (more: seq<Step>)
    requires Over(s.status) && ExactlyOne(s) && w in s.workers
    ensures !ExactlyOne(Run(s, more))
  {
    match s.workers[w]
    case Loaded =>
      RunOne(s, CheckFlag(w, Stored));
      if s.cancelFlag {
        more := [CheckFlag(w, Stored)];
        ExactKeptIff(s, CheckFlag(w, Stored));
      } else {
        more := [CheckFlag(w, Stored), Enter(w, "")];
        RunTwo(s, CheckFlag(w, Stored), Enter(w, ""));
        ExactKeptIff(s, CheckFlag(w, Stored));
        ExactKeptIff(Next(s, CheckFlag(w, Stored)), Enter(w, ""));
      }
    case Cleared =>
      more := [Enter(w, "")];
      RunOne(s, Enter(w, ""));
      ExactKeptIff(s, Enter(w, ""));
    case Active(_) =>
      more := [Fail(w, Stored)];
      RunOne(s, Fail(w, Stored));
      ExactKeptIff(s, Fail(w, Stored));
  }

  /** From a final status with one event and message: they stay exact whatever comes, if and only if no worker
      is at work. */
  lemma ExactForeverIffNoWorker(s: State)
    requires Over(s.status) && ExactlyOne(s)
    ensures (forall more :: ExactlyOne(Run(s, more))) <==> s.workers == map[]
  {
    if s.workers == map[] {
      forall more ensures ExactlyOne(Run(s, more)) {
        QuietStaysQuiet(s, more);
        SameOutcomeIsExact(s, Run(s, more));
      }
    } else {
      var w :| w in s.workers;
      var more := WorkerSpoils(s, w);
      assert !ExactlyOne(Run(s, more));
    }
  }

  /** Along a history every final status is final from the moment it is written, exactly if the
      history is clean. */
  lemma FinalIsFinalIffClean(steps: seq<Step>)
    ensures (forall k :: 0 <= k <= |steps| ==> (Over(StateAt(steps, k).status) ==> Stable(StateAt(steps, k)))) <==>
            AllClean(steps)
  {
    CleanIffQuiet(steps);
    forall k | 0 <= k <= |steps| && Over(StateAt(steps, k).status)
      ensures Stable(StateAt(steps, k)) <==> StateAt(steps, k).workers == map[]
    {
      StableIffNoWorker(StateAt(steps, k));
    }
  }

  lemma RunFive(s: State, a: Step, b: Step, c: Step, d: Step, e: Step)
    ensures Run(s, [a, b, c, d]) == Next(Next(Next(Next(s, a), b), c), d)
    ensures Run(s, [a, b, c, d, e]) == Next(Next(Next(Next(Next(s, a), b), c), d), e)
  {
    RunTwo(s, a, b);
    assert [a, b, c][..2] == [a, b] && [a, b, c, d][..3] == [a, b, c] && [a, b, c, d, e][..4] == [a, b, c, d];
    assert Run(s, [a, b, c]) == Next(Run(s, [a, b]), c);
  }

  /** After a worker has started on a new execution. */
  function Running(w: nat, name: string): State {
    Execution(RUNNING, false, [Other(name)], 0, map[w := Active(false)])
  }

  lemma Started(w: nat, name: string)
    ensures Next(Next(Next(INIT, Load(w)), CheckFlag(w, Stored)), Enter(w, name)) == Running(w, name)
    ensures TerminalEvents(Running(w, name).log) == []
  {
    Appended([], Other(name));
    assert [] + [Other(name)] == [Other(name)];
  }

  /** After a cancel under that worker. */
  function CancelledRunning(w: nat, name: string): State {
    Execution(Final(CANCELLED), true, [Other(name), CANCELLED], 0, map[w := Active(false)])
  }

  lemma CancelRunning(w: nat, name: string)
    ensures Next(Running(w, name), Cancel(Stored)) == CancelledRunning(w, name)
    ensures ExactlyOne(CancelledRunning(w, name))
  {
    WritingEffect(Running(w, name), Cancel(Stored));
    Appended([], Other(name));
    assert [Other(name)] + [CANCELLED] == [Other(name), CANCELLED];
    assert [] + [Other(name)] == [Other(name)];
  }

  lemma FinishCancelled(w: nat, name: string)
    ensures var t := Next(CancelledRunning(w, name), Finish(w, Stored, Stored));
            t.status == Final(COMPLETED) && TerminalEvents(t.log) == [CANCELLED, COMPLETED]
  {
    CancelRunning(w, name);
    WritingEffect(CancelledRunning(w, name), Finish(w, Stored, Stored));
  }

  /** On any new execution: a cancel that is accepted while a worker runs the graph is overturned by the worker,
      which completes; the log then holds two terminal events. */
  lemma CancelIsOverturned(w: nat, name: string)
    ensures var s := Run(INIT, [Load(w), CheckFlag(w, Stored), Enter(w, name), Cancel(Stored)]);
            var t := Run(INIT, [Load(w), CheckFlag(w, Stored), Enter(w, name), Cancel(Stored),
                                Finish(w, Stored, Stored)]);
            && s.status == Final(CANCELLED) && ExactlyOne(s)
            && t.status == Final(COMPLETED) && TerminalEvents(t.log) == [CANCELLED, COMPLETED]
  {
    RunFive(INIT, Load(w), CheckFlag(w, Stored), Enter(w, name), Cancel(Stored), Finish(w, Stored, Stored));
    Started(w, name);
    CancelRunning(w, name);
    FinishCancelled(w, name);
  }

  /** On any new execution: if the COMPLETED event of a finished run is lost, the execution ends FAILED, with the
      message of the answer and no COMPLETED event. */
  lemma CompletionIsLost(w: nat, name: string)
    ensures var t := Run(INIT, [Load(w), CheckFlag(w, Stored), Enter(w, name), Finish(w, Lost, Stored)]);
            t.status == Final(FAILED) && TerminalEvents(t.log) == [FAILED] && t.messages == 1
  {
    var last := Finish(w, Lost, Stored);
    RunFive(INIT, Load(w), CheckFlag(w, Stored), Enter(w, name), last, last);
    Started(w, name);
    WritingEffect(Running(w, name), last);
  }

  // ── Which jobs run ──────────────────────────────────────────────────────────────

  lemma RunThree(s: State, a: Step, b: Step, c: Step)
    ensures Run(s, [a, b, c]) == Next(Next(Next(s, a), b), c)
  {
    RunTwo(s, a, b);
    assert [a, b, c][..2] == [a, b];
  }

  /** The steps with which a job begins. */
  function JobBegins(v: nat, append: Append, name: string): seq<Step> {
    [Load(v), CheckFlag(v, append), Enter(v, name)]
  }

  /** From every state, what a job does first: it puts a worker at work exactly if the execution is new, running, or
      waiting for approval, and no cancel is requested; if one is, it cancels; in every other status it does nothing. */
  lemma JobRunsIff(s: State, v: nat, append: Append, name: string)
    requires v !in s.workers
    ensures var t := Run(s, JobBegins(v, append, name));
            if s.status != CREATED && s.status != RUNNING && s.status != WAITING_FOR_APPROVAL then t == s
            else if s.cancelFlag then
              t == Execution(Final(CANCELLED), append.Lost?, s.log + (if append.Stored? then [CANCELLED] else []),
                             s.messages, s.workers)
            else t == Execution(RUNNING, false, s.log + [Other(name)], s.messages, s.workers[v := Active(false)])
  {
    RunThree(s, Load(v), CheckFlag(v, append), Enter(v, name));
    if Resumable(s.status) {
      var loaded := Next(s, Load(v));
      var next := Next(loaded, CheckFlag(v, append));
      assert loaded == s.(workers := s.workers[v := Loaded]);
      if s.cancelFlag {
        assert loaded.workers - {v} == s.workers;
      } else {
        assert next == s.(workers := s.workers[v := Cleared]);
        assert next.workers[v := Active(false)] == s.workers[v := Active(false)];
      }
    }
  }

  /** The events that the approval of a paused execution brings. */
  function ApprovalEvents(names: seq<string>): seq<Step> {
    if names == [] then [] else ApprovalEvents(names[..|names| - 1]) + [ApprovalEvent(names[|names| - 1])]
  }

  function NodeEvents(w: nat, names: seq<string>): seq<Step> {
    if names == [] then [] else NodeEvents(w, names[..|names| - 1]) + [NodeEvent(w, names[|names| - 1])]
  }

  function Named(names: seq<string>): seq<Kind> {
    if names == [] then [] else Named(names[..|names| - 1]) + [Other(names[|names| - 1])]
  }

  lemma RunSnoc(s: State, steps: seq<Step>, a: Step)
    ensures Run(s, steps + [a]) == Next(Run(s, steps), a)
  {
    assert (steps + [a])[..|steps|] == steps;
  }

  lemma {:induction false} ApprovalsAreLogged(s: State, names: seq<string>)
    ensures Run(s, ApprovalEvents(names)) == s.(log := s.log + Named(names))
  {
    if names != [] {
      ApprovalsAreLogged(s, names[..|names| - 1]);
      RunSnoc(s, ApprovalEvents(names[..|names| - 1]), ApprovalEvent(names[|names| - 1]));
    }
  }

  lemma {:induction false} NodeEventsAreLogged(s: State, w: nat, names: seq<string>)
    requires IsActive(s, w)
    ensures Run(s, NodeEvents(w, names)) == s.(log := s.log + Named(names))
  {
    if names != [] {
      NodeEventsAreLogged(s, w, names[..|names| - 1]);
      RunSnoc(s, NodeEvents(w, names[..|names| - 1]), NodeEvent(w, names[|names| - 1]));
    }
  }

  /** A pause is resumed: whatever the approval brings, the job that it queues puts a worker to work. */
  lemma PausedIsResumed(s: State, w: nat, names: seq<string>, v: nat, append: Append, name: string)
    requires IsActive(s, w) && !s.cancelFlag && v !in s.workers - {w}
    ensures Run(Run(Next(s, Pause(w)), ApprovalEvents(names)), JobBegins(v, append, name))
         == Execution(RUNNING, false, s.log + [Other("WAITING_FOR_APPROVAL")] + Named(names) + [Other(name)],
                      s.messages, (s.workers - {w})[v := Active(false)])
  {
    var paused := Next(s, Pause(w));
    ApprovalsAreLogged(paused, names);
    JobRunsIff(Run(paused, ApprovalEvents(names)), v, append, name);
  }

  /** So is a run whose worker died at any point. */
  lemma CrashedIsResumed(s: State, w: nat, names: seq<string>, v: nat, append: Append, name: string)
    requires IsActive(s, w) && s.status.RUNNING? && !s.cancelFlag && v !in s.workers - {w}
    ensures Run(Next(Run(s, NodeEvents(w, names)), Crash(w)), JobBegins(v, append, name))
         == Execution(RUNNING, false, s.log + Named(names) + [Other(name)], s.messages,
                      (s.workers - {w})[v := Active(false)])
  {
    NodeEventsAreLogged(s, w, names);
    JobRunsIff(Next(Run(s, NodeEvents(w, names)), Crash(w)), v, append, name);
  }

  /** A cancel request under a running worker stops it at its next poll, unless the flag has expired before. */
  lemma CancelStopsUnlessExpired(s: State, w: nat, a: Append, b: Append)
    requires w in s.workers && s.workers[w] == Active(false) && !Over(s.status)
    ensures Run(s, [Cancel(a), Poll(w), Abort(w, b)])
         == Execution(Final(CANCELLED), b.Lost?, Logged(Logged(s.log, CANCELLED, a), CANCELLED, b), s.messages,
                      s.workers - {w})
    ensures Run(s, [Cancel(a), FlagExpires] + [Poll(w), Abort(w, b)])
         == Execution(Final(CANCELLED), false, Logged(s.log, CANCELLED, a), s.messages, s.workers)
  {
    RunThree(s, Cancel(a), Poll(w), Abort(w, b));
    var polled := Next(Next(s, Cancel(a)), Poll(w));
    assert polled.workers - {w} == s.workers - {w};
    RunTwo(s, Cancel(a), FlagExpires);
    assert [Cancel(a), FlagExpires] + [Poll(w), Abort(w, b)] == [Cancel(a), FlagExpires, Poll(w)] + [Abort(w, b)];
    assert [Cancel(a), FlagExpires, Poll(w)] == [Cancel(a), FlagExpires] + [Poll(w)];
    RunSnoc(s, [Cancel(a), FlagExpires], Poll(w));
    RunSnoc(s, [Cancel(a), FlagExpires, Poll(w)], Abort(w, b));
  }
}

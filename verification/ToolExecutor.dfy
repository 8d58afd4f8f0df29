/** Tool invocations and their rows: the idempotency lookup, the row's life, and crashes
    between any two persisted steps. */
module ToolExecutor {
  import opened Wrappers

  datatype Status = PENDING | RUNNING | SUCCESS | ERROR | CANCELLED

  /** What a repeated invocation is recognised by. The hash may be any function of the input. */
  datatype Key = Key(executionId: Uuid, toolName: string, hash: string)

  /** A row is identified by its position in the table. */
  datatype ToolCall = ToolCall(key: Key, status: Status, output: Option<string>)

  /** Where the one invocation in progress of an execution stands. */
  datatype Phase =
    | Created(row: nat)                  // the row exists, PENDING
    | Running(row: nat)                  // marked RUNNING
    | Executed(row: nat, output: string) // the tool returned, nothing persisted of it yet
    | Marked(row: nat)                   // marked SUCCESS, TOOL_RESULT not appended yet
    | Failing(row: nat, timedOut: bool)  // the tool, or the append, failed

  datatype Reply = Result(callId: nat, status: Status, output: Option<string>) | Threw

  /** `calls` counts how often the tool was run for a key; `replies` is what invocations returned. */
  datatype State = State(
    rows: seq<ToolCall>, busy: map<Uuid, Phase>, calls: map<Key, nat>, replies: seq<(Key, Reply)>)

  datatype Step =
    | Begin(key: Key)
    | MarkRunning(x: Uuid)
    | Returned(x: Uuid, output: string)
    | Failed(x: Uuid, timedOut: bool)
    | MarkSuccess(x: Uuid)
    | ResultAppended(x: Uuid)
    | ResultAppendFailed(x: Uuid, timedOut: bool)
    | MarkFailed(x: Uuid)
    | Crash(x: Uuid)   // the worker dies, or an append before the call throws

  const INIT := State([], map[], map[], [])

  /** `findFirst` of a SUCCESS row with the same execution, tool and hash. */
  function FindSuccess(rows: seq<ToolCall>, key: Key): (i: Option<nat>)
    ensures i.Some? ==> i.value < |rows| && rows[i.value].key == key && rows[i.value].status.SUCCESS?
    ensures i.None? ==> forall j :: 0 <= j < |rows| && rows[j].key == key ==> !rows[j].status.SUCCESS?
  {
    if rows == [] then None
    else
      var rest := FindSuccess(rows[..|rows| - 1], key);
      if rest.Some? then rest
      else if rows[|rows| - 1].key == key && rows[|rows| - 1].status.SUCCESS? then Some(|rows| - 1)
      else None
  }

  function CallsOf(s: State, key: Key): nat {
    if key in s.calls then s.calls[key] else 0
  }

  predicate InPhase(s: State, x: Uuid) {
    x in s.busy && s.busy[x].row < |s.rows|
  }

  function SetStatus(s: State, x: Uuid, status: Status, output: Option<string>): seq<ToolCall>
    requires InPhase(s, x)
  {
    var i := s.busy[x].row;
    s.rows[i := s.rows[i].(status := status, output := output)]
  }

  /** Invocations of one execution are serial: a second one begins only when none is in progress. */
  function Next(s: State, step: Step): State {
    match step
    case Begin(key) =>
      if key.executionId in s.busy then s
      else
        var existing := FindSuccess(s.rows, key);
        if existing.Some? then
          s.(replies := s.replies + [(key, Result(existing.value, SUCCESS, s.rows[existing.value].output))])
        else
          s.(rows := s.rows + [ToolCall(key, PENDING, None)],
             busy := s.busy[key.executionId := Created(|s.rows|)])
    case MarkRunning(x) =>
      if InPhase(s, x) && s.busy[x].Created?
      then s.(rows := SetStatus(s, x, RUNNING, None), busy := s.busy[x := Running(s.busy[x].row)])
      else s
    case Returned(x, output) =>
      if InPhase(s, x) && s.busy[x].Running? then
        var key := s.rows[s.busy[x].row].key;
        s.(busy := s.busy[x := Executed(s.busy[x].row, output)], calls := s.calls[key := CallsOf(s, key) + 1])
      else s
    case Failed(x, timedOut) =>
      if InPhase(s, x) && s.busy[x].Running? then
        var key := s.rows[s.busy[x].row].key;
        s.(busy := s.busy[x := Failing(s.busy[x].row, timedOut)], calls := s.calls[key := CallsOf(s, key) + 1])
      else s
    case MarkSuccess(x) =>
      if InPhase(s, x) && s.busy[x].Executed?
      then s.(rows := SetStatus(s, x, SUCCESS, Some(s.busy[x].output)), busy := s.busy[x := Marked(s.busy[x].row)])
      else s
    case ResultAppended(x) =>
      if InPhase(s, x) && s.busy[x].Marked? then
        var i := s.busy[x].row;
        s.(busy := s.busy - {x}, replies := s.replies + [(s.rows[i].key, Result(i, SUCCESS, s.rows[i].output))])
      else s
    case ResultAppendFailed(x, timedOut) =>
      // The append stands inside the try block: its failure is handled like the tool's.
      if InPhase(s, x) && s.busy[x].Marked? then s.(busy := s.busy[x := Failing(s.busy[x].row, timedOut)]) else s
    case MarkFailed(x) =>
      if InPhase(s, x) && s.busy[x].Failing? then
        var i := s.busy[x].row;
        var status := if s.busy[x].timedOut then CANCELLED else ERROR;
        s.(rows := SetStatus(s, x, status, s.rows[i].output), busy := s.busy - {x},
           replies := s.replies + [(s.rows[i].key, Result(i, status, None))])
      else s
    case Crash(x) => s.(busy := s.busy - {x})
  }

  function Run(s: State, steps: seq<Step>): State {
    if steps == [] then s else Next(Run(s, steps[..|steps| - 1]), steps[|steps| - 1])
  }

  // ── Invariants ──────────────────────────────────────────────────────────────────

  predicate Succeeded(rows: seq<ToolCall>, i: nat, key: Key) {
    i < |rows| && rows[i].key == key && rows[i].status.SUCCESS?
  }

  /** At most one SUCCESS row per execution, tool and hash. */
  predicate OneSuccess(rows: seq<ToolCall>) {
    forall i, j :: 0 <= i < j < |rows| && rows[i].key == rows[j].key ==>
      !(rows[i].status.SUCCESS? && rows[j].status.SUCCESS?)
  }

  /** An invocation in progress owns its row, whose key has no SUCCESS elsewhere. */
  predicate Owns(s: State, x: Uuid)
    requires x in s.busy
  {
    var p := s.busy[x];
    && p.row < |s.rows| && s.rows[p.row].key.executionId == x
    && (p.Created? || p.Running? || p.Executed? ==> !s.rows[p.row].status.SUCCESS?)
    && (p.Marked? ==> s.rows[p.row].status.SUCCESS?)
    && (forall j :: 0 <= j < |s.rows| && j != p.row && s.rows[j].key == s.rows[p.row].key ==>
          !s.rows[j].status.SUCCESS?)
  }

  predicate Inv(s: State) {
    OneSuccess(s.rows) && forall x :: x in s.busy ==> Owns(s, x)
  }

  /** The invocation of `x` changes its own row, keeping its key, and then goes on or ends. */
  lemma OwnRowKeepsInv(s: State, x: Uuid, status: Status, output: Option<string>, t: State)
    requires Inv(s) && x in s.busy && s.busy[x].row < |s.rows|
    requires t.rows == SetStatus(s, x, status, output)
    requires t.busy == s.busy - {x}
             || (x in t.busy && t.busy == s.busy[x := t.busy[x]] && t.busy[x].row == s.busy[x].row)
    requires x in t.busy ==> (t.busy[x].Marked? ==> status.SUCCESS?)
    requires x in t.busy && !t.busy[x].Marked? && !t.busy[x].Failing? ==> !status.SUCCESS?
    ensures Inv(t)
  {
    var i := s.busy[x].row;
    assert Owns(s, x);
    assert forall j :: 0 <= j < |s.rows| && j != i ==> t.rows[j] == s.rows[j];
    assert t.rows[i].key == s.rows[i].key;
    forall y | y in t.busy ensures Owns(t, y) {
      assert Owns(s, y);
      if y != x {
        assert s.busy[y].row != i;
      }
    }
  }

  lemma BeginKeepsInv(s: State, key: Key)
    requires Inv(s)
    ensures Inv(Next(s, Begin(key)))
  {
    var t := Next(s, Begin(key));
    if t.rows != s.rows {
      forall y | y in t.busy ensures Owns(t, y) {
        if y in s.busy {
          assert Owns(s, y);
        }
      }
    }
  }

  lemma StepKeepsInv(s: State, step: Step)
    requires Inv(s)
    ensures Inv(Next(s, step))
  {
    var t := Next(s, step);
    match step
    case Begin(key) => BeginKeepsInv(s, key);
    case MarkRunning(x) =>
      if InPhase(s, x) && s.busy[x].Created? { OwnRowKeepsInv(s, x, RUNNING, None, t); }
    case Returned(x, output) => SameRowKeepsInv(s, x, t);
    case Failed(x, timedOut) => SameRowKeepsInv(s, x, t);
    case MarkSuccess(x) =>
      if InPhase(s, x) && s.busy[x].Executed? { OwnRowKeepsInv(s, x, SUCCESS, Some(s.busy[x].output), t); }
    case ResultAppended(x) => SameRowKeepsInv(s, x, t);
    case ResultAppendFailed(x, timedOut) => SameRowKeepsInv(s, x, t);
    case MarkFailed(x) =>
      if InPhase(s, x) && s.busy[x].Failing? {
        OwnRowKeepsInv(s, x, if s.busy[x].timedOut then CANCELLED else ERROR, s.rows[s.busy[x].row].output, t);
      }
    case Crash(x) => SameRowKeepsInv(s, x, t);
  }

  /** The invocation of `x` only moves on, or ends. */
  lemma SameRowKeepsInv(s: State, x: Uuid, t: State)
    requires Inv(s) && t.rows == s.rows
    requires t.busy == s.busy - {x} || t.busy == s.busy
             || (x in s.busy && x in t.busy && t.busy == s.busy[x := t.busy[x]] && t.busy[x].row == s.busy[x].row
                 && !t.busy[x].Marked? && (t.busy[x].Failing? || (s.busy[x].Running? && t.busy[x].Executed?)))
    ensures Inv(t)
  {
    forall y | y in t.busy ensures Owns(t, y) {
      assert Owns(s, y);
    }
  }

  /** With serial invocations per execution and a crash possible after any persisted step: there
      is never more than one SUCCESS row per execution, tool and hash. */
  lemma {:induction false} AtMostOneSuccess(steps: seq<Step>)
    ensures Inv(Run(INIT, steps))
  {
    if steps != [] {
      AtMostOneSuccess(steps[..|steps| - 1]);
      StepKeepsInv(Run(INIT, steps[..|steps| - 1]), steps[|steps| - 1]);
    }
  }

  // ── Reuse ───────────────────────────────────────────────────────────────────────

  /** The branch that takes a success back: the failure of an invocation is written over row `i`. */
  predicate Overwrites(s: State, step: Step, i: nat) {
    step.MarkFailed? && InPhase(s, step.x) && s.busy[step.x].Failing? && s.busy[step.x].row == i
  }

  /** What a matching invocation is told: the id and output of row `i`. */
  predicate Reuses(s: State, t: State, i: nat, key: Key)
    requires i < |s.rows|
  {
    && t.rows == s.rows && t.busy == s.busy && t.calls == s.calls
    && t.replies == s.replies + [(key, Result(i, SUCCESS, s.rows[i].output))]
  }

  /** An invocation that could begin now would reuse row `i`. */
  predicate ReusesNow(s: State, i: nat, key: Key) {
    key.executionId !in s.busy ==> i < |s.rows| && Reuses(s, Next(s, Begin(key)), i, key)
  }

  lemma SuccessIsReused(s: State, i: nat, key: Key)
    requires Inv(s) && Succeeded(s.rows, i, key)
    ensures ReusesNow(s, i, key)
  {
    var found := FindSuccess(s.rows, key);
    assert found.Some? && found.value == i;
  }

  /** While row `i` is a success, no invocation of its key is on its way to run the tool. */
  lemma NoneOnItsWay(s: State, x: Uuid, i: nat, key: Key)
    requires Inv(s) && Succeeded(s.rows, i, key) && x in s.busy
    ensures s.busy[x].row < |s.rows|
    ensures !s.busy[x].Marked? && !s.busy[x].Failing? ==> s.rows[s.busy[x].row].key != key
    ensures s.rows[s.busy[x].row].key == key ==> s.busy[x].row == i && x == key.executionId
  {
    assert Owns(s, x);
  }

  /** One step keeps a success exactly if it does not write a failure over it; a step that keeps it leaves
      the row as it is and does not run the tool for its key; one that does not leaves the key without any
      success and its execution free to run the tool again. */
  lemma StepKeepsSuccessIff(s: State, step: Step, i: nat, key: Key)
    requires Inv(s) && Succeeded(s.rows, i, key)
    ensures var t := Next(s, step);
            && (Succeeded(t.rows, i, key) <==> !Overwrites(s, step, i))
            && (!Overwrites(s, step, i) ==> t.rows[i] == s.rows[i] && CallsOf(t, key) == CallsOf(s, key))
            && (Overwrites(s, step, i) ==> key.executionId !in t.busy && FindSuccess(t.rows, key).None?)
  {
    if !step.Begin? && step.x in s.busy {
      NoneOnItsWay(s, step.x, i, key);
      assert Owns(s, step.x);
    }
  }

  predicate OverwrittenAt(s: State, steps: seq<Step>, i: nat, k: nat)
    requires k < |steps|
  {
    Overwrites(Run(s, steps[..k]), steps[k], i)
  }

  predicate NeverOverwritten(s: State, steps: seq<Step>, i: nat) {
    forall k :: 0 <= k < |steps| ==> !OverwrittenAt(s, steps, i, k)
  }

  lemma OverwrittenAtPrefix(s: State, steps: seq<Step>, i: nat, n: nat, k: nat)
    requires k < n <= |steps|
    ensures OverwrittenAt(s, steps[..n], i, k) <==> OverwrittenAt(s, steps, i, k)
  {
    assert steps[..n][..k] == steps[..k];
  }

  lemma NeverOverwrittenFront(s: State, steps: seq<Step>, i: nat)
    requires steps != []
    ensures var front := steps[..|steps| - 1];
            NeverOverwritten(s, steps, i) <==>
            NeverOverwritten(s, front, i) && !Overwrites(Run(s, front), steps[|steps| - 1], i)
  {
    var n := |steps| - 1;
    forall k | 0 <= k < n ensures OverwrittenAt(s, steps[..n], i, k) <==> OverwrittenAt(s, steps, i, k) {
      OverwrittenAtPrefix(s, steps, i, n, k);
    }
    assert OverwrittenAt(s, steps, i, n) <==> Overwrites(Run(s, steps[..n]), steps[n], i);
  }

  lemma {:induction false} InvHolds(s: State, steps: seq<Step>)
    requires Inv(s)
    ensures Inv(Run(s, steps))
  {
    if steps != [] {
      InvHolds(s, steps[..|steps| - 1]);
      StepKeepsInv(Run(s, steps[..|steps| - 1]), steps[|steps| - 1]);
    }
  }

  /** While it is never overwritten: the row stays as it is, the tool is never run again for its key, and
      whenever a matching invocation can begin it returns the id and output of the row. */
  lemma {:induction false} SuccessStands(s: State, steps: seq<Step>, i: nat, key: Key)
    requires Inv(s) && Succeeded(s.rows, i, key) && NeverOverwritten(s, steps, i)
    ensures var t := Run(s, steps);
            && Succeeded(t.rows, i, key) && t.rows[i] == s.rows[i]
            && CallsOf(t, key) == CallsOf(s, key)
            && ReusesNow(t, i, key)
  {
    InvHolds(s, steps);
    if steps != [] {
      var front, last := steps[..|steps| - 1], steps[|steps| - 1];
      NeverOverwrittenFront(s, steps, i);
      SuccessStands(s, front, i, key);
      InvHolds(s, front);
      StepKeepsSuccessIff(Run(s, front), last, i, key);
    }
    SuccessIsReused(Run(s, steps), i, key);
  }

  /** Row `i` is a success at every moment of the history. */
  predicate AlwaysSucceeded(s: State, steps: seq<Step>, i: nat, key: Key) {
    forall k :: 0 <= k <= |steps| ==> Succeeded(Run(s, steps[..k]).rows, i, key)
  }

  /** At every moment of the history a matching invocation that could begin would reuse row `i`. */
  predicate AlwaysReused(s: State, steps: seq<Step>, i: nat, key: Key) {
    forall k :: 0 <= k <= |steps| ==> ReusesNow(Run(s, steps[..k]), i, key)
  }

  lemma NeverOverwrittenPrefix(s: State, steps: seq<Step>, i: nat, k: nat)
    requires k <= |steps| && NeverOverwritten(s, steps, i)
    ensures NeverOverwritten(s, steps[..k], i)
  {
    forall j | 0 <= j < k ensures !OverwrittenAt(s, steps[..k], i, j) {
      OverwrittenAtPrefix(s, steps, i, k, j);
    }
  }

  /** The first overwriting step of a history. */
  lemma {:induction false} FirstOverwrite(s: State, steps: seq<Step>, i: nat) returns (k: nat)
    requires !NeverOverwritten(s, steps, i)
    ensures k < |steps| && OverwrittenAt(s, steps, i, k) && NeverOverwritten(s, steps[..k], i)
    decreases |steps|
  {
    var front := steps[..|steps| - 1];
    NeverOverwrittenFront(s, steps, i);
    if NeverOverwritten(s, front, i) {
      k := |steps| - 1;
    } else {
      k := FirstOverwrite(s, front, i);
      OverwrittenAtPrefix(s, steps, i, |front|, k);
      assert front[..k] == steps[..k];
    }
  }

  /** Right after a failure is written over it, the row is no success and the next invocation of its key
      does not reuse it. */
  lemma OverwriteEndsReuse(s: State, steps: seq<Step>, i: nat, key: Key, k: nat)
    requires Inv(s) && Succeeded(s.rows, i, key) && k < |steps|
    requires NeverOverwritten(s, steps[..k], i) && OverwrittenAt(s, steps, i, k)
    ensures !Succeeded(Run(s, steps[..k + 1]).rows, i, key)
    ensures !ReusesNow(Run(s, steps[..k + 1]), i, key)
  {
    InvHolds(s, steps[..k]);
    SuccessStands(s, steps[..k], i, key);
    StepKeepsSuccessIff(Run(s, steps[..k]), steps[k], i, key);
    assert steps[..k + 1][..k] == steps[..k];
  }

  /** Exactly when a stored success lasts, over every history: it stays a success at every moment, and at every
      moment a matching invocation would return its id and output without running the tool, if and only if no
      invocation writes its failure over the row. */
  lemma SuccessLastsIff(s: State, steps: seq<Step>, i: nat, key: Key)
    requires Inv(s) && Succeeded(s.rows, i, key)
    ensures AlwaysSucceeded(s, steps, i, key) <==> NeverOverwritten(s, steps, i)
    ensures AlwaysReused(s, steps, i, key) <==> NeverOverwritten(s, steps, i)
  {
    if NeverOverwritten(s, steps, i) {
      forall k | 0 <= k <= |steps|
        ensures Succeeded(Run(s, steps[..k]).rows, i, key) && ReusesNow(Run(s, steps[..k]), i, key)
      {
        NeverOverwrittenPrefix(s, steps, i, k);
        SuccessStands(s, steps[..k], i, key);
      }
    } else {
      var k := FirstOverwrite(s, steps, i);
      OverwriteEndsReuse(s, steps, i, key, k);
    }
  }

  /** After a failed append of the result, the writing of the failure decides: the success is kept if the
      worker dies before it, and lost if it is carried out. */
  lemma FailedAppendDecides(s: State, x: Uuid, timedOut: bool)
    requires Inv(s) && x in s.busy && s.busy[x].Marked?
    ensures var i := s.busy[x].row;
            var key := s.rows[i].key;
            var failing := Next(s, ResultAppendFailed(x, timedOut));
            && ReusesNow(Next(s, ResultAppended(x)), i, key)
            && ReusesNow(Next(failing, Crash(x)), i, key)
            && !ReusesNow(Next(failing, MarkFailed(x)), i, key)
  {
    assert Owns(s, x);
    var i := s.busy[x].row;
    var key := s.rows[i].key;
    var failing := Next(s, ResultAppendFailed(x, timedOut));
    StepKeepsInv(s, ResultAppended(x));
    SuccessIsReused(Next(s, ResultAppended(x)), i, key);
    StepKeepsInv(s, ResultAppendFailed(x, timedOut));
    StepKeepsInv(failing, Crash(x));
    SuccessIsReused(Next(failing, Crash(x)), i, key);
    StepKeepsSuccessIff(failing, MarkFailed(x), i, key);
  }

  // ── One invocation ──────────────────────────────────────────────────────────────

  /** How running the tool turned out. */
  datatype Outcome = Ok(output: string) | Error(timedOut: bool)

  /** The status in which an invocation leaves its row: a timeout cancels it, every other failure is an error, and the
      failed append of the result event counts as one or the other. */
  function StatusFor(outcome: Outcome, appended: bool, lateTimeout: bool): Status {
    match outcome
    case Ok(_) => if appended then SUCCESS else if lateTimeout then CANCELLED else ERROR
    case Error(timedOut) => if timedOut then CANCELLED else ERROR
  }

  /** The output, once stored, stays in the row. */
  function OutputFor(outcome: Outcome): Option<string> {
    if outcome.Ok? then Some(outcome.output) else None
  }

  function ReplyFor(callId: nat, outcome: Outcome, appended: bool, lateTimeout: bool): Reply {
    var status := StatusFor(outcome, appended, lateTimeout);
    Result(callId, status, if status == SUCCESS then OutputFor(outcome) else None)
  }

  /** The persisted steps of an invocation that does not crash, from the first row on. */
  function InvocationSteps(key: Key, outcome: Outcome, appended: bool, lateTimeout: bool): seq<Step> {
    var x := key.executionId;
    match outcome
    case Ok(output) =>
      if appended then [Begin(key), MarkRunning(x), Returned(x, output), MarkSuccess(x)] + [ResultAppended(x)]
      else [Begin(key), MarkRunning(x), Returned(x, output), MarkSuccess(x)]
           + [ResultAppendFailed(x, lateTimeout)] + [MarkFailed(x)]
    case Error(timedOut) => [Begin(key), MarkRunning(x)] + [Failed(x, timedOut)] + [MarkFailed(x)]
  }

  /** The one row that an invocation adds to those of `s`, and where it stands. */
  predicate Adds(s: State, t: State, key: Key, status: Status, output: Option<string>, phase: Phase, calls: nat) {
    && t.rows == s.rows + [ToolCall(key, status, output)] && t.replies == s.replies
    && t.busy == s.busy[key.executionId := phase] && phase.row == |s.rows|
    && t.calls == (if calls == 0 then s.calls else s.calls[key := CallsOf(s, key) + calls])
  }

  lemma RunSnoc(s: State, steps: seq<Step>, a: Step)
    ensures Run(s, steps + [a]) == Next(Run(s, steps), a)
  {
    assert (steps + [a])[..|steps|] == steps;
  }

  lemma Ends(s: State, t: State, key: Key, status: Status, output: Option<string>, phase: Phase, calls: nat)
    requires key.executionId !in s.busy && Adds(s, t, key, status, output, phase, calls)
    ensures t.busy - {key.executionId} == s.busy
    ensures InPhase(t, key.executionId) && t.rows[|s.rows|] == ToolCall(key, status, output)
  {
  }

  lemma BeginsRow(s: State, key: Key)
    requires key.executionId !in s.busy && FindSuccess(s.rows, key).None?
    ensures Adds(s, Next(s, Begin(key)), key, PENDING, None, Created(|s.rows|), 0)
  {
  }

  lemma RunsRow(s: State, t: State, key: Key)
    requires Adds(s, t, key, PENDING, None, Created(|s.rows|), 0)
    ensures Adds(s, Next(t, MarkRunning(key.executionId)), key, RUNNING, None, Running(|s.rows|), 0)
  {
  }

  lemma ReturnsRow(s: State, t: State, key: Key, output: string)
    requires Adds(s, t, key, RUNNING, None, Running(|s.rows|), 0)
    ensures Adds(s, Next(t, Returned(key.executionId, output)), key, RUNNING, None, Executed(|s.rows|, output), 1)
  {
  }

  lemma FailsRow(s: State, t: State, key: Key, timedOut: bool)
    requires Adds(s, t, key, RUNNING, None, Running(|s.rows|), 0)
    ensures Adds(s, Next(t, Failed(key.executionId, timedOut)), key, RUNNING, None, Failing(|s.rows|, timedOut), 1)
  {
  }

  lemma SucceedsRow(s: State, t: State, key: Key, output: string)
    requires Adds(s, t, key, RUNNING, None, Executed(|s.rows|, output), 1)
    ensures Adds(s, Next(t, MarkSuccess(key.executionId)), key, SUCCESS, Some(output), Marked(|s.rows|), 1)
  {
  }

  /** What is left of an invocation that began and ended: one row, one call and one reply. */
  predicate Leaves(s: State, t: State, key: Key, outcome: Outcome, appended: bool, lateTimeout: bool) {
    && t.rows == s.rows + [ToolCall(key, StatusFor(outcome, appended, lateTimeout), OutputFor(outcome))]
    && t.calls == s.calls[key := CallsOf(s, key) + 1] && t.busy == s.busy
    && t.replies == s.replies + [(key, ReplyFor(|s.rows|, outcome, appended, lateTimeout))]
  }

  lemma RunsToRunning(s: State, key: Key)
    requires key.executionId !in s.busy && FindSuccess(s.rows, key).None?
    ensures Adds(s, Run(s, [Begin(key), MarkRunning(key.executionId)]), key, RUNNING, None, Running(|s.rows|), 0)
  {
    var x := key.executionId;
    BeginsRow(s, key);
    RunsRow(s, Next(s, Begin(key)), key);
    RunSnoc(s, [], Begin(key));
    RunSnoc(s, [Begin(key)], MarkRunning(x));
    assert [] + [Begin(key)] == [Begin(key)] && [Begin(key)] + [MarkRunning(x)] == [Begin(key), MarkRunning(x)];
  }

  lemma RunsToMarked(s: State, key: Key, output: string)
    requires key.executionId !in s.busy && FindSuccess(s.rows, key).None?
    ensures var x := key.executionId;
            Adds(s, Run(s, [Begin(key), MarkRunning(x), Returned(x, output), MarkSuccess(x)]), key, SUCCESS,
                 Some(output), Marked(|s.rows|), 1)
  {
    var x := key.executionId;
    var two := [Begin(key), MarkRunning(x)];
    RunsToRunning(s, key);
    RunSnoc(s, two, Returned(x, output));
    ReturnsRow(s, Run(s, two), key, output);
    RunSnoc(s, two + [Returned(x, output)], MarkSuccess(x));
    SucceedsRow(s, Run(s, two + [Returned(x, output)]), key, output);
    assert two + [Returned(x, output)] + [MarkSuccess(x)] == two + [Returned(x, output), MarkSuccess(x)];
    assert two + [Returned(x, output), MarkSuccess(x)]
        == [Begin(key), MarkRunning(x), Returned(x, output), MarkSuccess(x)];
  }

  /** A marked row is reached for every key, in four steps from an empty table. */
  lemma MarkedIsReached(key: Key, output: string) returns (steps: seq<Step>)
    ensures var s := Run(INIT, steps);
            && Inv(s) && key.executionId in s.busy && s.busy[key.executionId] == Marked(0)
            && s.rows == [ToolCall(key, SUCCESS, Some(output))]
  {
    var x := key.executionId;
    steps := [Begin(key), MarkRunning(x), Returned(x, output), MarkSuccess(x)];
    RunsToMarked(INIT, key, output);
    AtMostOneSuccess(steps);
  }

  lemma FailingEnds(s: State, t: State, key: Key, status: Status, output: Option<string>, timedOut: bool)
    requires key.executionId !in s.busy && Adds(s, t, key, status, output, Failing(|s.rows|, timedOut), 1)
    ensures var u, failed := Next(t, MarkFailed(key.executionId)), if timedOut then CANCELLED else ERROR;
            && u.rows == s.rows + [ToolCall(key, failed, output)] && u.calls == t.calls && u.busy == s.busy
            && u.replies == s.replies + [(key, Result(|s.rows|, failed, None))]
  {
    Ends(s, t, key, status, output, Failing(|s.rows|, timedOut), 1);
  }

  lemma SuccessLeaves(s: State, t: State, key: Key, output: string, late: bool)
    requires key.executionId !in s.busy && Adds(s, t, key, SUCCESS, Some(output), Marked(|s.rows|), 1)
    ensures Leaves(s, Next(t, ResultAppended(key.executionId)), key, Outcome.Ok(output), true, late)
  {
    Ends(s, t, key, SUCCESS, Some(output), Marked(|s.rows|), 1);
  }

  lemma LostAppendLeaves(s: State, t: State, key: Key, output: string, late: bool)
    requires key.executionId !in s.busy && Adds(s, t, key, SUCCESS, Some(output), Marked(|s.rows|), 1)
    ensures var failing := Next(t, ResultAppendFailed(key.executionId, late));
            Leaves(s, Next(failing, MarkFailed(key.executionId)), key, Outcome.Ok(output), false, late)
  {
    Ends(s, t, key, SUCCESS, Some(output), Marked(|s.rows|), 1);
    var failing := Next(t, ResultAppendFailed(key.executionId, late));
    assert Adds(s, failing, key, SUCCESS, Some(output), Failing(|s.rows|, late), 1);
    FailingEnds(s, failing, key, SUCCESS, Some(output), late);
  }

  lemma FailureLeaves(s: State, t: State, key: Key, timedOut: bool, appended: bool, late: bool)
    requires key.executionId !in s.busy && Adds(s, t, key, RUNNING, None, Running(|s.rows|), 0)
    ensures var failing := Next(t, Failed(key.executionId, timedOut));
            Leaves(s, Next(failing, MarkFailed(key.executionId)), key, Error(timedOut), appended, late)
  {
    FailsRow(s, t, key, timedOut);
    FailingEnds(s, Next(t, Failed(key.executionId, timedOut)), key, RUNNING, None, timedOut);
  }

  /** The steps of an invocation that no stored success answers and that does not crash: one row more, with the status
      and the output that the tool and the append call for, one call of the tool, and the reply that says so. */
  lemma InvocationLeaves(s: State, key: Key, outcome: Outcome, appended: bool, lateTimeout: bool)
    requires key.executionId !in s.busy && FindSuccess(s.rows, key).None?
    ensures Leaves(s, Run(s, InvocationSteps(key, outcome, appended, lateTimeout)), key, outcome, appended, lateTimeout)
  {
    var x := key.executionId;
    match outcome
    case Ok(output) =>
      var four := [Begin(key), MarkRunning(x), Returned(x, output), MarkSuccess(x)];
      RunsToMarked(s, key, output);
      if appended {
        RunSnoc(s, four, ResultAppended(x));
        SuccessLeaves(s, Run(s, four), key, output, lateTimeout);
      } else {
        RunSnoc(s, four, ResultAppendFailed(x, lateTimeout));
        RunSnoc(s, four + [ResultAppendFailed(x, lateTimeout)], MarkFailed(x));
        LostAppendLeaves(s, Run(s, four), key, output, lateTimeout);
      }
    case Error(timedOut) =>
      var two := [Begin(key), MarkRunning(x)];
      RunsToRunning(s, key);
      RunSnoc(s, two, Failed(x, timedOut));
      RunSnoc(s, two + [Failed(x, timedOut)], MarkFailed(x));
      FailureLeaves(s, Run(s, two), key, timedOut, appended, lateTimeout);
  }

  // ── The service ─────────────────────────────────────────────────────────────────

  class ToolExecutorService {
    var rows: seq<ToolCall>
    var calls: map<Key, nat>

    constructor ()
      ensures rows == [] && calls == map[]
    {
      rows, calls := [], map[];
    }

    method MarkRow(i: nat, status: Status, output: Option<string>)
      requires i < |rows|
      modifies `rows
      ensures rows == old(rows)[i := old(rows[i]).(status := status, output := output)]
    {
      rows := rows[i := rows[i].(status := status, output := output)];
    }

    /** One invocation that does not crash. Unknown tools and invalid input throw before anything
        is stored (`valid` is false). `appended` says whether the result event, appended
        after a success, was stored. A stored success is reused without running the tool; otherwise
        the new row ends as the returned status says. */
    method Invoke(key: Key, valid: bool, outcome: Outcome, appended: bool, lateTimeout: bool) returns (reply: Reply)
      requires OneSuccess(rows)
      modifies this
      ensures OneSuccess(rows)
      ensures reply.Threw? <==> !valid
      ensures !valid ==> rows == old(rows) && calls == old(calls)
      ensures forall i: nat :: valid && Succeeded(old(rows), i, key) ==>
                rows == old(rows) && calls == old(calls) && reply == Result(i, SUCCESS, rows[i].output)
      ensures valid && (forall i: nat :: !Succeeded(old(rows), i, key)) ==>
                && rows == old(rows) + [ToolCall(key, StatusFor(outcome, appended, lateTimeout), OutputFor(outcome))]
                && calls == old(calls)[key := (if key in old(calls) then old(calls)[key] else 0) + 1]
                && reply == ReplyFor(|old(rows)|, outcome, appended, lateTimeout)
      ensures valid && (forall i: nat :: !Succeeded(old(rows), i, key)) ==>
                forall s: State :: s.rows == old(rows) && s.calls == old(calls) && key.executionId !in s.busy ==>
                  var t := Run(s, InvocationSteps(key, outcome, appended, lateTimeout));
                  t.rows == rows && t.calls == calls && t.busy == s.busy && t.replies == s.replies + [(key, reply)]
    {
      if !valid {
        return Threw;
      }
      var existing := FindSuccess(rows, key);
      if existing.Some? {
        assert Succeeded(old(rows), existing.value, key);
        return Result(existing.value, SUCCESS, rows[existing.value].output);
      }
      forall s: State | s.rows == rows && s.calls == calls && key.executionId !in s.busy
        ensures Leaves(s, Run(s, InvocationSteps(key, outcome, appended, lateTimeout)), key, outcome, appended,
                       lateTimeout)
      {
        InvocationLeaves(s, key, outcome, appended, lateTimeout);
      }
      var i := |rows|;
      rows := rows + [ToolCall(key, PENDING, None)];
      MarkRow(i, RUNNING, None);
      calls := calls[key := (if key in calls then calls[key] else 0) + 1];
      var timedOut := lateTimeout;
      if outcome.Ok? {
        MarkRow(i, SUCCESS, Some(outcome.output));
        if appended {
          return Result(i, SUCCESS, Some(outcome.output));
        }
      } else {
        timedOut := outcome.timedOut;
      }
      var status := if timedOut then CANCELLED else ERROR;
      MarkRow(i, status, rows[i].output);
      return Result(i, status, None);
    }
  }
}

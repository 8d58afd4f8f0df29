/** Human approvals: rows, decisions, expiry, and the gate they form in front of a tool. */
module Approvals {
  import opened Wrappers

  datatype Status = PENDING | APPROVED | REJECTED | EXPIRED

  datatype Decision = Approve | Reject

  /** A row is created for a tool; a decision with a note replaces its payload by the note. */
  datatype Payload = ForTool(toolName: string, input: string) | Note(note: string)

  datatype Approval = Approval(
    id: Uuid, tenantId: Uuid, executionId: Uuid, payload: Payload, status: Status,
    expiresAt: int, decidedBy: Option<Uuid>)

  datatype DecideError = NotFound | Conflict | Forbidden

  const TTL_MS: int := 48 * 60 * 60 * 1000

  function StatusOf(d: Decision): Status {
    match d case Approve => APPROVED case Reject => REJECTED
  }

  // ── Reading ─────────────────────────────────────────────────────────────────────

  predicate Matches(a: Approval, x: Uuid, tool: string) {
    a.executionId == x && a.payload.ForTool? && a.payload.toolName == tool
  }

  /** The newest row for the execution and tool; rows stand in creation order. */
  function Newest(rows: seq<Approval>, x: Uuid, tool: string): (i: Option<nat>)
    ensures i.Some? ==> i.value < |rows| && Matches(rows[i.value], x, tool)
  {
    if rows == [] then None
    else if Matches(rows[|rows| - 1], x, tool) then Some(|rows| - 1)
    else Newest(rows[..|rows| - 1], x, tool)
  }

  /** The decision the gate sees: none while there is no row, or the newest is pending. */
  function Gate(rows: seq<Approval>, x: Uuid, tool: string): Option<Status> {
    var i := Newest(rows, x, tool);
    if i.None? || rows[i.value].status.PENDING? then None else Some(rows[i.value].status)
  }

  function Find(rows: seq<Approval>, id: Uuid): (i: Option<nat>)
    ensures i.Some? ==> i.value < |rows| && rows[i.value].id == id
    ensures i.None? ==> forall j :: 0 <= j < |rows| ==> rows[j].id != id
  {
    if rows == [] then None
    else if rows[|rows| - 1].id == id then Some(|rows| - 1)
    else Find(rows[..|rows| - 1], id)
  }

  // ── Writing ─────────────────────────────────────────────────────────────────────

  /** `tenants` names the tenant of every existing execution. */
  function CheckDecide(rows: seq<Approval>, tenants: map<Uuid, Uuid>, id: Uuid, tenantId: Uuid)
      : Result<nat, DecideError>
  {
    var i := Find(rows, id);
    if i.None? || rows[i.value].tenantId != tenantId then Err(NotFound)
    else if !rows[i.value].status.PENDING? then Err(Conflict)
    else
      var x := rows[i.value].executionId;
      if x !in tenants || tenants[x] != tenantId then Err(Forbidden) else Ok(i.value)
  }

  function Decided(a: Approval, d: Decision, user: Uuid, note: string): Approval {
    a.(status := StatusOf(d), decidedBy := Some(user), payload := if note != "" then Note(note) else a.payload)
  }

  predicate Stale(a: Approval, now: int) {
    a.status.PENDING? && a.expiresAt < now
  }

  function Expired(a: Approval, now: int): Approval {
    if Stale(a, now) then a.(status := EXPIRED) else a
  }

  function ExpireAll(rows: seq<Approval>, now: int): seq<Approval> {
    seq(|rows|, i requires 0 <= i < |rows| => Expired(rows[i], now))
  }

  /** What the act node does with a tool that requires approval. */
  datatype ActResult = Paused(approvalId: Uuid) | Ran | Refused(status: Status) | Failed

  datatype Op =
    | Act(x: Uuid, tool: string, input: string, newId: Uuid, now: int)
    | Decide(id: Uuid, tenantId: Uuid, user: Uuid, decision: Decision, note: string)
    | ExpireStale(now: int)

  function ActOn(rows: seq<Approval>, tenants: map<Uuid, Uuid>, x: Uuid, tool: string, input: string,
                 newId: Uuid, now: int): (seq<Approval>, ActResult)
  {
    match Gate(rows, x, tool)
    case None =>
      if x !in tenants || Find(rows, newId).Some? then (rows, Failed)
      else (rows + [Approval(newId, tenants[x], x, ForTool(tool, input), PENDING, now + TTL_MS, None)], Paused(newId))
    case Some(status) => (rows, if status.APPROVED? then Ran else Refused(status))
  }

  function Next(rows: seq<Approval>, tenants: map<Uuid, Uuid>, op: Op): seq<Approval> {
    match op
    case Act(x, tool, input, newId, now) => ActOn(rows, tenants, x, tool, input, newId, now).0
    case Decide(id, tenantId, user, d, note) =>
      var i := CheckDecide(rows, tenants, id, tenantId);
      if i.Ok? then rows[i.value := Decided(rows[i.value], d, user, note)] else rows
    case ExpireStale(now) => ExpireAll(rows, now)
  }

  /** The table after a history of operations, from an empty table. */
  function After(tenants: map<Uuid, Uuid>, ops: seq<Op>): seq<Approval> {
    if ops == [] then [] else Next(After(tenants, ops[..|ops| - 1]), tenants, ops[|ops| - 1])
  }

  // ── Rows ────────────────────────────────────────────────────────────────────────

  predicate UniqueIds(rows: seq<Approval>) {
    Distinct(rows, (r: Approval) => r.id)
  }

  /** Row `a` may have become row `b`: identity stays, and what is decided or expired is final. */
  predicate Evolves(a: Approval, b: Approval) {
    && a.id == b.id && a.executionId == b.executionId && a.tenantId == b.tenantId && a.expiresAt == b.expiresAt
    && (!a.status.PENDING? ==> a == b)
    && (b.status.PENDING? ==> a == b)
  }

  lemma OneStep(rows: seq<Approval>, tenants: map<Uuid, Uuid>, op: Op)
    ensures var next := Next(rows, tenants, op);
            && |rows| <= |next| <= |rows| + 1
            && (forall i :: 0 <= i < |rows| ==> Evolves(rows[i], next[i]))
            && (|next| > |rows| ==>
                  next[|rows|].status.PENDING? && forall i :: 0 <= i < |rows| ==> rows[i].id != next[|rows|].id)
            && (UniqueIds(rows) ==> UniqueIds(next))
  {
  }

  /** Over any history no row disappears, none leaves APPROVED, REJECTED or EXPIRED again, and
      a decided row never changes in any way. */
  lemma {:induction false} DecisionsAreFinal(tenants: map<Uuid, Uuid>, ops: seq<Op>, k: nat)
    requires k <= |ops|
    ensures var early, late := After(tenants, ops[..k]), After(tenants, ops);
            && |early| <= |late|
            && forall i :: 0 <= i < |early| ==> Evolves(early[i], late[i])
    ensures UniqueIds(After(tenants, ops))
    decreases |ops|
  {
    if k == |ops| {
      assert ops[..k] == ops;
      if ops != [] {
        DecisionsAreFinal(tenants, ops[..k - 1], k - 1);
        OneStep(After(tenants, ops[..k - 1]), tenants, ops[k - 1]);
      }
    } else {
      var front := ops[..|ops| - 1];
      assert front[..k] == ops[..k];
      DecisionsAreFinal(tenants, front, k);
      OneStep(After(tenants, front), tenants, ops[|ops| - 1]);
    }
  }

  /** An approved row got that way by a decision on it while it was pending. */
  lemma {:induction false} ApprovedByDecide(tenants: map<Uuid, Uuid>, ops: seq<Op>, i: nat) returns (j: nat)
    requires i < |After(tenants, ops)| && After(tenants, ops)[i].status.APPROVED?
    ensures j < |ops| && ops[j].Decide? && ops[j].decision.Approve?
    ensures i < |After(tenants, ops[..j])| && After(tenants, ops[..j])[i].status.PENDING?
    ensures ops[j].id == After(tenants, ops)[i].id == After(tenants, ops[..j])[i].id
    ensures After(tenants, ops)[i].payload.ForTool? ==>
              ops[j].note == "" && After(tenants, ops[..j])[i].payload == After(tenants, ops)[i].payload
    decreases |ops|
  {
    var front, last := ops[..|ops| - 1], ops[|ops| - 1];
    var before := After(tenants, front);
    OneStep(before, tenants, last);
    if i < |before| && before[i].status.APPROVED? {
      j := ApprovedByDecide(tenants, front, i);
      assert front[..j] == ops[..j];
    } else {
      j := |ops| - 1;
      assert ops[..j] == front;
      DecisionsAreFinal(tenants, front, |front|);
    }
  }

  /** Whenever the act node runs a gated tool, the newest row for that execution and tool is
      approved, and an earlier decision without a note put it there while it was pending. */
  lemma GatedRunWasApproved(tenants: map<Uuid, Uuid>, ops: seq<Op>, x: Uuid, tool: string, input: string,
                            newId: Uuid, now: int) returns (i: nat, j: nat)
    requires ActOn(After(tenants, ops), tenants, x, tool, input, newId, now).1.Ran?
    ensures i < |After(tenants, ops)| && After(tenants, ops)[i].status.APPROVED?
    ensures j < |ops| && ops[j].Decide? && ops[j].decision.Approve? && ops[j].note == ""
    ensures ops[j].id == After(tenants, ops)[i].id
    ensures i < |After(tenants, ops[..j])| && After(tenants, ops[..j])[i].status.PENDING?
    ensures var asked := After(tenants, ops[..j])[i];
            asked.executionId == x && asked.payload.ForTool? && asked.payload.toolName == tool
    ensures forall k :: i < k < |After(tenants, ops)| ==>
              var a := After(tenants, ops)[k];
              a.executionId != x || !a.payload.ForTool? || a.payload.toolName != tool
  {
    i := Newest(After(tenants, ops), x, tool).value;
    j := ApprovedByDecide(tenants, ops, i);
    DecisionsAreFinal(tenants, ops, j);
    NothingNewer(After(tenants, ops), x, tool);
  }

  // ── The gate ────────────────────────────────────────────────────────────────────

  /** Row `i` is the newest match if it matches and nothing behind it does. */
  lemma {:induction false} NewestIs(rows: seq<Approval>, x: Uuid, tool: string, i: nat)
    requires i < |rows| && Matches(rows[i], x, tool)
    requires forall k :: i < k < |rows| ==> !Matches(rows[k], x, tool)
    ensures Newest(rows, x, tool) == Some(i)
  {
    if i < |rows| - 1 {
      NewestIs(rows[..|rows| - 1], x, tool, i);
    }
  }

  lemma {:induction false} NothingNewer(rows: seq<Approval>, x: Uuid, tool: string)
    ensures forall k :: Newest(rows, x, tool).GetOr(0) < k < |rows| ==> !Matches(rows[k], x, tool)
    ensures Newest(rows, x, tool).None? ==> forall k :: 0 <= k < |rows| ==> !Matches(rows[k], x, tool)
  {
    if rows != [] && !Matches(rows[|rows| - 1], x, tool) {
      NothingNewer(rows[..|rows| - 1], x, tool);
      assert forall k :: 0 <= k < |rows| - 1 ==> rows[k] == rows[..|rows| - 1][k];
    }
  }

  /** A decision, once the gate has seen it, is never consumed: after any further operations the
      gate answers the same for that execution and tool, whatever the tool's input. */
  lemma {:induction false} GateStays(rows: seq<Approval>, tenants: map<Uuid, Uuid>, op: Op, x: Uuid, tool: string)
    requires Gate(rows, x, tool).Some?
    ensures Gate(Next(rows, tenants, op), x, tool) == Gate(rows, x, tool)
  {
    var next := Next(rows, tenants, op);
    var i := Newest(rows, x, tool).value;
    OneStep(rows, tenants, op);
    NothingNewer(rows, x, tool);
    assert next[i] == rows[i];
    forall k | i < k < |next| ensures !Matches(next[k], x, tool) {
      if k < |rows| {
        assert !Matches(rows[k], x, tool) && Evolves(rows[k], next[k]);
        assert next[k].payload == rows[k].payload || next[k].payload.Note?;
      } else {
        assert op.Act? && next[k].payload == ForTool(op.tool, op.input) && next[k].executionId == op.x;
      }
    }
    NewestIs(next, x, tool, i);
  }

  function RunFrom(rows: seq<Approval>, tenants: map<Uuid, Uuid>, ops: seq<Op>): seq<Approval> {
    if ops == [] then rows else Next(RunFrom(rows, tenants, ops[..|ops| - 1]), tenants, ops[|ops| - 1])
  }

  lemma {:induction false} DecisionStandsForever(rows: seq<Approval>, tenants: map<Uuid, Uuid>, ops: seq<Op>,
                                                 x: Uuid, tool: string)
    requires Gate(rows, x, tool).Some?
    ensures Gate(RunFrom(rows, tenants, ops), x, tool) == Gate(rows, x, tool)
  {
    if ops != [] {
      DecisionStandsForever(rows, tenants, ops[..|ops| - 1], x, tool);
      GateStays(RunFrom(rows, tenants, ops[..|ops| - 1]), tenants, ops[|ops| - 1], x, tool);
    }
  }

  /** Deciding the newest pending row takes effect at the gate exactly if the decision carries no
      note, or an older row of the same tool happens to be decided the same way: a note replaces
      the payload, so the row is no longer found. */
  lemma NewestTakesEffectIff(rows: seq<Approval>, tenants: map<Uuid, Uuid>, x: Uuid, tool: string,
                             user: Uuid, d: Decision, note: string)
    requires UniqueIds(rows) && x in tenants
    requires Newest(rows, x, tool).Some?
    requires var a := rows[Newest(rows, x, tool).value]; a.status.PENDING? && a.tenantId == tenants[x]
    ensures var i := Newest(rows, x, tool).value;
            var next := Next(rows, tenants, Decide(rows[i].id, tenants[x], user, d, note));
            Gate(next, x, tool) == Some(StatusOf(d)) <==> note == "" || Gate(rows[..i], x, tool) == Some(StatusOf(d))
  {
    var i := Newest(rows, x, tool).value;
    var a := rows[i];
    var found := Find(rows, a.id).value;
    assert found == i;
    var next := Next(rows, tenants, Decide(a.id, tenants[x], user, d, note));
    assert next == rows[i := Decided(a, d, user, note)];
    NothingNewer(rows, x, tool);
    if note == "" {
      NewestIs(next, x, tool, i);
    } else {
      assert next[..i] == rows[..i];
      NewestSkips(next, x, tool, i);
    }
  }

  /** Deciding a pending row behind which there is a newer one of the same tool changes nothing at the gate. */
  lemma OlderIsIgnored(rows: seq<Approval>, tenants: map<Uuid, Uuid>, x: Uuid, tool: string, i: nat,
                       user: Uuid, d: Decision, note: string)
    requires UniqueIds(rows) && x in tenants && CanBeDecided(rows, tenants, x, tool, i)
    requires Newest(rows, x, tool) != Some(i)
    ensures Gate(Next(rows, tenants, Decide(rows[i].id, tenants[x], user, d, note)), x, tool) == Gate(rows, x, tool)
  {
    var a := rows[i];
    assert Find(rows, a.id) == Some(i);
    var next := rows[i := Decided(a, d, user, note)];
    assert Next(rows, tenants, Decide(a.id, tenants[x], user, d, note)) == next;
    NothingNewer(rows, x, tool);
    var n := Newest(rows, x, tool).value;
    assert i < n && next[n] == rows[n];
    forall k | n < k < |next| ensures !Matches(next[k], x, tool) {
      assert next[k] == rows[k];
    }
    NewestIs(next, x, tool, n);
  }

  /** Row `i` waits for a decision about the tool, and the tenant of its execution may decide it. */
  predicate CanBeDecided(rows: seq<Approval>, tenants: map<Uuid, Uuid>, x: Uuid, tool: string, i: nat)
    requires x in tenants
  {
    && i < |rows| && rows[i].status.PENDING? && rows[i].tenantId == tenants[x]
    && rows[i].executionId == x && rows[i].payload.ForTool? && rows[i].payload.toolName == tool
  }

  /** Deciding any pending row of a tool: if it is the newest, the gate then answers with the decision exactly if it
      carries no note or an older row answers the same; if there is a newer row, exactly if the gate answered that
      before. */
  lemma DecisionTakesEffectIff(rows: seq<Approval>, tenants: map<Uuid, Uuid>, x: Uuid, tool: string, i: nat,
                               user: Uuid, d: Decision, note: string)
    requires UniqueIds(rows) && x in tenants && CanBeDecided(rows, tenants, x, tool, i)
    ensures var next := Next(rows, tenants, Decide(rows[i].id, tenants[x], user, d, note));
            Gate(next, x, tool) == Some(StatusOf(d)) <==>
            if Newest(rows, x, tool) == Some(i) then note == "" || Gate(rows[..i], x, tool) == Some(StatusOf(d))
            else Gate(rows, x, tool) == Some(StatusOf(d))
  {
    if Newest(rows, x, tool) == Some(i) {
      NewestTakesEffectIff(rows, tenants, x, tool, user, d, note);
    } else {
      OlderIsIgnored(rows, tenants, x, tool, i, user, d, note);
    }
  }

  /** The row of a run that paused. */
  function Asked(x: Uuid, tenant: Uuid, tool: string, input: string, id: Uuid, now: int): Approval {
    Approval(id, tenant, x, ForTool(tool, input), PENDING, now + 48 * 60 * 60 * 1000, None)
  }

  lemma FirstAsked(x: Uuid, tenant: Uuid, tool: string, input: string, id: Uuid, now: int)
    ensures Next([], map[x := tenant], Act(x, tool, input, id, now)) == [Asked(x, tenant, tool, input, id, now)]
  {
  }

  lemma ThenDecided(a: Approval, tenants: map<Uuid, Uuid>, user: Uuid, d: Decision, note: string)
    requires a.status.PENDING? && a.executionId in tenants && tenants[a.executionId] == a.tenantId
    ensures Next([a], tenants, Decide(a.id, a.tenantId, user, d, note)) == [Decided(a, d, user, note)]
  {
    assert Find([a], a.id) == Some(0);
  }

  lemma AfterTwo(tenants: map<Uuid, Uuid>, a: Op, b: Op)
    ensures After(tenants, [a, b]) == Next(Next([], tenants, a), tenants, b)
  {
    assert [a, b][..1] == [a] && [a][..0] == [];
    assert After(tenants, [a]) == Next([], tenants, a);
  }

  lemma AsksAgain(a: Approval, tenants: map<Uuid, Uuid>, x: Uuid, tool: string, input: string, newId: Uuid, now: int)
    requires a.payload.Note? && x in tenants && newId != a.id
    ensures Gate([a], x, tool) == None && ActOn([a], tenants, x, tool, input, newId, now).1 == Paused(newId)
  {
    assert Newest([a], x, tool).None?;
  }

  /** Such a decision is reached for every execution and tool: the run pauses, the approver decides with a note, and
      the gate still sees no decision, so that the next run asks again. */
  lemma NotedDecisionIsLost(x: Uuid, tenant: Uuid, tool: string, input: string, id: Uuid, now: int,
                            user: Uuid, d: Decision, note: string, newId: Uuid)
    requires note != "" && newId != id
    ensures var tenants := map[x := tenant];
            var rows := After(tenants, [Act(x, tool, input, id, now), Decide(id, tenant, user, d, note)]);
            && |rows| == 1 && rows[0].status == StatusOf(d) && Gate(rows, x, tool) == None
            && ActOn(rows, tenants, x, tool, input, newId, now).1 == Paused(newId)
  {
    var asked := Asked(x, tenant, tool, input, id, now);
    AfterTwo(map[x := tenant], Act(x, tool, input, id, now), Decide(id, tenant, user, d, note));
    FirstAsked(x, tenant, tool, input, id, now);
    ThenDecided(asked, map[x := tenant], user, d, note);
    AsksAgain(Decided(asked, d, user, note), map[x := tenant], x, tool, input, newId, now);
  }

  lemma AfterThree(tenants: map<Uuid, Uuid>, a: Op, b: Op, c: Op)
    ensures After(tenants, [a, b, c]) == Next(Next(Next([], tenants, a), tenants, b), tenants, c)
  {
    assert [a, b, c][..2] == [a, b];
    AfterTwo(tenants, a, b);
  }

  /** While a row is pending, a run that gets to the tool again asks again. */
  lemma SecondAsked(a: Approval, tenants: map<Uuid, Uuid>, tool: string, input: string, id: Uuid, now: int)
    requires a.status.PENDING? && a.payload == ForTool(tool, input) && a.id != id
    requires a.executionId in tenants && tenants[a.executionId] == a.tenantId
    ensures Next([a], tenants, Act(a.executionId, tool, input, id, now))
         == [a] + [Asked(a.executionId, a.tenantId, tool, input, id, now)]
  {
    assert Newest([a], a.executionId, tool) == Some(0);
    assert Find([a], id).None?;
  }

  lemma FirstDecided(a: Approval, b: Approval, tenants: map<Uuid, Uuid>, x: Uuid, tool: string, user: Uuid, d: Decision)
    requires a.id != b.id && x in tenants && Matches(a, x, tool) && Matches(b, x, tool)
    requires a.status.PENDING? && b.status.PENDING? && a.tenantId == tenants[x]
    ensures var rows := Next([a] + [b], tenants, Decide(a.id, tenants[x], user, d, ""));
            |rows| == 2 && rows[0] == Decided(a, d, user, "") && Gate(rows, x, tool) == None
  {
    var rows := [a] + [b];
    assert rows[..1] == [a] && Find([a], a.id) == Some(0) && Find(rows, a.id) == Some(0);
    var next := Next(rows, tenants, Decide(a.id, tenants[x], user, d, ""));
    assert next == [Decided(a, d, user, "")] + [b];
    NewestIs(next, x, tool, 1);
  }

  /** A decision without a note fails as well: for every execution and tool, if the run got to the tool twice before
      the approver decided, the decision on the first row leaves the gate waiting for the second. */
  lemma OlderDecisionIsLost(x: Uuid, tenant: Uuid, tool: string, input: string, id: Uuid, id2: Uuid, now: int,
                            user: Uuid, d: Decision)
    requires id != id2
    ensures var rows := After(map[x := tenant], [Act(x, tool, input, id, now), Act(x, tool, input, id2, now),
                                                 Decide(id, tenant, user, d, "")]);
            && |rows| == 2 && rows[0].id == id && rows[0].status == StatusOf(d)
            && rows[0].payload == ForTool(tool, input) && Gate(rows, x, tool) == None
  {
    var tenants := map[x := tenant];
    var first, second := Asked(x, tenant, tool, input, id, now), Asked(x, tenant, tool, input, id2, now);
    AfterThree(tenants, Act(x, tool, input, id, now), Act(x, tool, input, id2, now), Decide(id, tenant, user, d, ""));
    FirstAsked(x, tenant, tool, input, id, now);
    SecondAsked(first, tenants, tool, input, id2, now);
    FirstDecided(first, second, tenants, x, tool, user, d);
  }

  lemma {:induction false} NewestSkips(rows: seq<Approval>, x: Uuid, tool: string, i: nat)
    requires i <= |rows|
    requires forall k :: i <= k < |rows| ==> !Matches(rows[k], x, tool)
    ensures Newest(rows, x, tool) == Newest(rows[..i], x, tool)
    ensures Gate(rows, x, tool) == Gate(rows[..i], x, tool)
  {
    if i < |rows| {
      var front := rows[..|rows| - 1];
      NewestSkips(front, x, tool, i);
      assert front[..i] == rows[..i];
    } else {
      assert rows[..i] == rows;
    }
  }

  /** A request that is not decided expires after two days, and not before: from every table, a sweep at `later` makes
      the gate answer EXPIRED exactly if it comes more than 48 hours after the run paused. */
  lemma ExpiresAfterTwoDays(rows: seq<Approval>, tenants: map<Uuid, Uuid>, x: Uuid, tool: string, input: string,
                            newId: Uuid, now: int, later: int)
    requires ActOn(rows, tenants, x, tool, input, newId, now).1.Paused?
    ensures var asked := Next(rows, tenants, Act(x, tool, input, newId, now));
            Gate(Next(asked, tenants, ExpireStale(later)), x, tool)
            == if later > now + 48 * 60 * 60 * 1000 then Some(EXPIRED) else None
  {
    NewestIs(Next(Next(rows, tenants, Act(x, tool, input, newId, now)), tenants, ExpireStale(later)), x, tool, |rows|);
  }

  /** A refusal by the newest row never runs the tool, and is reported with its status. */
  lemma RefusalNeverRuns(rows: seq<Approval>, tenants: map<Uuid, Uuid>, x: Uuid, tool: string, input: string,
                         newId: Uuid, now: int)
    ensures var (next, result) := ActOn(rows, tenants, x, tool, input, newId, now);
            && (result.Ran? <==> Gate(rows, x, tool) == Some(APPROVED))
            && (result.Paused? || result.Failed? <==> Gate(rows, x, tool) == None)
            && (result.Failed? <==>
                  Gate(rows, x, tool) == None && (x !in tenants || exists a :: a in rows && a.id == newId))
            && (result.Paused? ==>
                  && result.approvalId == newId && x in tenants
                  && next == rows + [Asked(x, tenants[x], tool, input, newId, now)])
            && (!result.Paused? ==> next == rows)
            && (Gate(rows, x, tool) == Some(REJECTED) ==> result == Refused(REJECTED) && next == rows)
            && (Gate(rows, x, tool) == Some(EXPIRED) ==> result == Refused(EXPIRED) && next == rows)
            && (result.Paused? ==> Gate(next, x, tool) == None && Newest(next, x, tool) == Some(|rows|))
  {
    var (next, result) := ActOn(rows, tenants, x, tool, input, newId, now);
    if result.Paused? {
      NewestIs(next, x, tool, |rows|);
    }
  }

  // ── The service ─────────────────────────────────────────────────────────────────

  class ApprovalService {
    const tenants: map<Uuid, Uuid>
    var rows: seq<Approval>
    var resumed: seq<Uuid>  // executions queued to run again

    constructor (tenants: map<Uuid, Uuid>)
      ensures this.tenants == tenants && rows == [] && resumed == []
    {
      this.tenants := tenants;
      rows, resumed := [], [];
    }

    /** Records a decision on a pending row, and queues its execution. */
    method Decide(id: Uuid, tenantId: Uuid, user: Uuid, d: Decision, note: string) returns (r: Result<nat, DecideError>)
      requires UniqueIds(rows)
      modifies this
      ensures UniqueIds(rows)
      ensures rows == Next(old(rows), tenants, Op.Decide(id, tenantId, user, d, note))
      ensures r.Err? ==> rows == old(rows) && resumed == old(resumed)
      ensures r == Err(NotFound) <==>
                forall i :: 0 <= i < |rows| ==> old(rows)[i].id != id || old(rows)[i].tenantId != tenantId
      ensures forall i :: 0 <= i < |rows| && old(rows)[i].id == id && old(rows)[i].tenantId == tenantId ==>
                var x := old(rows)[i].executionId;
                r == if !old(rows)[i].status.PENDING? then Err(Conflict)
                     else if x !in tenants || tenants[x] != tenantId then Err(Forbidden) else Ok(i)
      ensures r.Ok? ==>
                && r.value < |rows| == |old(rows)|
                && old(rows[r.value]).id == id && old(rows[r.value]).status.PENDING?
                && rows[r.value] == old(rows[r.value]).(
                     status := if d.Approve? then APPROVED else REJECTED, decidedBy := Some(user),
                     payload := if note == "" then old(rows[r.value]).payload else Note(note))
                && (forall i :: 0 <= i < |rows| && i != r.value ==> rows[i] == old(rows[i]))
                && resumed == old(resumed) + [rows[r.value].executionId]
    {
      r := CheckDecide(rows, tenants, id, tenantId);
      if r.Err? {
        return;
      }
      OneStep(rows, tenants, Op.Decide(id, tenantId, user, d, note));
      rows := rows[r.value := Decided(rows[r.value], d, user, note)];
      resumed := resumed + [rows[r.value].executionId];
    }

    /** Marks every stale pending row, then queues the execution of each of them, in order. */
    method ExpireStale(now: int)
      modifies this
      ensures rows == ExpireAll(old(rows), now)
      ensures resumed == old(resumed) + Queued(old(rows), tenants, now)
    {
      var stale := StaleRows(rows, now);
      rows := ExpireAll(rows, now);
      QueueEach(stale);
    }

    /** Rows whose execution no longer exists are passed over. */
    method QueueEach(stale: seq<Approval>)
      modifies `resumed
      ensures resumed == old(resumed) + Executions(stale, tenants)
    {
      var i := 0;
      while i < |stale|
        invariant i <= |stale|
        invariant resumed == old(resumed) + Executions(stale[..i], tenants)
      {
        assert stale[..i + 1] == stale[..i] + [stale[i]];
        ExecutionsConcat(stale[..i], [stale[i]], tenants);
        if stale[i].executionId in tenants {
          resumed := resumed + [stale[i].executionId];
        }
        i := i + 1;
      }
      assert stale[..i] == stale;
    }
  }

  function StaleRows(rows: seq<Approval>, now: int): seq<Approval> {
    if rows == [] then []
    else (if Stale(rows[0], now) then [rows[0]] else []) + StaleRows(rows[1..], now)
  }

  /** The executions of the given rows that still exist. */
  function Executions(rows: seq<Approval>, tenants: map<Uuid, Uuid>): seq<Uuid> {
    if rows == [] then []
    else (if rows[0].executionId in tenants then [rows[0].executionId] else []) + Executions(rows[1..], tenants)
  }

  function Queued(rows: seq<Approval>, tenants: map<Uuid, Uuid>, now: int): seq<Uuid> {
    Executions(StaleRows(rows, now), tenants)
  }

  /** Expiry strands nobody: an execution is queued exactly if it exists and one of its rows
      was pending and past its time; and afterwards no such row is left. */
  lemma {:induction false} ExpiryStrandsNobody(rows: seq<Approval>, tenants: map<Uuid, Uuid>, now: int, x: Uuid)
    ensures x in Queued(rows, tenants, now) <==>
              x in tenants && exists a :: a in rows && a.executionId == x && a.status.PENDING? && a.expiresAt < now
    ensures forall i :: 0 <= i < |rows| ==>
              ExpireAll(rows, now)[i] == if rows[i].status.PENDING? && rows[i].expiresAt < now
                                         then rows[i].(status := EXPIRED) else rows[i]
  {
    if rows != [] {
      assert rows == [rows[0]] + rows[1..];
      ExpiryStrandsNobody(rows[1..], tenants, now, x);
      var first := if Stale(rows[0], now) then [rows[0]] else [];
      ExecutionsConcat(first, StaleRows(rows[1..], now), tenants);
      if Stale(rows[0], now) {
        assert Executions(first, tenants) == if rows[0].executionId in tenants then [rows[0].executionId] else [];
      }
    }
  }

  lemma {:induction false} ExecutionsConcat(a: seq<Approval>, b: seq<Approval>, tenants: map<Uuid, Uuid>)
    ensures Executions(a + b, tenants) == Executions(a, tenants) + Executions(b, tenants)
  {
    if a == [] {
      assert a + b == b;
    } else {
      assert (a + b)[1..] == a[1..] + b;
      ExecutionsConcat(a[1..], b, tenants);
    }
  }
}

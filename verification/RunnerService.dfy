/** One job of the runner as it runs, from reading the status to the final writes, and the cancel
    handler: both change the row of the execution exactly as steps of its life. */
module RunnerService {
  import opened Wrappers
  import opened EventLog
  import opened AgentState
  import opened AgentGraph
  import opened Checkpoints
  import L = Lifecycle
  import R = AgentRunner

  /** How the stream of updates ended: used up, by an exception of a node, or by a pause for approval. */
  datatype Ending = Drained | Threw | NeedsApproval

  datatype Outcome = Skipped | Cancelled | Paused | Failed | Completed(response: string)

  /** The state after these updates. */
  function Folded(s: AgentState, updates: seq<(Node, Update)>): AgentState
    decreases |updates|
  {
    if updates == [] then s else Folded(Reduce(s, updates[0].1), updates[1..])
  }

  /** The checkpoints after an update that led to `t`: one more if its node is saved. */
  function OneMore(saved: seq<R.Saved>, parent: Option<nat>, n: Node, t: AgentState): seq<R.Saved> {
    if IsCheckpointNode(NameOf(n)) then saved + [R.Saved(n, Serialize(t), parent)] else saved
  }

  /** The last checkpoint of a run that found `saved` and left `after`. */
  function ParentAfter(saved: seq<R.Saved>, parent: Option<nat>, after: seq<R.Saved>): Option<nat> {
    if |after| > |saved| then Some(|after| - 1) else parent
  }

  /** The checkpoints after these updates: one for each saved node, its parent the last one of this run. */
  function SavedAfter(saved: seq<R.Saved>, parent: Option<nat>, s: AgentState, updates: seq<(Node, Update)>)
      : seq<R.Saved>
    decreases |updates|
  {
    if updates == [] then saved
    else
      var t := Reduce(s, updates[0].1);
      var more := OneMore(saved, parent, updates[0].0, t);
      SavedAfter(more, ParentAfter(saved, parent, more), t, updates[1..])
  }

  /** The updates seen before a cancel request is noticed. */
  function Seen(updates: seq<(Node, Update)>, cancelAt: Option<nat>): seq<(Node, Update)> {
    if cancelAt.Some? && cancelAt.value < |updates| then updates[..cancelAt.value] else updates
  }

  /** Which of the appends of final events are stored: of the cancel request, of the job's end, and of the
      FAILED event after a COMPLETED event was lost. */
  datatype Appends = Appends(request: L.Append, end: L.Append, again: L.Append)

  function LastStep(ending: Ending, failed: bool, appends: Appends): L.Step {
    if ending.NeedsApproval? then L.Pause(0)
    else if failed then L.Fail(0, appends.end)
    else L.Finish(0, appends.end, appends.again)
  }

  /** How a job goes on after its first steps: a cancel request that comes in may be noticed or not. */
  function Tail(head: seq<L.Step>, noticed: bool, requested: bool, ending: Ending, failed: bool, appends: Appends)
      : seq<L.Step>
  {
    if !requested then head + [LastStep(ending, failed, appends)]
    else if noticed then head + [L.Cancel(appends.request)] + [L.Poll(0)] + [L.Abort(0, appends.end)]
    else head + [L.Cancel(appends.request)] + [LastStep(ending, failed, appends)]
  }

  /** The steps of one job of worker 0 that is not skipped or cancelled at once. A cancel request that
      comes after the last update is not noticed any more. */
  function JobSteps(name: string, updates: nat, cancelAt: Option<nat>, ending: Ending, failed: bool, appends: Appends)
      : seq<L.Step>
  {
    var head, noticed := L.JobBegins(0, L.Stored, name), cancelAt.Some? && cancelAt.value < updates;
    Tail(head, noticed, cancelAt.Some?, ending, failed, appends)
  }

  lemma AbortCancels(s: L.State, append: L.Append)
    requires s.workers == map[0 := L.Active(false)] && s.cancelFlag
    ensures L.Next(L.Next(s, L.Poll(0)), L.Abort(0, append))
         == L.HandleCancel(s.(workers := map[0 := L.Active(true)]), 0, append)
  {
    var polled := L.Next(s, L.Poll(0));
    assert polled.workers == map[0 := L.Active(true)];
  }

  lemma FlagCancels(s: L.State, append: L.Append)
    requires s.workers == map[] && s.cancelFlag && L.Resumable(s.status)
    ensures L.Next(L.Next(s, L.Load(0)), L.CheckFlag(0, append))
         == L.HandleCancel(s.(workers := map[0 := L.Loaded]), 0, append)
  {
    var loaded := L.Next(s, L.Load(0));
    assert loaded.workers == map[0 := L.Loaded];
  }

  lemma {:induction false} SavedAfterGrows(saved: seq<R.Saved>, parent: Option<nat>, s: AgentState,
                                           updates: seq<(Node, Update)>)
    ensures saved <= SavedAfter(saved, parent, s, updates)
    decreases |updates|
  {
    if updates != [] {
      var t := Reduce(s, updates[0].1);
      var more := OneMore(saved, parent, updates[0].0, t);
      SavedAfterGrows(more, ParentAfter(saved, parent, more), t, updates[1..]);
    }
  }

  lemma {:induction false} FoldedSnoc(s: AgentState, updates: seq<(Node, Update)>, n: Node, u: Update)
    ensures Folded(s, updates + [(n, u)]) == Reduce(Folded(s, updates), u)
    decreases |updates|
  {
    if updates == [] {
      assert updates + [(n, u)] == [(n, u)] && [(n, u)][1..] == [];
    } else {
      assert (updates + [(n, u)])[1..] == updates[1..] + [(n, u)];
      FoldedSnoc(Reduce(s, updates[0].1), updates[1..], n, u);
    }
  }

  lemma {:induction false} SavedSnoc(saved: seq<R.Saved>, parent: Option<nat>, s: AgentState,
                                     updates: seq<(Node, Update)>, n: Node, u: Update)
    ensures var before, t := SavedAfter(saved, parent, s, updates), Reduce(Folded(s, updates), u);
            SavedAfter(saved, parent, s, updates + [(n, u)])
            == OneMore(before, ParentAfter(saved, parent, before), n, t)
    decreases |updates|
  {
    if updates == [] {
      assert updates + [(n, u)] == [(n, u)] && [(n, u)][1..] == [];
    } else {
      var t := Reduce(s, updates[0].1);
      var more := OneMore(saved, parent, updates[0].0, t);
      assert (updates + [(n, u)])[1..] == updates[1..] + [(n, u)];
      SavedSnoc(more, ParentAfter(saved, parent, more), t, updates[1..], n, u);
      SavedAfterGrows(more, ParentAfter(saved, parent, more), t, updates[1..]);
    }
  }

  /** One more update seen by the loop: the state it leads to, and what is saved. */
  lemma FoldSnoc(saved: seq<R.Saved>, parent: Option<nat>, s: AgentState,
                 updates: seq<(Node, Update)>, n: Node, u: Update)
    ensures Folded(s, updates + [(n, u)]) == Reduce(Folded(s, updates), u)
    ensures var before, t := SavedAfter(saved, parent, s, updates), Reduce(Folded(s, updates), u);
            SavedAfter(saved, parent, s, updates + [(n, u)])
            == OneMore(before, ParentAfter(saved, parent, before), n, t)
  {
    FoldedSnoc(s, updates, n, u);
    SavedSnoc(saved, parent, s, updates, n, u);
  }

  lemma FoldOneMore(saved: seq<R.Saved>, parent: Option<nat>, s: AgentState, updates: seq<(Node, Update)>, i: nat)
    requires i < |updates|
    ensures Folded(s, updates[..i + 1]) == Reduce(Folded(s, updates[..i]), updates[i].1)
    ensures var before, t := SavedAfter(saved, parent, s, updates[..i]), Reduce(Folded(s, updates[..i]), updates[i].1);
            && saved <= before
            && SavedAfter(saved, parent, s, updates[..i + 1])
               == OneMore(before, ParentAfter(saved, parent, before), updates[i].0, t)
  {
    SavedAfterGrows(saved, parent, s, updates[..i]);
    FoldSnoc(saved, parent, s, updates[..i], updates[i].0, updates[i].1);
    assert updates[..i + 1] == updates[..i] + [(updates[i].0, updates[i].1)];
  }

  /** The positions of the updates that are saved: those of every node but the reason node. */
  function SavedUpdates(updates: seq<(Node, Update)>): (r: seq<nat>)
    ensures forall k :: 0 <= k < |r| ==> r[k] < |updates|
  {
    if updates == [] then []
    else
      var n := |updates| - 1;
      SavedUpdates(updates[..n]) + (if updates[n].0.Reason? then [] else [n])
  }

  /** The `k`-th checkpoint that these updates bring: the node, the state that its update led to, as stored, and as its
      parent the one before, or what the run started from. */
  predicate SavedFor(saved: seq<R.Saved>, parent: Option<nat>, s: AgentState, updates: seq<(Node, Update)>,
                     after: seq<R.Saved>, k: nat)
    requires k < |SavedUpdates(updates)| && |saved| + k < |after|
  {
    var i := SavedUpdates(updates)[k];
    after[|saved| + k]
      == R.Saved(updates[i].0, Serialize(Folded(s, updates[..i + 1])), if k == 0 then parent else Some(|saved| + k - 1))
  }

  /** One checkpoint for each update of a node other than the reason node, in order. */
  predicate AllSaved(saved: seq<R.Saved>, parent: Option<nat>, s: AgentState, updates: seq<(Node, Update)>,
                     after: seq<R.Saved>)
  {
    && saved <= after && |after| == |saved| + |SavedUpdates(updates)|
    && forall k :: 0 <= k < |SavedUpdates(updates)| ==> SavedFor(saved, parent, s, updates, after, k)
  }

  lemma SavedUpdatesSnoc(front: seq<(Node, Update)>, last: (Node, Update))
    ensures SavedUpdates(front + [last]) == SavedUpdates(front) + (if last.0.Reason? then [] else [|front|])
  {
    assert (front + [last])[..|front|] == front;
  }

  lemma SavedForStays(saved: seq<R.Saved>, parent: Option<nat>, s: AgentState, front: seq<(Node, Update)>,
                      last: (Node, Update), before: seq<R.Saved>, after: seq<R.Saved>, k: nat)
    requires k < |SavedUpdates(front)| && |saved| + k < |before| && before <= after
    requires SavedFor(saved, parent, s, front, before, k)
    ensures k < |SavedUpdates(front + [last])| && SavedFor(saved, parent, s, front + [last], after, k)
  {
    var updates, i := front + [last], SavedUpdates(front)[k];
    SavedUpdatesSnoc(front, last);
    assert updates[..i + 1] == front[..i + 1] && updates[i] == front[i] && after[|saved| + k] == before[|saved| + k];
  }

  lemma AllSavedSnoc(saved: seq<R.Saved>, parent: Option<nat>, s: AgentState, front: seq<(Node, Update)>,
                     last: (Node, Update), before: seq<R.Saved>, t: AgentState)
    requires AllSaved(saved, parent, s, front, before) && t == Folded(s, front + [last])
    ensures AllSaved(saved, parent, s, front + [last],
                     OneMore(before, ParentAfter(saved, parent, before), last.0, t))
  {
    var updates, after := front + [last], OneMore(before, ParentAfter(saved, parent, before), last.0, t);
    SavedUpdatesSnoc(front, last);
    R.OnlyReasonIsUnsaved(last.0);
    forall k | 0 <= k < |SavedUpdates(updates)| ensures SavedFor(saved, parent, s, updates, after, k) {
      if k < |SavedUpdates(front)| {
        SavedForStays(saved, parent, s, front, last, before, after, k);
      } else {
        assert updates[..|front| + 1] == updates && updates[|front|] == last;
      }
    }
  }

  /** What the loop saves. */
  lemma {:induction false} LoopSaves(saved: seq<R.Saved>, parent: Option<nat>, s: AgentState,
                                     updates: seq<(Node, Update)>)
    ensures AllSaved(saved, parent, s, updates, SavedAfter(saved, parent, s, updates))
    decreases |updates|
  {
    if updates != [] {
      var front, last := updates[..|updates| - 1], updates[|updates| - 1];
      assert updates == front + [last] && last == (last.0, last.1);
      LoopSaves(saved, parent, s, front);
      FoldSnoc(saved, parent, s, front, last.0, last.1);
      AllSavedSnoc(saved, parent, s, front, last, SavedAfter(saved, parent, s, front), Folded(s, updates));
    }
  }

  /** The state that the last saved one of these updates led to. */
  function LastSaved(s: AgentState, updates: seq<(Node, Update)>): AgentState
    requires SavedUpdates(updates) != []
  {
    var saved := SavedUpdates(updates);
    Folded(s, updates[..saved[|saved| - 1] + 1])
  }

  lemma LastIsSaved(saved: seq<R.Saved>, parent: Option<nat>, s: AgentState, updates: seq<(Node, Update)>,
                    after: seq<R.Saved>)
    requires AllSaved(saved, parent, s, updates, after) && SavedUpdates(updates) != []
    ensures after[|after| - 1].state == Serialize(LastSaved(s, updates))
  {
    assert SavedFor(saved, parent, s, updates, after, |SavedUpdates(updates)| - 1);
  }

  /** The next job goes on where this one stopped: its graph and its copy start from the state that the last saved
      update led to, as it is after one round of serialisation; if no update was saved, the checkpoints are the same. */
  lemma NextJobResumes(context: Context, saved: seq<R.Saved>, parent: Option<nat>, s: AgentState,
                       updates: seq<(Node, Update)>)
    ensures var after, n := SavedAfter(saved, parent, s, updates), |SavedUpdates(updates)|;
            if n == 0 then after == saved
            else R.StartsFrom(R.StartRun(context, after), Rounds(LastSaved(s, updates), 1), Some(|saved| + n - 1))
  {
    var after, n := SavedAfter(saved, parent, s, updates), |SavedUpdates(updates)|;
    LoopSaves(saved, parent, s, updates);
    if n > 0 {
      LastIsSaved(saved, parent, s, updates, after);
      LastCheckpointStarts(context, after, LastSaved(s, updates));
    }
  }

  lemma LastCheckpointStarts(context: Context, saved: seq<R.Saved>, state: AgentState)
    requires saved != [] && saved[|saved| - 1].state == Serialize(state)
    ensures R.StartsFrom(R.StartRun(context, saved), Rounds(state, 1), Some(|saved| - 1))
  {
    assert Rounds(state, 0) == state;
    StartRestores(R.InitialState(context, saved));
  }

  function Consumes(w: nat, n: nat): seq<R.Move> {
    if n == 0 then [] else [R.Consume(w)] + Consumes(w, n - 1)
  }

  /** What the run's remaining updates lead to. */
  predicate LeadTo(saved: seq<R.Saved>, r: R.Live, after: seq<R.Saved>, last: AgentState) {
    SavedAfter(saved, r.parent, r.copy, r.queue) == after && Folded(r.copy, r.queue) == last
  }

  lemma ConsumeFirstLeads(saved: seq<R.Saved>, r: R.Live, after: seq<R.Saved>, last: AgentState)
    requires r.queue != [] && Overlay(r.copy, r.queue[0].1) == Some(Reduce(r.copy, r.queue[0].1))
    requires LeadTo(saved, r, after, last)
    ensures var (more, r') := R.ConsumeFirst(saved, r);
            LeadTo(more, r', after, last) && r'.queue == r.queue[1..] && r'.graph == r.graph
  {
    var t := Reduce(r.copy, r.queue[0].1);
    var more := OneMore(saved, r.parent, r.queue[0].0, t);
    assert R.ConsumeFirst(saved, r)
        == (more, R.Live(r.graph, r.queue[1..], t, ParentAfter(saved, r.parent, more)));
  }

  /** One runner step leaves what the remaining ones will lead to. */
  lemma ConsumeOne(s: R.System, w: nat, after: seq<R.Saved>, last: AgentState)
    requires R.Inv(s) && w in s.runs && s.runs[w].queue != [] && LeadTo(s.saved, s.runs[w], after, last)
    ensures var t := R.Next(s, R.Consume(w));
            && w in t.runs && t.runs[w].queue == s.runs[w].queue[1..] && t.runs[w].graph == s.runs[w].graph
            && LeadTo(t.saved, t.runs[w], after, last)
  {
    var r := s.runs[w];
    assert R.RunOk(s.context, s.saved, r);
    OverlayIsReduceIff(r.copy, r.queue[0].1);
    ConsumeFirstLeads(s.saved, r, after, last);
  }

  lemma RunCons(s: R.System, w: nat, n: nat)
    requires n > 0
    ensures R.Run(s, Consumes(w, n)) == R.Run(R.Next(s, R.Consume(w)), Consumes(w, n - 1))
  {
    assert Consumes(w, n)[1..] == Consumes(w, n - 1);
  }

  lemma {:induction false} ConsumeAll(s: R.System, w: nat, after: seq<R.Saved>, last: AgentState)
    requires R.Inv(s) && w in s.runs && LeadTo(s.saved, s.runs[w], after, last)
    ensures R.Run(s, Consumes(w, |s.runs[w].queue|)).saved == after
    ensures last == s.runs[w].graph.state
    decreases if w in s.runs then |s.runs[w].queue| else 0
  {
    var r := s.runs[w];
    if r.queue == [] {
      assert Consumes(w, 0) == [];
    } else {
      R.ConsumeKeepsInv(s, w);
      ConsumeOne(s, w, after, last);
      RunCons(s, w, |r.queue|);
      ConsumeAll(R.Next(s, R.Consume(w)), w, after, last);
    }
  }

  /** The update loop is a run of the interleaved system: consuming all waiting updates of a run, one runner step
      each, saves what the loop saves, so that what holds there of checkpoints holds of these; and the loop ends with
      the state of the graph. */
  lemma LoopIsRunnerSteps(s: R.System, w: nat)
    requires R.Inv(s) && w in s.runs
    ensures var r := s.runs[w];
            var t := R.Run(s, Consumes(w, |r.queue|));
            && R.Inv(t) && t.saved == SavedAfter(s.saved, r.parent, r.copy, r.queue)
            && Folded(r.copy, r.queue) == r.graph.state
  {
    var r := s.runs[w];
    R.RunKeepsInv(s, Consumes(w, |r.queue|));
    ConsumeAll(s, w, SavedAfter(s.saved, r.parent, r.copy, r.queue), Folded(r.copy, r.queue));
  }

  // ── What a job leaves ───────────────────────────────────────────────────────────

  /** How a job ends: cancelled if it noticed a request, paused if a tool needs approval, failed if a node threw, left
      an error, or the COMPLETED event was lost, and otherwise completed with the response. */
  function OutcomeOf(noticed: bool, ending: Ending, last: AgentState, appends: Appends): Outcome {
    if noticed then Cancelled
    else if ending == NeedsApproval then Paused
    else if ending == Threw || !NoError(last) || appends.end == L.Lost then Failed
    else Completed(match last.response case Some(text) => text case None => "(no response)")
  }

  predicate NoError(s: AgentState) {
    s.error.None? || s.error.value == ""
  }

  function StoredOnly(kind: Kind, append: L.Append): seq<Kind> {
    if append == L.Stored then [kind] else []
  }

  /** What a job that was not skipped leaves: the status of its outcome; its first event, that of a cancel request, and
      that of its end, as far as they are stored; a message if the graph ended without error; and the cancel flag
      only if it was requested and not dealt with. */
  predicate JobEnds(s: L.State, t: L.State, name: string, noticed: bool, requested: bool, ending: Ending,
                    last: AgentState, appends: Appends, r: Outcome)
  {
    var answered := !noticed && ending == Drained && NoError(last);
    && r == OutcomeOf(noticed, ending, last, appends)
    && t.messages == s.messages + (if answered then 1 else 0)
    && t.cancelFlag == (if noticed then appends.end == L.Lost else requested && !r.Completed?)
    && var begun := s.log + [Other(name)] + (if requested then StoredOnly(CANCELLED, appends.request) else []);
       match r
       case Skipped => false
       case Cancelled => t.status == L.Final(CANCELLED) && t.log == begun + StoredOnly(CANCELLED, appends.end)
       case Paused => t.status == L.WAITING_FOR_APPROVAL && t.log == begun + [Other("WAITING_FOR_APPROVAL")]
       case Completed(_) => t.status == L.Final(COMPLETED) && t.log == begun + [COMPLETED]
       case Failed =>
         && t.status == L.Final(FAILED)
         && t.log == begun + StoredOnly(FAILED, if answered then appends.again else appends.end)
  }

  /** The worker of the job is at work on the graph. */
  predicate AtWork(s: L.State) {
    s.status.RUNNING? && s.workers == map[0 := L.Active(false)]
  }

  /** After the request, if there was one. */
  function Requested(s: L.State, requested: bool, append: L.Append): L.State {
    if requested then L.Next(s, L.Cancel(append)) else s
  }

  lemma LastStepLeaves(s: L.State, requested: bool, ending: Ending, last: AgentState, appends: Appends)
    requires AtWork(s) && !s.cancelFlag
    ensures var step := LastStep(ending, ending.Threw? || Truthy(last.error), appends);
            var t := L.Next(Requested(s, requested, appends.request), step);
            var answered := ending == Drained && NoError(last);
            && t.messages == s.messages + (if answered then 1 else 0)
            && t.cancelFlag == (requested && !OutcomeOf(false, ending, last, appends).Completed?)
            && var begun := s.log + (if requested then StoredOnly(CANCELLED, appends.request) else []);
               match OutcomeOf(false, ending, last, appends)
               case Skipped => false
               case Cancelled => false
               case Paused => t.status == L.WAITING_FOR_APPROVAL && t.log == begun + [Other("WAITING_FOR_APPROVAL")]
               case Completed(_) => t.status == L.Final(COMPLETED) && t.log == begun + [COMPLETED]
               case Failed =>
                 && t.status == L.Final(FAILED)
                 && t.log == begun + StoredOnly(FAILED, if answered then appends.again else appends.end)
  {
    assert Requested(s, requested, appends.request).workers == s.workers;
  }

  lemma NoticedLeaves(s: L.State, appends: Appends)
    requires AtWork(s)
    ensures var t := L.Next(L.Next(L.Next(s, L.Cancel(appends.request)), L.Poll(0)), L.Abort(0, appends.end));
            && t.status == L.Final(CANCELLED) && t.messages == s.messages && t.cancelFlag == appends.end.Lost?
            && t.log == s.log + StoredOnly(CANCELLED, appends.request) + StoredOnly(CANCELLED, appends.end)
  {
    AbortCancels(L.Next(s, L.Cancel(appends.request)), appends.end);
  }

  /** The steps of a job leave what it must leave. */
  lemma JobLeaves(s: L.State, name: string, noticed: bool, requested: bool, ending: Ending, last: AgentState,
                  appends: Appends)
    requires L.Resumable(s.status) && !s.cancelFlag && s.workers == map[] && (noticed ==> requested)
    ensures var failed := ending.Threw? || Truthy(last.error);
            var t := L.Run(s, Tail(L.JobBegins(0, L.Stored, name), noticed, requested, ending, failed, appends));
            JobEnds(s, t, name, noticed, requested, ending, last, appends, OutcomeOf(noticed, ending, last, appends))
  {
    var head, cancel := L.JobBegins(0, L.Stored, name), L.Cancel(appends.request);
    var begun := L.Run(s, head);
    L.JobRunsIff(s, 0, L.Stored, name);
    L.RunSnoc(s, head, cancel);
    if noticed {
      L.RunSnoc(s, head + [cancel], L.Poll(0));
      L.RunSnoc(s, head + [cancel] + [L.Poll(0)], L.Abort(0, appends.end));
      NoticedLeaves(begun, appends);
    } else {
      var step := LastStep(ending, ending.Threw? || Truthy(last.error), appends);
      L.RunSnoc(s, head, step);
      L.RunSnoc(s, head + [cancel], step);
      LastStepLeaves(begun, requested, ending, last, appends);
    }
  }

  lemma NoneLeft(workers: map<nat, L.Phase>)
    ensures workers - {0} == map[] <==> workers.Keys <= {0}
  {
    if workers - {0} == map[] {
      forall w | w in workers ensures w == 0 {
        assert w !in workers - {0};
      }
    }
  }

  lemma CancelEffect(s: L.State, append: L.Append)
    ensures var t := L.HandleCancel(s, 0, append);
            && (L.Tracks(s) ==> (L.Tracks(t) <==> append.Stored? || L.LatestIs(s.log, CANCELLED)))
            && (L.Stable(t) <==> s.workers.Keys <= {0})
  {
    L.Appended(s.log, CANCELLED);
    L.StableIffNoWorker(L.HandleCancel(s, 0, append));
    NoneLeft(s.workers);
  }

  class AgentRunnerService {
    var status: L.Status
    var cancelFlag: bool
    var log: seq<Kind>
    var messages: nat
    var saved: seq<R.Saved>

    constructor ()
      ensures State(map[]) == L.INIT && saved == []
    {
      status, cancelFlag, log, messages, saved := L.CREATED, false, [], 0, [];
    }

    ghost function State(workers: map<nat, L.Phase>): L.State
      reads this
    {
      L.Execution(status, cancelFlag, log, messages, workers)
    }

    /** The cancel handler; a second request changes nothing. */
    method Cancel(append: L.Append, ghost workers: map<nat, L.Phase>)
      modifies `cancelFlag, `status, `log
      ensures State(workers) == L.Next(old(State(workers)), L.Cancel(append))
      ensures L.Over(old(status)) ==> State(workers) == old(State(workers))
      ensures !L.Over(old(status)) ==>
                status == L.Final(CANCELLED) && cancelFlag && log == old(log) + StoredOnly(CANCELLED, append)
    {
      if L.Over(status) {
        return;
      }
      cancelFlag := true;
      status := L.Final(CANCELLED);
      AppendEvent(CANCELLED, append);
    }

    method AppendEvent(kind: Kind, append: L.Append)
      modifies `log
      ensures log == L.Logged(old(log), kind, append)
    {
      if append.Stored? {
        log := log + [kind];
      }
    }

    /** The worker's own cancel: the step of the execution's life, from which, if no other worker is at work,
        the outcome is final whatever comes. Status, events and messages stay in agreement exactly if the event
        is stored, or would have been a second one. */
    method HandleCancel(append: L.Append, ghost workers: map<nat, L.Phase>)
      modifies `cancelFlag, `status, `log
      ensures State(workers - {0}) == L.HandleCancel(old(State(workers)), 0, append)
      ensures status == L.Final(CANCELLED) && log == old(log) + StoredOnly(CANCELLED, append)
      ensures cancelFlag <==> append.Lost? && old(cancelFlag)
      ensures L.Tracks(old(State(workers))) ==>
                (L.Tracks(State(workers - {0})) <==> append.Stored? || L.LatestIs(old(log), CANCELLED))
      ensures L.Stable(State(workers - {0})) <==> workers.Keys <= {0}
    {
      CancelEffect(State(workers), append);
      status := L.Final(CANCELLED);
      AppendEvent(CANCELLED, append);
      if append.Stored? {
        cancelFlag := false;
      }
    }

    /** The update loop: overlays each update on the copy of the state, and saves the copy after some nodes.
        `cancelAt` is the update before which a cancel request came in and was polled. */
    method Consume(initial: AgentState, updates: seq<(Node, Update)>, cancelAt: Option<nat>)
        returns (currentState: AgentState, cancelled: bool)
      requires forall i :: 0 <= i < |updates| ==> NoNulls(updates[i].1)
      modifies `saved
      ensures cancelled <==> cancelAt.Some? && cancelAt.value < |updates|
      ensures currentState == Folded(initial, Seen(updates, cancelAt))
      ensures saved == SavedAfter(old(saved), R.LatestId(old(saved)), initial, Seen(updates, cancelAt))
    {
      currentState, cancelled := initial, false;
      var parentCheckpointId := R.LatestId(saved);
      for i := 0 to |updates|
        invariant cancelAt.Some? ==> i <= cancelAt.value
        invariant currentState == Folded(initial, updates[..i])
        invariant saved == SavedAfter(old(saved), R.LatestId(old(saved)), initial, updates[..i])
        invariant parentCheckpointId == ParentAfter(old(saved), R.LatestId(old(saved)), saved)
      {
        if cancelAt == Some(i) {
          cancelled := true;
          return;
        }
        var (nodeName, nodeOutput) := updates[i];
        FoldOneMore(old(saved), R.LatestId(old(saved)), initial, updates, i);
        OverlayIsReduceIff(currentState, nodeOutput);
        currentState := Overlay(currentState, nodeOutput).value;
        if IsCheckpointNode(NameOf(nodeName)) {
          saved := saved + [R.Saved(nodeName, Serialize(currentState), parentCheckpointId)];
          parentCheckpointId := Some(|saved| - 1);
        }
      }
      assert updates[..|updates|] == updates;
    }

    /** The writes that end the job, after `ending`. A lost COMPLETED event turns the completion into a failure. */
    method Finish(currentState: AgentState, ending: Ending, appends: Appends) returns (r: Outcome)
      modifies `cancelFlag, `status, `log, `messages
      ensures State(map[]) == L.Next(old(State(map[0 := L.Active(false)])),
                LastStep(ending, ending.Threw? || Truthy(currentState.error), appends))
      ensures r == OutcomeOf(false, ending, currentState, appends)
    {
      ghost var workers: map<nat, L.Phase> := map[0 := L.Active(false)];
      assert workers - {0} == map[];
      if ending.NeedsApproval? {
        // Written by the act node, before it throws.
        status := L.WAITING_FOR_APPROVAL;
        log := log + [Other("WAITING_FOR_APPROVAL")];
        return Paused;
      }
      if ending.Threw? || Truthy(currentState.error) {
        status := L.Final(FAILED);
        AppendEvent(FAILED, appends.end);
        return Failed;
      }
      messages := messages + 1;
      status := L.Final(COMPLETED);
      AppendEvent(COMPLETED, appends.end);
      if appends.end.Lost? {
        status := L.Final(FAILED);
        AppendEvent(FAILED, appends.again);
        return Failed;
      }
      cancelFlag := false;
      return Completed(currentState.response.GetOr("(no response)"));
    }

    /** Starts the job: status RUNNING, the latest state or a fresh one, and the first event. */
    method Enter(context: Context) returns (initialState: AgentState, ghost name: string)
      requires L.Resumable(status) && !cancelFlag
      modifies `status, `log
      ensures initialState == if saved == []
                then AgentState(context, None, false, [], [], [], [], [], 0, 5, None, None, None, None)
                else Deserialize(saved[|saved| - 1].state)
      ensures name == if saved == [] then "STARTED" else "RESUMED"
      ensures State(map[0 := L.Active(false)]) == L.Run(old(State(map[])), L.JobBegins(0, L.Stored, name))
      ensures status.RUNNING?
    {
      ghost var before := State(map[]);
      status := L.RUNNING;
      initialState := R.InitialState(context, saved);
      var event := if saved == [] then "STARTED" else "RESUMED";
      log := log + [Other(event)];
      name := event;
      L.JobRunsIff(before, 0, L.Stored, name);
    }

    /** What comes in from outside while the graph runs, and how the job ends. */
    method Conclude(currentState: AgentState, cancelled: bool, requested: bool, ending: Ending, appends: Appends,
                    ghost before: L.State, ghost head: seq<L.Step>) returns (r: Outcome)
      requires State(map[0 := L.Active(false)]) == L.Run(before, head) && status.RUNNING?
      requires cancelled ==> requested
      modifies `cancelFlag, `status, `log, `messages
      ensures State(map[]) == L.Run(before,
                Tail(head, cancelled, requested, ending, ending.Threw? || Truthy(currentState.error), appends))
      ensures r == OutcomeOf(cancelled, ending, currentState, appends)
    {
      ghost var steps := head;
      if requested {
        Cancel(appends.request, map[0 := L.Active(false)]);
        L.RunSnoc(before, head, L.Cancel(appends.request));
        steps := head + [L.Cancel(appends.request)];
      }
      if cancelled {
        ghost var noticed := State(map[0 := L.Active(false)]);
        ghost var seen: map<nat, L.Phase> := map[0 := L.Active(true)];
        assert seen - {0} == map[];
        HandleCancel(appends.end, seen);
        L.RunSnoc(before, steps, L.Poll(0));
        L.RunSnoc(before, steps + [L.Poll(0)], L.Abort(0, appends.end));
        AbortCancels(noticed, appends.end);
        return Cancelled;
      }
      L.RunSnoc(before, steps, LastStep(ending, ending.Threw? || Truthy(currentState.error), appends));
      r := Finish(currentState, ending, appends);
    }

    /** One job. A status that cannot be resumed is skipped; a set cancel flag cancels at once; otherwise the
        updates of the graph are consumed from the latest checkpoint's state or a fresh one. */
    method Run(context: Context, updates: seq<(Node, Update)>, cancelAt: Option<nat>, ending: Ending, appends: Appends)
        returns (r: Outcome)
      requires forall i :: 0 <= i < |updates| ==> NoNulls(updates[i].1)
      modifies this
      ensures r.Skipped? <==> old(status) !in {L.CREATED, L.RUNNING, L.WAITING_FOR_APPROVAL}
      ensures r.Skipped? ==> State(map[]) == old(State(map[])) && saved == old(saved)
      ensures L.Resumable(old(status)) && old(cancelFlag) ==>
                && r == Cancelled && saved == old(saved)
                && status == L.Final(CANCELLED) && log == old(log) + StoredOnly(CANCELLED, appends.end)
                && messages == old(messages) && cancelFlag == appends.end.Lost?
                && State(map[]) == L.Run(old(State(map[])), [L.Load(0), L.CheckFlag(0, appends.end)])
      ensures L.Resumable(old(status)) && !old(cancelFlag) ==>
                var initial := if old(saved) == []
                  then AgentState(context, None, false, [], [], [], [], [], 0, 5, None, None, None, None)
                  else Deserialize(old(saved)[|old(saved)| - 1].state);
                var last := Folded(initial, Seen(updates, cancelAt));
                var name := if old(saved) == [] then "STARTED" else "RESUMED";
                && saved == SavedAfter(old(saved), R.LatestId(old(saved)), initial, Seen(updates, cancelAt))
                && State(map[]) == L.Run(old(State(map[])),
                     JobSteps(name, |updates|, cancelAt, ending, ending.Threw? || Truthy(last.error), appends))
                && JobEnds(old(State(map[])), State(map[]), name, |Seen(updates, cancelAt)| < |updates|, cancelAt.Some?,
                           ending, last, appends, r)
    {
      ghost var before := State(map[]);
      if !L.Resumable(status) {
        return Skipped;
      }
      if cancelFlag {
        ghost var loaded: map<nat, L.Phase> := map[0 := L.Loaded];
        assert loaded - {0} == map[];
        HandleCancel(appends.end, loaded);
        L.RunTwo(before, L.Load(0), L.CheckFlag(0, appends.end));
        FlagCancels(before, appends.end);
        return Cancelled;
      }
      var initialState, name := Enter(context);
      var currentState, cancelled := Consume(initialState, updates, cancelAt);
      r := Conclude(currentState, cancelled, cancelAt.Some?, ending, appends, before, L.JobBegins(0, L.Stored, name));
      JobLeaves(before, name, cancelled, cancelAt.Some?, ending, currentState, appends);
    }
  }
}

/** The runner: it feeds the latest checkpoint, or a fresh state, into the graph from the start,
    overlays the node outputs on its own copy of the state, checkpoints after some nodes, and may
    be killed anywhere. */
module AgentRunner {
  import opened Wrappers
  import opened AgentState
  import opened AgentGraph
  import opened Checkpoints

  /** A checkpoint row of this execution; its position in the list is its id. */
  datatype Saved = Saved(node: Node, state: PlainState, parent: Option<nat>)

  /** A run in progress. The graph may be ahead of the runner: node outputs wait in a queue. */
  datatype Live = Live(graph: Config, queue: seq<(Node, Update)>, copy: AgentState, parent: Option<nat>)

  /** Any number of runs of the execution may be at work at once: a job is retried, or resumed twice. */
  datatype System = System(context: Context, saved: seq<Saved>, runs: map<nat, Live>)

  datatype Move = Start(w: nat) | GraphStep(w: nat, oracle: Oracle) | Consume(w: nat) | Die(w: nat)

  const MAX_LOOPS: nat := 5

  function CreateInitialState(context: Context): AgentState {
    AgentState(context, None, false, [], [], [], [], [], 0, MAX_LOOPS, None, None, None, None)
  }

  function SavedState(saved: seq<Saved>, i: nat): AgentState
    requires i < |saved|
  {
    Deserialize(saved[i].state)
  }

  /** The latest checkpoint's state, or a fresh one. */
  function InitialState(context: Context, saved: seq<Saved>): AgentState {
    if saved == [] then CreateInitialState(context) else SavedState(saved, |saved| - 1)
  }

  function LatestId(saved: seq<Saved>): Option<nat> {
    if saved == [] then None else Some(|saved| - 1)
  }

  function StartRun(context: Context, saved: seq<Saved>): Live {
    var initial := InitialState(context, saved);
    Live(AgentGraph.Begin(Reduce(DEFAULTS, FullUpdate(initial))), [], initial, LatestId(saved))
  }

  function StepRun(r: Live, o: Oracle): Live
    requires r.graph.at.At?
  {
    var n := r.graph.at.node;
    var out := NodeOutput(n, r.graph.state, o);
    r.(graph := Step(r.graph, o), queue := if out.Ok? then r.queue + [(n, out.value)] else r.queue)
  }

  /** The body of the update loop: the checkpoints and the run after it. */
  function ConsumeFirst(saved: seq<Saved>, r: Live): (seq<Saved>, Live)
    requires r.queue != []
  {
    var (n, u) := r.queue[0];
    match Overlay(r.copy, u)
    case None => (saved, r)
    case Some(state) =>
      var r' := r.(queue := r.queue[1..], copy := state);
      if IsCheckpointNode(NameOf(n))
      then (saved + [Saved(n, Serialize(state), r.parent)], r'.(parent := Some(|saved|)))
      else (saved, r')
  }

  function Next(s: System, m: Move): System {
    match m
    case Start(w) =>
      if w in s.runs then s else s.(runs := s.runs[w := StartRun(s.context, s.saved)])
    case GraphStep(w, o) =>
      if w in s.runs && s.runs[w].graph.at.At? then s.(runs := s.runs[w := StepRun(s.runs[w], o)]) else s
    case Consume(w) =>
      if w in s.runs && s.runs[w].queue != [] then
        var (saved, r) := ConsumeFirst(s.saved, s.runs[w]);
        System(s.context, saved, s.runs[w := r])
      else s
    case Die(w) => s.(runs := s.runs - {w})
  }

  function Run(s: System, moves: seq<Move>): System
    decreases |moves|
  {
    if moves == [] then s else Run(Next(s, moves[0]), moves[1..])
  }

  /** A new execution: nothing saved, nothing at work. */
  function New(context: Context): System {
    System(context, [], map[])
  }

  // ── Invariants ──────────────────────────────────────────────────────────────────

  /** Each observation describes a tool result of its own, in the order of the results. */
  predicate Describes(observations: seq<string>, results: seq<ToolResult>)
    decreases |results|
  {
    if observations == [] then true
    else if results == [] then false
    else
      || Describes(observations, results[..|results| - 1])
      || (observations[|observations| - 1] == Describe(results[|results| - 1])
          && Describes(observations[..|observations| - 1], results[..|results| - 1]))
  }

  /** Observations describe tool results, which stay within the loop count and its limit;
      what identifies the execution never changes. */
  predicate Good(context: Context, s: AgentState) {
    && Describes(s.observations, s.toolResults)
    && |s.observations| <= |s.toolResults| <= Min(s.loopCount, s.maxLoops)
    && s.context == context && s.maxLoops == MAX_LOOPS
  }

  /** The latest tool result has no observation yet. */
  predicate Undescribed(s: AgentState) {
    s.toolResults != [] && Describes(s.observations, s.toolResults[..|s.toolResults| - 1])
  }

  predicate GoodAt(context: Context, at: Position, s: AgentState) {
    && Good(context, s)
    && (at == At(Act) ==> |s.toolResults| < s.loopCount)
    && (at == At(Observe) ==> Undescribed(s))
  }

  lemma {:induction false} DescribesAtMost(observations: seq<string>, results: seq<ToolResult>)
    requires Describes(observations, results)
    ensures |observations| <= |results|
    decreases |results|
  {
    if observations != [] {
      var front := results[..|results| - 1];
      if Describes(observations, front) {
        DescribesAtMost(observations, front);
      } else {
        DescribesAtMost(observations[..|observations| - 1], front);
      }
    }
  }

  lemma DescribesMore(observations: seq<string>, results: seq<ToolResult>, r: ToolResult)
    requires Describes(observations, results)
    ensures Describes(observations, results + [r])
    ensures Describes(observations + [Describe(r)], results + [r])
  {
    var more := results + [r];
    assert more[..|more| - 1] == results;
    var all := observations + [Describe(r)];
    assert all[..|all| - 1] == observations;
  }

  /** A new result has no observation yet, and all earlier observations stand. */
  lemma ActDescribes(s: AgentState, r: ToolResult)
    requires Describes(s.observations, s.toolResults)
    ensures var t := s.(toolResults := s.toolResults + [r], pendingToolName := None, pendingToolInput := None);
            Describes(t.observations, t.toolResults) && Undescribed(t)
  {
    DescribesMore(s.observations, s.toolResults, r);
    assert (s.toolResults + [r])[..|s.toolResults|] == s.toolResults;
  }

  lemma ObserveDescribes(s: AgentState)
    requires Undescribed(s)
    ensures var t := Reduce(s, ObserveNode(s));
            Describes(t.observations, t.toolResults) && |t.observations| <= |t.toolResults|
            && t.toolResults == s.toolResults
  {
    var front, last := s.toolResults[..|s.toolResults| - 1], s.toolResults[|s.toolResults| - 1];
    assert s.toolResults == front + [last];
    DescribesMore(s.observations, front, last);
    DescribesAtMost(s.observations + [Describe(last)], s.toolResults);
  }

  /** What the runner will see: each waiting update leads to a good state, none decreases the
      loop count, and all but those of the reason node lead to a settled one. */
  predicate Leads(context: Context, s: AgentState, queue: seq<(Node, Update)>, target: AgentState)
    decreases |queue|
  {
    if queue == [] then s == target
    else
      var (n, u) := queue[0];
      var t := Reduce(s, u);
      && NoNulls(u) && Good(context, t) && s.loopCount <= t.loopCount
      && (n.Reason? || Settled(t))
      && Leads(context, t, queue[1..], target)
  }

  /** `loopCount` is at least that of the parent checkpoint. */
  predicate Follows(saved: seq<Saved>, parent: Option<nat>, loopCount: nat) {
    parent.Some? ==> parent.value < |saved| && SavedState(saved, parent.value).loopCount <= loopCount
  }

  /** A checkpoint is good and settled, and follows its parent, an earlier one. */
  predicate SavedAt(context: Context, saved: seq<Saved>, i: nat)
    requires i < |saved|
  {
    && Good(context, SavedState(saved, i)) && Settled(SavedState(saved, i))
    && Follows(saved[..i], saved[i].parent, SavedState(saved, i).loopCount)
  }

  predicate SavedOk(context: Context, saved: seq<Saved>) {
    forall i :: 0 <= i < |saved| ==> SavedAt(context, saved, i)
  }

  predicate RunOk(context: Context, saved: seq<Saved>, r: Live) {
    && ConfigInv(r.graph)
    && GoodAt(context, r.graph.at, r.graph.state)
    && Good(context, r.copy)
    && Leads(context, r.copy, r.queue, r.graph.state)
    && Follows(saved, r.parent, r.copy.loopCount)
  }

  predicate Inv(s: System) {
    && SavedOk(s.context, s.saved)
    && forall w :: w in s.runs ==> RunOk(s.context, s.saved, s.runs[w])
  }

  /** What one node step must do. */
  predicate StepIsGood(context: Context, c: Config, o: Oracle) {
    c.at.At? ==>
      && GoodAt(context, Step(c, o).at, Step(c, o).state)
      && match NodeOutput(c.at.node, c.state, o)
         case Err(_) => Step(c, o).state == c.state
         case Ok(u) => && NoNulls(u) && Step(c, o).state == Reduce(c.state, u)
                       && c.state.loopCount <= Step(c, o).state.loopCount
                       && (c.at.node.Reason? || Settled(Step(c, o).state))
  }

  lemma ActKeepsGood(context: Context, c: Config, o: Oracle)
    requires ConfigInv(c) && c.at == At(Act) && GoodAt(context, c.at, c.state)
    ensures StepIsGood(context, c, o)
  {
    if !o.throws {
      var s := c.state;
      var result := if o.gate.Refuse? then Rejection(s.pendingToolName.value, o.gate.decision) else o.gate.result;
      ActDescribes(s, result);
      assert Reduce(s, ActNode(s, o))
          == s.(toolResults := s.toolResults + [result], pendingToolName := None, pendingToolInput := None);
    }
  }

  lemma ObserveKeepsGood(context: Context, c: Config, o: Oracle)
    requires ConfigInv(c) && c.at == At(Observe) && GoodAt(context, c.at, c.state)
    ensures StepIsGood(context, c, o)
  {
    ObserveDescribes(c.state);
  }

  /** One node step keeps what must hold at its successor. */
  lemma NodeKeepsGood(context: Context, c: Config, o: Oracle)
    requires ConfigInv(c) && c.at.At? && GoodAt(context, c.at, c.state)
    ensures StepIsGood(context, c, o)
  {
    if c.at.node.Act? {
      ActKeepsGood(context, c, o);
    } else if c.at.node.Observe? {
      ObserveKeepsGood(context, c, o);
    } else {
      assert !o.throws ==> Step(c, o).state.toolResults == c.state.toolResults;
    }
  }

  lemma {:induction false} LeadsSnoc(context: Context, s: AgentState, queue: seq<(Node, Update)>,
                                     t: AgentState, n: Node, u: Update)
    requires Leads(context, s, queue, t)
    requires NoNulls(u) && Good(context, Reduce(t, u)) && t.loopCount <= Reduce(t, u).loopCount
    requires n.Reason? || Settled(Reduce(t, u))
    ensures Leads(context, s, queue + [(n, u)], Reduce(t, u))
    decreases |queue|
  {
    if queue == [] {
      assert [(n, u)][1..] == [];
      assert queue + [(n, u)] == [(n, u)];
    } else {
      assert (queue + [(n, u)])[1..] == queue[1..] + [(n, u)];
      LeadsSnoc(context, Reduce(s, queue[0].1), queue[1..], t, n, u);
    }
  }

  lemma OnlyReasonIsUnsaved(n: Node)
    ensures IsCheckpointNode(NameOf(n)) <==> !n.Reason?
  {
  }

  lemma RoundKeepsGood(context: Context, state: AgentState)
    requires Good(context, state) && Settled(state)
    ensures var t := Deserialize(Serialize(state));
            Good(context, t) && Settled(t) && t.loopCount == state.loopCount
  {
  }

  lemma FollowsGrows(saved: seq<Saved>, more: seq<Saved>, parent: Option<nat>, loopCount: nat)
    requires saved <= more && Follows(saved, parent, loopCount)
    ensures Follows(more, parent, loopCount)
  {
    if parent.Some? {
      assert more[parent.value] == saved[parent.value];
    }
  }

  lemma SavedAtGrows(context: Context, saved: seq<Saved>, c: Saved, i: nat)
    requires i < |saved| && SavedAt(context, saved, i)
    ensures SavedAt(context, saved + [c], i)
  {
    assert SavedState(saved + [c], i) == SavedState(saved, i) && (saved + [c])[..i] == saved[..i];
  }

  lemma SavedLast(context: Context, saved: seq<Saved>, n: Node, state: AgentState, parent: Option<nat>)
    requires Good(context, state) && Settled(state) && Follows(saved, parent, state.loopCount)
    ensures var more := saved + [Saved(n, Serialize(state), parent)];
            SavedAt(context, more, |saved|) && SavedState(more, |saved|).loopCount == state.loopCount
  {
    var more := saved + [Saved(n, Serialize(state), parent)];
    RoundKeepsGood(context, state);
    assert SavedState(more, |saved|) == Deserialize(Serialize(state)) && more[..|saved|] == saved;
  }

  lemma SaveKeepsOk(context: Context, saved: seq<Saved>, n: Node, state: AgentState, parent: Option<nat>)
    requires SavedOk(context, saved) && Good(context, state) && Settled(state)
    requires Follows(saved, parent, state.loopCount)
    ensures SavedOk(context, saved + [Saved(n, Serialize(state), parent)])
    ensures Follows(saved + [Saved(n, Serialize(state), parent)], Some(|saved|), state.loopCount)
  {
    var c := Saved(n, Serialize(state), parent);
    SavedLast(context, saved, n, state, parent);
    forall i | 0 <= i < |saved| ensures SavedAt(context, saved + [c], i) {
      SavedAtGrows(context, saved, c, i);
    }
  }

  /** A turn of the update loop of one run. */
  lemma ConsumeKeepsOk(context: Context, saved: seq<Saved>, r: Live)
    requires SavedOk(context, saved) && RunOk(context, saved, r) && r.queue != []
    ensures var (more, r') := ConsumeFirst(saved, r);
            SavedOk(context, more) && RunOk(context, more, r') && saved <= more
            && r'.queue == r.queue[1..] && r'.copy == Reduce(r.copy, r.queue[0].1) && r'.graph == r.graph
  {
    var (n, u) := r.queue[0];
    var state := Reduce(r.copy, u);
    OverlayIsReduceIff(r.copy, u);
    OnlyReasonIsUnsaved(n);
    assert Overlay(r.copy, u) == Some(state);
    if !n.Reason? {
      SaveKeepsOk(context, saved, n, state, r.parent);
    }
  }

  lemma RunGrows(context: Context, saved: seq<Saved>, more: seq<Saved>, r: Live)
    requires saved <= more && RunOk(context, saved, r)
    ensures RunOk(context, more, r)
  {
    FollowsGrows(saved, more, r.parent, r.copy.loopCount);
  }

  lemma ConsumeKeepsInv(s: System, w: nat)
    requires Inv(s) && w in s.runs && s.runs[w].queue != []
    ensures Inv(Next(s, Consume(w)))
    ensures s.saved <= Next(s, Consume(w)).saved
  {
    var t := Next(s, Consume(w));
    ConsumeKeepsOk(s.context, s.saved, s.runs[w]);
    forall v | v in t.runs ensures RunOk(t.context, t.saved, t.runs[v]) {
      if v != w {
        RunGrows(s.context, s.saved, t.saved, s.runs[v]);
      }
    }
  }

  lemma InitialIsSettled(context: Context, saved: seq<Saved>)
    requires SavedOk(context, saved)
    ensures Good(context, InitialState(context, saved)) && Settled(InitialState(context, saved))
  {
    if saved != [] {
      assert SavedAt(context, saved, |saved| - 1);
    }
  }

  lemma StartIsOk(context: Context, saved: seq<Saved>)
    requires SavedOk(context, saved)
    ensures RunOk(context, saved, StartRun(context, saved))
  {
    InitialIsSettled(context, saved);
    StartRestores(InitialState(context, saved));
  }

  lemma StepKeepsOk(context: Context, saved: seq<Saved>, r: Live, o: Oracle)
    requires RunOk(context, saved, r) && r.graph.at.At?
    ensures RunOk(context, saved, StepRun(r, o))
  {
    NodeKeepsGood(context, r.graph, o);
    StepBurnsFuel(r.graph, o);
    var out := NodeOutput(r.graph.at.node, r.graph.state, o);
    if out.Ok? {
      LeadsSnoc(context, r.copy, r.queue, r.graph.state, r.graph.at.node, out.value);
    }
  }

  lemma MoveKeepsInv(s: System, m: Move)
    requires Inv(s)
    ensures Inv(Next(s, m))
    ensures s.saved <= Next(s, m).saved && Next(s, m).context == s.context
  {
    match m
    case Start(w) => StartIsOk(s.context, s.saved);
    case GraphStep(w, o) =>
      if w in s.runs && s.runs[w].graph.at.At? {
        StepKeepsOk(s.context, s.saved, s.runs[w], o);
      }
    case Consume(w) =>
      if w in s.runs && s.runs[w].queue != [] {
        ConsumeKeepsInv(s, w);
      }
    case Die(w) =>
  }

  lemma {:induction false} RunKeepsInv(s: System, moves: seq<Move>)
    requires Inv(s)
    ensures Inv(Run(s, moves)) && Run(s, moves).context == s.context
    decreases |moves|
  {
    if moves != [] {
      MoveKeepsInv(s, moves[0]);
      RunKeepsInv(Next(s, moves[0]), moves[1..]);
    }
  }

  /** Over every sequence of starts, node steps, runner steps and kills from a new execution, with any number of
      runs at work at once: in each checkpoint, and in each run's graph state and copy, the observations describe
      tool results, each its own and in order, |observations| <= |toolResults| <= min(loopCount, maxLoops), and the
      context is the original one; each checkpoint's parent is an earlier one and along that chain loopCount never
      decreases; and a checkpoint is a state from which the act budget holds again. */
  lemma AgentStatesStayGood(context: Context, moves: seq<Move>)
    ensures var s := Run(New(context), moves);
            && (forall i :: 0 <= i < |s.saved| ==> SavedAt(context, s.saved, i))
            && (forall w :: w in s.runs ==> Good(context, s.runs[w].graph.state) && Good(context, s.runs[w].copy))
  {
    RunKeepsInv(New(context), moves);
  }

  /** Whenever a run has caught up, its copy is its graph's state; and it can always catch up: no waiting update is
      ever rejected by the overlay. */
  lemma CopyFollowsGraph(context: Context, moves: seq<Move>, w: nat)
    requires w in Run(New(context), moves).runs
    ensures var r := Run(New(context), moves).runs[w];
            if r.queue == [] then r.copy == r.graph.state else Overlay(r.copy, r.queue[0].1).Some?
  {
    RunKeepsInv(New(context), moves);
    var r := Run(New(context), moves).runs[w];
    if r.queue != [] {
      OverlayIsReduceIff(r.copy, r.queue[0].1);
    }
  }

  // ── What a run starts from, and how it goes on ──────────────────────────────────

  /** The run is at the plan node, in the given state, and so is the runner's copy of it. */
  predicate StartsFrom(r: Live, state: AgentState, parent: Option<nat>) {
    && r.copy == state && r.graph == Config(At(Plan), state, 0, 0)
    && r.queue == [] && r.parent == parent
  }

  /** With nothing saved, a run starts with nothing but its context. */
  lemma StartsFresh(s: System, v: nat)
    requires s.saved == [] && v !in s.runs
    ensures v in Next(s, Start(v)).runs
    ensures StartsFrom(Next(s, Start(v)).runs[v],
                       AgentState(s.context, None, false, [], [], [], [], [], 0, 5, None, None, None, None), None)
  {
    StartRestores(InitialState(s.context, s.saved));
  }

  /** With something saved, it starts from the latest checkpoint. */
  lemma StartsFromLatest(s: System, v: nat)
    requires s.saved != [] && v !in s.runs
    ensures v in Next(s, Start(v)).runs
    ensures var last := |s.saved| - 1;
            StartsFrom(Next(s, Start(v)).runs[v], Deserialize(s.saved[last].state), Some(last))
  {
    StartRestores(InitialState(s.context, s.saved));
  }

  /** A run resumes where the work was left: if the last state that was saved is that of run `w` after an update, then
      whatever happens without a further save, the next run starts its graph and its copy from that state, as it is
      after one round of serialisation: messages by their text, and every other field as it was. */
  lemma ResumesWhereItStopped(s: System, w: nat, moves: seq<Move>, v: nat)
    requires Inv(s) && w in s.runs && s.runs[w].queue != [] && !s.runs[w].queue[0].0.Reason?
    requires var t := Next(s, Consume(w)); Run(t, moves).saved == t.saved && v !in Run(t, moves).runs
    ensures w in Next(s, Consume(w)).runs
    ensures var t := Next(s, Consume(w));
            var u := Next(Run(t, moves), Start(v));
            && t.runs[w].copy == Reduce(s.runs[w].copy, s.runs[w].queue[0].1)
            && v in u.runs && StartsFrom(u.runs[v], Rounds(t.runs[w].copy, 1), Some(|s.saved|))
  {
    var t := Next(s, Consume(w));
    var state := t.runs[w].copy;
    ConsumeKeepsOk(s.context, s.saved, s.runs[w]);
    OnlyReasonIsUnsaved(s.runs[w].queue[0].0);
    assert t.saved == s.saved + [Saved(s.runs[w].queue[0].0, Serialize(state), s.runs[w].parent)];
    StartsFromLatest(Run(t, moves), v);
    assert Rounds(state, 0) == state;
  }

  function GraphSteps(w: nat, os: seq<Oracle>): seq<Move>
    decreases |os|
  {
    if os == [] then [] else [GraphStep(w, os[0])] + GraphSteps(w, os[1..])
  }

  /** The moves of one run change neither another run nor, unless they consume, what is saved. */
  lemma MoveTouchesOneRun(s: System, m: Move)
    ensures var t := Next(s, m);
            && (forall v :: v != m.w ==> (v in t.runs <==> v in s.runs))
            && (forall v :: v != m.w && v in s.runs ==> t.runs[v] == s.runs[v])
            && (!m.Consume? ==> t.saved == s.saved)
            && (m.Die? ==> m.w !in t.runs)
            && (m.Start? || m.GraphStep? ==> s.runs.Keys <= t.runs.Keys)
  {
  }

  /** The graph steps of a run are the steps of its graph. */
  lemma {:induction false} GraphStepsRunTheGraph(s: System, w: nat, os: seq<Oracle>)
    requires w in s.runs
    ensures var t := Run(s, GraphSteps(w, os));
            w in t.runs && t.runs[w].graph == RunAll(s.runs[w].graph, os) && t.saved == s.saved
    decreases |os|
  {
    if os != [] {
      var t := Next(s, GraphStep(w, os[0]));
      assert t.runs[w].graph == AgentGraph.Step(s.runs[w].graph, os[0]);
      assert GraphSteps(w, os)[1..] == GraphSteps(w, os[1..]);
      GraphStepsRunTheGraph(t, w, os[1..]);
    }
  }

  // ── One run at a time ───────────────────────────────────────────────────────────

  /** No run starts while another is at work. */
  predicate Serial(s: System, moves: seq<Move>)
    decreases |moves|
  {
    moves == [] || ((moves[0].Start? ==> s.runs.Keys <= {moves[0].w}) && Serial(Next(s, moves[0]), moves[1..]))
  }

  /** At most one run, which is at the end of the list of checkpoints, each with the one before as its parent. */
  predicate InLine(s: System) {
    && (forall v, w :: v in s.runs && w in s.runs ==> v == w)
    && (forall w :: w in s.runs ==> s.runs[w].parent == LatestId(s.saved))
    && (forall i :: 0 <= i < |s.saved| ==> s.saved[i].parent == LatestId(s.saved[..i]))
  }

  lemma MoveKeepsLine(s: System, m: Move)
    requires InLine(s) && (m.Start? ==> s.runs.Keys <= {m.w})
    ensures InLine(Next(s, m))
  {
    var t := Next(s, m);
    if t.saved != s.saved {
      forall i | 0 <= i < |t.saved| ensures t.saved[i].parent == LatestId(t.saved[..i]) {
        assert t.saved[..i] == s.saved[..i];
      }
    }
  }

  lemma {:induction false} SerialKeepsLine(s: System, moves: seq<Move>)
    requires InLine(s) && Serial(s, moves)
    ensures InLine(Run(s, moves))
    decreases |moves|
  {
    if moves != [] {
      MoveKeepsLine(s, moves[0]);
      SerialKeepsLine(Next(s, moves[0]), moves[1..]);
    }
  }

  /** If moreover no run starts while another is at work, the chain of parents is the list of checkpoints in the
      order in which they were saved, so that loopCount never decreases along the list. */
  lemma SerialChainIsList(context: Context, moves: seq<Move>)
    requires Serial(New(context), moves)
    ensures var saved := Run(New(context), moves).saved;
            && (forall i :: 0 <= i < |saved| ==> saved[i].parent == if i == 0 then None else Some(i - 1))
            && (forall i :: 0 < i < |saved| ==> SavedState(saved, i - 1).loopCount <= SavedState(saved, i).loopCount)
  {
    var saved := Run(New(context), moves).saved;
    SerialKeepsLine(New(context), moves);
    AgentStatesStayGood(context, moves);
    forall i | 0 < i < |saved| ensures SavedState(saved, i - 1).loopCount <= SavedState(saved, i).loopCount {
      assert SavedAt(context, saved, i) && saved[i].parent == LatestId(saved[..i]);
      assert saved[..i][i - 1] == saved[i - 1];
    }
  }

  // ── How long runs take ──────────────────────────────────────────────────────────

  lemma ReachableStart(context: Context, moves: seq<Move>)
    ensures var start := InitialState(context, Run(New(context), moves).saved);
            Settled(start) && start.maxLoops == MAX_LOOPS
  {
    RunKeepsInv(New(context), moves);
    InitialIsSettled(context, Run(New(context), moves).saved);
  }

  /** At most 20 node steps, of which at most `MAX_LOOPS - loopCount` act steps; within 20 answers the
      run is over, and if no node threw it ended with a response. */
  predicate HaltsInBudget(start: AgentState, os: seq<Oracle>) {
    var d := RunAll(AgentGraph.Begin(start), os);
    && d.steps <= 20 && d.acts <= AtLeastZero(MAX_LOOPS - start.loopCount)
    && (|os| >= 20 ==> !d.at.At?)
    && (d.at.Halted? ==> d.state.response.Some?)
  }

  lemma HaltsFrom(start: AgentState, os: seq<Oracle>)
    requires Settled(start) && start.maxLoops == MAX_LOOPS
    ensures HaltsInBudget(start, os)
  {
    EveryRunHalts(start, os);
  }

  /** A fresh run takes at most 20 node steps and 5 act steps; a resumed one never more. */
  lemma ResumedRunsHalt(context: Context, moves: seq<Move>, os: seq<Oracle>)
    ensures HaltsInBudget(InitialState(context, Run(New(context), moves).saved), os)
  {
    ReachableStart(context, moves);
    HaltsFrom(InitialState(context, Run(New(context), moves).saved), os);
  }
}

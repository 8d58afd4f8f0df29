/** The cyclic research graph: its nodes, driven by arbitrary answers of the model and the
    tools, its edges, and how long and how far a run can go. */
module AgentGraph {
  import opened Wrappers
  import opened AgentState

  datatype Node = Plan | Retrieve | RetrieveMemory | Reason | Act | Observe | Respond

  function NameOf(n: Node): string {
    match n
    case Plan => "plan"
    case Retrieve => "retrieve"
    case RetrieveMemory => "retrieve_memory"
    case Reason => "reason"
    case Act => "act"
    case Observe => "observe"
    case Respond => "respond"
  }

  /** How the gate of the act node decided, if it did not pause. */
  datatype Gate = Run(result: ToolResult) | Refuse(decision: string)

  /** Everything outside the graph that one node step depends on. `throws` stands for any
      exception that leaves the node, a pause for approval included. */
  datatype Oracle = Oracle(
    throws: bool,              // an exception leaves the node
    failure: Option<Option<string>>, // the model call failed, with this message
    text: Option<string>,      // text of the model's answer, or of its plan
    flag: bool,                // whether the plan asks for retrieval
    tool: Option<(string, Json)>, // the tool the model asks for, and its input
    message: Message,          // the model's answer as a message
    found: seq<Json>,          // what retrieval found, nothing if it failed
    gate: Gate)

  // ── Nodes ───────────────────────────────────────────────────────────────────────

  function PlanNode(o: Oracle): Update {
    if o.failure.Some?
    then NOTHING.(error := OfOption(o.failure.value), plan := Null, needsRetrieval := Present(false))
    else NOTHING.(plan := OfOption(o.text), needsRetrieval := Present(o.flag))
  }

  function ReasonNode(s: AgentState, o: Oracle): Update {
    if o.failure.Some? then NOTHING.(error := OfOption(o.failure.value))
    else if o.tool.Some? then
      NOTHING.(pendingToolName := Present(o.tool.value.0), pendingToolInput := Present(o.tool.value.1),
               messages := Present(s.messages + [o.message]), loopCount := Present(s.loopCount + 1))
    else
      NOTHING.(pendingToolName := Null, pendingToolInput := Null, response := Present(o.text.GetOr("")),
               messages := Present(s.messages + [o.message]), loopCount := Present(s.loopCount + 1))
  }

  const REJECTION_PREFIX := "rejected:"

  function Rejection(toolName: string, decision: string): ToolResult {
    ToolResult(REJECTION_PREFIX + toolName, toolName, "ERROR", None, Some(decision))
  }

  function ActNode(s: AgentState, o: Oracle): Update {
    if !Truthy(s.pendingToolName) then NOTHING
    else
      var result := if o.gate.Refuse? then Rejection(s.pendingToolName.value, o.gate.decision) else o.gate.result;
      NOTHING.(toolResults := Present(s.toolResults + [result]), pendingToolName := Null, pendingToolInput := Null)
  }

  function Describe(r: ToolResult): string {
    if r.status == "SUCCESS" && r.output.Some? then "Tool \"" + r.toolName + "\" succeeded: " + r.output.value
    else "Tool \"" + r.toolName + "\" failed (" + r.status + "): " + r.error.GetOr("{}")
  }

  /** A refused tool has no call in the model's history, so it gets no tool message. */
  function ObserveNode(s: AgentState): Update {
    if s.toolResults == [] then NOTHING
    else
      var last := s.toolResults[|s.toolResults| - 1];
      var u := NOTHING.(observations := Present(s.observations + [Describe(last)]));
      if REJECTION_PREFIX <= last.toolCallId then u
      else u.(messages := Present(s.messages + [Message("tool", Text(Describe(last)), Some(last.toolCallId), [])]))
  }

  const FALLBACK := "I encountered an error while generating a response. Please try again."

  function RespondNode(s: AgentState, o: Oracle): Update {
    NOTHING.(response := Present(
      if Truthy(s.response) then s.response.value
      else if o.failure.Some? then FALLBACK else o.text.GetOr("")))
  }

  /** What a node returns, or an error if an exception leaves it. */
  function NodeOutput(n: Node, s: AgentState, o: Oracle): Result<Update, ()> {
    if n.Observe? then Ok(ObserveNode(s))
    else if o.throws then Err(())
    else Ok(match n
            case Plan => PlanNode(o)
            case Retrieve => NOTHING.(retrievedChunks := Present(o.found))
            case RetrieveMemory => NOTHING.(retrievedMemories := Present(o.found))
            case Reason => ReasonNode(s, o)
            case Act => ActNode(s, o)
            case Observe => ObserveNode(s)
            case Respond => RespondNode(s, o))
  }

  // ── Edges ───────────────────────────────────────────────────────────────────────

  function AfterPlan(s: AgentState): Node {
    if Truthy(s.error) then Respond else if s.needsRetrieval then Retrieve else RetrieveMemory
  }

  function AfterReason(s: AgentState): Node {
    if Truthy(s.error) then Respond
    else if Truthy(s.response) then Respond
    else if Truthy(s.pendingToolName) && s.loopCount <= s.maxLoops then Act
    else Respond
  }

  /** Where a run stands. */
  datatype Position = At(node: Node) | Halted | Thrown

  function Edge(n: Node, s: AgentState): Position {
    match n
    case Plan => At(AfterPlan(s))
    case Retrieve => At(RetrieveMemory)
    case RetrieveMemory => At(Reason)
    case Reason => At(AfterReason(s))
    case Act => At(Observe)
    case Observe => At(Reason)
    case Respond => Halted
  }

  /** A run so far, counting its node steps and its act steps. */
  datatype Config = Config(at: Position, state: AgentState, steps: nat, acts: nat)

  function Begin(s: AgentState): Config {
    Config(At(Plan), s, 0, 0)
  }

  function Step(c: Config, o: Oracle): Config {
    if !c.at.At? then c else
    var n := c.at.node;
    var steps, acts := c.steps + 1, c.acts + (if n.Act? then 1 else 0);
    match NodeOutput(n, c.state, o)
    case Err(_) => Config(Thrown, c.state, steps, acts)
    case Ok(u) =>
      var s := Reduce(c.state, u);
      Config(Edge(n, s), s, steps, acts)
  }

  function RunAll(c: Config, os: seq<Oracle>): Config
    decreases |os|
  {
    if os == [] then c else RunAll(Step(c, os[0]), os[1..])
  }

  // ── How long a run can be ───────────────────────────────────────────────────────

  function LoopsLeft(s: AgentState): nat {
    AtLeastZero(s.maxLoops - s.loopCount)
  }

  /** No tool is left pending that `afterReason` would still dispatch. Every fresh state is
      settled, and every saved one is. */
  predicate Settled(s: AgentState) {
    Truthy(s.pendingToolName) ==> s.loopCount > s.maxLoops || Truthy(s.response)
  }

  /** What holds on arrival at a node. */
  predicate Arrived(n: Node, s: AgentState) {
    match n
    case Plan => Settled(s)
    case Respond => Settled(s)
    case Act => !Truthy(s.error) && Truthy(s.pendingToolName) && s.loopCount <= s.maxLoops
    case _ => !Truthy(s.error) && Settled(s)
  }

  /** Node steps still possible. */
  function Fuel(at: Position, s: AgentState): nat {
    match at
    case Halted => 0
    case Thrown => 0
    case At(Plan) => 5 + 3 * LoopsLeft(s)
    case At(Retrieve) => 4 + 3 * LoopsLeft(s)
    case At(RetrieveMemory) => 3 + 3 * LoopsLeft(s)
    case At(Reason) => 2 + 3 * LoopsLeft(s)
    case At(Act) => 4 + 3 * LoopsLeft(s)
    case At(Observe) => 3 + 3 * LoopsLeft(s)
    case At(Respond) => 1
  }

  /** Act steps still possible. */
  function ActsLeft(at: Position, s: AgentState): nat {
    match at
    case At(Act) => LoopsLeft(s) + 1
    case At(Respond) => 0
    case At(_) => LoopsLeft(s)
    case _ => 0
  }

  predicate ConfigInv(c: Config) {
    && (c.at.At? ==> Arrived(c.at.node, c.state))
    && (c.at.Halted? ==> c.state.response.Some?)
  }

  /** One step burns at least one unit of fuel. */
  lemma StepBurnsFuel(c: Config, o: Oracle)
    requires ConfigInv(c) && c.at.At?
    ensures var d := Step(c, o);
            && ConfigInv(d)
            && d.steps == c.steps + 1
            && Fuel(d.at, d.state) < Fuel(c.at, c.state)
            && d.acts + ActsLeft(d.at, d.state) <= c.acts + ActsLeft(c.at, c.state)
  {
  }

  lemma {:induction false} RunStaysInBudget(c: Config, os: seq<Oracle>)
    requires ConfigInv(c)
    ensures var d := RunAll(c, os);
            && ConfigInv(d)
            && d.steps + Fuel(d.at, d.state) <= c.steps + Fuel(c.at, c.state)
            && d.acts + ActsLeft(d.at, d.state) <= c.acts + ActsLeft(c.at, c.state)
            && (d.at.At? ==> d.steps == c.steps + |os|)
    decreases |os|
  {
    if os != [] {
      if c.at.At? {
        StepBurnsFuel(c, os[0]);
      }
      RunStaysInBudget(Step(c, os[0]), os[1..]);
    }
  }

  /** The budget of a run: steps, acts, an end, and a response at the end. */
  predicate InBudget(s: AgentState, os: seq<Oracle>) {
    var d := RunAll(Begin(s), os);
    && d.steps <= 5 + 3 * LoopsLeft(s)
    && d.acts <= LoopsLeft(s)
    && (|os| >= 5 + 3 * LoopsLeft(s) ==> !d.at.At?)
    && (d.at.Halted? ==> d.state.response.Some?)
  }

  /** From any settled state with `loopCount` L and `maxLoops` M, whatever the model and the tools
      answer: at most 5 + 3*max(0, M-L) node steps, of which at most max(0, M-L) are act steps;
      given that many answers the run has stopped, and a run in which no node threw has stopped
      behind the respond node with a response set. */
  lemma EveryRunHalts(s: AgentState, os: seq<Oracle>)
    requires Settled(s)
    ensures InBudget(s, os)
  {
    RunStaysInBudget(Begin(s), os);
  }

  // ── The act budget needs a settled start ────────────────────────────────────────

  const NO_MESSAGE := Message("ai", Text(""), None, [])

  /** The model asks for a tool, and the tool runs. */
  const CALL := Oracle(false, None, None, false, Some(("tool", "{}")), NO_MESSAGE, [],
                       Run(ToolResult("1", "tool", "SUCCESS", None, None)))

  /** The model call fails with an empty message, which counts as no error. */
  const BLANK := CALL.(failure := Some(Some("")))

  function Loops(k: nat): seq<Oracle> {
    if k == 0 then [] else [CALL, CALL, CALL] + Loops(k - 1)
  }

  lemma RunConcat(c: Config, a: seq<Oracle>, b: seq<Oracle>)
    ensures RunAll(c, a + b) == RunAll(RunAll(c, a), b)
    decreases |a|
  {
    if a == [] {
      assert a + b == b;
    } else {
      assert (a + b)[1..] == a[1..] + b;
      RunConcat(Step(c, a[0]), a[1..], b);
    }
  }

  lemma RunThree(c: Config, a: Oracle, b: Oracle, d: Oracle)
    ensures RunAll(c, [a, b, d]) == Step(Step(Step(c, a), b), d)
  {
    assert [a, b, d][1..] == [b, d] && [b, d][1..] == [d] && [d][1..] == [];
    assert RunAll(c, [a, b, d]) == RunAll(Step(c, a), [b, d]);
    assert RunAll(Step(c, a), [b, d]) == RunAll(Step(Step(c, a), b), [d]);
  }

  lemma {:induction false} ToolLoop(c: Config, k: nat)
    requires c.at == At(Observe) && !Truthy(c.state.error) && !Truthy(c.state.response)
    requires k <= LoopsLeft(c.state)
    ensures RunAll(c, Loops(k)).acts == c.acts + k
    decreases k
  {
    if k > 0 {
      RunConcat(c, [CALL, CALL, CALL], Loops(k - 1));
      RunThree(c, CALL, CALL, CALL);
      ToolLoop(Step(Step(Step(c, CALL), CALL), CALL), k - 1);
    }
  }

  /** From an unsettled state some answers lead to one act step more than the loop budget. */
  lemma UnsettledOverruns(s: AgentState)
    requires !Settled(s)
    ensures RunAll(Begin(s), [BLANK, BLANK, BLANK] + ([BLANK] + Loops(LoopsLeft(s)))).acts == LoopsLeft(s) + 1
  {
    var c := Step(Step(Step(Begin(s), BLANK), BLANK), BLANK);
    RunConcat(Begin(s), [BLANK, BLANK, BLANK], [BLANK] + Loops(LoopsLeft(s)));
    RunThree(Begin(s), BLANK, BLANK, BLANK);
    assert c.at == At(Act);
    assert ([BLANK] + Loops(LoopsLeft(s)))[1..] == Loops(LoopsLeft(s));
    ToolLoop(Step(c, BLANK), LoopsLeft(s));
  }

  /** The whole budget holds for all answers exactly from the settled states, and already the act
      budget max(0, M-L) does. */
  lemma BudgetIffSettled(s: AgentState)
    ensures (forall os :: InBudget(s, os)) <==> Settled(s)
    ensures (forall os :: RunAll(Begin(s), os).acts <= LoopsLeft(s)) <==> Settled(s)
  {
    if Settled(s) {
      forall os ensures InBudget(s, os) && RunAll(Begin(s), os).acts <= LoopsLeft(s) {
        EveryRunHalts(s, os);
      }
    } else {
      var os := [BLANK, BLANK, BLANK] + ([BLANK] + Loops(LoopsLeft(s)));
      UnsettledOverruns(s);
      assert !InBudget(s, os);
    }
  }

  // ── What a run does ─────────────────────────────────────────────────────────────

  lemma RunOne(c: Config, a: Oracle)
    ensures RunAll(c, [a]) == Step(c, a)
  {
    assert [a][1..] == [];
  }

  lemma RunTwo(c: Config, a: Oracle, b: Oracle)
    ensures RunAll(c, [a, b]) == Step(Step(c, a), b)
  {
    assert [a, b][1..] == [b];
    RunOne(Step(c, a), b);
  }

  /** The model call of the node returned. */
  predicate Answered(o: Oracle) {
    !o.throws && o.failure.None?
  }

  /** A run begins with a plan and looks up documents exactly if the plan asks for it, and memories in any case; then
      the reason node is next, and nothing else has changed. */
  lemma PlanThenRetrieve(s: AgentState, plan: Oracle, chunks: Oracle, memories: Oracle)
    requires !Truthy(s.error) && Answered(plan) && !chunks.throws && !memories.throws
    ensures var planned := s.(plan := plan.text, needsRetrieval := plan.flag);
            if plan.flag
            then RunAll(Begin(s), [plan, chunks, memories])
                 == Config(At(Reason), planned.(retrievedChunks := chunks.found, retrievedMemories := memories.found),
                           3, 0)
            else RunAll(Begin(s), [plan, memories])
                 == Config(At(Reason), planned.(retrievedMemories := memories.found), 2, 0)
  {
    RunThree(Begin(s), plan, chunks, memories);
    RunTwo(Begin(s), plan, memories);
    var planned := s.(plan := plan.text, needsRetrieval := plan.flag);
    assert Step(Begin(s), plan).state == planned;
  }

  /** A plan or reason call that fails with a message ends the run at the respond node, with that error kept. */
  lemma FailureEnds(c: Config, failed: Oracle, last: Oracle)
    requires c.at == At(Plan) || c.at == At(Reason)
    requires !failed.throws && failed.failure.Some? && Truthy(failed.failure.value) && !last.throws
    ensures var d := RunAll(c, [failed, last]);
            d.at == Halted && d.state.error == failed.failure.value && d.acts == c.acts
  {
    RunTwo(c, failed, last);
  }

  /** A plan call that fails without a message counts as no error: the run goes on without a plan. */
  lemma BlankFailureGoesOn(s: AgentState, failed: Oracle)
    requires !failed.throws && failed.failure.Some? && !Truthy(failed.failure.value)
    ensures Step(Begin(s), failed)
         == Config(At(RetrieveMemory), s.(error := failed.failure.value, plan := None, needsRetrieval := false), 1, 0)
  {
  }

  /** The model asks for a tool by name. */
  predicate Calls(o: Oracle) {
    Answered(o) && o.tool.Some? && o.tool.value.0 != ""
  }

  /** What the act node adds: the result of the tool, or that an approver refused it. */
  function ResultOf(call: Oracle, act: Oracle): ToolResult
    requires Calls(call)
  {
    var name := call.tool.value.0;
    match act.gate
    case Run(result) => result
    case Refuse(decision) => ToolResult("rejected:" + name, name, "ERROR", None, Some(decision))
  }

  /** What the observe node makes of a result. */
  function TextOf(r: ToolResult): string {
    "Tool \"" + r.toolName + "\" "
    + match (r.status == "SUCCESS", r.output)
      case (true, Some(output)) => "succeeded: " + output
      case _ => "failed (" + r.status + "): " + (match r.error case Some(e) => e case None => "{}")
  }

  /** The model's message, and that of the tool, unless the tool never ran. */
  function MessagesOf(call: Oracle, r: ToolResult): seq<Message> {
    [call.message]
    + if "rejected:" <= r.toolCallId then [] else [Message("tool", Text(TextOf(r)), Some(r.toolCallId), [])]
  }

  /** What one turn of the loop makes of a state. */
  function AfterRound(s: AgentState, call: Oracle, act: Oracle): AgentState
    requires Calls(call)
  {
    var r := ResultOf(call, act);
    s.(toolResults := s.toolResults + [r], observations := s.observations + [TextOf(r)],
       messages := s.messages + MessagesOf(call, r), loopCount := s.loopCount + 1,
       pendingToolName := None, pendingToolInput := None)
  }

  lemma TextIsDescription(r: ToolResult)
    ensures Describe(r) == TextOf(r)
  {
    var head, rest := "Tool \"" + r.toolName + "\"", r.error.GetOr("{}");
    if r.status == "SUCCESS" && r.output.Some? {
      assert head + " succeeded: " + r.output.value
          == "Tool \"" + r.toolName + "\" " + ("succeeded: " + r.output.value);
    } else {
      assert head + " failed (" + r.status + "): " + rest
          == "Tool \"" + r.toolName + "\" " + ("failed (" + r.status + "): " + rest);
    }
  }

  /** One turn of the loop: a tool that the model asks for is called while the loop count permits, and its result and
      its observation are added behind the earlier ones, with the messages; then the model is asked again. */
  lemma OneRound(c: Config, call: Oracle, act: Oracle, observe: Oracle)
    requires c.at == At(Reason) && !Truthy(c.state.error) && !Truthy(c.state.response)
    requires Calls(call) && !act.throws && c.state.loopCount < c.state.maxLoops
    ensures RunAll(c, [call, act, observe])
         == Config(At(Reason), AfterRound(c.state, call, act), c.steps + 3, c.acts + 1)
  {
    RunThree(c, call, act, observe);
    var r := ResultOf(call, act);
    TextIsDescription(r);
    var asked := Step(c, call).state;
    assert asked == c.state.(messages := c.state.messages + [call.message], loopCount := c.state.loopCount + 1,
                             pendingToolName := Some(call.tool.value.0), pendingToolInput := Some(call.tool.value.1));
    var acted := Step(Step(c, call), act).state;
    assert acted == asked.(toolResults := c.state.toolResults + [r], pendingToolName := None, pendingToolInput := None);
    assert acted.toolResults[|acted.toolResults| - 1] == r;
    if "rejected:" <= r.toolCallId {
      assert MessagesOf(call, r) == [call.message];
    } else {
      var m := Message("tool", Text(TextOf(r)), Some(r.toolCallId), []);
      assert c.state.messages + [call.message] + [m] == c.state.messages + ([call.message] + [m]);
    }
  }

  function RoundAnswers(calls: seq<(Oracle, Oracle)>): seq<Oracle>
    decreases |calls|
  {
    if calls == [] then [] else [calls[0].0, calls[0].1, CALL] + RoundAnswers(calls[1..])
  }

  predicate AllCall(calls: seq<(Oracle, Oracle)>) {
    forall i :: 0 <= i < |calls| ==> Calls(calls[i].0) && !calls[i].1.throws
  }

  function ResultsOf(calls: seq<(Oracle, Oracle)>): seq<ToolResult>
    requires AllCall(calls)
  {
    seq(|calls|, i requires 0 <= i < |calls| => ResultOf(calls[i].0, calls[i].1))
  }

  function TextsOf(results: seq<ToolResult>): seq<string> {
    seq(|results|, i requires 0 <= i < |results| => TextOf(results[i]))
  }

  /** The model is asked again, after as many calls as there are results, and they were added in order, each with its
      observation. */
  predicate Collects(c: Config, d: Config, results: seq<ToolResult>) {
    && c.at == At(Reason) && d.at == At(Reason) && d.acts == c.acts + |results|
    && d.state.loopCount == c.state.loopCount + |results| && d.state.maxLoops == c.state.maxLoops
    && d.state.error == c.state.error && d.state.response == c.state.response
    && d.state.toolResults == c.state.toolResults + results
    && d.state.observations == c.state.observations + TextsOf(results)
  }

  lemma CollectsBoth(c: Config, d: Config, e: Config, a: seq<ToolResult>, b: seq<ToolResult>)
    requires Collects(c, d, a) && Collects(d, e, b)
    ensures Collects(c, e, a + b)
  {
    assert TextsOf(a + b) == TextsOf(a) + TextsOf(b);
  }

  lemma RoundCollects(c: Config, call: Oracle, act: Oracle)
    requires c.at == At(Reason) && !Truthy(c.state.error) && !Truthy(c.state.response)
    requires Calls(call) && !act.throws && c.state.loopCount < c.state.maxLoops
    ensures Collects(c, RunAll(c, [call, act, CALL]), [ResultOf(call, act)])
  {
    OneRound(c, call, act, CALL);
    assert TextsOf([ResultOf(call, act)]) == [TextOf(ResultOf(call, act))];
  }

  /** The loop over any number of tool calls that the limit permits: the results are those of the tools and of the
      refusals, in order, each with its observation. */
  lemma {:induction false} LoopCollectsResults(c: Config, calls: seq<(Oracle, Oracle)>)
    requires c.at == At(Reason) && !Truthy(c.state.error) && !Truthy(c.state.response)
    requires AllCall(calls) && c.state.loopCount + |calls| <= c.state.maxLoops
    ensures Collects(c, RunAll(c, RoundAnswers(calls)), ResultsOf(calls))
    decreases |calls|
  {
    if calls != [] {
      var call, act := calls[0].0, calls[0].1;
      var d := RunAll(c, [call, act, CALL]);
      RunConcat(c, [call, act, CALL], RoundAnswers(calls[1..]));
      RoundCollects(c, call, act);
      LoopCollectsResults(d, calls[1..]);
      CollectsBoth(c, d, RunAll(c, RoundAnswers(calls)), [ResultOf(call, act)], ResultsOf(calls[1..]));
      assert ResultsOf(calls) == [ResultOf(call, act)] + ResultsOf(calls[1..]);
    }
  }

  /** How a run ends: the model's own answer is the response if it has text; else, and when the loop limit stops a
      further call, the respond node asks once more, and an apology stands for a call that fails. */
  lemma HowItEnds(c: Config, answer: Oracle, last: Oracle)
    requires c.at == At(Reason) && !Truthy(c.state.error) && !Truthy(c.state.response)
    requires Answered(answer) && !last.throws
    requires answer.tool.Some? ==> answer.tool.value.0 == "" || c.state.loopCount >= c.state.maxLoops
    ensures RunAll(c, [answer, last]) ==
              Config(Halted, c.state.(
                messages := c.state.messages + [answer.message], loopCount := c.state.loopCount + 1,
                pendingToolName := if answer.tool.Some? then Some(answer.tool.value.0) else None,
                pendingToolInput := if answer.tool.Some? then Some(answer.tool.value.1) else None,
                response :=
                  if answer.tool.None? && Truthy(answer.text) then answer.text
                  else if last.failure.Some?
                  then Some("I encountered an error while generating a response. Please try again.")
                  else Some(match last.text case Some(text) => text case None => "")), c.steps + 2, c.acts)
  {
    RunTwo(c, answer, last);
  }
}

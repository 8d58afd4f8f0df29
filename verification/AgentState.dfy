/** The agent state, the partial updates that nodes return, and the two ways they are merged:
    the graph's channel reducers and the runner's object overlay. */
module AgentState {
  import opened Wrappers

  /** JSON values are only stored and compared here. */
  type Json = string

  /** Message content is text, or structured parts, here by their JSON text. */
  datatype Content = Text(text: string) | Parts(json: Json)

  datatype Message = Message(kind: string, content: Content, toolCallId: Option<string>, toolCalls: seq<Json>)

  datatype ToolResult = ToolResult(
    toolCallId: string, toolName: string, status: string, output: Option<Json>, error: Option<Json>)

  /** What is set once when the execution starts: input, identities, prompt and model. */
  datatype Context = Context(
    input: string, tenantId: string, userId: string, executionId: string, chatId: string,
    agentId: string, systemPrompt: string, model: string, temperature: real)

  datatype AgentState = AgentState(
    context: Context,
    plan: Option<string>,
    needsRetrieval: bool,
    retrievedChunks: seq<Json>,
    retrievedMemories: seq<Json>,
    messages: seq<Message>,
    toolResults: seq<ToolResult>,
    observations: seq<string>,
    loopCount: nat,
    maxLoops: nat,
    pendingToolName: Option<string>,
    pendingToolInput: Option<Json>,
    response: Option<string>,
    error: Option<string>)

  /** A key of a partial update: not there, there with null, or there with a value. */
  datatype Field<+T> = Absent | Null | Present(value: T)

  datatype Update = Update(
    context: Field<Context>,
    plan: Field<string>,
    needsRetrieval: Field<bool>,
    retrievedChunks: Field<seq<Json>>,
    retrievedMemories: Field<seq<Json>>,
    messages: Field<seq<Message>>,
    toolResults: Field<seq<ToolResult>>,
    observations: Field<seq<string>>,
    loopCount: Field<nat>,
    maxLoops: Field<nat>,
    pendingToolName: Field<string>,
    pendingToolInput: Field<Json>,
    response: Field<string>,
    error: Field<string>)

  const NOTHING := Update(Absent, Absent, Absent, Absent, Absent, Absent, Absent, Absent,
                          Absent, Absent, Absent, Absent, Absent, Absent)

  const NO_CONTEXT := Context("", "", "", "", "", "", "", "llama3.2", 0.7)

  /** The state before any channel has been written. */
  const DEFAULTS := AgentState(NO_CONTEXT, None, false, [], [], [], [], [], 0, 5, None, None, None, None)

  /** A JavaScript string is falsy when it is null, undefined or empty. */
  predicate Truthy(o: Option<string>) {
    o.Some? && o.value != ""
  }

  // ── The graph's reducers ────────────────────────────────────────────────────────

  /** `y ?? x`: null keeps the old value. */
  function KeepOnNull<T>(x: T, y: Field<T>): T {
    if y.Present? then y.value else x
  }

  /** `y ?? d`: null resets to the default. */
  function ResetOnNull<T>(x: T, y: Field<T>, d: T): T {
    match y case Absent => x case Null => d case Present(v) => v
  }

  /** `y`: null is a value like any other. */
  function Replace<T>(x: Option<T>, y: Field<T>): Option<T> {
    match y case Absent => x case Null => None case Present(v) => Some(v)
  }

  function Reduce(s: AgentState, u: Update): AgentState {
    AgentState(
      KeepOnNull(s.context, u.context),
      Replace(s.plan, u.plan),
      ResetOnNull(s.needsRetrieval, u.needsRetrieval, false),
      ResetOnNull(s.retrievedChunks, u.retrievedChunks, []),
      ResetOnNull(s.retrievedMemories, u.retrievedMemories, []),
      ResetOnNull(s.messages, u.messages, []),
      ResetOnNull(s.toolResults, u.toolResults, []),
      ResetOnNull(s.observations, u.observations, []),
      ResetOnNull(s.loopCount, u.loopCount, 0),
      KeepOnNull(s.maxLoops, u.maxLoops),
      Replace(s.pendingToolName, u.pendingToolName),
      Replace(s.pendingToolInput, u.pendingToolInput),
      Replace(s.response, u.response),
      Replace(s.error, u.error))
  }

  // ── The runner's overlay ────────────────────────────────────────────────────────

  /** `{ ...old, ...new }` on one key that must not be null: none if it becomes null. */
  function Spread<T>(x: T, y: Field<T>): Option<T> {
    match y case Absent => Some(x) case Null => None case Present(v) => Some(v)
  }

  /** No key whose reducer treats null specially is present with null. */
  predicate NoNulls(u: Update) {
    && !u.context.Null? && !u.needsRetrieval.Null? && !u.retrievedChunks.Null? && !u.retrievedMemories.Null?
    && !u.messages.Null? && !u.toolResults.Null? && !u.observations.Null? && !u.loopCount.Null? && !u.maxLoops.Null?
  }

  /** `{ ...currentState, ...nodeOutput }`: none if the result is no agent state any more,
      because a key that must hold a value has become null. */
  function Overlay(s: AgentState, u: Update): Option<AgentState> {
    match (Spread(s.context, u.context), Spread(s.needsRetrieval, u.needsRetrieval),
           Spread(s.retrievedChunks, u.retrievedChunks), Spread(s.retrievedMemories, u.retrievedMemories),
           Spread(s.messages, u.messages), Spread(s.toolResults, u.toolResults),
           Spread(s.observations, u.observations), Spread(s.loopCount, u.loopCount), Spread(s.maxLoops, u.maxLoops))
    case (Some(context), Some(needs), Some(chunks), Some(memories), Some(messages),
          Some(results), Some(observations), Some(loops), Some(max)) =>
      Some(AgentState(context, Replace(s.plan, u.plan), needs, chunks, memories, messages, results, observations,
                      loops, max, Replace(s.pendingToolName, u.pendingToolName),
                      Replace(s.pendingToolInput, u.pendingToolInput),
                      Replace(s.response, u.response), Replace(s.error, u.error)))
    case _ => None
  }

  /** The runner's copy stays equal to the graph's state exactly for updates without such nulls. */
  lemma OverlayIsReduceIff(s: AgentState, u: Update)
    ensures Overlay(s, u) == Some(Reduce(s, u)) <==> NoNulls(u)
  {
  }

  /** Every key of a full state, as it is fed into the graph at START. */
  function FullUpdate(s: AgentState): Update {
    Update(Present(s.context), OfOption(s.plan), Present(s.needsRetrieval), Present(s.retrievedChunks),
           Present(s.retrievedMemories), Present(s.messages), Present(s.toolResults), Present(s.observations),
           Present(s.loopCount), Present(s.maxLoops), OfOption(s.pendingToolName), OfOption(s.pendingToolInput),
           OfOption(s.response), OfOption(s.error))
  }

  function OfOption<T>(o: Option<T>): Field<T> {
    if o.Some? then Present(o.value) else Null
  }

  /** Feeding a whole state into a new graph leaves the graph in exactly that state. */
  lemma StartRestores(s: AgentState)
    ensures Reduce(DEFAULTS, FullUpdate(s)) == s
  {
  }
}

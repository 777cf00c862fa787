/** The nodes and branches of the Reading Agent graph (backend/agent_graph/reading_agent_graph.py). */
module ReadingGraphs {
  import opened Wrappers
  import opened Text
  import opened AgentStates

  const KNOWLEDGE_SEARCH_TOOL := "search_knowledge_base"

  /** The bounds `AgentExecutionPolicy` accepts (backend/agent_core/reliability.py:40-58). */
  datatype PolicyBounds = PolicyBounds(maxToolCalls: nat, maxReactIterations: nat, maxKnowledgeSearches: nat)
  type Policy = p: PolicyBounds | p.maxToolCalls >= 1 && p.maxReactIterations >= 1 && p.maxKnowledgeSearches >= 1
    witness PolicyBounds(4, 6, 3)

  datatype ToolSpec = ToolSpec(name: string, effect: string)
  datatype Action = Action(tool: string, arguments: Arguments)

  datatype Node =
    | ResolveContext | PrepareConversation | RunCollaboration | RouteRequest | ExecuteDirect
    | StartReactNode | DecideReact | ExecuteReactTool | FinalizeReact | FinalizeConversation | End

  datatype LimitReason = IterationBudget | RepeatedAction | KnowledgeSearchBudget | ToolCallBudget
  datatype Event = PlanReady | ReactStarted | DecisionReady | LimitEvent(reason: LimitReason) | ObservationReady
                 | SynthesisReady

  /** What the product service does with one tool step: it may raise before or after the tool took effect. */
  datatype ToolOutcome =
    | ToolRaises(tookEffect: bool)
    | NeedsConfirmation
    | NoToolResult
    | ToolReturns(result: ToolResult, gate: GateAction)

  /** The choices of everything outside the graph during one node: `None` stands for an exception. */
  datatype Env = Env(
    policy: Policy,
    sink: bool,
    prepared: Option<Payload>,
    delivered: Option<Payload>,
    route: Option<Route>,
    decision: Option<Decision>,
    tool: ToolOutcome,
    synthesis: Option<Response>,
    completes: bool)

  datatype GraphState = GraphState(agent: Payload, route: Route)

  datatype Failure = ExternalFailure | NoRegisteredTools | StaleDecision | InvalidAction | MissingToolResult
                   | UnmatchedObservation | MissingAnswer

  datatype NodeResult =
    | Raised(effects: seq<Action>, events: seq<Event>, failure: Failure)
    | Committed(graph: GraphState, effects: seq<Action>, events: seq<Event>)

  // ---------------------------------------------------------------- pure helpers of the nodes

  function Min(a: nat, b: nat): nat {
    if a <= b then a else b
  }

  function SearchBudget(policy: Policy): nat {
    Min(policy.maxKnowledgeSearches, policy.maxToolCalls)
  }

  function SearchCount(calls: seq<ToolCall>): nat {
    if calls == [] then 0
    else SearchCount(calls[..|calls| - 1]) + if calls[|calls| - 1].name == KNOWLEDGE_SEARCH_TOOL then 1 else 0
  }

  function LatestGate(observations: seq<Observation>): Option<GateAction> {
    if observations == [] then None
    else if observations[|observations| - 1].gate.Some? then observations[|observations| - 1].gate
    else LatestGate(observations[..|observations| - 1])
  }

  function ActionOf(d: Decision): Action {
    Action(d.toolName, d.arguments)
  }

  /** `d` repeats a tool decision among `earlier`. */
  predicate Repeats(earlier: seq<Decision>, d: Decision) {
    d.kind == ToolDecision
    && exists i | 0 <= i < |earlier| :: earlier[i].kind == ToolDecision && ActionOf(earlier[i]) == ActionOf(d)
  }

  /** The shape that validation of an `AgentReActDecision` enforces (backend/models/agent_react.py:45-60). */
  predicate WellShaped(d: Decision) {
    && d.iteration >= 1
    && (d.kind == ToolDecision ==> d.toolName != "" && d.finalAnswer == "")
    && (d.kind == FinalDecision ==> d.toolName == "" && d.arguments == map[])
  }

  function Limit(p: Payload): Payload {
    Apply(MarkReact(LimitReached), p)
  }

  function Emit(sink: bool, events: seq<Event>): seq<Event> {
    if sink then events else []
  }

  // ---------------------------------------------------------------- node functions

  /** Recording the decision of the service, then the repeat guard and the search budget. */
  function RecordServiceDecision(p: Payload, d: Decision, env: Env, route: Route): NodeResult {
    if Raises(RecordDecision(d), p) then Raised([], [], StaleDecision)
    else
      var q := Apply(RecordDecision(d), p);
      if Repeats(p.react.decisions, d) then
        Committed(GraphState(Limit(q), route), [], Emit(env.sink, [DecisionReady, LimitEvent(RepeatedAction)]))
      else if d.kind == ToolDecision && d.toolName == KNOWLEDGE_SEARCH_TOOL
              && SearchCount(p.toolCalls) >= SearchBudget(env.policy) then
        Committed(GraphState(Limit(q), route), [], Emit(env.sink, [DecisionReady, LimitEvent(KnowledgeSearchBudget)]))
      else
        Committed(GraphState(q, route), [], Emit(env.sink, [DecisionReady]))
  }

  function GateDecision(p: Payload): Decision {
    Decision(p.react.iteration + 1, FinalDecision, "", map[], "")
  }

  function DecideNode(p: Payload, env: Env, registry: seq<ToolSpec>, route: Route): NodeResult {
    if p.react.iteration >= env.policy.maxReactIterations then
      Committed(GraphState(Limit(p), route), [], Emit(env.sink, [LimitEvent(IterationBudget)]))
    else if LatestGate(p.react.observations) == Some(Stop) then
      Committed(GraphState(Apply(RecordDecision(GateDecision(p)), p), route), [], Emit(env.sink, [DecisionReady]))
    else if registry == [] then Raised([], [], NoRegisteredTools)
    else if env.decision.None? || !WellShaped(env.decision.value) then Raised([], [], ExternalFailure)
    else RecordServiceDecision(p, env.decision.value, env, route)
  }

  /** The state after a step that returned a result, before the observation is recorded. */
  function AfterTool(p: Payload, d: Decision, result: ToolResult): Payload {
    var step := ReactStep(d.iteration);
    Apply(RecordResult(result.(stepId := step)), Apply(RecordCall(ToolCall(d.toolName, d.arguments, step)), p))
  }

  function AfterConfirmationRequest(p: Payload, d: Decision): Payload {
    var called := Apply(RecordCall(ToolCall(d.toolName, d.arguments, ReactStep(d.iteration))), p);
    Apply(MarkReact(ReactConfirmation), Apply(ApplyResponse(Response(ConfirmationRequired, "")), called))
  }

  function ObservationOf(d: Decision, gate: GateAction): Observation {
    Observation(d.iteration, d.toolName, if d.toolName == KNOWLEDGE_SEARCH_TOOL then Some(gate) else None)
  }

  /** Recording the observation and checking the budgets once more. */
  function ObserveStep(p: Payload, d: Decision, gate: GateAction, env: Env, route: Route): NodeResult {
    var o := ObservationOf(d, gate);
    if Raises(RecordObservation(o), p) then Raised([ActionOf(d)], [], UnmatchedObservation)
    else
      var q := Apply(RecordObservation(o), p);
      if |q.toolCalls| >= env.policy.maxToolCalls then
        Committed(GraphState(Limit(q), route), [ActionOf(d)], Emit(env.sink, [ObservationReady, LimitEvent(ToolCallBudget)]))
      else if q.react.iteration >= env.policy.maxReactIterations then
        Committed(GraphState(Limit(q), route), [ActionOf(d)], Emit(env.sink, [ObservationReady, LimitEvent(IterationBudget)]))
      else
        Committed(GraphState(q, route), [ActionOf(d)], Emit(env.sink, [ObservationReady]))
  }

  /** A leftover confirmation response is taken for a request of this step, which has already run. */
  function FinishNode(p: Payload, d: Decision, gate: GateAction, env: Env, route: Route): NodeResult {
    if p.responseState.status == ConfirmationRequired then
      Committed(GraphState(Apply(MarkReact(ReactConfirmation), p), route), [ActionOf(d)], [])
    else ObserveStep(p, d, gate, env, route)
  }

  function ExecuteNode(p: Payload, env: Env, route: Route): NodeResult {
    if p.react.lastDecision.None? || p.react.lastDecision.value.kind != ToolDecision then
      Raised([], [], InvalidAction)
    else
      var d := p.react.lastDecision.value;
      if |p.toolCalls| >= env.policy.maxToolCalls then
        Committed(GraphState(Limit(p), route), [], Emit(env.sink, [LimitEvent(ToolCallBudget)]))
      else if d.toolName == KNOWLEDGE_SEARCH_TOOL && SearchCount(p.toolCalls) >= SearchBudget(env.policy) then
        Committed(GraphState(Limit(p), route), [], Emit(env.sink, [LimitEvent(KnowledgeSearchBudget)]))
      else
        match env.tool
        case ToolRaises(tookEffect) => Raised(if tookEffect then [ActionOf(d)] else [], [], ExternalFailure)
        case NeedsConfirmation => Committed(GraphState(AfterConfirmationRequest(p, d), route), [], [])
        case NoToolResult => Raised([ActionOf(d)], [], MissingToolResult)
        case ToolReturns(result, gate) =>
          FinishNode(AfterTool(p, d, result), d, gate, env, route)
  }

  predicate HasAnswer(p: Payload) {
    p.react.lastDecision.Some? && p.react.lastDecision.value.kind == FinalDecision
    && p.react.lastDecision.value.finalAnswer != ""
  }

  function FinalizeNode(p: Payload, env: Env, route: Route): NodeResult {
    if p.toolResults == [] && !HasAnswer(p) then Raised([], [], MissingAnswer)
    else if p.toolResults != [] && env.synthesis.None? then Raised([], [], ExternalFailure)
    else
      var answer := if p.toolResults != [] then env.synthesis.value
                    else Response(ResponseCompleted, p.react.lastDecision.value.finalAnswer);
      var q := Apply(ApplyResponse(answer), p);
      Committed(GraphState(if q.react.status != LimitReached then Apply(MarkReact(ReactCompleted), q) else q, route),
                [], Emit(env.sink, [SynthesisReady]))
  }

  predicate DeliversDirectly(p: Payload) {
    p.directDelivery && p.responseState.status == ResponseCompleted
  }

  const DIRECT_DELIVERY_ROUTE :=
    Route(Answer, Deterministic, "orchestration_direct_delivery", "",
          "A completed bounded task result already satisfies the request.", map[])

  function RouteNode(p: Payload, env: Env): NodeResult {
    if DeliversDirectly(p) then
      Committed(GraphState(Apply(ApplyRoute(DIRECT_DELIVERY_ROUTE), p), DIRECT_DELIVERY_ROUTE), [], [])
    else if env.route.None? then Raised([], [], ExternalFailure)
    else Committed(GraphState(Apply(ApplyRoute(env.route.value), p), env.route.value), [], [])
  }

  /** A node whose whole effect on the state belongs to a service outside the graph. */
  function Replace(state: Option<Payload>, route: Route): NodeResult {
    if state.None? then Raised([], [], ExternalFailure)
    else Committed(GraphState(Sync(state.value), route), [], [])
  }

  /** One node applied to the stored graph state. */
  function RunNode(node: Node, g: GraphState, env: Env, registry: seq<ToolSpec>): NodeResult {
    var p := Sync(g.agent);
    match node
    case ResolveContext => Replace(env.prepared, g.route)
    case PrepareConversation => Replace(env.prepared, g.route)
    case RunCollaboration => Replace(env.prepared, g.route)
    case RouteRequest => RouteNode(p, env)
    case ExecuteDirect => Replace(env.delivered, g.route)
    case StartReactNode =>
      Committed(GraphState(Apply(StartReact, p), g.route), [], Emit(env.sink, [PlanReady, ReactStarted]))
    case DecideReact => DecideNode(p, env, registry, g.route)
    case ExecuteReactTool => ExecuteNode(p, env, g.route)
    case FinalizeReact => FinalizeNode(p, env, g.route)
    case FinalizeConversation =>
      if env.completes then Committed(GraphState(p, g.route), [], []) else Raised([], [], ExternalFailure)
    case End => Committed(g, [], [])
  }

  /** The node that the graph schedules after `node` committed `g`. */
  function Successor(node: Node, g: GraphState): Node {
    var p := Sync(g.agent);
    match node
    case ResolveContext => PrepareConversation
    case PrepareConversation => RunCollaboration
    case RunCollaboration => RouteRequest
    case RouteRequest =>
      if DeliversDirectly(p) then FinalizeConversation
      else if g.route.kind == Complex then StartReactNode
      else ExecuteDirect
    case ExecuteDirect => FinalizeConversation
    case StartReactNode => DecideReact
    case DecideReact =>
      if p.react.status == LimitReached then FinalizeReact
      else if p.react.lastDecision.Some? && p.react.lastDecision.value.kind == ToolDecision then ExecuteReactTool
      else FinalizeReact
    case ExecuteReactTool =>
      if p.responseState.status == ConfirmationRequired then FinalizeConversation
      else if p.react.status == LimitReached then FinalizeReact
      else if LatestGate(p.react.observations) == Some(Stop) then FinalizeReact
      else DecideReact
    case FinalizeReact => FinalizeConversation
    case FinalizeConversation => End
    case End => End
  }

  // ---------------------------------------------------------------- the replay guard

  predicate IsWriteTool(registry: seq<ToolSpec>, tool: string) {
    exists i | 0 <= i < |registry| :: registry[i] == ToolSpec(tool, "write")
  }

  /** The write tool that a checkpoint is about to run, or the empty string. */
  function PendingWriteTool(p: Payload, next: Node, registry: seq<ToolSpec>): string {
    if next !in {ExecuteDirect, ExecuteReactTool} then ""
    else
      var tool := if next == ExecuteReactTool && p.react.decisions != []
                  then p.react.decisions[|p.react.decisions| - 1].toolName else p.route.toolName;
      if tool != "" && IsWriteTool(registry, tool) then tool else ""
  }

  method PendingCheckpointWriteTool(p: Payload, next: Node, registry: seq<ToolSpec>) returns (tool: string)
    ensures tool == PendingWriteTool(p, next, registry)
  {
    if next != ExecuteDirect && next != ExecuteReactTool {
      return "";
    }
    tool := p.route.toolName;
    if next == ExecuteReactTool && p.react.decisions != [] {
      tool := p.react.decisions[|p.react.decisions| - 1].toolName;
    }
    if tool == "" {
      return "";
    }
    for i := 0 to |registry|
      invariant forall k | 0 <= k < i :: registry[k] != ToolSpec(tool, "write")
    {
      if registry[i].name == tool && registry[i].effect == "write" {
        return tool;
      }
    }
    return "";
  }

  // ---------------------------------------------------------------- the node methods

  method KnowledgeSearchCount(calls: seq<ToolCall>) returns (count: nat)
    ensures count == SearchCount(calls)
  {
    count := 0;
    for i := 0 to |calls|
      invariant count == SearchCount(calls[..i])
    {
      assert calls[..i + 1][..i] == calls[..i];
      if calls[i].name == KNOWLEDGE_SEARCH_TOOL {
        count := count + 1;
      }
    }
    assert calls[..|calls|] == calls;
  }

  method LatestEvidenceGate(observations: seq<Observation>) returns (gate: Option<GateAction>)
    ensures gate == LatestGate(observations)
  {
    var i := |observations|;
    assert observations[..i] == observations;
    while i > 0
      invariant 0 <= i <= |observations|
      invariant LatestGate(observations) == LatestGate(observations[..i])
    {
      i := i - 1;
      assert observations[..i + 1][..i] == observations[..i];
      if observations[i].gate.Some? {
        return observations[i].gate;
      }
    }
    return None;
  }

  method RunDecideReact(g: GraphState, env: Env, registry: seq<ToolSpec>) returns (r: NodeResult)
    ensures r == RunNode(DecideReact, g, env, registry)
  {
    var state := new AgentState.Load(g.agent);
    if state.react.iteration >= env.policy.maxReactIterations {
      state.DoMarkReact(LimitReached);
      return Committed(GraphState(state.Dump(), g.route), [], Emit(env.sink, [LimitEvent(IterationBudget)]));
    }
    var gate := LatestEvidenceGate(state.react.observations);
    if gate == Some(Stop) {
      var recorded := state.DoRecordDecision(Decision(state.react.iteration + 1, FinalDecision, "", map[], ""));
      return Committed(GraphState(state.Dump(), g.route), [], Emit(env.sink, [DecisionReady]));
    }
    if registry == [] {
      return Raised([], [], NoRegisteredTools);
    }
    if env.decision.None? || !WellShaped(env.decision.value) {
      return Raised([], [], ExternalFailure);
    }
    r := KeepDecision(state, env.decision.value, env, g.route);
  }

  method KeepDecision(state: AgentState, d: Decision, env: Env, route: Route) returns (r: NodeResult)
    modifies state
    ensures r == RecordServiceDecision(old(state.Dump()), d, env, route)
  {
    var earlier := state.react.decisions;
    var searches := KnowledgeSearchCount(state.toolCalls);
    var ok := state.DoRecordDecision(d);
    if !ok {
      return Raised([], [], StaleDecision);
    }
    var events := Emit(env.sink, [DecisionReady]);
    if Repeats(earlier, d) {
      state.DoMarkReact(LimitReached);
      events := Emit(env.sink, [DecisionReady, LimitEvent(RepeatedAction)]);
    } else if d.kind == ToolDecision && d.toolName == KNOWLEDGE_SEARCH_TOOL && searches >= SearchBudget(env.policy) {
      state.DoMarkReact(LimitReached);
      events := Emit(env.sink, [DecisionReady, LimitEvent(KnowledgeSearchBudget)]);
    }
    return Committed(GraphState(state.Dump(), route), [], events);
  }

  method RunExecuteReactTool(g: GraphState, env: Env, registry: seq<ToolSpec>) returns (r: NodeResult)
    ensures r == RunNode(ExecuteReactTool, g, env, registry)
  {
    var state := new AgentState.Load(g.agent);
    if state.react.lastDecision.None? || state.react.lastDecision.value.kind != ToolDecision {
      return Raised([], [], InvalidAction);
    }
    var d := state.react.lastDecision.value;
    if |state.toolCalls| >= env.policy.maxToolCalls {
      state.DoMarkReact(LimitReached);
      return Committed(GraphState(state.Dump(), g.route), [], Emit(env.sink, [LimitEvent(ToolCallBudget)]));
    }
    var searches := KnowledgeSearchCount(state.toolCalls);
    if d.toolName == KNOWLEDGE_SEARCH_TOOL && searches >= SearchBudget(env.policy) {
      state.DoMarkReact(LimitReached);
      return Committed(GraphState(state.Dump(), g.route), [], Emit(env.sink, [LimitEvent(KnowledgeSearchBudget)]));
    }
    if env.tool.ToolRaises? {
      return Raised(if env.tool.tookEffect then [ActionOf(d)] else [], [], ExternalFailure);
    }
    state.DoRecordCall(ToolCall(d.toolName, d.arguments, ReactStep(d.iteration)));
    if env.tool.NeedsConfirmation? {
      state.DoApplyResponse(Response(ConfirmationRequired, ""));
      state.DoMarkReact(ReactConfirmation);
      return Committed(GraphState(state.Dump(), g.route), [], []);
    }
    if env.tool.NoToolResult? {
      return Raised([ActionOf(d)], [], MissingToolResult);
    }
    state.DoRecordResult(env.tool.result.(stepId := ReactStep(d.iteration)));
    r := FinishStep(state, d, env, g.route);
  }

  method FinishStep(state: AgentState, d: Decision, env: Env, route: Route) returns (r: NodeResult)
    requires env.tool.ToolReturns?
    modifies state
    ensures r == FinishNode(old(state.Dump()), d, env.tool.gate, env, route)
  {
    if state.responseState.status == ConfirmationRequired {
      state.DoMarkReact(ReactConfirmation);
      return Committed(GraphState(state.Dump(), route), [ActionOf(d)], []);
    }
    var ok := state.DoRecordObservation(ObservationOf(d, env.tool.gate));
    if !ok {
      return Raised([ActionOf(d)], [], UnmatchedObservation);
    }
    var events := Emit(env.sink, [ObservationReady]);
    if |state.toolCalls| >= env.policy.maxToolCalls {
      state.DoMarkReact(LimitReached);
      events := Emit(env.sink, [ObservationReady, LimitEvent(ToolCallBudget)]);
    } else if state.react.iteration >= env.policy.maxReactIterations {
      state.DoMarkReact(LimitReached);
      events := Emit(env.sink, [ObservationReady, LimitEvent(IterationBudget)]);
    }
    return Committed(GraphState(state.Dump(), route), [ActionOf(d)], events);
  }

  method RunFinalizeReact(g: GraphState, env: Env, registry: seq<ToolSpec>) returns (r: NodeResult)
    ensures r == RunNode(FinalizeReact, g, env, registry)
  {
    var state := new AgentState.Load(g.agent);
    if state.toolResults != [] {
      if env.synthesis.None? {
        return Raised([], [], ExternalFailure);
      }
      state.DoApplyResponse(env.synthesis.value);
    } else {
      var last := state.react.lastDecision;
      if last.None? || last.value.kind != FinalDecision || last.value.finalAnswer == "" {
        return Raised([], [], MissingAnswer);
      }
      state.DoApplyResponse(Response(ResponseCompleted, last.value.finalAnswer));
    }
    if state.react.status != LimitReached {
      state.DoMarkReact(ReactCompleted);
    }
    return Committed(GraphState(state.Dump(), g.route), [], Emit(env.sink, [SynthesisReady]));
  }
}

/** Where the steps of a fresh run lead: what a tool step decides, what ends the loop, and what a finished run answers. */
module ReadingOutcomes {
  import opened Wrappers
  import opened AgentStates
  import opened ReadingGraphs
  import opened ReadingRuns

  // ---------------------------------------------------------------- one tool step

  /** The tool step of a fresh run is up, with room in the budgets it is checked against before the tool runs. */
  predicate ReachesTool(w: World, policy: Policy) {
    && w.running && w.next == ExecuteReactTool && w.graph.agent.react.decisions != []
    && |w.graph.agent.toolCalls| < policy.maxToolCalls
    && (Last(w.graph.agent.react).toolName == KNOWLEDGE_SEARCH_TOOL ==>
          SearchCount(w.graph.agent.toolCalls) < SearchBudget(policy))
  }

  /** The evidence gate said stop after a search of the knowledge base. */
  predicate StopsHere(d: Decision, gate: GateAction) {
    d.toolName == KNOWLEDGE_SEARCH_TOOL && gate == Stop
  }

  /** Both budgets have room for another round after this call. */
  predicate RoomForMore(p: Payload, policy: Policy) {
    |p.toolCalls| + 1 < policy.maxToolCalls && p.react.iteration < policy.maxReactIterations
  }

  lemma {:induction false} ObservedGate(observations: seq<Observation>, o: Observation)
    ensures LatestGate(observations + [o]) == if o.gate.Some? then o.gate else LatestGate(observations)
  {
    assert (observations + [o])[..|observations|] == observations;
  }

  /** The state after the observation, by the verdict and the budgets. */
  lemma {:induction false} ObservedStep(p: Payload, d: Decision, gate: GateAction, env: Env, route: Route)
    requires p.react.decisions != [] && Last(p.react) == d && EndsWithTool(p.react) && d.iteration == p.react.iteration
    requires NoStop(p.react.observations) && p.react.status != LimitReached
    requires p.response.status != ConfirmationRequired && p.responseState.status == p.response.status
    ensures var r := FinishNode(p, d, gate, env, route);
            && r.Committed? && r.effects == [ActionOf(d)]
            && r.graph.agent.toolCalls == p.toolCalls && r.graph.agent.toolResults == p.toolResults
            && r.graph.agent.react.decisions == p.react.decisions
            && Successor(ExecuteReactTool, r.graph)
               == if StopsHere(d, gate) || |p.toolCalls| >= env.policy.maxToolCalls
                     || p.react.iteration >= env.policy.maxReactIterations
                  then FinalizeReact else DecideReact
  {
    var o := Observation(d.iteration, d.toolName, if d.toolName == KNOWLEDGE_SEARCH_TOOL then Some(gate) else None);
    ObservationAlwaysMatches(p, d, gate);
    ObservedGate(p.react.observations, o);
    LatestGateIsRecorded(p.react.observations);
  }

  lemma {:induction false} AfterToolIs(p: Payload, d: Decision, result: ToolResult)
    ensures var q := AfterTool(p, d, result);
            && q.react == p.react && q.response == p.response && q.responseState.status == p.response.status
            && q.toolCalls == p.toolCalls + [ToolCall(d.toolName, d.arguments, ReactStep(d.iteration))]
            && q.toolResults == p.toolResults + [ToolResult(result.toolName, result.outputText, ReactStep(d.iteration))]
  {
  }

  /**
   * In a fresh run, whatever happened before: a tool that returns takes effect once, its call and result are recorded
   * under the step, and the run goes back to the decision exactly if the evidence gate did not stop a search and both
   * budgets have room; otherwise it is finalized.
   */
  lemma {:induction false} ToolStepGoesOnExactly(p: Payload, route: Route, before: seq<Choice>, registry: seq<ToolSpec>, env: Env)
    requires FreshChoices(before) && env.tool.ToolReturns? && ReachesTool(Run(Start(p, route), before, registry), env.policy)
    ensures var w := Run(Start(p, route), before, registry);
            var w', d, result := Step(w, Attempt(env, false), registry), Last(w.graph.agent.react), env.tool.result;
            && w'.running && w'.log == w.log + [Action(d.toolName, d.arguments)]
            && w'.graph.agent.react.decisions == w.graph.agent.react.decisions
            && w'.graph.agent.toolCalls
               == w.graph.agent.toolCalls + [ToolCall(d.toolName, d.arguments, ReactStep(d.iteration))]
            && w'.graph.agent.toolResults
               == w.graph.agent.toolResults + [ToolResult(result.toolName, result.outputText, ReactStep(d.iteration))]
            && w'.next == if !StopsHere(d, env.tool.gate) && RoomForMore(w.graph.agent, env.policy)
                          then DecideReact else FinalizeReact
  {
    var w := Run(Start(p, route), before, registry);
    FreshRun(Start(p, route), before, registry);
    ToolStep(w, env, registry);
  }

  lemma {:induction false} ToolStep(w: World, env: Env, registry: seq<ToolSpec>)
    requires FreshInv(w) && env.tool.ToolReturns? && ReachesTool(w, env.policy)
    ensures var w', d, result := Step(w, Attempt(env, false), registry), Last(w.graph.agent.react), env.tool.result;
            && w'.running && w'.log == w.log + [Action(d.toolName, d.arguments)]
            && w'.graph.agent.react.decisions == w.graph.agent.react.decisions
            && w'.graph.agent.toolCalls
               == w.graph.agent.toolCalls + [ToolCall(d.toolName, d.arguments, ReactStep(d.iteration))]
            && w'.graph.agent.toolResults
               == w.graph.agent.toolResults + [ToolResult(result.toolName, result.outputText, ReactStep(d.iteration))]
            && w'.next == if !StopsHere(d, env.tool.gate) && RoomForMore(w.graph.agent, env.policy)
                          then DecideReact else FinalizeReact
  {
    var d, s := Last(w.graph.agent.react), Sync(w.graph.agent);
    var q := AfterTool(s, d, env.tool.result);
    AfterToolIs(s, d, env.tool.result);
    ObservedStep(q, d, env.tool.gate, env, w.graph.route);
    assert ExecuteNode(s, env, w.graph.route) == FinishNode(q, d, env.tool.gate, env, w.graph.route);
  }

  /**
   * The other outcomes of a tool step: without a result the run stops where it was, with the effect that the tool had; a
   * request for confirmation ends the loop, with its call recorded and nothing done.
   */
  lemma {:induction false} ToolStepWithoutResult(p: Payload, route: Route, before: seq<Choice>, registry: seq<ToolSpec>,
                                                 env: Env)
    requires FreshChoices(before) && !env.tool.ToolReturns? && ReachesTool(Run(Start(p, route), before, registry), env.policy)
    ensures var w := Run(Start(p, route), before, registry);
            var w', d := Step(w, Attempt(env, false), registry), Last(w.graph.agent.react);
            if env.tool.NeedsConfirmation? then
              && w'.running && w'.next == FinalizeConversation && w'.log == w.log
              && w'.graph.agent.response.status == ConfirmationRequired
              && w'.graph.agent.toolResults == w.graph.agent.toolResults
              && w'.graph.agent.toolCalls
                 == w.graph.agent.toolCalls + [ToolCall(d.toolName, d.arguments, ReactStep(d.iteration))]
            else
              && !w'.running && w'.next == w.next && w'.graph == w.graph
              && w'.log == w.log + if env.tool == ToolRaises(false) then [] else [Action(d.toolName, d.arguments)]
  {
    var w := Run(Start(p, route), before, registry);
    FreshRun(Start(p, route), before, registry);
    AfterConfirmationFacts(Sync(w.graph.agent), Last(w.graph.agent.react));
  }

  /** A tool step without room in a budget runs nothing: the run is finalized with its limit reached. */
  lemma {:induction false} ToolStepOverBudget(p: Payload, route: Route, before: seq<Choice>, registry: seq<ToolSpec>, env: Env)
    requires FreshChoices(before)
    requires var w := Run(Start(p, route), before, registry);
             w.running && w.next == ExecuteReactTool && !ReachesTool(w, env.policy)
    ensures var w := Run(Start(p, route), before, registry);
            var w' := Step(w, Attempt(env, false), registry);
            && w'.running && w'.next == FinalizeReact && w'.log == w.log && w'.graph.agent.react.status == LimitReached
            && w'.graph.agent.toolCalls == w.graph.agent.toolCalls
  {
    var w := Run(Start(p, route), before, registry);
    FreshRun(Start(p, route), before, registry);
    LimitedState(Sync(w.graph.agent), w.graph.route);
  }

  lemma {:induction false} LimitedState(p: Payload, route: Route)
    requires p.response.status != ConfirmationRequired
    ensures var g := GraphState(Limit(p), route);
            && Successor(ExecuteReactTool, g) == FinalizeReact && g.agent.react.status == LimitReached
            && g.agent.toolCalls == p.toolCalls
  {
  }

  // ---------------------------------------------------------------- one decision

  /** The service asks for a tool call that has been asked for before. */
  predicate AskedBefore(decisions: seq<Decision>, d: Decision) {
    exists e | e in decisions :: e.kind == ToolDecision && e.toolName == d.toolName && e.arguments == d.arguments
  }

  lemma {:induction false} RepeatsWhatWasAsked(decisions: seq<Decision>, d: Decision)
    ensures Repeats(decisions, d) <==> d.kind == ToolDecision && AskedBefore(decisions, d)
  {
    if d.kind == ToolDecision && AskedBefore(decisions, d) {
      var e :| e in decisions && e.kind == ToolDecision && e.toolName == d.toolName && e.arguments == d.arguments;
      var i :| 0 <= i < |decisions| && decisions[i] == e;
      assert ActionOf(decisions[i]) == ActionOf(d);
    }
  }

  /** The call is allowed: it is new, and a search is within its budget. */
  predicate MayCall(p: Payload, d: Decision, policy: Policy) {
    && d.kind == ToolDecision && !AskedBefore(p.react.decisions, d)
    && (d.toolName == KNOWLEDGE_SEARCH_TOOL ==> SearchCount(p.toolCalls) < SearchBudget(policy))
  }

  /**
   * In a fresh run with an iteration left, a decision of the service that advances is recorded, and its tool is up next
   * exactly if it is a new call and a search still within its budget; otherwise the run is finalized.
   */
  lemma {:induction false} DecisionIsFollowedExactly(p: Payload, route: Route, before: seq<Choice>, registry: seq<ToolSpec>,
                                                     env: Env, d: Decision)
    requires FreshChoices(before) && registry != [] && env.decision == Some(d) && WellShaped(d)
    requires var w := Run(Start(p, route), before, registry);
             && w.running && w.next == DecideReact && w.graph.agent.react.iteration < env.policy.maxReactIterations
             && d.iteration > w.graph.agent.react.iteration
    ensures var w := Run(Start(p, route), before, registry);
            var w' := Step(w, Attempt(env, false), registry);
            && w'.running && w'.log == w.log && w'.graph.agent.toolCalls == w.graph.agent.toolCalls
            && w'.graph.agent.react.decisions == w.graph.agent.react.decisions + [d]
            && w'.next == if MayCall(w.graph.agent, d, env.policy) then ExecuteReactTool else FinalizeReact
  {
    FreshRun(Start(p, route), before, registry);
    DecisionStep(Run(Start(p, route), before, registry), env, registry, d);
  }

  /** Without an iteration left no decision is asked for or recorded: the run is finalized with its limit reached. */
  lemma {:induction false} DecisionOverBudget(w: World, env: Env, registry: seq<ToolSpec>)
    requires w.running && w.next == DecideReact && w.graph.agent.react.iteration >= env.policy.maxReactIterations
    ensures var w' := Step(w, Attempt(env, false), registry);
            && w'.running && w'.next == FinalizeReact && w'.log == w.log && w'.graph.agent.react.status == LimitReached
            && w'.graph.agent.react.decisions == w.graph.agent.react.decisions
            && w'.emitted == w.emitted + if env.sink then [LimitEvent(IterationBudget)] else []
  {
  }

  lemma {:induction false} DecisionStep(w: World, env: Env, registry: seq<ToolSpec>, d: Decision)
    requires FreshInv(w) && w.running && w.next == DecideReact && registry != [] && env.decision == Some(d) && WellShaped(d)
    requires w.graph.agent.react.iteration < env.policy.maxReactIterations && d.iteration > w.graph.agent.react.iteration
    ensures var w' := Step(w, Attempt(env, false), registry);
            && w'.running && w'.log == w.log && w'.graph.agent.toolCalls == w.graph.agent.toolCalls
            && w'.graph.agent.react.decisions == w.graph.agent.react.decisions + [d]
            && w'.next == if MayCall(w.graph.agent, d, env.policy) then ExecuteReactTool else FinalizeReact
  {
    LatestGateIsRecorded(w.graph.agent.react.observations);
    RepeatsWhatWasAsked(w.graph.agent.react.decisions, d);
  }

  // ---------------------------------------------------------------- after the loop

  predicate AfterLoop(n: Node) {
    n in {FinalizeReact, FinalizeConversation, End}
  }

  /** Once the loop is left it is not entered again, and nothing is decided or called any more. */
  lemma {:induction false} LoopStaysLeft(w: World, cs: seq<Choice>, registry: seq<ToolSpec>)
    requires AfterLoop(w.next)
    ensures var w' := Run(w, cs, registry);
            && AfterLoop(w'.next) && w'.log == w.log
            && w'.graph.agent.react.decisions == w.graph.agent.react.decisions
            && w'.graph.agent.toolCalls == w.graph.agent.toolCalls && w'.graph.agent.toolResults == w.graph.agent.toolResults
    decreases |cs|
  {
    if cs != [] {
      StepStaysLeft(w, cs[0], registry);
      LoopStaysLeft(Step(w, cs[0], registry), cs[1..], registry);
    }
  }

  /** The response that the finalizing node owes: the synthesis of the tool results, or else the final answer. */
  predicate Owed(p: Payload, env: Env, response: Response) {
    if p.toolResults != [] then env.synthesis == Some(response)
    else
      && p.react.lastDecision.Some? && p.react.lastDecision.value.kind == FinalDecision
      && p.react.lastDecision.value.finalAnswer != ""
      && response == Response(ResponseCompleted, p.react.lastDecision.value.finalAnswer)
  }

  /** What the finalizing node does with the state. */
  ghost predicate FinalizeFacts(p: Payload, env: Env, r: NodeResult) {
    && r.effects == []
    && (r.Raised? ==> forall response :: !Owed(p, env, response))
    && (r.Committed? ==>
          var q := r.graph.agent;
          && q.react.decisions == p.react.decisions && q.toolCalls == p.toolCalls && q.toolResults == p.toolResults
          && Owed(p, env, q.response) && q.responseState == ResponseState(q.response.status, q.response.outputText)
          && q.react.status == if p.react.status == LimitReached then LimitReached else ReactCompleted)
  }

  lemma {:induction false} FinalizeSatisfies(p: Payload, env: Env, route: Route)
    ensures FinalizeFacts(p, env, FinalizeNode(p, env, route))
  {
  }

  lemma {:induction false} StepStaysLeft(w: World, c: Choice, registry: seq<ToolSpec>)
    requires AfterLoop(w.next)
    ensures var w' := Step(w, c, registry);
            && AfterLoop(w'.next) && w'.log == w.log
            && w'.graph.agent.react.decisions == w.graph.agent.react.decisions
            && w'.graph.agent.toolCalls == w.graph.agent.toolCalls && w'.graph.agent.toolResults == w.graph.agent.toolResults
  {
    if c.Attempt? {
      FinalizeSatisfies(Sync(w.graph.agent), c.env, w.graph.route);
    }
  }

  /**
   * A stop verdict, as the evidence gate gives it: after a search whose gate says stop, and whatever comes next, a fresh
   * run never enters the loop again and neither decides nor calls anything.
   */
  lemma {:induction false} StopIsFinal(p: Payload, route: Route, before: seq<Choice>, env: Env, after: seq<Choice>,
                                       registry: seq<ToolSpec>)
    requires FreshChoices(before) && ReachesTool(Run(Start(p, route), before, registry), env.policy)
    requires env.tool.ToolReturns? && env.tool.gate == Stop
    requires Last(Run(Start(p, route), before, registry).graph.agent.react).toolName == KNOWLEDGE_SEARCH_TOOL
    ensures var w := Step(Run(Start(p, route), before, registry), Attempt(env, false), registry);
            var w' := Run(w, after, registry);
            && w.next == FinalizeReact && AfterLoop(w'.next) && w'.log == w.log
            && w'.graph.agent.react.decisions == w.graph.agent.react.decisions
            && w'.graph.agent.toolCalls == w.graph.agent.toolCalls
  {
    ToolStepGoesOnExactly(p, route, before, registry, env);
    LoopStaysLeft(Step(Run(Start(p, route), before, registry), Attempt(env, false), registry), after, registry);
  }

  // ---------------------------------------------------------------- the answer of a finished run

  /** What a run says from its finalization on. */
  predicate Answers(w: World, response: Response, status: ReactStatus) {
    && w.next in {FinalizeConversation, End}
    && w.graph.agent.response == response && w.graph.agent.react.status == status
    && w.graph.agent.responseState == ResponseState(response.status, response.outputText)
  }

  lemma {:induction false} AnswerStays(w: World, cs: seq<Choice>, registry: seq<ToolSpec>, response: Response,
                                       status: ReactStatus)
    requires Answers(w, response, status)
    ensures Answers(Run(w, cs, registry), response, status)
    decreases |cs|
  {
    if cs != [] {
      AnswerStays(Step(w, cs[0], registry), cs[1..], registry, response, status);
    }
  }

  /**
   * A finalization either leaves the durable state alone, or the run carries its answer from then on, whatever comes
   * next: the synthesis if any tool returned a result, else the final answer as a completed response. It is completed,
   * unless a limit was reached.
   */
  lemma {:induction false} FinishedRunAnswers(w: World, env: Env, after: seq<Choice>, registry: seq<ToolSpec>)
    requires w.running && w.next == FinalizeReact
    ensures var w' := Step(w, Attempt(env, false), registry);
            var p := w.graph.agent;
            if w'.running then
              exists response | Owed(p, env, response) ::
                Answers(Run(w', after, registry), response,
                        if p.react.status == LimitReached then LimitReached else ReactCompleted)
            else w'.next == FinalizeReact && w'.graph == w.graph && forall response :: !Owed(p, env, response)
  {
    var w' := Step(w, Attempt(env, false), registry);
    var p := w.graph.agent;
    FinalizeSatisfies(Sync(p), env, w.graph.route);
    if w'.running {
      var status := if p.react.status == LimitReached then LimitReached else ReactCompleted;
      FinalizedAnswers(w, env, registry, status);
      AnswerStays(w', after, registry, w'.graph.agent.response, status);
    }
  }

  lemma {:induction false} FinalizedAnswers(w: World, env: Env, registry: seq<ToolSpec>, status: ReactStatus)
    requires w.running && w.next == FinalizeReact && Step(w, Attempt(env, false), registry).running
    requires status == if w.graph.agent.react.status == LimitReached then LimitReached else ReactCompleted
    ensures var w' := Step(w, Attempt(env, false), registry);
            Owed(w.graph.agent, env, w'.graph.agent.response) && Answers(w', w'.graph.agent.response, status)
  {
    FinalizeSatisfies(Sync(w.graph.agent), env, w.graph.route);
  }

  // ---------------------------------------------------------------- routes that skip the loop

  /** A run on the way to its end without the loop. */
  predicate Bypasses(w: World) {
    w.next in {FinalizeConversation, End}
  }

  lemma {:induction false} BypassStays(w: World, cs: seq<Choice>, registry: seq<ToolSpec>)
    requires Bypasses(w)
    ensures var w' := Run(w, cs, registry);
            && Bypasses(w') && w'.log == w.log && w'.emitted == w.emitted
            && w'.graph.agent.response == w.graph.agent.response
    decreases |cs|
  {
    if cs != [] {
      BypassStays(Step(w, cs[0], registry), cs[1..], registry);
    }
  }

  /** The routing node decides once and for all which of the three paths a run takes. */
  lemma {:induction false} RouteDecidesThePath(w: World, env: Env, registry: seq<ToolSpec>)
    requires w.running && w.next == RouteRequest
    ensures var w' := Step(w, Attempt(env, false), registry);
            var direct := w.graph.agent.directDelivery && w.graph.agent.response.status == ResponseCompleted;
            && w'.log == w.log
            && (direct ==> w'.running && w'.next == FinalizeConversation && w'.graph.route.kind == Answer)
            && (!direct && env.route.None? ==> !w'.running && w'.next == RouteRequest)
            && (!direct && env.route.Some? ==>
                  && w'.running && w'.graph.route == env.route.value
                  && w'.next == if env.route.value.kind == Complex then StartReactNode else ExecuteDirect)
            && w'.graph.agent.response == w.graph.agent.response
  {
  }

  /** A request that is already answered by a delivered task runs nothing more and keeps its response. */
  lemma {:induction false} DirectDeliveryRunsNothing(w: World, env: Env, after: seq<Choice>, registry: seq<ToolSpec>)
    requires w.running && w.next == RouteRequest
    requires w.graph.agent.directDelivery && w.graph.agent.response.status == ResponseCompleted
    ensures var w' := Run(Step(w, Attempt(env, false), registry), after, registry);
            && w'.next in {FinalizeConversation, End} && w'.log == w.log && w'.emitted == w.emitted
            && w'.graph.agent.response == w.graph.agent.response
  {
    RouteDecidesThePath(w, env, registry);
    BypassStays(Step(w, Attempt(env, false), registry), after, registry);
  }

  // ---------------------------------------------------------------- resumes

  /** The checkpoint is about to run a tool that is registered as a write. */
  predicate AboutToWrite(w: World, registry: seq<ToolSpec>) {
    var p := Sync(w.graph.agent);
    w.next in {ExecuteDirect, ExecuteReactTool} &&
    var tool := if w.next == ExecuteReactTool && p.react.decisions != [] then Last(p.react).toolName else p.route.toolName;
    tool != "" && ToolSpec(tool, "write") in registry
  }

  /** A stopped run resumes where it was, exactly if it is not about to run a write. */
  lemma {:induction false} ResumesExactlyBeforeNoWrite(w: World, registry: seq<ToolSpec>)
    requires !w.running && w.next != End
    ensures Step(w, Resume, registry) == if AboutToWrite(w, registry) then w else w.(running := true)
  {
    var p := Sync(w.graph.agent);
    var tool := if w.next == ExecuteReactTool && p.react.decisions != [] then Last(p.react).toolName else p.route.toolName;
    IsWriteExactly(registry, tool);
  }

  lemma {:induction false} IsWriteExactly(registry: seq<ToolSpec>, tool: string)
    ensures IsWriteTool(registry, tool) <==> ToolSpec(tool, "write") in registry
  {
  }
}

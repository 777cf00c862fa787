/**
 * Whole runs of the Reading Agent graph: a durable pair (next node, committed state), a process that may be up or
 * down, and an external log of the actions that took effect. Every committed node replaces the durable pair; a node
 * that raises or crashes leaves it alone, although its effect and its events may already be out. A stopped run comes
 * back through `AgentRuntime.restore_checkpoint`, which asks `checkpoint_state` first.
 */
module ReadingRuns {
  import opened Wrappers
  import opened AgentStates
  import opened ReadingGraphs

  datatype World = World(next: Node, graph: GraphState, running: bool, log: seq<Action>, emitted: seq<Event>)

  datatype Choice = Attempt(env: Env, crash: bool) | Resume

  function Start(p: Payload, route: Route): World {
    World(ResolveContext, GraphState(p, route), true, [], [])
  }

  /** `checkpoint_state` refuses to load a checkpoint that is about to run a write tool. */
  predicate Refused(w: World, registry: seq<ToolSpec>) {
    PendingWriteTool(Sync(w.graph.agent), w.next, registry) != ""
  }

  function Commit(w: World, r: NodeResult, crash: bool): World {
    var log, emitted := w.log + r.effects, w.emitted + r.events;
    if r.Raised? || crash then w.(running := false, log := log, emitted := emitted)
    else World(Successor(w.next, r.graph), r.graph, true, log, emitted)
  }

  function Step(w: World, c: Choice, registry: seq<ToolSpec>): World {
    match c
    case Attempt(env, crash) =>
      if !w.running || w.next == End then w else Commit(w, RunNode(w.next, w.graph, env, registry), crash)
    case Resume =>
      if w.running || w.next == End || Refused(w, registry) then w else w.(running := true)
  }

  function Run(w: World, cs: seq<Choice>, registry: seq<ToolSpec>): World
    decreases |cs|
  {
    if cs == [] then w else Run(Step(w, cs[0], registry), cs[1..], registry)
  }

  predicate BeforeReact(n: Node) {
    n in {ResolveContext, PrepareConversation, RunCollaboration, RouteRequest, StartReactNode}
  }

  predicate InLoop(n: Node) {
    n == DecideReact || n == ExecuteReactTool
  }

  predicate HasDecision(ds: seq<Decision>, a: Action) {
    exists i | 0 <= i < |ds| :: ds[i].kind == ToolDecision && ActionOf(ds[i]) == a
  }

  predicate HasCall(calls: seq<ToolCall>, a: Action) {
    exists i | 0 <= i < |calls| :: calls[i].name == a.tool && calls[i].arguments == a.arguments
  }

  /** The latest decision is a tool decision that the context records consistently. */
  predicate EndsWithTool(r: React) {
    && r.decisions != []
    && r.lastDecision == Some(r.decisions[|r.decisions| - 1])
    && r.decisions[|r.decisions| - 1].kind == ToolDecision
    && r.decisions[|r.decisions| - 1].toolName != ""
  }

  function Last(r: React): Decision
    requires r.decisions != []
  {
    r.decisions[|r.decisions| - 1]
  }

  function Prior(r: React): seq<Decision>
    requires r.decisions != []
  {
    r.decisions[..|r.decisions| - 1]
  }

  // ---------------------------------------------------------------- what one node can do

  /** What `decide_react` does to the durable pair: nothing but record a decision or mark the limit. */
  ghost predicate DecideFacts(p: Payload, env: Env, r: NodeResult) {
    && r.effects == []
    && (r.Committed? ==>
        var q, next := r.graph.agent, Successor(DecideReact, r.graph);
        && q.toolCalls == p.toolCalls && q.toolResults == p.toolResults && q.response == p.response
        && (next == ExecuteReactTool || next == FinalizeReact)
        && (next == ExecuteReactTool ==>
            && env.decision.Some? && WellShaped(env.decision.value)
            && env.decision.value.kind == ToolDecision && !Repeats(p.react.decisions, env.decision.value)
            && env.decision.value.iteration > p.react.iteration
            && q.react == React(ReactRunning, env.decision.value.iteration, p.react.decisions + [env.decision.value],
                                p.react.observations, Some(env.decision.value))))
  }

  lemma {:induction false} DecideSatisfies(p: Payload, env: Env, registry: seq<ToolSpec>, route: Route)
    ensures DecideFacts(p, env, DecideNode(p, env, registry, route))
  {
  }

  function CallOf(d: Decision): ToolCall {
    ToolCall(d.toolName, d.arguments, ReactStep(d.iteration))
  }

  /** What `execute_react_tool` does: at most one effect, and a committed effect is a committed call. */
  ghost predicate ExecuteFacts(p: Payload, d: Decision, r: NodeResult) {
    && (r.effects == [] || r.effects == [ActionOf(d)])
    && (r.Committed? ==>
        var q, next := r.graph.agent, Successor(ExecuteReactTool, r.graph);
        && next in {DecideReact, FinalizeReact, FinalizeConversation}
        && q.react.decisions == p.react.decisions && q.react.iteration == p.react.iteration
        && q.react.lastDecision == p.react.lastDecision
        && (q.toolCalls == p.toolCalls || q.toolCalls == p.toolCalls + [CallOf(d)])
        && (r.effects != [] ==> q.toolCalls == p.toolCalls + [CallOf(d)] && |q.toolResults| == |p.toolResults| + 1)
        && (next == DecideReact ==> r.effects != [] && q.react.status != LimitReached))
  }

  lemma {:induction false} AfterToolFacts(p: Payload, d: Decision, result: ToolResult)
    ensures var q := AfterTool(p, d, result);
            && q.react == p.react && q.toolCalls == p.toolCalls + [CallOf(d)]
            && |q.toolResults| == |p.toolResults| + 1 && q.responseState.status == p.response.status
            && q.response == p.response
  {
  }

  lemma {:induction false} AfterConfirmationFacts(p: Payload, d: Decision)
    ensures var q := AfterConfirmationRequest(p, d);
            && q.react == p.react.(status := ReactConfirmation) && q.toolCalls == p.toolCalls + [CallOf(d)]
            && q.toolResults == p.toolResults && q.responseState.status == q.response.status == ConfirmationRequired
  {
    var called := Apply(RecordCall(CallOf(d)), p);
    RecordCallFacts(p, CallOf(d));
    ResponseThenMarkFacts(called, Response(ConfirmationRequired, ""), ReactConfirmation);
  }

  lemma {:induction false} RecordCallFacts(p: Payload, call: ToolCall)
    ensures var q := Apply(RecordCall(call), p);
            q.react == p.react && q.toolCalls == p.toolCalls + [call] && q.toolResults == p.toolResults
  {
  }

  lemma {:induction false} ResponseThenMarkFacts(p: Payload, r: Response, status: ReactStatus)
    ensures var q := Apply(MarkReact(status), Apply(ApplyResponse(r), p));
            && q.react == p.react.(status := status) && q.toolCalls == p.toolCalls && q.toolResults == p.toolResults
            && q.response == r && q.responseState.status == r.status
  {
  }

  lemma {:induction false} FinishSatisfies(p: Payload, d: Decision, gate: GateAction, env: Env, route: Route)
    requires p.react.status != LimitReached
    requires p.responseState.status == p.response.status
    ensures FinishFacts(p, d, gate, env, FinishNode(p, d, gate, env, route))
  {
    if p.response.status != ConfirmationRequired {
      ObserveSatisfies(p, d, gate, env, route);
    }
  }

  lemma {:induction false} ObserveSatisfies(p: Payload, d: Decision, gate: GateAction, env: Env, route: Route)
    requires p.react.status != LimitReached && p.responseState.status == p.response.status != ConfirmationRequired
    ensures FinishFacts(p, d, gate, env, ObserveStep(p, d, gate, env, route))
  {
  }

  /** A step that ran is observed, unless a leftover confirmation response hides it. */
  ghost predicate FinishFacts(p: Payload, d: Decision, gate: GateAction, env: Env, r: NodeResult) {
    && r.effects == [ActionOf(d)]
    && (r.Raised? ==> p.response.status != ConfirmationRequired
                      && r.failure == UnmatchedObservation && Raises(RecordObservation(ObservationOf(d, gate)), p))
    && (r.Committed? ==>
        var q := r.graph.agent;
        && q.toolCalls == p.toolCalls && q.toolResults == p.toolResults
        && q.response == p.response && q.responseState.status == p.response.status
        && q.react.decisions == p.react.decisions && q.react.iteration == p.react.iteration
        && q.react.lastDecision == p.react.lastDecision
        && (p.response.status != ConfirmationRequired ==>
            && q.react.observations == p.react.observations + [ObservationOf(d, gate)]
            && (q.react.status == p.react.status || q.react.status == LimitReached)
            && (q.react.status != LimitReached ==>
                |q.toolCalls| < env.policy.maxToolCalls && q.react.iteration < env.policy.maxReactIterations)))
  }

  lemma {:induction false} ExecuteSatisfies(p: Payload, env: Env, route: Route)
    requires p.react.lastDecision.Some? && p.react.lastDecision.value.kind == ToolDecision
    requires p.react.status != LimitReached
    ensures ExecuteFacts(p, p.react.lastDecision.value, ExecuteNode(p, env, route))
  {
    var d := p.react.lastDecision.value;
    LimitSatisfies(p, d, route, Emit(env.sink, [LimitEvent(ToolCallBudget)]));
    LimitSatisfies(p, d, route, Emit(env.sink, [LimitEvent(KnowledgeSearchBudget)]));
    match env.tool
    case ToolReturns(result, gate) => ToolSatisfies(p, d, result, gate, env, route);
    case NeedsConfirmation => ConfirmationSatisfies(p, d, route);
    case _ =>
  }

  lemma {:induction false} LimitSatisfies(p: Payload, d: Decision, route: Route, events: seq<Event>)
    requires p.react.lastDecision == Some(d)
    ensures ExecuteFacts(p, d, Committed(GraphState(Limit(p), route), [], events))
  {
  }

  lemma {:induction false} ConfirmationSatisfies(p: Payload, d: Decision, route: Route)
    ensures ExecuteFacts(p, d, Committed(GraphState(AfterConfirmationRequest(p, d), route), [], []))
  {
    AfterConfirmationFacts(p, d);
  }

  lemma {:induction false} ToolSatisfies(p: Payload, d: Decision, result: ToolResult, gate: GateAction, env: Env,
                                         route: Route)
    requires p.react.status != LimitReached
    ensures ExecuteFacts(p, d, FinishNode(AfterTool(p, d, result), d, gate, env, route))
  {
    AfterToolFacts(p, d, result);
    FinishSatisfies(AfterTool(p, d, result), d, gate, env, route);
  }

  // ---------------------------------------------------------------- writes take effect at most once

  /** What the durable pair says about one write action of the log. */
  predicate Accounted(w: World, a: Action)
    requires w.next == ExecuteReactTool ==> w.graph.agent.react.decisions != []
  {
    var r, calls := w.graph.agent.react, w.graph.agent.toolCalls;
    && multiset(w.log)[a] <= 1
    && (a in w.log ==>
        match w.next
        case DecideReact => HasDecision(r.decisions, a) && HasCall(calls, a)
        case ExecuteReactTool =>
          || (HasDecision(Prior(r), a) && HasCall(calls, a))
          || (a == ActionOf(Last(r)) && !w.running)
        case _ => HasCall(calls, a))
  }

  /** Before the ReAct loop starts, and on a direct route, no ReAct action has run. */
  predicate Untouched(n: Node) {
    BeforeReact(n) || n == ExecuteDirect
  }

  ghost predicate WriteInv(w: World, registry: seq<ToolSpec>) {
    var r := w.graph.agent.react;
    && (Untouched(w.next) ==> w.log == [])
    && (w.next == DecideReact ==> r.status != LimitReached)
    && (w.next == ExecuteReactTool ==>
        r.status != LimitReached && EndsWithTool(r) && !HasDecision(Prior(r), ActionOf(Last(r))))
    && (!Untouched(w.next) ==> forall a: Action | IsWriteTool(registry, a.tool) :: Accounted(w, a))
  }

  lemma {:induction false} WriteInvDecide(w: World, env: Env, r: NodeResult, crash: bool, registry: seq<ToolSpec>)
    requires WriteInv(w, registry) && w.running && w.next == DecideReact
    requires DecideFacts(Sync(w.graph.agent), env, r)
    ensures WriteInv(Commit(w, r, crash), registry)
  {
    var w' := Commit(w, r, crash);
    assert w'.log == w.log;
    if w'.next == ExecuteReactTool {
      assert Prior(w'.graph.agent.react) == w.graph.agent.react.decisions;
    }
    forall a: Action | IsWriteTool(registry, a.tool)
      ensures Accounted(w', a)
    {
      assert Accounted(w, a);
    }
  }

  lemma {:induction false} WriteInvExecute(w: World, r: NodeResult, crash: bool, registry: seq<ToolSpec>)
    requires WriteInv(w, registry) && w.running && w.next == ExecuteReactTool
    requires ExecuteFacts(Sync(w.graph.agent), Last(w.graph.agent.react), r)
    ensures WriteInv(Commit(w, r, crash), registry)
  {
    var w' := Commit(w, r, crash);
    forall a: Action | IsWriteTool(registry, a.tool)
      ensures Accounted(w', a)
    {
      ExecuteAccounts(w, r, crash, a, registry);
    }
  }

  lemma {:induction false} ExecuteAccounts(w: World, r: NodeResult, crash: bool, a: Action, registry: seq<ToolSpec>)
    requires WriteInv(w, registry) && w.running && w.next == ExecuteReactTool && IsWriteTool(registry, a.tool)
    requires ExecuteFacts(Sync(w.graph.agent), Last(w.graph.agent.react), r)
    ensures var w' := Commit(w, r, crash);
            (w'.next == ExecuteReactTool ==> w'.graph.agent.react.decisions != []) && Accounted(w', a)
  {
    assert Accounted(w, a);
    var d, w' := Last(w.graph.agent.react), Commit(w, r, crash);
    assert w.graph.agent.react.decisions == Prior(w.graph.agent.react) + [d];
    assert multiset(w'.log) == multiset(w.log) + multiset(r.effects);
    if w'.next != ExecuteReactTool {
      var calls, more := w.graph.agent.toolCalls, r.graph.agent.toolCalls;
      if a in w.log {
        HasCallGrows(calls, more, a);
        HasDecisionGrows(Prior(w.graph.agent.react), w.graph.agent.react.decisions, a);
      } else if a in w'.log {
        assert more[|calls|] == CallOf(d);
      }
    }
  }

  lemma {:induction false} HasCallGrows(calls: seq<ToolCall>, more: seq<ToolCall>, a: Action)
    requires calls <= more && HasCall(calls, a)
    ensures HasCall(more, a)
  {
  }

  lemma {:induction false} HasDecisionGrows(ds: seq<Decision>, more: seq<Decision>, a: Action)
    requires ds <= more && HasDecision(ds, a)
    ensures HasDecision(more, a)
  {
  }

  lemma {:induction false} WriteInvStep(w: World, c: Choice, registry: seq<ToolSpec>)
    requires WriteInv(w, registry)
    ensures WriteInv(Step(w, c, registry), registry)
  {
    var p := Sync(w.graph.agent);
    match c
    case Attempt(env, crash) =>
      if w.running && w.next == DecideReact {
        DecideSatisfies(p, env, registry, w.graph.route);
        WriteInvDecide(w, env, DecideNode(p, env, registry, w.graph.route), crash, registry);
      } else if w.running && w.next == ExecuteReactTool {
        ExecuteSatisfies(p, env, w.graph.route);
        WriteInvExecute(w, ExecuteNode(p, env, w.graph.route), crash, registry);
      } else if w.running && w.next == FinalizeReact {
        FinalizeKeepsCalls(p, env, w.graph.route);
        WriteInvQuiet(w, FinalizeNode(p, env, w.graph.route), crash, registry);
      } else if w.running && w.next == FinalizeConversation {
        WriteInvQuiet(w, RunNode(w.next, w.graph, env, registry), crash, registry);
      } else if w.running && w.next != End {
        WriteInvEarly(w, env, crash, registry);
      }
    case Resume =>
      WriteInvResume(w, registry);
  }

  lemma {:induction false} FinalizeKeepsCalls(p: Payload, env: Env, route: Route)
    ensures var r := FinalizeNode(p, env, route);
            r.effects == [] && (r.Committed? ==> r.graph.agent.toolCalls == p.toolCalls)
  {
  }

  /** The nodes after the loop run no tool and keep the calls. */
  lemma {:induction false} WriteInvQuiet(w: World, r: NodeResult, crash: bool, registry: seq<ToolSpec>)
    requires WriteInv(w, registry) && w.next in {FinalizeReact, FinalizeConversation}
    requires r.effects == [] && (r.Committed? ==> r.graph.agent.toolCalls == w.graph.agent.toolCalls)
    ensures WriteInv(Commit(w, r, crash), registry)
  {
    var w' := Commit(w, r, crash);
    assert w'.log == w.log;
    forall a: Action | IsWriteTool(registry, a.tool)
      ensures Accounted(w', a)
    {
      assert Accounted(w, a);
    }
  }

  lemma {:induction false} WriteInvEarly(w: World, env: Env, crash: bool, registry: seq<ToolSpec>)
    requires WriteInv(w, registry) && Untouched(w.next)
    ensures WriteInv(Commit(w, RunNode(w.next, w.graph, env, registry), crash), registry)
  {
    var r := RunNode(w.next, w.graph, env, registry);
    assert r.effects == [];
    assert Commit(w, r, crash).log == [];
  }

  lemma {:induction false} WriteInvResume(w: World, registry: seq<ToolSpec>)
    requires WriteInv(w, registry)
    ensures WriteInv(Step(w, Resume, registry), registry)
  {
    var w' := Step(w, Resume, registry);
    if w' != w && w.next == ExecuteReactTool {
      assert !IsWriteTool(registry, Last(w.graph.agent.react).toolName);
    }
    if !Untouched(w.next) {
      forall a: Action | IsWriteTool(registry, a.tool)
        ensures Accounted(w', a)
      {
        assert Accounted(w, a);
      }
    }
  }

  lemma {:induction false} WriteInvRun(w: World, cs: seq<Choice>, registry: seq<ToolSpec>)
    requires WriteInv(w, registry)
    ensures WriteInv(Run(w, cs, registry), registry)
    decreases |cs|
  {
    if cs != [] {
      WriteInvStep(w, cs[0], registry);
      WriteInvRun(Step(w, cs[0], registry), cs[1..], registry);
    }
  }

  /** The write at the end of the log is still pending and the process that would repeat it cannot come back. */
  predicate PendingForEver(w: World, a: Action, registry: seq<ToolSpec>) {
    && w.next == ExecuteReactTool && !w.running
    && w.graph.agent.react.decisions != [] && ActionOf(Last(w.graph.agent.react)) == a
    && Refused(w, registry)
  }

  /**
   * Over every run with any number of failures, crashes and resumes, from any initial state and with any policy at
   * each attempt: a ReAct write action takes effect at most once, and once it did, either its call is committed or
   * the checkpoint still points at it and no resume is accepted.
   */
  lemma {:induction false} WritesTakeEffectAtMostOnce(p: Payload, route: Route, cs: seq<Choice>, registry: seq<ToolSpec>, a: Action)
    requires ToolSpec(a.tool, "write") in registry
    ensures var w := Run(Start(p, route), cs, registry);
            && multiset(w.log)[a] <= 1
            && (a in w.log ==> HasCall(w.graph.agent.toolCalls, a) || PendingForEver(w, a, registry))
  {
    var w := Run(Start(p, route), cs, registry);
    var i :| 0 <= i < |registry| && registry[i] == ToolSpec(a.tool, "write");
    assert IsWriteTool(registry, a.tool);
    WriteInvRun(Start(p, route), cs, registry);
    if !Untouched(w.next) {
      assert Accounted(w, a);
    }
  }

  /** A pending write stays pending whatever is tried next. */
  lemma {:induction false} PendingWritesStayPending(w: World, cs: seq<Choice>, registry: seq<ToolSpec>, a: Action)
    requires PendingForEver(w, a, registry)
    ensures Run(w, cs, registry) == w
    decreases |cs|
  {
    if cs != [] {
      PendingWritesStayPending(w, cs[1..], registry, a);
    }
  }

  // ---------------------------------------------------------------- fresh runs

  /** A state without earlier tool calls and without a leftover request for confirmation. */
  predicate Fresh(p: Payload) {
    p.toolCalls == [] && p.toolResults == [] && p.response.status != ConfirmationRequired
  }

  /** The nodes before routing hand on fresh states. */
  predicate FreshChoices(cs: seq<Choice>) {
    forall i | 0 <= i < |cs| && cs[i].Attempt? && cs[i].env.prepared.Some? :: Fresh(cs[i].env.prepared.value)
  }

  predicate NoStop(observations: seq<Observation>) {
    forall i | 0 <= i < |observations| :: observations[i].gate != Some(Stop)
  }

  /** `calls` are the calls of `ds` in order, all of them tool decisions. */
  predicate Executed(ds: seq<Decision>, calls: seq<ToolCall>) {
    |ds| == |calls| && forall i | 0 <= i < |ds| :: ds[i].kind == ToolDecision && calls[i] == CallOf(ds[i])
  }

  /** The durable state of a fresh run inside the loop: `done` are the decisions whose tool has run. */
  predicate LoopState(p: Payload, done: seq<Decision>) {
    && p.react.status != LimitReached && p.response.status != ConfirmationRequired
    && NoStop(p.react.observations)
    && Executed(done, p.toolCalls) && |p.toolResults| == |p.toolCalls|
    && (p.react.iteration == 0 ==> p.react.decisions == [])
    && (p.react.lastDecision.None? <==> p.react.decisions == [])
  }

  predicate FreshInv(w: World) {
    var p := w.graph.agent;
    match w.next
    case RouteRequest => Fresh(p)
    case StartReactNode => Fresh(p)
    case DecideReact => LoopState(p, p.react.decisions) && (p.react.decisions == [] ==> p.react.iteration == 0)
    case ExecuteReactTool =>
      && EndsWithTool(p.react) && Last(p.react).iteration == p.react.iteration
      && LoopState(p, Prior(p.react))
    case FinalizeReact =>
      p.toolResults != [] || (p.react.lastDecision.Some? && p.react.lastDecision.value.kind == FinalDecision)
    case _ => true
  }

  lemma {:induction false} LatestGateIsRecorded(observations: seq<Observation>)
    requires NoStop(observations)
    ensures LatestGate(observations) != Some(Stop)
  {
    if observations != [] {
      LatestGateIsRecorded(observations[..|observations| - 1]);
    }
  }

  lemma {:induction false} SearchCountIsBounded(calls: seq<ToolCall>)
    ensures SearchCount(calls) <= |calls|
  {
    if calls != [] {
      SearchCountIsBounded(calls[..|calls| - 1]);
    }
  }

  lemma {:induction false} FreshDecide(w: World, env: Env, crash: bool, registry: seq<ToolSpec>)
    requires FreshInv(w) && w.running && w.next == DecideReact
    ensures FreshInv(Commit(w, DecideNode(Sync(w.graph.agent), env, registry, w.graph.route), crash))
  {
    var p := Sync(w.graph.agent);
    var r := DecideNode(p, env, registry, w.graph.route);
    DecideSatisfies(p, env, registry, w.graph.route);
    LatestGateIsRecorded(p.react.observations);
    SearchCountIsBounded(p.toolCalls);
    DecideFinalizes(p, env, registry, w.graph.route);
    FreshDecided(w, p, env, r, crash);
  }

  /** There is a result to report, or the last decision is final. */
  predicate CanFinalize(r: NodeResult) {
    r.Committed? && Successor(DecideReact, r.graph) == FinalizeReact ==>
      var q := r.graph.agent;
      q.toolResults != [] || (q.react.lastDecision.Some? && q.react.lastDecision.value.kind == FinalDecision)
  }

  lemma {:induction false} RecordedFinalizes(p: Payload, d: Decision, env: Env, route: Route)
    requires LoopState(p, p.react.decisions) && SearchCount(p.toolCalls) <= |p.toolCalls|
    ensures CanFinalize(RecordServiceDecision(p, d, env, route))
  {
  }

  /** The loop ends with a result to report or with a final decision. */
  lemma {:induction false} DecideFinalizes(p: Payload, env: Env, registry: seq<ToolSpec>, route: Route)
    requires LoopState(p, p.react.decisions) && (p.react.decisions == [] ==> p.react.iteration == 0)
    requires LatestGate(p.react.observations) != Some(Stop) && SearchCount(p.toolCalls) <= |p.toolCalls|
    ensures CanFinalize(DecideNode(p, env, registry, route))
  {
    if env.decision.Some? {
      RecordedFinalizes(p, env.decision.value, env, route);
    }
  }

  lemma {:induction false} FreshDecided(w: World, p: Payload, env: Env, r: NodeResult, crash: bool)
    requires FreshInv(w) && w.running && w.next == DecideReact && p == Sync(w.graph.agent) && DecideFacts(p, env, r)
    requires r.Committed? && Successor(DecideReact, r.graph) == FinalizeReact ==>
               var q := r.graph.agent;
               q.toolResults != [] || (q.react.lastDecision.Some? && q.react.lastDecision.value.kind == FinalDecision)
    ensures FreshInv(Commit(w, r, crash))
  {
    if r.Committed? && Successor(DecideReact, r.graph) == ExecuteReactTool {
      assert Prior(r.graph.agent.react) == p.react.decisions;
    }
  }

  /** Inside the loop every step is observed: the matching guard of `record_react_observation` never fires. */
  lemma {:induction false} ObservationAlwaysMatches(p: Payload, d: Decision, gate: GateAction)
    requires EndsWithTool(p.react) && Last(p.react) == d && d.iteration == p.react.iteration
    ensures !Raises(RecordObservation(ObservationOf(d, gate)), p)
  {
    assert p.react.decisions[|p.react.decisions| - 1] == d;
  }

  lemma {:induction false} FreshExecute(w: World, env: Env, crash: bool)
    requires FreshInv(w) && w.running && w.next == ExecuteReactTool
    ensures FreshInv(Commit(w, ExecuteNode(Sync(w.graph.agent), env, w.graph.route), crash))
  {
    var p := Sync(w.graph.agent);
    var d := Last(p.react);
    SearchCountIsBounded(p.toolCalls);
    FreshLimit(w, p, Emit(env.sink, [LimitEvent(ToolCallBudget)]), crash);
    FreshLimit(w, p, Emit(env.sink, [LimitEvent(KnowledgeSearchBudget)]), crash);
    match env.tool
    case ToolReturns(result, gate) => FreshFinished(w, p, d, result, gate, env, crash);
    case NeedsConfirmation => AfterConfirmationFacts(p, d);
    case _ =>
  }

  lemma {:induction false} FreshLimit(w: World, p: Payload, events: seq<Event>, crash: bool)
    requires FreshInv(w) && w.running && w.next == ExecuteReactTool && p == Sync(w.graph.agent)
    ensures p.toolCalls != [] ==> FreshInv(Commit(w, Committed(GraphState(Limit(p), w.graph.route), [], events), crash))
  {
  }

  lemma {:induction false} FreshFinished(w: World, p: Payload, d: Decision, result: ToolResult, gate: GateAction, env: Env,
                                         crash: bool)
    requires FreshInv(w) && w.running && w.next == ExecuteReactTool && p == Sync(w.graph.agent) && d == Last(p.react)
    ensures FreshInv(Commit(w, FinishNode(AfterTool(p, d, result), d, gate, env, w.graph.route), crash))
  {
    var q := AfterTool(p, d, result);
    AfterToolFacts(p, d, result);
    FinishSatisfies(q, d, gate, env, w.graph.route);
    FreshObserved(w, q, d, gate, env, FinishNode(q, d, gate, env, w.graph.route), crash);
  }

  lemma {:induction false} FreshObserved(w: World, q: Payload, d: Decision, gate: GateAction, env: Env, r: NodeResult, crash: bool)
    requires FreshInv(w) && w.running && w.next == ExecuteReactTool && d == Last(w.graph.agent.react)
    requires q.react == w.graph.agent.react && q.response == w.graph.agent.response
    requires q.toolCalls == w.graph.agent.toolCalls + [CallOf(d)]
    requires |q.toolResults| == |w.graph.agent.toolResults| + 1
    requires FinishFacts(q, d, gate, env, r)
    ensures FreshInv(Commit(w, r, crash))
  {
    if r.Committed? {
      var o := ObservationOf(d, gate);
      var observations := r.graph.agent.react.observations;
      assert observations == w.graph.agent.react.observations + [o];
      assert observations[..|observations| - 1] == w.graph.agent.react.observations;
      assert w.graph.agent.react.decisions == Prior(w.graph.agent.react) + [d];
    }
  }

  predicate FreshChoice(c: Choice) {
    c.Attempt? && c.env.prepared.Some? ==> Fresh(c.env.prepared.value)
  }

  lemma {:induction false} FreshStep(w: World, c: Choice, registry: seq<ToolSpec>)
    requires FreshInv(w) && FreshChoice(c)
    ensures FreshInv(Step(w, c, registry))
  {
    if c.Attempt? && w.running {
      if w.next == DecideReact {
        FreshDecide(w, c.env, c.crash, registry);
      } else if w.next == ExecuteReactTool {
        FreshExecute(w, c.env, c.crash);
      }
    }
  }

  lemma {:induction false} FreshRun(w: World, cs: seq<Choice>, registry: seq<ToolSpec>)
    requires FreshInv(w) && FreshChoices(cs)
    ensures FreshInv(Run(w, cs, registry))
    decreases |cs|
  {
    if cs != [] {
      FreshStep(w, cs[0], registry);
      FreshRun(Step(w, cs[0], registry), cs[1..], registry);
    }
  }

  /**
   * In a fresh run, with any failures, crashes, resumes and policies: `finalize_react` lacks an answer only when the
   * decision service itself ended the loop with an empty final answer before any tool had run; no observation is
   * rejected and no action node is entered without a tool decision.
   */
  lemma {:induction false} FinalizeOnlyLacksWhatTheServiceLeftOut(p: Payload, route: Route, cs: seq<Choice>, registry: seq<ToolSpec>,
                                               env: Env)
    requires FreshChoices(cs)
    ensures var w := Run(Start(p, route), cs, registry);
            var r := RunNode(w.next, w.graph, env, registry);
            r.Raised? ==>
              && r.failure != UnmatchedObservation && r.failure != InvalidAction
              && (r.failure == MissingAnswer ==>
                  && w.next == FinalizeReact && w.graph.agent.toolResults == []
                  && w.graph.agent.react.lastDecision.Some?
                  && w.graph.agent.react.lastDecision.value.kind == FinalDecision
                  && w.graph.agent.react.lastDecision.value.finalAnswer == "")
  {
    var w := Run(Start(p, route), cs, registry);
    FreshRun(Start(p, route), cs, registry);
    if w.next == ExecuteReactTool {
      ExecuteFailures(w, env);
    } else if w.next == FinalizeReact {
      FinalizeFailures(w, env);
    } else {
      OtherFailures(w, env, registry);
    }
  }

  lemma {:induction false} ExecuteFailures(w: World, env: Env)
    requires FreshInv(w) && w.next == ExecuteReactTool
    ensures var r := ExecuteNode(Sync(w.graph.agent), env, w.graph.route);
            r.Raised? ==> r.failure in {ExternalFailure, MissingToolResult}
  {
    var p := Sync(w.graph.agent);
    if env.tool.ToolReturns? {
      var d := Last(p.react);
      var q := AfterTool(p, d, env.tool.result);
      AfterToolFacts(p, d, env.tool.result);
      ObservationAlwaysMatches(q, d, env.tool.gate);
      FinishSatisfies(q, d, env.tool.gate, env, w.graph.route);
    }
  }

  lemma {:induction false} FinalizeFailures(w: World, env: Env)
    requires FreshInv(w) && w.next == FinalizeReact
    ensures var r := FinalizeNode(Sync(w.graph.agent), env, w.graph.route);
            var last := w.graph.agent.react.lastDecision;
            r.Raised? && r.failure != ExternalFailure ==>
              && r.failure == MissingAnswer && w.graph.agent.toolResults == []
              && last.Some? && last.value.kind == FinalDecision && last.value.finalAnswer == ""
  {
  }

  lemma {:induction false} OtherFailures(w: World, env: Env, registry: seq<ToolSpec>)
    requires w.next != ExecuteReactTool && w.next != FinalizeReact
    ensures var r := RunNode(w.next, w.graph, env, registry);
            r.Raised? ==> r.failure in {ExternalFailure, NoRegisteredTools, StaleDecision}
  {
  }

  /** In a fresh run a stop verdict of the evidence gate ends the loop: no decision and no tool call follows it. */
  lemma {:induction false} StopVerdictEndsTheLoop(p: Payload, route: Route, cs: seq<Choice>, registry: seq<ToolSpec>)
    requires FreshChoices(cs)
    ensures var w := Run(Start(p, route), cs, registry);
            w.next in {DecideReact, ExecuteReactTool} ==> NoStop(w.graph.agent.react.observations)
  {
    FreshRun(Start(p, route), cs, registry);
  }

  /** So the only decisions of a fresh run are those the decision service returned. */
  lemma {:induction false} DecisionsComeFromTheService(p: Payload, route: Route, cs: seq<Choice>, registry: seq<ToolSpec>, env: Env)
    requires FreshChoices(cs)
    ensures var w := Run(Start(p, route), cs, registry);
            w.next == DecideReact ==>
              RecordsOnlyServiceDecisions(w.graph.agent.react.decisions, env, RunNode(DecideReact, w.graph, env, registry))
  {
    FreshRun(Start(p, route), cs, registry);
    var w := Run(Start(p, route), cs, registry);
    if w.next == DecideReact {
      LatestGateIsRecorded(w.graph.agent.react.observations);
      OpenGateRecordsServiceDecisions(Sync(w.graph.agent), env, registry, w.graph.route);
    }
  }

  predicate RecordsOnlyServiceDecisions(before: seq<Decision>, env: Env, r: NodeResult) {
    r.Committed? ==>
      || r.graph.agent.react.decisions == before
      || (env.decision.Some? && r.graph.agent.react.decisions == before + [env.decision.value])
  }

  lemma {:induction false} OpenGateRecordsServiceDecisions(p: Payload, env: Env, registry: seq<ToolSpec>, route: Route)
    requires LatestGate(p.react.observations) != Some(Stop)
    ensures RecordsOnlyServiceDecisions(p.react.decisions, env, DecideNode(p, env, registry, route))
  {
  }

  // ---------------------------------------------------------------- budgets and distinct actions

  /** The head tests of `execute_react_tool` passed: both budgets had room for this call. */
  predicate Affordable(p: Payload, d: Decision, policy: Policy) {
    && |p.toolCalls| < policy.maxToolCalls
    && !(d.toolName == KNOWLEDGE_SEARCH_TOOL && SearchCount(p.toolCalls) >= SearchBudget(policy))
  }

  lemma {:induction false} ExecuteAffords(p: Payload, env: Env, route: Route)
    requires p.react.lastDecision.Some? && p.react.lastDecision.value.kind == ToolDecision
    requires !Affordable(p, p.react.lastDecision.value, env.policy)
    ensures var r := ExecuteNode(p, env, route);
            r.Committed? && r.effects == [] && r.graph.agent.toolCalls == p.toolCalls
            && Successor(ExecuteReactTool, r.graph) != DecideReact
  {
  }

  lemma {:induction false} SearchCountAppend(calls: seq<ToolCall>, call: ToolCall)
    ensures SearchCount(calls + [call])
            == SearchCount(calls) + if call.name == KNOWLEDGE_SEARCH_TOOL then 1 else 0
  {
    assert (calls + [call])[..|calls|] == calls;
  }

  predicate UsesPolicy(cs: seq<Choice>, policy: Policy) {
    forall i | 0 <= i < |cs| && cs[i].Attempt? :: cs[i].env.policy == policy
  }

  /** The run took the complex route, or is past it. The stored route tells the two ways to the last nodes apart. */
  predicate OnReactPath(w: World) {
    || w.next in {StartReactNode, DecideReact, ExecuteReactTool, FinalizeReact}
    || (w.next in {FinalizeConversation, End} && w.graph.route.kind == Complex)
  }

  /** The committed calls of a fresh run stay within both budgets. */
  predicate BudgetInv(w: World, policy: Policy) {
    && FreshInv(w)
    && (w.next == ExecuteDirect ==> w.graph.route.kind != Complex)
    && (OnReactPath(w) ==>
        && |w.graph.agent.toolCalls| <= policy.maxToolCalls
        && SearchCount(w.graph.agent.toolCalls) <= SearchBudget(policy))
  }

  lemma {:induction false} BudgetExecute(w: World, env: Env, crash: bool)
    requires BudgetInv(w, env.policy) && w.running && w.next == ExecuteReactTool
    ensures BudgetInv(Commit(w, ExecuteNode(Sync(w.graph.agent), env, w.graph.route), crash), env.policy)
  {
    var p := Sync(w.graph.agent);
    var d := Last(p.react);
    FreshExecute(w, env, crash);
    if Affordable(p, d, env.policy) {
      ExecuteSatisfies(p, env, w.graph.route);
      SearchCountAppend(p.toolCalls, CallOf(d));
    } else {
      ExecuteAffords(p, env, w.graph.route);
    }
  }

  lemma {:induction false} BudgetQuiet(w: World, env: Env, crash: bool, registry: seq<ToolSpec>)
    requires BudgetInv(w, env.policy) && w.running && w.next != ExecuteReactTool && w.next != End
    requires FreshInv(Commit(w, RunNode(w.next, w.graph, env, registry), crash))
    ensures BudgetInv(Commit(w, RunNode(w.next, w.graph, env, registry), crash), env.policy)
  {
    var p := Sync(w.graph.agent);
    if w.next == DecideReact {
      DecideSatisfies(p, env, registry, w.graph.route);
    } else if w.next == FinalizeReact {
      FinalizeKeepsCalls(p, env, w.graph.route);
    }
  }

  lemma {:induction false} BudgetRun(w: World, cs: seq<Choice>, policy: Policy, registry: seq<ToolSpec>)
    requires BudgetInv(w, policy) && FreshChoices(cs) && UsesPolicy(cs, policy)
    ensures BudgetInv(Run(w, cs, registry), policy)
    decreases |cs|
  {
    if cs != [] {
      var c := cs[0];
      FreshStep(w, c, registry);
      if c.Attempt? && w.running && w.next == ExecuteReactTool {
        BudgetExecute(w, c.env, c.crash);
      } else if c.Attempt? && w.running && w.next != End {
        BudgetQuiet(w, c.env, c.crash, registry);
      }
      BudgetRun(Step(w, c, registry), cs[1..], policy, registry);
    }
  }

  /** In a fresh run under one policy, with any failures, crashes and resumes, the committed calls respect the budgets. */
  lemma {:induction false} CommittedCallsRespectTheBudgets(p: Payload, route: Route, cs: seq<Choice>, policy: Policy,
                                        registry: seq<ToolSpec>)
    requires FreshChoices(cs) && UsesPolicy(cs, policy)
    ensures var w := Run(Start(p, route), cs, registry);
            OnReactPath(w) ==>
              && |w.graph.agent.toolCalls| <= policy.maxToolCalls
              && SearchCount(w.graph.agent.toolCalls) <= SearchBudget(policy)
  {
    BudgetRun(Start(p, route), cs, policy, registry);
  }

  predicate NoResume(cs: seq<Choice>) {
    forall i | 0 <= i < |cs| :: cs[i].Attempt?
  }

  /** `log` lists the actions of `ds` in order. */
  predicate LogOf(log: seq<Action>, ds: seq<Decision>) {
    |log| == |ds| && forall i | 0 <= i < |ds| :: log[i] == ActionOf(ds[i])
  }

  predicate DistinctActions(log: seq<Action>) {
    forall i, j | 0 <= i < j < |log| :: log[i] != log[j]
  }

  function SearchActions(log: seq<Action>): nat {
    if log == [] then 0
    else SearchActions(log[..|log| - 1]) + if log[|log| - 1].tool == KNOWLEDGE_SEARCH_TOOL then 1 else 0
  }

  lemma {:induction false} SearchActionsAreSearchCalls(log: seq<Action>, ds: seq<Decision>, calls: seq<ToolCall>)
    requires LogOf(log, ds) && Executed(ds, calls)
    ensures SearchActions(log) == SearchCount(calls)
  {
    if log != [] {
      var n := |log| - 1;
      assert log[n] == ActionOf(ds[n]) && calls[n] == CallOf(ds[n]);
      SearchActionsAreSearchCalls(log[..n], ds[..n], calls[..n]);
    }
  }

  /** While the process is up the log is the list of executed decisions; once it is down the log is final. */
  predicate DistinctInv(w: World, policy: Policy) {
    BudgetInv(w, policy) && LogInv(w, policy)
  }

  predicate LogInv(w: World, policy: Policy) {
    && (w.next == ExecuteReactTool ==> w.graph.agent.react.decisions != [])
    && (Untouched(w.next) ==> w.log == [])
    && (w.running && w.next == DecideReact ==> LogOf(w.log, w.graph.agent.react.decisions))
    && (w.running && w.next == ExecuteReactTool ==>
        && LogOf(w.log, Prior(w.graph.agent.react))
        && !HasDecision(Prior(w.graph.agent.react), ActionOf(Last(w.graph.agent.react))))
    && DistinctActions(w.log) && SearchActions(w.log) <= SearchBudget(policy)
  }

  lemma {:induction false} DistinctDecide(w: World, env: Env, crash: bool, registry: seq<ToolSpec>)
    requires DistinctInv(w, env.policy) && w.running && w.next == DecideReact
    requires BudgetInv(Commit(w, DecideNode(Sync(w.graph.agent), env, registry, w.graph.route), crash), env.policy)
    ensures DistinctInv(Commit(w, DecideNode(Sync(w.graph.agent), env, registry, w.graph.route), crash), env.policy)
  {
    var p := Sync(w.graph.agent);
    var r := DecideNode(p, env, registry, w.graph.route);
    DecideSatisfies(p, env, registry, w.graph.route);
    var w' := Commit(w, r, crash);
    assert w'.log == w.log;
    if w'.next == ExecuteReactTool {
      assert Prior(r.graph.agent.react) == p.react.decisions;
    }
  }

  lemma {:induction false} DistinctExecute(w: World, env: Env, crash: bool)
    requires DistinctInv(w, env.policy) && w.running && w.next == ExecuteReactTool
    requires BudgetInv(Commit(w, ExecuteNode(Sync(w.graph.agent), env, w.graph.route), crash), env.policy)
    ensures DistinctInv(Commit(w, ExecuteNode(Sync(w.graph.agent), env, w.graph.route), crash), env.policy)
  {
    var p := Sync(w.graph.agent);
    ExecuteSatisfies(p, env, w.graph.route);
    if !Affordable(p, Last(p.react), env.policy) {
      ExecuteAffords(p, env, w.graph.route);
    }
    DistinctCommit(w, ExecuteNode(p, env, w.graph.route), crash, env.policy);
  }

  lemma {:induction false} DistinctCommit(w: World, r: NodeResult, crash: bool, policy: Policy)
    requires LogInv(w, policy) && w.running && w.next == ExecuteReactTool
    requires ExecuteFacts(Sync(w.graph.agent), Last(w.graph.agent.react), r)
    requires Executed(Prior(w.graph.agent.react), w.graph.agent.toolCalls)
    requires r.effects != [] ==> Affordable(w.graph.agent, Last(w.graph.agent.react), policy)
    ensures LogInv(Commit(w, r, crash), policy)
  {
    var decisions := w.graph.agent.react.decisions;
    LogAfterExecute(w.log, decisions, w.graph.agent.toolCalls, r.effects, policy);
    LogOfCommit(w, r, crash, policy);
  }

  /** The log is extended whether or not the node commits; after a commit the loop goes on only with an effect. */
  lemma {:induction false} LogOfCommit(w: World, r: NodeResult, crash: bool, policy: Policy)
    requires w.running && w.next == ExecuteReactTool && w.graph.agent.react.decisions != []
    requires DistinctActions(w.log + r.effects) && SearchActions(w.log + r.effects) <= SearchBudget(policy)
    requires r.effects != [] ==> LogOf(w.log + r.effects, w.graph.agent.react.decisions)
    requires r.Committed? ==> Successor(ExecuteReactTool, r.graph) in {DecideReact, FinalizeReact, FinalizeConversation}
    requires r.Committed? && Successor(ExecuteReactTool, r.graph) == DecideReact ==>
               r.effects != [] && r.graph.agent.react.decisions == w.graph.agent.react.decisions
    ensures LogInv(Commit(w, r, crash), policy)
  {
  }

  lemma {:induction false} LogAfterExecute(log: seq<Action>, ds: seq<Decision>, calls: seq<ToolCall>, effects: seq<Action>,
                        policy: Policy)
    requires ds != []
    requires var done, d := ds[..|ds| - 1], ds[|ds| - 1];
             && LogOf(log, done) && Executed(done, calls) && !HasDecision(done, ActionOf(d))
             && (effects == [] || effects == [ActionOf(d)])
             && (effects != [] && d.toolName == KNOWLEDGE_SEARCH_TOOL ==> SearchCount(calls) < SearchBudget(policy))
    requires DistinctActions(log) && SearchActions(log) <= SearchBudget(policy)
    ensures DistinctActions(log + effects) && SearchActions(log + effects) <= SearchBudget(policy)
    ensures effects != [] ==> LogOf(log + effects, ds)
  {
    var done, d := ds[..|ds| - 1], ds[|ds| - 1];
    assert ds == done + [d];
    SearchActionsAreSearchCalls(log, done, calls);
    if effects == [] {
      assert log + effects == log;
    } else {
      LogGrows(log, done, d);
    }
  }

  lemma {:induction false} LogGrows(log: seq<Action>, ds: seq<Decision>, d: Decision)
    requires LogOf(log, ds) && DistinctActions(log) && !HasDecision(ds, ActionOf(d))
    requires forall i | 0 <= i < |ds| :: ds[i].kind == ToolDecision
    ensures LogOf(log + [ActionOf(d)], ds + [d]) && DistinctActions(log + [ActionOf(d)])
    ensures SearchActions(log + [ActionOf(d)])
            == SearchActions(log) + if d.toolName == KNOWLEDGE_SEARCH_TOOL then 1 else 0
  {
    assert (log + [ActionOf(d)])[..|log|] == log;
    forall i | 0 <= i < |log|
      ensures log[i] != ActionOf(d)
    {
      assert log[i] == ActionOf(ds[i]);
    }
  }

  lemma {:induction false} DistinctRun(w: World, cs: seq<Choice>, policy: Policy, registry: seq<ToolSpec>)
    requires DistinctInv(w, policy) && FreshChoices(cs) && UsesPolicy(cs, policy) && NoResume(cs)
    ensures DistinctInv(Run(w, cs, registry), policy)
    decreases |cs|
  {
    if cs != [] {
      DistinctStep(w, cs[0], policy, registry);
      DistinctRun(Step(w, cs[0], registry), cs[1..], policy, registry);
    }
  }

  lemma {:induction false} DistinctStep(w: World, c: Choice, policy: Policy, registry: seq<ToolSpec>)
    requires DistinctInv(w, policy) && FreshChoice(c) && c.Attempt? && c.env.policy == policy
    ensures DistinctInv(Step(w, c, registry), policy)
  {
    BudgetRun(w, [c], policy, registry);
    assert Run(w, [c], registry) == Run(Step(w, c, registry), [], registry) == Step(w, c, registry);
    if w.running && w.next == DecideReact {
      DistinctDecide(w, c.env, c.crash, registry);
    } else if w.running && w.next == ExecuteReactTool {
      DistinctExecute(w, c.env, c.crash);
    } else if w.running && w.next != End {
      DistinctQuiet(w, c.env, c.crash, registry);
    }
  }

  lemma {:induction false} DistinctQuiet(w: World, env: Env, crash: bool, registry: seq<ToolSpec>)
    requires DistinctInv(w, env.policy) && !InLoop(w.next) && w.next != End
    requires BudgetInv(Commit(w, RunNode(w.next, w.graph, env, registry), crash), env.policy)
    ensures DistinctInv(Commit(w, RunNode(w.next, w.graph, env, registry), crash), env.policy)
  {
    var r := RunNode(w.next, w.graph, env, registry);
    assert r.effects == [];
    assert Commit(w, r, crash).log == w.log;
  }

  /**
   * In a fresh run that is not resumed, the executed actions are pairwise distinct (tool, arguments) pairs and at most
   * `min(max_knowledge_searches, max_tool_calls)` of them are knowledge searches.
   */
  lemma {:induction false} ExecutedActionsAreDistinct(p: Payload, route: Route, cs: seq<Choice>, policy: Policy, registry: seq<ToolSpec>)
    requires FreshChoices(cs) && UsesPolicy(cs, policy) && NoResume(cs)
    ensures var w := Run(Start(p, route), cs, registry);
            DistinctActions(w.log) && SearchActions(w.log) <= SearchBudget(policy)
  {
    DistinctRun(Start(p, route), cs, policy, registry);
  }

  // ---------------------------------------------------------------- the committed calls

  predicate DistinctDecisions(ds: seq<Decision>) {
    forall i, j | 0 <= i < j < |ds| :: ActionOf(ds[i]) != ActionOf(ds[j])
  }

  function CalledAction(call: ToolCall): Action {
    Action(call.name, call.arguments)
  }

  predicate DistinctCalls(calls: seq<ToolCall>) {
    forall i, j | 0 <= i < j < |calls| :: CalledAction(calls[i]) != CalledAction(calls[j])
  }

  /** The decisions of the loop are distinct, and so are the calls of a run that took the complex route. */
  predicate CallsInv(w: World) {
    && FreshInv(w) && (w.next == ExecuteDirect ==> w.graph.route.kind != Complex)
    && (InLoop(w.next) ==> DistinctDecisions(w.graph.agent.react.decisions))
    && (OnReactPath(w) ==> DistinctCalls(w.graph.agent.toolCalls))
  }

  lemma {:induction false} CallsOfDistinctDecisions(ds: seq<Decision>, calls: seq<ToolCall>)
    requires Executed(ds, calls) && DistinctDecisions(ds)
    ensures DistinctCalls(calls)
  {
    forall i | 0 <= i < |ds|
      ensures CalledAction(calls[i]) == ActionOf(ds[i])
    {
      assert calls[i] == CallOf(ds[i]);
    }
  }

  lemma {:induction false} NewDecisionIsDistinct(ds: seq<Decision>, d: Decision)
    requires DistinctDecisions(ds) && !Repeats(ds, d) && d.kind == ToolDecision
    requires forall i | 0 <= i < |ds| :: ds[i].kind == ToolDecision
    ensures DistinctDecisions(ds + [d])
  {
  }

  lemma {:induction false} CallsDecide(w: World, env: Env, crash: bool, registry: seq<ToolSpec>)
    requires CallsInv(w) && w.running && w.next == DecideReact
    ensures CallsInv(Commit(w, DecideNode(Sync(w.graph.agent), env, registry, w.graph.route), crash))
  {
    var p := Sync(w.graph.agent);
    var r := DecideNode(p, env, registry, w.graph.route);
    FreshDecide(w, env, crash, registry);
    DecideSatisfies(p, env, registry, w.graph.route);
    CallsDecided(w, p, env, r, crash);
  }

  lemma {:induction false} CallsDecided(w: World, p: Payload, env: Env, r: NodeResult, crash: bool)
    requires CallsInv(w) && w.running && w.next == DecideReact && p == Sync(w.graph.agent) && DecideFacts(p, env, r)
    requires FreshInv(Commit(w, r, crash))
    ensures CallsInv(Commit(w, r, crash))
  {
    if r.Committed? && Successor(DecideReact, r.graph) == ExecuteReactTool {
      NewDecisionIsDistinct(p.react.decisions, env.decision.value);
    }
  }

  lemma {:induction false} CallsExecute(w: World, env: Env, crash: bool)
    requires CallsInv(w) && w.running && w.next == ExecuteReactTool
    ensures CallsInv(Commit(w, ExecuteNode(Sync(w.graph.agent), env, w.graph.route), crash))
  {
    var p := Sync(w.graph.agent);
    FreshExecute(w, env, crash);
    ExecuteSatisfies(p, env, w.graph.route);
    CallsExecuted(w, ExecuteNode(p, env, w.graph.route), crash);
  }

  lemma {:induction false} CallsExecuted(w: World, r: NodeResult, crash: bool)
    requires CallsInv(w) && w.running && w.next == ExecuteReactTool && FreshInv(Commit(w, r, crash))
    requires ExecuteFacts(Sync(w.graph.agent), Last(w.graph.agent.react), r)
    ensures CallsInv(Commit(w, r, crash))
  {
    var a := w.graph.agent;
    var d := Last(a.react);
    assert a.react.decisions == Prior(a.react) + [d];
    CallsOfDistinctDecisions(a.react.decisions, a.toolCalls + [CallOf(d)]);
  }

  lemma {:induction false} CallsQuiet(w: World, env: Env, crash: bool, registry: seq<ToolSpec>)
    requires CallsInv(w) && w.running && !InLoop(w.next) && w.next != End
    requires FreshInv(Commit(w, RunNode(w.next, w.graph, env, registry), crash))
    ensures CallsInv(Commit(w, RunNode(w.next, w.graph, env, registry), crash))
  {
    if w.next == FinalizeReact {
      FinalizeKeepsCalls(Sync(w.graph.agent), env, w.graph.route);
    }
  }

  lemma {:induction false} CallsRun(w: World, cs: seq<Choice>, registry: seq<ToolSpec>)
    requires CallsInv(w) && FreshChoices(cs)
    ensures CallsInv(Run(w, cs, registry))
    decreases |cs|
  {
    if cs != [] {
      var c := cs[0];
      FreshStep(w, c, registry);
      if c.Attempt? && w.running {
        if w.next == DecideReact {
          CallsDecide(w, c.env, c.crash, registry);
        } else if w.next == ExecuteReactTool {
          CallsExecute(w, c.env, c.crash);
        } else if w.next != End {
          CallsQuiet(w, c.env, c.crash, registry);
        }
      }
      CallsRun(Step(w, c, registry), cs[1..], registry);
    }
  }

  /**
   * Over every fresh run, with any policies, failures, crashes and resumes, the committed calls of the ReAct path are
   * pairwise distinct (tool, arguments) pairs: the repeat guard outlives the process.
   */
  lemma {:induction false} CommittedCallsAreDistinct(p: Payload, route: Route, cs: seq<Choice>, registry: seq<ToolSpec>)
    requires FreshChoices(cs)
    ensures var w := Run(Start(p, route), cs, registry);
            OnReactPath(w) ==> DistinctCalls(w.graph.agent.toolCalls)
  {
    CallsRun(Start(p, route), cs, registry);
  }

  // ---------------------------------------------------------------- termination

  function Minus(a: nat, b: nat): nat {
    if a >= b then a - b else 0
  }

  /** The rounds that both budgets still allow. */
  function RoundsLeft(p: Payload, calls: nat, policy: Policy): nat {
    Min(Minus(policy.maxReactIterations, p.react.iteration), Minus(policy.maxToolCalls, calls))
  }

  /** An upper bound on the node visits that are still to come. */
  function Rank(w: World, policy: Policy): nat {
    var p := w.graph.agent;
    var m := Min(policy.maxReactIterations, policy.maxToolCalls);
    match w.next
    case ResolveContext => 7 + 2 * m
    case PrepareConversation => 6 + 2 * m
    case RunCollaboration => 5 + 2 * m
    case RouteRequest => 4 + 2 * m
    case StartReactNode => 3 + 2 * m
    case DecideReact => 2 + 2 * RoundsLeft(p, |p.toolCalls|, policy)
    case ExecuteReactTool => 3 + 2 * RoundsLeft(p, |p.toolCalls| + 1, policy)
    case FinalizeReact => 2
    case ExecuteDirect => 2
    case FinalizeConversation => 1
    case End => 0
  }

  /** A decision is only asked for while both budgets leave a round. */
  predicate RankInv(w: World, policy: Policy) {
    var p := w.graph.agent;
    && (w.next == RouteRequest || w.next == StartReactNode ==> p.toolCalls == [])
    && (w.next == DecideReact ==>
        p.react.status != LimitReached && |p.toolCalls| < policy.maxToolCalls
        && p.react.iteration < policy.maxReactIterations)
    && (w.next == ExecuteReactTool ==> p.react.status != LimitReached && EndsWithTool(p.react))
  }

  lemma {:induction false} RankDecide(w: World, env: Env, registry: seq<ToolSpec>)
    requires RankInv(w, env.policy) && w.next == DecideReact
    ensures var r := DecideNode(Sync(w.graph.agent), env, registry, w.graph.route);
            var w' := Commit(w, r, false);
            RankInv(w', env.policy) && (r.Committed? ==> Rank(w', env.policy) < Rank(w, env.policy))
  {
    DecideSatisfies(Sync(w.graph.agent), env, registry, w.graph.route);
  }

  lemma {:induction false} ContinuesWithinBudgets(p: Payload, env: Env, route: Route)
    requires p.react.lastDecision.Some? && p.react.lastDecision.value.kind == ToolDecision
    requires p.react.status != LimitReached
    ensures var r := ExecuteNode(p, env, route);
            r.Committed? && Successor(ExecuteReactTool, r.graph) == DecideReact ==>
              && |r.graph.agent.toolCalls| < env.policy.maxToolCalls
              && r.graph.agent.react.iteration < env.policy.maxReactIterations
  {
    var d := p.react.lastDecision.value;
    match env.tool
    case ToolReturns(result, gate) =>
      AfterToolFacts(p, d, result);
      FinishSatisfies(AfterTool(p, d, result), d, gate, env, route);
    case NeedsConfirmation => AfterConfirmationFacts(p, d);
    case _ =>
  }

  lemma {:induction false} RankExecute(w: World, env: Env)
    requires RankInv(w, env.policy) && w.next == ExecuteReactTool
    ensures var r := ExecuteNode(Sync(w.graph.agent), env, w.graph.route);
            var w' := Commit(w, r, false);
            RankInv(w', env.policy) && (r.Committed? ==> Rank(w', env.policy) < Rank(w, env.policy))
  {
    var p := Sync(w.graph.agent);
    ExecuteSatisfies(p, env, w.graph.route);
    ContinuesWithinBudgets(p, env, w.graph.route);
    RankExecuteFacts(w, ExecuteNode(p, env, w.graph.route), env.policy);
  }

  lemma {:induction false} RankExecuteFacts(w: World, r: NodeResult, policy: Policy)
    requires RankInv(w, policy) && w.next == ExecuteReactTool
    requires ExecuteFacts(Sync(w.graph.agent), Last(w.graph.agent.react), r)
    requires r.Committed? && Successor(ExecuteReactTool, r.graph) == DecideReact ==>
               && |r.graph.agent.toolCalls| < policy.maxToolCalls
               && r.graph.agent.react.iteration < policy.maxReactIterations
    ensures var w' := Commit(w, r, false);
            RankInv(w', policy) && (r.Committed? ==> Rank(w', policy) < Rank(w, policy))
  {
  }

  lemma {:induction false} RankStart(w: World, env: Env, registry: seq<ToolSpec>)
    requires RankInv(w, env.policy) && w.next == StartReactNode
    ensures var w' := Commit(w, RunNode(w.next, w.graph, env, registry), false);
            RankInv(w', env.policy) && Rank(w', env.policy) < Rank(w, env.policy)
  {
  }

  lemma {:induction false} RankRoute(w: World, env: Env)
    requires RankInv(w, env.policy) && w.next == RouteRequest
    ensures var r := RouteNode(Sync(w.graph.agent), env);
            var w' := Commit(w, r, false);
            RankInv(w', env.policy) && (r.Committed? ==> Rank(w', env.policy) < Rank(w, env.policy))
  {
  }

  lemma {:induction false} RankOther(w: World, env: Env, registry: seq<ToolSpec>)
    requires RankInv(w, env.policy) && !InLoop(w.next) && w.next !in {StartReactNode, RouteRequest, End}
    requires env.prepared.Some? ==> Fresh(env.prepared.value)
    ensures var r := RunNode(w.next, w.graph, env, registry);
            var w' := Commit(w, r, false);
            RankInv(w', env.policy) && (r.Committed? ==> Rank(w', env.policy) < Rank(w, env.policy))
  {
    var r := RunNode(w.next, w.graph, env, registry);
    if r.Committed? && w.next != RunCollaboration {
      assert Successor(w.next, r.graph) in {PrepareConversation, RunCollaboration, FinalizeConversation, End};
    }
  }

  /** The visits still possible; a stopped run has already spent the visit that stopped it. */
  function Potential(w: World, policy: Policy): int {
    if w.running then Rank(w, policy) else Rank(w, policy) - 1
  }

  function Visits(w: World, cs: seq<Choice>, registry: seq<ToolSpec>): nat
    decreases |cs|
  {
    if cs == [] then 0
    else (if cs[0].Attempt? && w.running && w.next != End then 1 else 0)
         + Visits(Step(w, cs[0], registry), cs[1..], registry)
  }

  function Resumes(cs: seq<Choice>): nat {
    if cs == [] then 0 else (if cs[0].Resume? then 1 else 0) + Resumes(cs[1..])
  }

  lemma {:induction false} PotentialStep(w: World, c: Choice, policy: Policy, registry: seq<ToolSpec>)
    requires RankInv(w, policy) && FreshChoice(c) && (c.Attempt? ==> c.env.policy == policy)
    ensures var w' := Step(w, c, registry);
            && RankInv(w', policy)
            && Potential(w', policy) + (if c.Attempt? && w.running && w.next != End then 1 else 0)
               <= Potential(w, policy) + (if c.Resume? then 1 else 0)
  {
    if c.Attempt? && w.running && w.next != End {
      if w.next == DecideReact {
        RankDecide(w, c.env, registry);
      } else if w.next == ExecuteReactTool {
        RankExecute(w, c.env);
      } else if w.next == StartReactNode {
        RankStart(w, c.env, registry);
      } else if w.next == RouteRequest {
        RankRoute(w, c.env);
      } else {
        RankOther(w, c.env, registry);
      }
      PotentialCommit(w, RunNode(w.next, w.graph, c.env, registry), c.crash, policy);
    }
  }

  lemma {:induction false} PotentialCommit(w: World, r: NodeResult, crash: bool, policy: Policy)
    requires RankInv(w, policy) && w.running && w.next != End
    requires RankInv(Commit(w, r, false), policy)
    requires r.Committed? ==> Rank(Commit(w, r, false), policy) < Rank(w, policy)
    ensures RankInv(Commit(w, r, crash), policy)
    ensures Potential(Commit(w, r, crash), policy) + 1 <= Potential(w, policy)
  {
    var stopped := w.(running := false, log := w.log + r.effects, emitted := w.emitted + r.events);
    assert Rank(stopped, policy) == Rank(w, policy);
  }

  lemma {:induction false} PotentialRun(w: World, cs: seq<Choice>, policy: Policy, registry: seq<ToolSpec>)
    requires RankInv(w, policy) && FreshChoices(cs) && UsesPolicy(cs, policy)
    ensures Visits(w, cs, registry) + Potential(Run(w, cs, registry), policy) <= Potential(w, policy) + Resumes(cs)
    decreases |cs|
  {
    if cs != [] {
      PotentialStep(w, cs[0], policy, registry);
      PotentialRun(Step(w, cs[0], registry), cs[1..], policy, registry);
    }
  }

  /** A fresh run visits at most `7 + 2 * min(max_react_iterations, max_tool_calls)` nodes, plus one for every resume. */
  lemma {:induction false} VisitsAreBounded(p: Payload, route: Route, cs: seq<Choice>, policy: Policy, registry: seq<ToolSpec>)
    requires FreshChoices(cs) && UsesPolicy(cs, policy)
    ensures Visits(Start(p, route), cs, registry)
            <= 7 + 2 * Min(policy.maxReactIterations, policy.maxToolCalls) + Resumes(cs)
  {
    var w := Run(Start(p, route), cs, registry);
    PotentialRun(Start(p, route), cs, policy, registry);
    RunningOrUnfinished(Start(p, route), cs, registry);
  }

  lemma {:induction false} RunningOrUnfinished(w: World, cs: seq<Choice>, registry: seq<ToolSpec>)
    requires w.running || w.next != End
    ensures Run(w, cs, registry).running || Run(w, cs, registry).next != End
    decreases |cs|
  {
    if cs != [] {
      RunningOrUnfinished(Step(w, cs[0], registry), cs[1..], registry);
    }
  }

  lemma {:induction false} EveryAttemptVisits(w: World, cs: seq<Choice>, registry: seq<ToolSpec>)
    requires NoResume(cs)
    ensures var w' := Run(w, cs, registry);
            w'.running && w'.next != End ==> Visits(w, cs, registry) == |cs|
    decreases |cs|
  {
    if cs != [] {
      EveryAttemptVisits(Step(w, cs[0], registry), cs[1..], registry);
      if !(w.running && w.next != End) {
        assert Step(w, cs[0], registry) == w;
        StoppedStaysStopped(w, cs[1..], registry);
      }
    }
  }

  lemma {:induction false} StoppedStaysStopped(w: World, cs: seq<Choice>, registry: seq<ToolSpec>)
    requires NoResume(cs) && !(w.running && w.next != End)
    ensures Run(w, cs, registry) == w
    decreases |cs|
  {
    if cs != [] {
      StoppedStaysStopped(w, cs[1..], registry);
    }
  }

  /** So a fresh run ends for every sequence of decisions, tool results and failures: it finishes or it stops. */
  lemma {:induction false} RunsTerminate(p: Payload, route: Route, cs: seq<Choice>, policy: Policy, registry: seq<ToolSpec>)
    requires FreshChoices(cs) && UsesPolicy(cs, policy) && NoResume(cs)
    requires |cs| > 7 + 2 * Min(policy.maxReactIterations, policy.maxToolCalls)
    ensures var w := Run(Start(p, route), cs, registry);
            w.next == End || !w.running
  {
    VisitsAreBounded(p, route, cs, policy, registry);
    EveryAttemptVisits(Start(p, route), cs, registry);
    NoResumeCountsZero(cs);
  }

  lemma {:induction false} NoResumeCountsZero(cs: seq<Choice>)
    requires NoResume(cs)
    ensures Resumes(cs) == 0
  {
    if cs != [] {
      NoResumeCountsZero(cs[1..]);
    }
  }
}

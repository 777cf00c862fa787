/** The limit event of the ReAct loop: when it is the last word of the loop, and when a crash makes a run say it again. */
module ReadingLimits {
  import opened Wrappers
  import opened AgentStates
  import opened ReadingGraphs
  import opened ReadingRuns

  // ---------------------------------------------------------------- the events of the nodes

  predicate NoLimit(events: seq<Event>) {
    forall i | 0 <= i < |events| :: !events[i].LimitEvent?
  }

  /** A limit event or a decision. */
  predicate IsLoopEvent(e: Event) {
    e.LimitEvent? || e == DecisionReady
  }

  predicate Silent(events: seq<Event>) {
    forall i | 0 <= i < |events| :: !IsLoopEvent(events[i])
  }

  /** After a limit event there is neither another limit event nor another decision. */
  predicate LimitEnds(events: seq<Event>) {
    forall i, j | 0 <= i < j < |events| && events[i].LimitEvent? :: !IsLoopEvent(events[j])
  }

  lemma {:induction false} DecideEvents(p: Payload, env: Env, registry: seq<ToolSpec>, route: Route)
    ensures var r := DecideNode(p, env, registry, route);
            && LimitEnds(r.events)
            && (r.Raised? ==> r.events == [])
            && (r.Committed? && Successor(DecideReact, r.graph) == ExecuteReactTool ==> NoLimit(r.events))
  {
  }

  lemma {:induction false} FinishEvents(p: Payload, d: Decision, gate: GateAction, env: Env, route: Route)
    ensures var r := FinishNode(p, d, gate, env, route);
            && LimitEnds(r.events)
            && (r.Raised? ==> r.events == [])
            && (r.Committed? && Successor(ExecuteReactTool, r.graph) == DecideReact ==> NoLimit(r.events))
  {
  }

  lemma {:induction false} ExecuteEvents(p: Payload, env: Env, route: Route)
    ensures var r := ExecuteNode(p, env, route);
            && LimitEnds(r.events)
            && (r.Raised? ==> r.events == [])
            && (r.Committed? && Successor(ExecuteReactTool, r.graph) == DecideReact ==> NoLimit(r.events))
  {
    if p.react.lastDecision.Some? {
      var d := p.react.lastDecision.value;
      match env.tool
      case ToolReturns(result, gate) => FinishEvents(AfterTool(p, d, result), d, gate, env, route);
      case NeedsConfirmation => AfterConfirmationFacts(p, d);
      case _ =>
    }
  }

  lemma {:induction false} OtherEvents(w: World, env: Env, registry: seq<ToolSpec>)
    requires !InLoop(w.next)
    ensures Silent(RunNode(w.next, w.graph, env, registry).events)
  {
  }

  /** What one node emits: a limit event is its last loop event, it comes with a result, and it ends the loop. */
  lemma {:induction false} NodeEvents(w: World, env: Env, registry: seq<ToolSpec>)
    ensures var r := RunNode(w.next, w.graph, env, registry);
            && LimitEnds(r.events)
            && (InLoop(w.next) && r.Raised? ==> r.events == [])
            && (!InLoop(w.next) ==> Silent(r.events))
            && (r.Committed? && InLoop(w.next) && InLoop(Successor(w.next, r.graph)) ==> NoLimit(r.events))
  {
    var p := Sync(w.graph.agent);
    if w.next == DecideReact {
      DecideEvents(p, env, registry, w.graph.route);
      DecideGoesOn(p, env, registry, w.graph.route);
    } else if w.next == ExecuteReactTool {
      ExecuteEvents(p, env, w.graph.route);
      ExecuteGoesOn(p, env, w.graph.route);
    } else {
      OtherEvents(w, env, registry);
    }
  }

  lemma {:induction false} DecideGoesOn(p: Payload, env: Env, registry: seq<ToolSpec>, route: Route)
    ensures var r := DecideNode(p, env, registry, route); r.Committed? ==> Successor(DecideReact, r.graph) != DecideReact
  {
  }

  lemma {:induction false} ExecuteGoesOn(p: Payload, env: Env, route: Route)
    ensures var r := ExecuteNode(p, env, route); r.Committed? ==> Successor(ExecuteReactTool, r.graph) != ExecuteReactTool
  {
  }

  // ---------------------------------------------------------------- the events of a run

  predicate Visits(w: World, c: Choice) {
    c.Attempt? && w.running && w.next != End
  }

  /** The events that a choice adds. */
  function Added(w: World, c: Choice, registry: seq<ToolSpec>): seq<Event> {
    if Visits(w, c) then RunNode(w.next, w.graph, c.env, registry).events else []
  }

  lemma {:induction false} StepAdds(w: World, c: Choice, registry: seq<ToolSpec>)
    ensures Step(w, c, registry).emitted == w.emitted + Added(w, c, registry)
  {
  }

  /** A crash after the node has emitted a limit event, before the commit. */
  predicate LosesLimit(w: World, c: Choice, registry: seq<ToolSpec>) {
    Visits(w, c) && c.crash && !NoLimit(Added(w, c, registry))
  }

  /** No attempt of the run emits a limit event or a decision. */
  predicate StaysSilent(w: World, cs: seq<Choice>, registry: seq<ToolSpec>)
    decreases |cs|
  {
    cs == [] || (Silent(Added(w, cs[0], registry)) && StaysSilent(Step(w, cs[0], registry), cs[1..], registry))
  }

  /** No crash loses a limit event to an attempt that emits a limit event or a decision later. */
  predicate LimitsKept(w: World, cs: seq<Choice>, registry: seq<ToolSpec>)
    decreases |cs|
  {
    cs == [] ||
    var w' := Step(w, cs[0], registry);
    (LosesLimit(w, cs[0], registry) ==> StaysSilent(w', cs[1..], registry)) && LimitsKept(w', cs[1..], registry)
  }

  /** While the loop can go on, no limit event has been emitted. */
  predicate LimitInv(w: World) {
    LimitEnds(w.emitted) && (Untouched(w.next) || InLoop(w.next) ==> NoLimit(w.emitted))
  }

  lemma {:induction false} MoreSilence(events: seq<Event>, more: seq<Event>)
    requires LimitEnds(events) && Silent(more)
    ensures LimitEnds(events + more) && (NoLimit(events) ==> NoLimit(events + more))
  {
  }

  lemma {:induction false} FirstLimit(events: seq<Event>, more: seq<Event>)
    requires NoLimit(events) && LimitEnds(more)
    ensures LimitEnds(events + more) && (NoLimit(more) ==> NoLimit(events + more))
  {
  }

  lemma {:induction false} LimitInvStep(w: World, c: Choice, registry: seq<ToolSpec>)
    requires LimitInv(w) && !LosesLimit(w, c, registry)
    ensures LimitInv(Step(w, c, registry))
  {
    if Visits(w, c) {
      var r := RunNode(w.next, w.graph, c.env, registry);
      NodeEvents(w, c.env, registry);
      if InLoop(w.next) {
        FirstLimit(w.emitted, r.events);
      } else {
        MoreSilence(w.emitted, r.events);
        StaysOutside(w, c.env, registry);
      }
    }
  }

  /** The loop is only entered from nodes before it. */
  lemma {:induction false} StaysOutside(w: World, env: Env, registry: seq<ToolSpec>)
    requires !InLoop(w.next)
    ensures var r := RunNode(w.next, w.graph, env, registry);
            r.Committed? && !Untouched(w.next) ==>
              var n := Successor(w.next, r.graph); !InLoop(n) && !Untouched(n)
  {
  }

  lemma {:induction false} SilenceKeepsLimitEnds(w: World, cs: seq<Choice>, registry: seq<ToolSpec>)
    requires LimitEnds(w.emitted) && StaysSilent(w, cs, registry)
    ensures LimitEnds(Run(w, cs, registry).emitted)
    decreases |cs|
  {
    if cs != [] {
      StepAdds(w, cs[0], registry);
      MoreSilence(w.emitted, Added(w, cs[0], registry));
      SilenceKeepsLimitEnds(Step(w, cs[0], registry), cs[1..], registry);
    }
  }

  lemma {:induction false} KeptLimitsEnd(w: World, cs: seq<Choice>, registry: seq<ToolSpec>)
    requires LimitInv(w) && LimitsKept(w, cs, registry)
    ensures LimitEnds(Run(w, cs, registry).emitted)
    decreases |cs|
  {
    if cs != [] {
      var w' := Step(w, cs[0], registry);
      if LosesLimit(w, cs[0], registry) {
        NodeEvents(w, cs[0].env, registry);
        FirstLimit(w.emitted, Added(w, cs[0], registry));
        StepAdds(w, cs[0], registry);
        SilenceKeepsLimitEnds(w', cs[1..], registry);
      } else {
        LimitInvStep(w, cs[0], registry);
        KeptLimitsEnd(w', cs[1..], registry);
      }
    }
  }

  lemma {:induction false} EmittedGrows(w: World, cs: seq<Choice>, registry: seq<ToolSpec>)
    ensures w.emitted <= Run(w, cs, registry).emitted
    decreases |cs|
  {
    if cs != [] {
      StepAdds(w, cs[0], registry);
      EmittedGrows(Step(w, cs[0], registry), cs[1..], registry);
    }
  }

  /** A loop event after a limit event. */
  lemma {:induction false} LimitDoesNotEnd(events: seq<Event>, more: seq<Event>)
    requires !NoLimit(events) && !Silent(more)
    ensures !LimitEnds(events + more)
  {
    var i :| 0 <= i < |events| && events[i].LimitEvent?;
    var j :| 0 <= j < |more| && IsLoopEvent(more[j]);
    assert (events + more)[i] == events[i] && (events + more)[|events| + j] == more[j];
  }

  lemma {:induction false} LongerDoesNotEnd(events: seq<Event>, longer: seq<Event>)
    requires !LimitEnds(events) && events <= longer
    ensures !LimitEnds(longer)
  {
    var i, j :| 0 <= i < j < |events| && events[i].LimitEvent? && IsLoopEvent(events[j]);
    assert longer[i] == events[i] && longer[j] == events[j];
  }

  lemma {:induction false} NoiseBreaksLimitEnds(w: World, cs: seq<Choice>, registry: seq<ToolSpec>)
    requires !NoLimit(w.emitted) && !StaysSilent(w, cs, registry)
    ensures !LimitEnds(Run(w, cs, registry).emitted)
    decreases |cs|
  {
    var w' := Step(w, cs[0], registry);
    StepAdds(w, cs[0], registry);
    if Silent(Added(w, cs[0], registry)) {
      StillLimited(w.emitted, w'.emitted);
      NoiseBreaksLimitEnds(w', cs[1..], registry);
    } else {
      LimitDoesNotEnd(w.emitted, Added(w, cs[0], registry));
      EmittedGrows(w', cs[1..], registry);
      LongerDoesNotEnd(w'.emitted, Run(w', cs[1..], registry).emitted);
    }
  }

  lemma {:induction false} StillLimited(events: seq<Event>, longer: seq<Event>)
    requires !NoLimit(events) && events <= longer
    ensures !NoLimit(longer)
  {
    var i :| 0 <= i < |events| && events[i].LimitEvent?;
    assert longer[i] == events[i];
  }

  lemma {:induction false} LostLimitsDoNotEnd(w: World, cs: seq<Choice>, registry: seq<ToolSpec>)
    requires !LimitsKept(w, cs, registry)
    ensures !LimitEnds(Run(w, cs, registry).emitted)
    decreases |cs|
  {
    var w' := Step(w, cs[0], registry);
    if LosesLimit(w, cs[0], registry) && !StaysSilent(w', cs[1..], registry) {
      StepAdds(w, cs[0], registry);
      LimitIsEmitted(w.emitted, Added(w, cs[0], registry));
      NoiseBreaksLimitEnds(w', cs[1..], registry);
    } else {
      LostLimitsDoNotEnd(w', cs[1..], registry);
    }
  }

  lemma {:induction false} LimitIsEmitted(events: seq<Event>, more: seq<Event>)
    requires !NoLimit(more)
    ensures !NoLimit(events + more)
  {
    var i :| 0 <= i < |more| && more[i].LimitEvent?;
    assert (events + more)[|events| + i] == more[i];
  }

  /**
   * Over every run, with any failures, crashes, resumes and policies: the limit event is emitted at most once and no
   * decision follows it, exactly if no node that crashed after emitting it is followed by an attempt that emits a limit
   * event or a decision.
   */
  lemma {:induction false} LimitEventEndsTheDecisions(p: Payload, route: Route, cs: seq<Choice>, registry: seq<ToolSpec>)
    ensures LimitEnds(Run(Start(p, route), cs, registry).emitted) <==> LimitsKept(Start(p, route), cs, registry)
  {
    if LimitsKept(Start(p, route), cs, registry) {
      KeptLimitsEnd(Start(p, route), cs, registry);
    } else {
      LostLimitsDoNotEnd(Start(p, route), cs, registry);
    }
  }

  predicate NoCrash(cs: seq<Choice>) {
    forall i | 0 <= i < |cs| && cs[i].Attempt? :: !cs[i].crash
  }

  lemma {:induction false} NothingIsLost(w: World, cs: seq<Choice>, registry: seq<ToolSpec>)
    requires NoCrash(cs)
    ensures LimitsKept(w, cs, registry)
    decreases |cs|
  {
    if cs != [] {
      NothingIsLost(Step(w, cs[0], registry), cs[1..], registry);
    }
  }

  /** So without crashes it holds over every run. */
  lemma {:induction false} WithoutCrashesTheLimitEnds(p: Payload, route: Route, cs: seq<Choice>, registry: seq<ToolSpec>)
    requires NoCrash(cs)
    ensures LimitEnds(Run(Start(p, route), cs, registry).emitted)
  {
    NothingIsLost(Start(p, route), cs, registry);
    LimitEventEndsTheDecisions(p, route, cs, registry);
  }

  // ---------------------------------------------------------------- when a lost limit comes back

  /** At this node the tool runs, and asks for a confirmation instead of a result. */
  predicate AsksForConfirmation(next: Node, g: GraphState, env: Env, registry: seq<ToolSpec>) {
    var r := RunNode(next, g, env, registry);
    next == ExecuteReactTool && r.Committed? && r.graph.agent.react.status == ReactConfirmation
  }

  lemma {:induction false} DecisionsAreAnnounced(p: Payload, env: Env, registry: seq<ToolSpec>, route: Route)
    ensures var r := DecideNode(p, env, registry, route); r.Committed? && env.sink ==> !Silent(r.events)
  {
    var r := DecideNode(p, env, registry, route);
    if r.Committed? && env.sink {
      assert IsLoopEvent(r.events[0]);
    }
  }

  /** A step that used a budget up uses it up again, whatever the tool returns. */
  lemma {:induction false} FinishRepeats(p: Payload, q: Payload, d: Decision, a: GateAction, env: Env, b: GateAction,
                                         again: Env, route: Route)
    requires p.react == q.react && p.toolCalls == q.toolCalls && p.responseState.status == q.responseState.status
    requires !NoLimit(FinishNode(p, d, a, env, route).events) && again.sink && again.policy == env.policy
    ensures var r := FinishNode(q, d, b, again, route);
            r.Committed? ==> !Silent(r.events) && r.graph.agent.react.status == LimitReached
  {
    var r := FinishNode(q, d, b, again, route);
    if r.Committed? {
      assert IsLoopEvent(r.events[1]);
    }
  }

  lemma {:induction false} LimitIsAnnounced(p: Payload, route: Route, reason: LimitReason)
    ensures var r := Committed(GraphState(Limit(p), route), [], Emit(true, [LimitEvent(reason)]));
            !Silent(r.events) && r.graph.agent.react.status == LimitReached
  {
    assert IsLoopEvent([LimitEvent(reason)][0]);
  }

  lemma {:induction false} ExecuteRepeats(p: Payload, env: Env, again: Env, route: Route)
    requires !NoLimit(ExecuteNode(p, env, route).events) && again.sink && again.policy == env.policy
    ensures var r := ExecuteNode(p, again, route);
            r.Committed? ==> (Silent(r.events) <==> r.graph.agent.react.status == ReactConfirmation)
  {
    var d := p.react.lastDecision.value;
    LimitIsAnnounced(p, route, ToolCallBudget);
    LimitIsAnnounced(p, route, KnowledgeSearchBudget);
    match again.tool
    case ToolReturns(result, gate) =>
      AfterToolFacts(p, d, result);
      if env.tool.ToolReturns? {
        AfterToolFacts(p, d, env.tool.result);
        AfterToolResponse(p, d, result, env.tool.result);
        if !NoLimit(FinishNode(AfterTool(p, d, env.tool.result), d, env.tool.gate, env, route).events) {
          FinishRepeats(AfterTool(p, d, env.tool.result), AfterTool(p, d, result), d, env.tool.gate, env, gate, again, route);
        }
      }
    case NeedsConfirmation => AfterConfirmationFacts(p, d);
    case _ =>
  }

  lemma {:induction false} AfterToolResponse(p: Payload, d: Decision, a: ToolResult, b: ToolResult)
    ensures AfterTool(p, d, a).responseState.status == AfterTool(p, d, b).responseState.status
  {
    AfterToolFacts(p, d, a);
    AfterToolFacts(p, d, b);
  }

  /**
   * A node that has emitted a limit event and crashed says something again whenever it is attempted later with the same
   * policy, gets a result and can emit: a limit event or a decision. The one exception is a tool that now asks for a
   * confirmation, which ends the loop without an event.
   */
  lemma {:induction false} LostLimitIsRepeated(next: Node, g: GraphState, env: Env, again: Env, registry: seq<ToolSpec>)
    requires !NoLimit(RunNode(next, g, env, registry).events)
    requires again.sink && again.policy == env.policy && RunNode(next, g, again, registry).Committed?
    ensures Silent(RunNode(next, g, again, registry).events) <==> AsksForConfirmation(next, g, again, registry)
  {
    var p := Sync(g.agent);
    if next == DecideReact {
      DecisionsAreAnnounced(p, again, registry, g.route);
    } else if next == ExecuteReactTool {
      ExecuteRepeats(p, env, again, g.route);
    } else {
      OtherEvents(World(next, g, true, [], []), env, registry);
    }
  }

  /** Resumes, and attempts that crash: nothing is committed. */
  predicate NothingCommitted(cs: seq<Choice>) {
    forall i | 0 <= i < |cs| && cs[i].Attempt? :: cs[i].crash
  }

  lemma {:induction false} DurablePairStays(w: World, cs: seq<Choice>, registry: seq<ToolSpec>)
    requires NothingCommitted(cs)
    ensures var w' := Run(w, cs, registry); w'.next == w.next && w'.graph == w.graph
    decreases |cs|
  {
    if cs != [] {
      DurablePairStays(Step(w, cs[0], registry), cs[1..], registry);
    }
  }

  /**
   * In terms of the choices: a crash that loses a limit event, then crashes and resumes, and then an attempt with a sink
   * and the same policy that is committed. The limit event is the last word exactly if the attempts in between are silent
   * and the last one asks for a confirmation.
   */
  lemma {:induction false} LostLimitComesBack(w: World, env: Env, between: seq<Choice>, again: Env, registry: seq<ToolSpec>)
    requires w.running && LimitInv(w) && LosesLimit(w, Attempt(env, true), registry)
    requires NothingCommitted(between) && again.sink && again.policy == env.policy
    requires Run(Step(w, Attempt(env, true), registry), between, registry).running
    requires RunNode(w.next, w.graph, again, registry).Committed?
    ensures LimitEnds(Run(w, [Attempt(env, true)] + between + [Attempt(again, false)], registry).emitted)
            <==> StaysSilent(Step(w, Attempt(env, true), registry), between, registry)
                 && AsksForConfirmation(w.next, w.graph, again, registry)
  {
    var w1, last := Step(w, Attempt(env, true), registry), Attempt(again, false);
    LostLimit(w, env, registry);
    DurablePairStays(w1, between, registry);
    LostLimitIsRepeated(w.next, w.graph, env, again, registry);
    AfterLostLimit(w1, between, last, registry);
    RunOne(w, [Attempt(env, true)] + between + [last], registry);
    assert ([Attempt(env, true)] + between + [last])[1..] == between + [last];
    assert Added(Run(w1, between, registry), last, registry) == RunNode(w.next, w.graph, again, registry).events;
  }

  lemma {:induction false} LostLimit(w: World, env: Env, registry: seq<ToolSpec>)
    requires w.running && LimitInv(w) && LosesLimit(w, Attempt(env, true), registry)
    ensures var w1 := Step(w, Attempt(env, true), registry);
            LimitEnds(w1.emitted) && !NoLimit(w1.emitted) && w1.next == w.next && w1.graph == w.graph && w.next != End
  {
    StepAdds(w, Attempt(env, true), registry);
    LimitIsEmitted(w.emitted, Added(w, Attempt(env, true), registry));
    NodeEvents(w, env, registry);
    FirstLimit(w.emitted, Added(w, Attempt(env, true), registry));
  }

  lemma {:induction false} AfterLostLimit(w: World, between: seq<Choice>, last: Choice, registry: seq<ToolSpec>)
    requires LimitEnds(w.emitted) && !NoLimit(w.emitted)
    ensures LimitEnds(Run(w, between + [last], registry).emitted)
            <==> StaysSilent(w, between, registry) && Silent(Added(Run(w, between, registry), last, registry))
  {
    SilenceOfTwo(w, between, last, registry);
    if StaysSilent(w, between + [last], registry) {
      SilenceKeepsLimitEnds(w, between + [last], registry);
    } else {
      NoiseBreaksLimitEnds(w, between + [last], registry);
    }
  }

  lemma {:induction false} SilenceOfTwo(w: World, cs: seq<Choice>, c: Choice, registry: seq<ToolSpec>)
    ensures StaysSilent(w, cs + [c], registry)
            <==> StaysSilent(w, cs, registry) && Silent(Added(Run(w, cs, registry), c, registry))
    decreases |cs|
  {
    if cs == [] {
      assert cs + [c] == [c] && [c][1..] == [];
    } else {
      assert (cs + [c])[1..] == cs[1..] + [c];
      SilenceOfTwo(Step(w, cs[0], registry), cs[1..], c, registry);
    }
  }

  // ---------------------------------------------------------------- a run that says it twice

  const QUIET := Payload(false, "", PlannedAction(OtherAction, "", "", "", map[]), [], [], Response(Idle, ""),
                         Route(Unresolved, NoSource, "", "", "", map[]), NO_PLAN, React(ReactIdle, 0, [], [], None),
                         ResponseState(Idle, ""))
  const COMPLEX := Route(Complex, Planner, "", "", "", map[])
  const LOOKUP := "lookup"

  /** The service asks for one and the same call in each iteration. */
  function AsksAgain(iteration: nat): Decision {
    Decision(iteration, ToolDecision, LOOKUP, map[], "")
  }

  /** Everything around the graph works, and the service asks for the call. */
  function AskingEnv(iteration: nat, policy: Policy): Env {
    Env(policy, true, Some(QUIET), None, Some(COMPLEX), Some(AsksAgain(iteration)),
        ToolReturns(ToolResult(LOOKUP, "", ReactStep(iteration)), Retrieve), None, true)
  }

  function Repeating(policy: Policy): seq<Choice> {
    Prelude(policy) + [Attempt(AskingEnv(1, policy), false), Attempt(AskingEnv(1, policy), false)] + CrashAndResume(policy)
  }

  /** The nodes before the loop. */
  function Prelude(policy: Policy): seq<Choice> {
    seq(5, i => Attempt(AskingEnv(1, policy), false))
  }

  function CrashAndResume(policy: Policy): seq<Choice> {
    [Attempt(AskingEnv(2, policy), true), Resume, Attempt(AskingEnv(2, policy), false)]
  }

  lemma {:induction false} RunTwice(w: World, a: seq<Choice>, b: seq<Choice>, registry: seq<ToolSpec>)
    ensures Run(w, a + b, registry) == Run(Run(w, a, registry), b, registry)
    decreases |a|
  {
    if a == [] {
      assert a + b == b;
    } else {
      assert (a + b)[1..] == a[1..] + b;
      RunTwice(Step(w, a[0], registry), a[1..], b, registry);
    }
  }

  /** The run enters the loop with nothing called and only the plan announced. */
  predicate EntersLoop(w: World) {
    && w.running && w.next == DecideReact && w.emitted == [PlanReady, ReactStarted]
    && w.graph.agent.react == FRESH_REACT && w.graph.agent.toolCalls == [] && w.graph.agent.toolResults == []
    && w.graph.agent.response.status == Idle
  }

  /** Nothing has happened yet but the nodes before `next`. */
  predicate QuietAt(w: World, next: Node) {
    w.running && w.next == next && w.emitted == [] && w.graph.agent.toolCalls == [] && w.graph.agent.toolResults == []
    && w.graph.agent.response.status == Idle && !w.graph.agent.directDelivery
  }

  lemma {:induction false} ContextStep(w: World, policy: Policy, registry: seq<ToolSpec>)
    requires w.running && w.emitted == [] && w.next in {ResolveContext, PrepareConversation, RunCollaboration}
    ensures var w' := Step(w, Attempt(AskingEnv(1, policy), false), registry);
            QuietAt(w', Successor(w.next, w.graph))
  {
  }

  lemma {:induction false} RouteStep(w: World, policy: Policy, registry: seq<ToolSpec>)
    requires QuietAt(w, RouteRequest)
    ensures QuietAt(Step(w, Attempt(AskingEnv(1, policy), false), registry), StartReactNode)
  {
  }

  lemma {:induction false} StartStep(w: World, policy: Policy, registry: seq<ToolSpec>)
    requires QuietAt(w, StartReactNode)
    ensures EntersLoop(Step(w, Attempt(AskingEnv(1, policy), false), registry))
  {
  }

  lemma {:induction false} PreludeEntersLoop(p: Payload, route: Route, policy: Policy, registry: seq<ToolSpec>)
    ensures EntersLoop(Run(Start(p, route), Prelude(policy), registry))
  {
    var c := Attempt(AskingEnv(1, policy), false);
    var w0 := Start(p, route);
    ContextStep(w0, policy, registry);
    var w1 := Step(w0, c, registry);
    ContextStep(w1, policy, registry);
    var w2 := Step(w1, c, registry);
    ContextStep(w2, policy, registry);
    var w3 := Step(w2, c, registry);
    RouteStep(w3, policy, registry);
    StartStep(Step(w3, c, registry), policy, registry);
    FiveSteps(w0, c, registry);
    assert Prelude(policy) == [c, c, c, c, c];
  }

  lemma {:induction false} FiveSteps(w: World, c: Choice, registry: seq<ToolSpec>)
    ensures Run(w, [c, c, c, c, c], registry)
            == Step(Step(Step(Step(Step(w, c, registry), c, registry), c, registry), c, registry), c, registry)
  {
    var w1 := Step(w, c, registry);
    var w2 := Step(w1, c, registry);
    var w3 := Step(w2, c, registry);
    var w4 := Step(w3, c, registry);
    RunOne(w4, [c], registry);
    RunOne(w3, [c, c], registry);
    RunOne(w2, [c, c, c], registry);
    RunOne(w1, [c, c, c, c], registry);
    RunOne(w, [c, c, c, c, c], registry);
  }

  /** The first round: the call is asked for and runs. */
  lemma {:induction false} FirstRound(w: World, policy: Policy, registry: seq<ToolSpec>)
    requires EntersLoop(w) && registry != [] && policy.maxReactIterations >= 2 && policy.maxToolCalls >= 2
    ensures RepeatsNext(Step(Step(w, Attempt(AskingEnv(1, policy), false), registry), Attempt(AskingEnv(1, policy), false), registry))
  {
    AskStep(w, policy, registry);
    CallStep(Step(w, Attempt(AskingEnv(1, policy), false), registry), policy, registry);
  }

  /** The call has been asked for. */
  predicate Asked(w: World) {
    && w.running && w.next == ExecuteReactTool && w.emitted == [PlanReady, ReactStarted, DecisionReady]
    && w.graph.agent.react == React(ReactRunning, 1, [AsksAgain(1)], [], Some(AsksAgain(1)))
    && w.graph.agent.toolCalls == [] && w.graph.agent.toolResults == [] && w.graph.agent.response.status == Idle
  }

  lemma {:induction false} AskStep(w: World, policy: Policy, registry: seq<ToolSpec>)
    requires EntersLoop(w) && registry != []
    ensures Asked(Step(w, Attempt(AskingEnv(1, policy), false), registry))
  {
    LookupIsNoSearch();
    assert LatestGate([]) == None && SearchCount([]) == 0;
    assert [] + [AsksAgain(1)] == [AsksAgain(1)];
  }

  lemma {:induction false} LookupIsNoSearch()
    ensures LOOKUP != KNOWLEDGE_SEARCH_TOOL && LOOKUP != ""
  {
    assert |LOOKUP| != |KNOWLEDGE_SEARCH_TOOL|;
  }

  /** The call has run once and both budgets have room. */
  predicate RepeatsNext(w: World) {
    && w.running && w.next == DecideReact && w.emitted == [PlanReady, ReactStarted, DecisionReady, ObservationReady]
    && w.graph.agent.react.iteration == 1 && w.graph.agent.react.decisions == [AsksAgain(1)]
    && w.graph.agent.react.observations == [Observation(1, LOOKUP, None)]
  }

  /** Recording the observation of the first call, with room in both budgets. */
  lemma {:induction false} FirstObservation(q: Payload, policy: Policy, route: Route)
    requires q.react == React(ReactRunning, 1, [AsksAgain(1)], [], Some(AsksAgain(1))) && |q.toolCalls| == 1
    requires q.responseState.status == Idle && policy.maxReactIterations >= 2 && policy.maxToolCalls >= 2
    ensures var r := FinishNode(q, AsksAgain(1), Retrieve, AskingEnv(1, policy), route);
            && r.Committed? && r.events == [ObservationReady]
            && r.graph.agent == Apply(RecordObservation(Observation(1, LOOKUP, None)), q)
  {
    LookupIsNoSearch();
    assert q.react.decisions[0] == AsksAgain(1);
  }

  lemma {:induction false} ObservedState(q: Payload)
    requires q.react == React(ReactRunning, 1, [AsksAgain(1)], [], Some(AsksAgain(1))) && q.response.status == Idle
    ensures var p := Apply(RecordObservation(Observation(1, LOOKUP, None)), q);
            && p.react == q.react.(observations := [Observation(1, LOOKUP, None)]) && p.response.status == Idle
            && p.responseState.status == Idle
  {
    assert [] + [Observation(1, LOOKUP, None)] == [Observation(1, LOOKUP, None)];
  }

  lemma {:induction false} CallStep(w: World, policy: Policy, registry: seq<ToolSpec>)
    requires Asked(w) && policy.maxReactIterations >= 2 && policy.maxToolCalls >= 2
    ensures RepeatsNext(Step(w, Attempt(AskingEnv(1, policy), false), registry))
  {
    var p := Sync(w.graph.agent);
    var q := AfterTool(p, AsksAgain(1), ToolResult(LOOKUP, "", ReactStep(1)));
    LookupIsNoSearch();
    AfterToolFacts(p, AsksAgain(1), ToolResult(LOOKUP, "", ReactStep(1)));
    FirstObservation(q, policy, w.graph.route);
    ObservedState(q);
    CallNode(w, policy, registry);
    var r := FinishNode(q, AsksAgain(1), Retrieve, AskingEnv(1, policy), w.graph.route);
    Continues(r.graph);
  }

  lemma {:induction false} CallNode(w: World, policy: Policy, registry: seq<ToolSpec>)
    requires Asked(w)
    ensures RunNode(w.next, w.graph, AskingEnv(1, policy), registry)
            == FinishNode(AfterTool(Sync(w.graph.agent), AsksAgain(1), ToolResult(LOOKUP, "", ReactStep(1))), AsksAgain(1),
                          Retrieve, AskingEnv(1, policy), w.graph.route)
  {
    LookupIsNoSearch();
  }

  lemma {:induction false} Continues(g: GraphState)
    requires g.agent.response.status == Idle && g.agent.react.status == ReactRunning
    requires g.agent.react.observations == [Observation(1, LOOKUP, None)]
    ensures Successor(ExecuteReactTool, g) == DecideReact
  {
    assert LatestGate([Observation(1, LOOKUP, None)]) == None;
  }

  lemma {:induction false} RunOne(w: World, cs: seq<Choice>, registry: seq<ToolSpec>)
    requires cs != []
    ensures Run(w, cs, registry) == Run(Step(w, cs[0], registry), cs[1..], registry)
  {
  }

  /** The call is asked for again: the repeat guard announces the decision and the limit. */
  lemma {:induction false} RepeatEvents(w: World, policy: Policy, registry: seq<ToolSpec>)
    requires w.next == DecideReact && registry != [] && policy.maxReactIterations >= 2
    requires w.graph.agent.react.iteration == 1 && w.graph.agent.react.decisions == [AsksAgain(1)]
    requires w.graph.agent.react.observations == [Observation(1, LOOKUP, None)]
    ensures var r := RunNode(w.next, w.graph, AskingEnv(2, policy), registry);
            r.Committed? && r.events == [DecisionReady, LimitEvent(RepeatedAction)]
  {
    LookupIsNoSearch();
    assert LatestGate([Observation(1, LOOKUP, None)]) == None;
    assert w.graph.agent.react.decisions[0] == AsksAgain(1);
  }

  lemma {:induction false} CrashAndResumeRepeats(w: World, policy: Policy, registry: seq<ToolSpec>)
    requires RepeatsNext(w) && registry != [] && policy.maxReactIterations >= 2
    ensures Run(w, CrashAndResume(policy), registry).emitted
            == w.emitted + [DecisionReady, LimitEvent(RepeatedAction)] + [DecisionReady, LimitEvent(RepeatedAction)]
  {
    var crash, again := Attempt(AskingEnv(2, policy), true), Attempt(AskingEnv(2, policy), false);
    var w1 := Step(w, crash, registry);
    RepeatEvents(w, policy, registry);
    assert w1 == w.(running := false, emitted := w.emitted + [DecisionReady, LimitEvent(RepeatedAction)], log := w1.log);
    var w2 := Step(w1, Resume, registry);
    assert w2 == w1.(running := true);
    RepeatEvents(w2, policy, registry);
    RunOne(w2, [again], registry);
    RunOne(w1, [Resume, again], registry);
    RunOne(w, [crash, Resume, again], registry);
  }

  lemma {:induction false} RepeatingIsFresh(policy: Policy)
    ensures FreshChoices(Repeating(policy)) && UsesPolicy(Repeating(policy), policy)
  {
  }

  /**
   * The condition is needed: a fresh run under one policy in which the service repeats its call, the node that finds this
   * out crashes before its commit, and the resumed run announces the decision and the limit a second time.
   */
  lemma {:induction false} CrashCanRepeatTheLimitEvent(p: Payload, route: Route, policy: Policy, registry: seq<ToolSpec>)
    requires registry != [] && policy.maxReactIterations >= 2 && policy.maxToolCalls >= 2
    ensures FreshChoices(Repeating(policy)) && UsesPolicy(Repeating(policy), policy)
    ensures Run(Start(p, route), Repeating(policy), registry).emitted
            == [PlanReady, ReactStarted, DecisionReady, ObservationReady]
               + [DecisionReady, LimitEvent(RepeatedAction)] + [DecisionReady, LimitEvent(RepeatedAction)]
  {
    var c := Attempt(AskingEnv(1, policy), false);
    var w := Run(Start(p, route), Prelude(policy), registry);
    RepeatingIsFresh(policy);
    PreludeEntersLoop(p, route, policy, registry);
    FirstRound(w, policy, registry);
    RunOne(Step(w, c, registry), [c], registry);
    RunOne(w, [c, c], registry);
    CrashAndResumeRepeats(Run(w, [c, c], registry), policy, registry);
    RunTwice(w, [c, c], CrashAndResume(policy), registry);
    RunTwice(Start(p, route), Prelude(policy), [c, c] + CrashAndResume(policy), registry);
    assert Repeating(policy) == Prelude(policy) + ([c, c] + CrashAndResume(policy));
  }
}

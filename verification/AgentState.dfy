/** The shared run state of the Reading Agent and its contract synchronisation (backend/agent_core/state.py). */
module AgentStates {
  import opened Wrappers

  type Arguments = map<string, string>

  datatype RouteKind = Unresolved | Answer | Tool | Complex
  datatype RouteSource = NoSource | LegacyPlanner | Deterministic | SemanticRouter | Planner
  datatype Route = Route(kind: RouteKind, source: RouteSource, intent: string, toolName: string, reason: string,
                         arguments: Arguments)

  datatype PlanMode = NoPlan | SingleStep | MultiStep
  datatype StepStatus = Pending | Running | Completed | Failed | Skipped
  datatype PlanStep = PlanStep(stepId: string, toolName: string, arguments: Arguments, status: StepStatus)
  datatype Plan = Plan(goal: string, mode: PlanMode, steps: seq<PlanStep>, currentStepId: string)

  /**
   * The `planned_action` dictionary. Its action text is kept as what it is recognised as, and `strippedName` is the tool
   * name without white space around it.
   */
  datatype PlannedKind = UseTool | GiveAnswer | OtherAction
  datatype PlannedAction = PlannedAction(action: PlannedKind, toolName: string, strippedName: string, reason: string,
                                         arguments: Arguments)

  /** The step that a call belongs to: `react-<iteration>`, or any other id. */
  datatype StepRef = ReactStep(iteration: nat) | OtherStep(id: string)
  datatype ToolCall = ToolCall(name: string, arguments: Arguments, stepId: StepRef)
  datatype ToolResult = ToolResult(toolName: string, outputText: string, stepId: StepRef)

  /** The `response` dictionary, whose status text is kept as what it is recognised as, and its typed projection. */
  datatype Response = Response(status: ResponseStatus, outputText: string)
  datatype ResponseStatus = Idle | ResponseCompleted | ConfirmationRequired | ResponseFailed | Cancelled
  datatype ResponseState = ResponseState(status: ResponseStatus, outputText: string)

  datatype GateAction = Stop | Refine | Retrieve
  datatype DecisionKind = ToolDecision | FinalDecision
  datatype Decision = Decision(iteration: nat, kind: DecisionKind, toolName: string, arguments: Arguments,
                               finalAnswer: string)
  datatype Observation = Observation(iteration: nat, toolName: string, gate: Option<GateAction>)
  datatype ReactStatus = ReactIdle | ReactRunning | ReactCompleted | ReactConfirmation | LimitReached | ReactFailed
  datatype React = React(status: ReactStatus, iteration: nat, decisions: seq<Decision>,
                         observations: seq<Observation>, lastDecision: Option<Decision>)

  /** The JSON form of an `AgentState`: what a graph node receives and what a checkpoint stores. */
  datatype Payload = Payload(
    directDelivery: bool,
    intent: string,
    planned: PlannedAction,
    toolCalls: seq<ToolCall>,
    toolResults: seq<ToolResult>,
    response: Response,
    route: Route,
    plan: Plan,
    react: React,
    responseState: ResponseState)

  const NO_PLAN := Plan("", NoPlan, [], "")
  const FRESH_REACT := React(ReactRunning, 0, [], [], None)

  // ---------------------------------------------------------------- sync_contract

  predicate ExplicitRoute(r: Route) {
    r.source == Deterministic || r.source == SemanticRouter || r.source == Planner
  }

  /** The route a multi-step plan needs in order to survive a synchronisation. */
  predicate ExplicitComplex(r: Route) {
    ExplicitRoute(r) && r.kind == Complex
  }

  function Or(a: string, b: string): string {
    if a != "" then a else b
  }

  predicate HasResultOf(results: seq<ToolResult>, tool: string) {
    exists i | 0 <= i < |results| :: results[i].toolName == tool
  }

  function LegacyRoute(p: Payload): Route {
    var tool := p.planned.strippedName;
    if p.planned.action == UseTool && tool != "" then
      Route(Tool, LegacyPlanner, Or(p.intent, tool), tool, p.planned.reason, p.planned.arguments)
    else if p.planned.action == GiveAnswer then
      Route(Answer, LegacyPlanner, Or(p.intent, "answer"), "", p.planned.reason, map[])
    else
      Route(Unresolved, NoSource, p.intent, "", "", map[])
  }

  function DerivedPlan(p: Payload): Plan {
    var tool := p.planned.strippedName;
    if p.planned.action == UseTool && tool != "" then
      var status := if HasResultOf(p.toolResults, tool) then Completed else Pending;
      Plan(p.planned.reason, SingleStep, [PlanStep("step-1", tool, p.planned.arguments, status)],
           if status == Completed then "" else "step-1")
    else
      NO_PLAN
  }

  /** The value that `sync_contract` leaves behind. */
  function Sync(p: Payload): Payload {
    var explicit := ExplicitRoute(p.route);
    p.(route := if explicit then p.route else LegacyRoute(p),
       plan := if p.plan.mode == MultiStep && ExplicitComplex(p.route) then p.plan else DerivedPlan(p),
       responseState := ResponseState(p.response.status, p.response.outputText))
  }

  /** Synchronising twice is synchronising once, so loading a stored state does not change it. */
  lemma {:induction false} SyncIdempotent(p: Payload)
    ensures Sync(Sync(p)) == Sync(p)
  {
    var tool := p.planned.strippedName;
    if p.planned.action == UseTool && tool != "" {
      assert LegacyRoute(Sync(p)) == LegacyRoute(p);
    }
  }

  // ---------------------------------------------------------------- value forms of the mutators

  datatype Mutator =
    | ApplyContext(directDelivery: bool)
    | ApplyPlan(planned: PlannedAction)
    | ApplyMultiStepPlan(newPlan: Plan)
    | ApplyOrchestration(planId: Option<string>)
    | MarkPlanStep(stepId: string, status: StepStatus)
    | ApplyRoute(newRoute: Route)
    | StartReact
    | RecordDecision(decision: Decision)
    | RecordObservation(observation: Observation)
    | MarkReact(reactStatus: ReactStatus)
    | RecordCall(call: ToolCall)
    | RecordResult(result: ToolResult)
    | ApplyResponse(newResponse: Response)

  predicate HasStep(steps: seq<PlanStep>, id: string) {
    exists i | 0 <= i < |steps| :: steps[i].stepId == id
  }

  function WithStatus(steps: seq<PlanStep>, id: string, status: StepStatus): seq<PlanStep> {
    if steps == [] then []
    else [if steps[0].stepId == id then steps[0].(status := status) else steps[0]] + WithStatus(steps[1..], id, status)
  }

  function FirstPending(steps: seq<PlanStep>): string {
    if steps == [] then ""
    else if steps[0].status == Pending then steps[0].stepId
    else FirstPending(steps[1..])
  }

  /** The plan with the status of one step set and its current step recomputed. */
  function Marked(plan: Plan, id: string, status: StepStatus): Plan {
    var steps := WithStatus(plan.steps, id, status);
    plan.(steps := steps, currentStepId := if status == Running then id else FirstPending(steps))
  }

  predicate MatchesDecision(decisions: seq<Decision>, o: Observation) {
    exists i | 0 <= i < |decisions| ::
      && decisions[i].iteration == o.iteration
      && decisions[i].kind == ToolDecision
      && decisions[i].toolName == o.toolName
  }

  /** The calls that raise instead of synchronising. */
  predicate Raises(m: Mutator, p: Payload) {
    match m
    case ApplyMultiStepPlan(plan) => plan.mode != MultiStep
    case MarkPlanStep(id, _) => !HasStep(p.plan.steps, id)
    case RecordDecision(d) => d.iteration <= p.react.iteration
    case RecordObservation(o) => o.iteration > p.react.iteration || !MatchesDecision(p.react.decisions, o)
    case _ => false
  }

  function RouteIntent(r: Route, previous: string): string {
    if r.intent != "" then r.intent
    else if r.toolName != "" then r.toolName
    else if r.kind == Answer then "answer"
    else if r.kind == Complex then "complex"
    else previous
  }

  /** The fields a mutator assigns before it synchronises. */
  function Assign(m: Mutator, p: Payload): Payload {
    match m
    case ApplyContext(direct) => p.(directDelivery := direct)
    case ApplyPlan(a) => p.(planned := a, intent := if a.action == UseTool && a.toolName != "" then a.toolName else "answer")
    case ApplyMultiStepPlan(plan) =>
      p.(plan := plan, planned := PlannedAction(GiveAnswer, "", "", plan.goal, map[]), intent := "complex")
    case ApplyOrchestration(planId) =>
      if planId.None? then p
      else p.(planned := PlannedAction(GiveAnswer, "", "", "Execute the validated research task plan.",
                                       map["orchestration_plan_id" := planId.value]),
              intent := "complex")
    case MarkPlanStep(id, status) => p.(plan := Marked(p.plan, id, status))
    case ApplyRoute(r) => p.(route := r, intent := RouteIntent(r, p.intent))
    case StartReact => p.(react := FRESH_REACT)
    case RecordDecision(d) =>
      p.(react := p.react.(status := ReactRunning, iteration := d.iteration, decisions := p.react.decisions + [d],
                           lastDecision := Some(d)))
    case RecordObservation(o) => p.(react := p.react.(observations := p.react.observations + [o]))
    case MarkReact(status) => p.(react := p.react.(status := status))
    case RecordCall(call) => p.(toolCalls := p.toolCalls + [call])
    case RecordResult(result) => p.(toolResults := p.toolResults + [result])
    case ApplyResponse(r) => p.(response := r)
  }

  function Apply(m: Mutator, p: Payload): Payload {
    Sync(Assign(m, p))
  }

  /** The intent that a mutator names: that of a route or its tool, the tool of an action, or what kind of answer is due. */
  predicate NamesIntent(m: Mutator, intent: string) {
    match m
    case ApplyRoute(r) =>
      || (r.intent != "" && intent == r.intent)
      || (r.intent == "" && r.toolName != "" && intent == r.toolName)
      || (r.intent == "" && r.toolName == "" && r.kind == Answer && intent == "answer")
      || (r.intent == "" && r.toolName == "" && r.kind == Complex && intent == "complex")
    case ApplyPlan(a) => intent == if a.action == UseTool && a.toolName != "" then a.toolName else "answer"
    case ApplyMultiStepPlan(_) => intent == "complex"
    case ApplyOrchestration(id) => id.Some? && intent == "complex"
    case _ => false
  }

  /** After any sequence of mutators the intent is what the last one that names an intent says. */
  predicate IntentOf(ms: seq<Mutator>, before: string, intent: string) {
    if ms == [] then intent == before
    else NamesIntent(ms[|ms| - 1], intent) || (SaysNothing(ms[|ms| - 1]) && IntentOf(ms[..|ms| - 1], before, intent))
  }

  predicate SaysNothing(m: Mutator) {
    match m
    case ApplyRoute(r) => r.intent == "" && r.toolName == "" && r.kind != Answer && r.kind != Complex
    case ApplyPlan(_) => false
    case ApplyMultiStepPlan(_) => false
    case ApplyOrchestration(id) => id.None?
    case _ => true
  }

  lemma {:induction false} IntentFollowsTheMutators(ms: seq<Mutator>, p: Payload)
    ensures IntentOf(ms, p.intent, ApplyAll(ms, p).intent)
  {
    if ms != [] {
      IntentFollowsTheMutators(ms[..|ms| - 1], p);
      OneIntent(ms[|ms| - 1], ApplyAll(ms[..|ms| - 1], p));
    }
  }

  lemma {:induction false} OneIntent(m: Mutator, p: Payload)
    ensures NamesIntent(m, Apply(m, p).intent) || (SaysNothing(m) && Apply(m, p).intent == p.intent)
  {
  }

  /** What the guards of the mutators refuse. */
  lemma {:induction false} RefusedExactly(p: Payload, d: Decision, o: Observation, id: string, status: StepStatus, plan: Plan)
    ensures Raises(RecordDecision(d), p) <==> d.iteration <= p.react.iteration
    ensures Raises(RecordObservation(o), p) <==>
              || o.iteration > p.react.iteration
              || forall e | e in p.react.decisions ::
                   !(e.kind == ToolDecision && e.iteration == o.iteration && e.toolName == o.toolName)
    ensures Raises(MarkPlanStep(id, status), p) <==> forall s | s in p.plan.steps :: s.stepId != id
    ensures Raises(ApplyMultiStepPlan(plan), p) <==> plan.mode != MultiStep
  {
    if exists e | e in p.react.decisions ::
         e.kind == ToolDecision && e.iteration == o.iteration && e.toolName == o.toolName {
      var e :| e in p.react.decisions && e.kind == ToolDecision && e.iteration == o.iteration && e.toolName == o.toolName;
      var i :| 0 <= i < |p.react.decisions| && p.react.decisions[i] == e;
    }
    if exists s | s in p.plan.steps :: s.stepId == id {
      var s :| s in p.plan.steps && s.stepId == id;
      var i :| 0 <= i < |p.plan.steps| && p.plan.steps[i] == s;
    }
  }

  /** Every mutator that returns leaves a synchronised state. */
  lemma {:induction false} ApplyEndsSynchronised(m: Mutator, p: Payload)
    ensures Sync(Apply(m, p)) == Apply(m, p)
  {
    SyncIdempotent(Assign(m, p));
  }

  /** Between two states with an explicit complex route only the two plan mutators change a multi-step plan. */
  lemma {:induction false} MultiStepPlanIsStable(m: Mutator, p: Payload)
    requires p.plan.mode == MultiStep && ExplicitComplex(p.route)
    requires ExplicitComplex(Apply(m, p).route)
    ensures Apply(m, p).plan == p.plan || m.ApplyMultiStepPlan? || m.MarkPlanStep?
  {
  }

  /** The only other way to lose a multi-step plan: the new route is not an explicit complex one. */
  lemma {:induction false} MultiStepPlanLostExactlyByRoute(m: Mutator, p: Payload)
    requires p.plan.mode == MultiStep && ExplicitComplex(p.route) && !Raises(m, p)
    ensures Apply(m, p).plan.mode != MultiStep <==> m.ApplyRoute? && !ExplicitComplex(m.newRoute)
  {
  }

  /** `apply_multi_step_plan` takes effect exactly when the current route is already an explicit complex one. */
  lemma {:induction false} MultiStepPlanTakesEffectExactly(plan: Plan, p: Payload)
    requires plan.mode == MultiStep
    ensures Apply(ApplyMultiStepPlan(plan), p).plan == plan <==> ExplicitComplex(p.route)
  {
  }

  // ---------------------------------------------------------------- sequences of mutators

  /** The payload after mutators that all return. */
  function ApplyAll(ms: seq<Mutator>, p: Payload): Payload {
    if ms == [] then p else Apply(ms[|ms| - 1], ApplyAll(ms[..|ms| - 1], p))
  }

  /** No mutator of the sequence raises. */
  predicate AllReturn(ms: seq<Mutator>, p: Payload) {
    ms == [] || (AllReturn(ms[..|ms| - 1], p) && !Raises(ms[|ms| - 1], ApplyAll(ms[..|ms| - 1], p)))
  }

  /** All that decides about a multi-step plan: whether the route is an explicit complex one, and the plan if there is one. */
  datatype PlanView = PlanView(explicitComplex: bool, plan: Option<Plan>)

  function ViewOf(p: Payload): PlanView {
    PlanView(ExplicitComplex(p.route), if p.plan.mode == MultiStep then Some(p.plan) else None)
  }

  /** Only a route and the two plan mutators matter to the view; any other mutator leaves it alone. */
  function ViewAfter(ms: seq<Mutator>, v: PlanView): PlanView {
    if ms == [] then v
    else
      var before := ViewAfter(ms[..|ms| - 1], v);
      match ms[|ms| - 1]
      case ApplyRoute(r) => PlanView(ExplicitComplex(r), if ExplicitComplex(r) then before.plan else None)
      case ApplyMultiStepPlan(plan) => before.(plan := if before.explicitComplex then Some(plan) else None)
      case MarkPlanStep(id, status) =>
        before.(plan := if before.plan.Some? then Some(Marked(before.plan.value, id, status)) else None)
      case _ => before
  }

  lemma {:induction false} ViewOfApply(m: Mutator, p: Payload)
    requires Sync(p) == p && !Raises(m, p)
    ensures ViewOf(Apply(m, p)) == ViewAfter([m], ViewOf(p))
  {
    assert [m][..0] == [] && ViewAfter([], ViewOf(p)) == ViewOf(p);
  }

  /**
   * Over every sequence of mutators the multi-step plan is decided by the routes, the multi-step plans and the step marks
   * alone: the other mutators never change it, and it is lost exactly when a route is not an explicit complex one.
   */
  lemma {:induction false} PlanIsDecidedByRoutesAndPlans(ms: seq<Mutator>, p: Payload)
    requires Sync(p) == p && AllReturn(ms, p)
    ensures ViewOf(ApplyAll(ms, p)) == ViewAfter(ms, ViewOf(p)) && Sync(ApplyAll(ms, p)) == ApplyAll(ms, p)
  {
    if ms != [] {
      var before, last := ms[..|ms| - 1], ms[|ms| - 1];
      PlanIsDecidedByRoutesAndPlans(before, p);
      ViewOfApply(last, ApplyAll(before, p));
      ApplyEndsSynchronised(last, ApplyAll(before, p));
      assert [last][..0] == [];
    }
  }

  predicate KeepsPlan(m: Mutator) {
    !m.ApplyMultiStepPlan? && !m.MarkPlanStep? && (m.ApplyRoute? ==> ExplicitComplex(m.newRoute))
  }

  /** Any number of other mutators, among them changes to another explicit complex route, leave a multi-step plan as it is. */
  lemma {:induction false} MultiStepPlanSurvivesEverySequence(ms: seq<Mutator>, p: Payload)
    requires Sync(p) == p && AllReturn(ms, p) && p.plan.mode == MultiStep && forall m | m in ms :: KeepsPlan(m)
    ensures ApplyAll(ms, p).plan == p.plan
  {
    PlanIsDecidedByRoutesAndPlans(ms, p);
    ViewIsKept(ms, ViewOf(p));
  }

  lemma {:induction false} ViewIsKept(ms: seq<Mutator>, v: PlanView)
    requires forall m | m in ms :: KeepsPlan(m)
    ensures ViewAfter(ms, v).plan == v.plan
  {
    if ms != [] {
      assert ms[|ms| - 1] in ms && forall m | m in ms[..|ms| - 1] :: m in ms;
      ViewIsKept(ms[..|ms| - 1], v);
    }
  }

  lemma {:induction false} WithStatusAt(steps: seq<PlanStep>, id: string, status: StepStatus)
    ensures |WithStatus(steps, id, status)| == |steps|
    ensures forall i | 0 <= i < |steps| ::
              WithStatus(steps, id, status)[i]
              == if steps[i].stepId == id then steps[i].(status := status) else steps[i]
  {
    if steps != [] {
      WithStatusAt(steps[1..], id, status);
    }
  }

  // ---------------------------------------------------------------- the derived route and step

  /** The planned action calls a tool. */
  predicate PlansTool(p: Payload) {
    p.planned.action == UseTool && p.planned.strippedName != ""
  }

  predicate IsExplicit(r: Route) {
    r.source in {Deterministic, SemanticRouter, Planner}
  }

  /** A route that is not explicit follows the planned action: its tool and arguments, an answer, or nothing yet. */
  lemma {:induction false} RouteFollowsTheAction(p: Payload)
    ensures var r, a := Sync(p).route, p.planned;
            && (IsExplicit(p.route) ==> r == p.route)
            && (!IsExplicit(p.route) && PlansTool(p) ==>
                  && r.kind == Tool && r.source == LegacyPlanner && r.toolName == a.strippedName && r.arguments == a.arguments
                  && r.reason == a.reason && r.intent == if p.intent == "" then a.strippedName else p.intent)
            && (!IsExplicit(p.route) && a.action == GiveAnswer ==>
                  && r.kind == Answer && r.source == LegacyPlanner && r.toolName == "" && r.arguments == map[]
                  && r.reason == a.reason && r.intent == if p.intent == "" then "answer" else p.intent)
            && (!IsExplicit(p.route) && !PlansTool(p) && a.action != GiveAnswer ==>
                  r.kind == Unresolved && r.source == NoSource && r.toolName == "" && r.intent == p.intent)
  {
  }

  /** The mutators that change the planned action. */
  predicate Replans(m: Mutator) {
    m.ApplyPlan? || m.ApplyMultiStepPlan? || m.ApplyOrchestration?
  }

  predicate HasResult(results: seq<ToolResult>, tool: string) {
    exists r | r in results :: r.toolName == tool
  }

  predicate Records(ms: seq<Mutator>, tool: string) {
    exists m | m in ms :: m.RecordResult? && m.result.toolName == tool
  }

  /** The one step of the tool, completed or up next. */
  function StepOf(p: Payload, completed: bool): Plan {
    Plan(p.planned.reason, SingleStep,
         [PlanStep("step-1", p.planned.strippedName, p.planned.arguments, if completed then Completed else Pending)],
         if completed then "" else "step-1")
  }

  lemma {:induction false} DerivedStep(p: Payload)
    requires p.plan.mode != MultiStep && PlansTool(p)
    ensures Sync(p).plan == StepOf(p, HasResult(p.toolResults, p.planned.strippedName))
  {
    var tool := p.planned.strippedName;
    if HasResult(p.toolResults, tool) {
      var r :| r in p.toolResults && r.toolName == tool;
      var i :| 0 <= i < |p.toolResults| && p.toolResults[i] == r;
      assert HasResultOf(p.toolResults, tool);
    }
  }

  lemma {:induction false} ActionStays(m: Mutator, p: Payload)
    requires !Replans(m) && p.plan.mode != MultiStep
    ensures var q := Apply(m, p);
            && q.planned == p.planned && q.plan.mode != MultiStep
            && q.toolResults == if m.RecordResult? then p.toolResults + [m.result] else p.toolResults
    ensures PlansTool(p) ==>
              Apply(m, p).plan == StepOf(p, HasResult(Apply(m, p).toolResults, p.planned.strippedName))
  {
    if PlansTool(p) {
      DerivedStep(Assign(m, p));
    }
  }

  lemma {:induction false} OneMoreResult(results: seq<ToolResult>, r: ToolResult, tool: string)
    ensures HasResult(results + [r], tool) <==> HasResult(results, tool) || r.toolName == tool
  {
    if x :| x in results && x.toolName == tool {
      assert x in results + [r];
    }
    assert r in results + [r];
  }

  lemma {:induction false} OneMoreRecord(ms: seq<Mutator>, m: Mutator, tool: string)
    ensures Records(ms + [m], tool) <==> Records(ms, tool) || (m.RecordResult? && m.result.toolName == tool)
  {
    if x :| x in ms && x.RecordResult? && x.result.toolName == tool {
      assert x in ms + [m];
    }
    assert m in ms + [m];
  }

  /**
   * While the planned tool action stays, the plan is the one step of that tool with its arguments, and over every sequence
   * of mutators it is completed exactly when a result of the tool was there or has been recorded.
   */
  lemma {:induction false} StepIsCompletedByItsResult(ms: seq<Mutator>, p: Payload)
    requires Sync(p) == p && PlansTool(p) && p.plan.mode != MultiStep && forall m | m in ms :: !Replans(m)
    ensures var tool := p.planned.strippedName;
            ApplyAll(ms, p).plan == StepOf(p, HasResult(p.toolResults, tool) || Records(ms, tool))
  {
    ResultsAreRecorded(ms, p);
  }

  lemma {:induction false} ResultsAreRecorded(ms: seq<Mutator>, p: Payload)
    requires Sync(p) == p && PlansTool(p) && p.plan.mode != MultiStep && forall m | m in ms :: !Replans(m)
    ensures var q, tool := ApplyAll(ms, p), p.planned.strippedName;
            && q.planned == p.planned && q.plan.mode != MultiStep
            && (HasResult(q.toolResults, tool) <==> HasResult(p.toolResults, tool) || Records(ms, tool))
            && q.plan == StepOf(p, HasResult(q.toolResults, tool))
  {
    if ms == [] {
      DerivedStep(p);
    } else {
      var before, last := ms[..|ms| - 1], ms[|ms| - 1];
      assert ms == before + [last] && last in ms && forall m | m in before :: m in ms;
      ResultsAreRecorded(before, p);
      ActionStays(last, ApplyAll(before, p));
      OneMoreRecord(before, last, p.planned.strippedName);
      if last.RecordResult? {
        OneMoreResult(ApplyAll(before, p).toolResults, last.result, p.planned.strippedName);
      }
    }
  }

  /** A step mark lasts on a multi-step plan; on a single-step plan the next synchronisation recomputes it. */
  lemma {:induction false} StepMarkLastsExactlyOnMultiStepPlans(p: Payload, id: string, status: StepStatus)
    requires Sync(p) == p && HasStep(p.plan.steps, id)
    ensures p.plan.mode == MultiStep ==>
              var q := Apply(MarkPlanStep(id, status), p);
              && q.plan == p.plan.(steps := q.plan.steps, currentStepId := q.plan.currentStepId)
              && (if status == Running then q.plan.currentStepId == id else IsNext(q.plan.currentStepId, q.plan.steps))
              && |q.plan.steps| == |p.plan.steps|
              && forall i | 0 <= i < |p.plan.steps| ::
                   q.plan.steps[i] == if p.plan.steps[i].stepId == id then p.plan.steps[i].(status := status)
                                      else p.plan.steps[i]
    ensures p.plan.mode != MultiStep ==> Apply(MarkPlanStep(id, status), p).plan == p.plan
  {
    WithStatusAt(p.plan.steps, id, status);
    FirstPendingIsNext(Marked(p.plan, id, status).steps);
  }

  /** The id of the first step that is pending, or the empty string if none is. */
  predicate IsNext(id: string, steps: seq<PlanStep>) {
    if exists k | 0 <= k < |steps| :: steps[k].status == Pending
    then exists k | 0 <= k < |steps| ::
           steps[k].status == Pending && steps[k].stepId == id && forall j | 0 <= j < k :: steps[j].status != Pending
    else id == ""
  }

  lemma {:induction false} FirstPendingIsNext(steps: seq<PlanStep>)
    ensures IsNext(FirstPending(steps), steps)
  {
    if steps != [] {
      var rest := steps[1..];
      FirstPendingIsNext(rest);
      assert forall k | 0 < k < |steps| :: steps[k] == rest[k - 1];
      if steps[0].status != Pending && (exists k | 0 <= k < |rest| :: rest[k].status == Pending) {
        var k :| 0 <= k < |rest| && rest[k].status == Pending && rest[k].stepId == FirstPending(rest)
                 && forall j | 0 <= j < k :: rest[j].status != Pending;
        assert steps[k + 1] == rest[k];
      }
    }
  }

  // ---------------------------------------------------------------- loops of mark_plan_step

  method MarkSteps(steps: seq<PlanStep>, stepId: string, status: StepStatus)
    returns (found: bool, marked: seq<PlanStep>)
    ensures found == HasStep(steps, stepId)
    ensures marked == WithStatus(steps, stepId, status)
  {
    WithStatusAt(steps, stepId, status);
    found, marked := false, [];
    for i := 0 to |steps|
      invariant |marked| == i
      invariant marked == WithStatus(steps, stepId, status)[..i]
      invariant found == exists k | 0 <= k < i :: steps[k].stepId == stepId
    {
      if steps[i].stepId == stepId {
        found := true;
        marked := marked + [steps[i].(status := status)];
      } else {
        marked := marked + [steps[i]];
      }
    }
  }

  method NextPending(steps: seq<PlanStep>) returns (id: string)
    ensures id == FirstPending(steps)
  {
    var k := 0;
    while k < |steps| && steps[k].status != Pending
      invariant 0 <= k <= |steps|
      invariant FirstPending(steps[k..]) == FirstPending(steps)
    {
      assert steps[k..][1..] == steps[k + 1..];
      k := k + 1;
    }
    id := if k < |steps| then steps[k].stepId else "";
  }

  // ---------------------------------------------------------------- the class

  /** The mutable run state. Each method is tied to the value form above through `Dump`. */
  class AgentState {
    var directDelivery: bool
    var intent: string
    var planned: PlannedAction
    var toolCalls: seq<ToolCall>
    var toolResults: seq<ToolResult>
    var response: Response
    var route: Route
    var plan: Plan
    var react: React
    var responseState: ResponseState

    function Dump(): Payload
      reads this
    {
      Payload(directDelivery, intent, planned, toolCalls, toolResults, response, route, plan, react, responseState)
    }

    /** Validation of a stored payload ends with a synchronisation. */
    constructor Load(p: Payload)
      ensures Dump() == Sync(p)
    {
      directDelivery, intent, planned := p.directDelivery, p.intent, p.planned;
      toolCalls, toolResults, response := p.toolCalls, p.toolResults, p.response;
      route, plan, react, responseState := p.route, p.plan, p.react, p.responseState;
      new;
      SyncContract();
    }

    method SyncContract()
      modifies this
      ensures Dump() == Sync(old(Dump()))
    {
      var explicit := ExplicitRoute(route);
      var preserve := plan.mode == MultiStep && ExplicitComplex(route);
      var tool := planned.strippedName;
      if preserve {
      } else if planned.action == UseTool && tool != "" {
        var found := false;
        for i := 0 to |toolResults|
          invariant found == HasResultOf(toolResults[..i], tool)
        {
          assert toolResults[..i + 1] == toolResults[..i] + [toolResults[i]];
          assert toolResults[..i + 1][i] == toolResults[i];
          found := found || toolResults[i].toolName == tool;
        }
        assert toolResults[..|toolResults|] == toolResults;
        var status := if found then Completed else Pending;
        if !explicit {
          route := Route(Tool, LegacyPlanner, Or(intent, tool), tool, planned.reason, planned.arguments);
        }
        plan := Plan(planned.reason, SingleStep, [PlanStep("step-1", tool, planned.arguments, status)],
                     if status == Completed then "" else "step-1");
      } else if planned.action == GiveAnswer {
        if !explicit {
          route := Route(Answer, LegacyPlanner, Or(intent, "answer"), "", planned.reason, map[]);
        }
        plan := NO_PLAN;
      } else {
        if !explicit {
          route := Route(Unresolved, NoSource, intent, "", "", map[]);
        }
        plan := NO_PLAN;
      }
      responseState := ResponseState(response.status, response.outputText);
    }

    method DoApplyRoute(r: Route)
      modifies this
      ensures Dump() == Apply(ApplyRoute(r), old(Dump()))
    {
      route := r;
      if route.intent != "" {
        intent := route.intent;
      } else if route.toolName != "" {
        intent := route.toolName;
      } else if route.kind == Answer {
        intent := "answer";
      } else if route.kind == Complex {
        intent := "complex";
      }
      SyncContract();
    }

    method DoApplyPlan(a: PlannedAction)
      modifies this
      ensures Dump() == Apply(ApplyPlan(a), old(Dump()))
    {
      planned := a;
      intent := if a.action == UseTool && a.toolName != "" then a.toolName else "answer";
      SyncContract();
    }

    /** When the mode is wrong the call raises, but only after it has replaced the plan. */
    method DoApplyMultiStepPlan(newPlan: Plan) returns (ok: bool)
      modifies this
      ensures ok == !Raises(ApplyMultiStepPlan(newPlan), old(Dump()))
      ensures ok ==> Dump() == Apply(ApplyMultiStepPlan(newPlan), old(Dump()))
      ensures !ok ==> Dump() == old(Dump()).(plan := newPlan)
    {
      plan := newPlan;
      if plan.mode != MultiStep {
        return false;
      }
      planned := PlannedAction(GiveAnswer, "", "", plan.goal, map[]);
      intent := "complex";
      SyncContract();
      return true;
    }

    method DoMarkPlanStep(stepId: string, status: StepStatus) returns (ok: bool)
      modifies this
      ensures ok == !Raises(MarkPlanStep(stepId, status), old(Dump()))
      ensures Dump() == if ok then Apply(MarkPlanStep(stepId, status), old(Dump())) else old(Dump())
    {
      var found, steps := MarkSteps(plan.steps, stepId, status);
      if !found {
        return false;
      }
      var current := stepId;
      if status != Running {
        current := NextPending(steps);
      }
      plan := plan.(steps := steps, currentStepId := current);
      SyncContract();
      return true;
    }

    method DoStartReact()
      modifies this
      ensures Dump() == Apply(StartReact, old(Dump()))
    {
      react := FRESH_REACT;
      SyncContract();
    }

    method DoRecordDecision(d: Decision) returns (ok: bool)
      modifies this
      ensures ok == !Raises(RecordDecision(d), old(Dump()))
      ensures Dump() == if ok then Apply(RecordDecision(d), old(Dump())) else old(Dump())
    {
      if d.iteration <= react.iteration {
        return false;
      }
      var decisions := react.decisions + [d];
      react := react.(status := ReactRunning, iteration := d.iteration, decisions := decisions, lastDecision := Some(d));
      SyncContract();
      return true;
    }

    method DoRecordObservation(o: Observation) returns (ok: bool)
      modifies this
      ensures ok == !Raises(RecordObservation(o), old(Dump()))
      ensures Dump() == if ok then Apply(RecordObservation(o), old(Dump())) else old(Dump())
    {
      if o.iteration > react.iteration || !MatchesDecision(react.decisions, o) {
        return false;
      }
      react := react.(observations := react.observations + [o]);
      SyncContract();
      return true;
    }

    method DoMarkReact(status: ReactStatus)
      modifies this
      ensures Dump() == Apply(MarkReact(status), old(Dump()))
    {
      react := react.(status := status);
      SyncContract();
    }

    method DoRecordCall(call: ToolCall)
      modifies this
      ensures Dump() == Apply(RecordCall(call), old(Dump()))
    {
      toolCalls := toolCalls + [call];
      SyncContract();
    }

    method DoRecordResult(result: ToolResult)
      modifies this
      ensures Dump() == Apply(RecordResult(result), old(Dump()))
    {
      toolResults := toolResults + [result];
      SyncContract();
    }

    method DoApplyResponse(r: Response)
      modifies this
      ensures Dump() == Apply(ApplyResponse(r), old(Dump()))
    {
      response := r;
      SyncContract();
    }
  }
}

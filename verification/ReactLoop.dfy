// The bounded ReAct loop of app/agent_runtime/loop.py. The providers, the tool executor, the token
// counts, the clock and the arrival of interventions are oracles, indexed so that they may answer
// differently every time.
module ReactLoop {
  import opened Common
  import opened Decision
  import opened Evidence
  import Recovery
  import I = Intervention

  datatype LoopBudget = LoopBudget(maxSteps: int, maxTime: real, maxTokens: Option<int>) {
    function Normalize(): (b: LoopBudget)
      ensures b.maxSteps >= 1 && b.maxTime > 0.0 && (b.maxTokens.Some? ==> b.maxTokens.value >= 0)
    {
      LoopBudget(if maxSteps < 1 then 1 else maxSteps,
                 AtLeast(maxTime, 0.001),
                 if maxTokens.Some? && maxTokens.value < 0 then Some(0) else maxTokens)
    }
  }

  datatype Reply = Decided(decision: AgentDecision) | Raises

  datatype ToolReply = Returned(item: EvidenceItem) | ToolRaises

  // provider, fallback, tool and tokens get the step index; clock gets the number of the reading
  // (0 for the start, k + 1 for the top of step k); arrivals gets the number of the read of the
  // queue (2k before the decision of step k, 2k + 1 after it) and lists what was added since the
  // read before.
  datatype Env = Env(
    provider: (nat, State) -> Reply,
    fallback: Option<(nat, State) -> Reply>,
    hasRecovery: bool,
    tool: Option<(nat, AgentDecision) -> ToolReply>,
    hasAssessor: bool,
    memory: Option<State -> string>,
    hasBridge: bool,
    arrivals: nat -> seq<I.Intervention>,
    lowLimit: Option<int>,
    lowThreshold: real,
    tokens: (nat, AgentDecision) -> int,
    clock: nat -> real)

  datatype LoopStep = LoopStep(index: nat, decision: AgentDecision, tokens: nat, toolResult: Option<EvidenceItem>)

  // What the loop holds between two steps, with the queue and marks of the bridge and, for the
  // record, the tools called so far.
  datatype LoopState = LoopState(
    state: State,
    steps: seq<LoopStep>,
    items: seq<EvidenceItem>,
    tokens: nat,
    low: nat,
    queue: seq<I.Intervention>,
    marks: seq<nat>,
    calls: seq<string>)

  datatype Termination =
    | MaxTime | MaxTokens | MaxSteps | ApprovalNeeded | AskedApproval | Reported | HandedOff | LowConfidence

  // Abort stands for an exception that leaves the loop.
  datatype Turn = Continue(loop: LoopState) | Stop(loop: LoopState, reason: Termination) | Abort

  // ----- One step, phase by phase -----

  // The interventions pending before the decision, and the refreshed budget.
  function Prepare(env: Env, budget: LoopBudget, k: nat, L: LoopState): Option<LoopState> {
    var queue := L.queue + env.arrivals(2 * k);
    var applied :=
      if env.hasBridge && L.state.runId != "" then I.ApplyBefore(I.Pending(queue, L.marks), L.state, L.marks)
      else I.Applied(L.state, L.marks);
    if applied.Invalid? then None
    else Some(L.(state := WithBudget(applied.state, budget, k), queue := queue, marks := applied.marks))
  }

  function WithBudget(s: State, budget: LoopBudget, k: nat): State {
    s.(budget := Budget(budget.maxSteps, budget.maxSteps - k, s.budget.maxToolCalls, s.budget.remainingToolCalls,
                        budget.maxTime, Some(budget.maxTime)))
  }

  function RecoveryDecision(env: Env, s: State): Option<AgentDecision> {
    if env.hasRecovery then Recovery.RecoveryDecision(s) else None
  }

  function DecideAt(env: Env, k: nat, s: State): Reply {
    var recovery := RecoveryDecision(env, s);
    if recovery.Some? then Decided(recovery.value)
    else
      var reply := env.provider(k, s);
      if reply.Raises? && env.fallback.Some? then env.fallback.value(k, s) else reply
  }

  // The replacements pending after the decision.
  function Override(env: Env, k: nat, L: LoopState, d: AgentDecision): (LoopState, AgentDecision) {
    var queue := L.queue + env.arrivals(2 * k + 1);
    if env.hasBridge && L.state.runId != "" then
      var r := I.ApplyReplace(I.Pending(queue, L.marks), d, L.marks);
      (L.(queue := queue, marks := r.marks), r.decision)
    else (L.(queue := queue), d)
  }

  predicate CallsTool(env: Env, d: AgentDecision) {
    d.action == CallTool && d.selectedTool != "" && env.tool.Some?
  }

  function AssessmentOf(env: Env, d: AgentDecision, item: EvidenceItem): Assessment {
    if env.hasAssessor then Assess(item) else d.evidence
  }

  function AddToolEvidence(s: State, d: AgentDecision, a: Assessment): State {
    s.(executedTools := AddNew(s.executedTools, d.selectedTool),
       evidence := s.evidence + [a],
       consecutiveEmpty := if a.quality == Empty then s.consecutiveEmpty + 1 else 0)
  }

  function AddNew(tools: seq<string>, tool: string): seq<string> {
    if tool in tools then tools else tools + [tool]
  }

  // The act phase: the loop state after it, and the tool result if a tool ran.
  datatype Acted = Acted(loop: LoopState, result: Option<EvidenceItem>) | ActRaised

  function Act(env: Env, k: nat, L: LoopState, d: AgentDecision): Acted {
    if !CallsTool(env, d) then Acted(L, None)
    else
      match env.tool.value(k, d)
      case ToolRaises => ActRaised
      case Returned(item) =>
        Acted(L.(state := AddToolEvidence(L.state, d, AssessmentOf(env, d, item)),
                 items := L.items + [item], calls := L.calls + [d.selectedTool]),
              Some(item))
  }

  function StepTokens(env: Env, k: nat, d: AgentDecision): nat {
    if env.tokens(k, d) > 0 then env.tokens(k, d) else 0
  }

  function Terminal(action: Action): Option<Termination> {
    match action
    case AskApproval => Some(AskedApproval)
    case FinalReport => Some(Reported)
    case Handoff => Some(HandedOff)
    case _ => None
  }

  function NextLow(env: Env, low: nat, d: AgentDecision): nat {
    if env.lowLimit.None? then low else if d.confidence < env.lowThreshold then low + 1 else 0
  }

  // The accounting phase.
  function Record(env: Env, budget: LoopBudget, k: nat, L: LoopState, d: AgentDecision,
                  result: Option<EvidenceItem>): Turn {
    if result.Some? && result.value.status == ApprovalRequired then
      Stop(L.(steps := L.steps + [LoopStep(k, d, 0, result)]), ApprovalNeeded)
    else
      var t := StepTokens(env, k, d);
      if budget.maxTokens.Some? && L.tokens + t > budget.maxTokens.value then
        Stop(L.(tokens := L.tokens + t), MaxTokens)
      else
        var done := L.(state := L.state.WithDecision(d), tokens := L.tokens + t,
                       steps := L.steps + [LoopStep(k, d, t, result)]);
        if Terminal(d.action).Some? then Stop(done, Terminal(d.action).value)
        else
          var counted := done.(low := NextLow(env, L.low, d));
          if env.lowLimit.Some? && counted.low >= env.lowLimit.value then Stop(counted, LowConfidence)
          else Continue(counted)
  }

  function TurnOf(env: Env, budget: LoopBudget, deadline: real, k: nat, L: LoopState): Turn {
    if env.clock(k + 1) >= deadline then Stop(L, MaxTime)
    else
      var prepared := Prepare(env, budget, k, L);
      if prepared.None? then Abort else DecidedTurn(env, budget, k, prepared.value)
  }

  // The step from the decision on.
  function DecidedTurn(env: Env, budget: LoopBudget, k: nat, L: LoopState): Turn {
    var reply := DecideAt(env, k, L.state);
    if reply.Raises? then Abort
    else
      var (overridden, d) := Override(env, k, L, reply.decision);
      var acted := Act(env, k, overridden, d);
      if acted.ActRaised? then Abort
      else Record(env, budget, k, acted.loop, d, acted.result)
  }

  // ----- The whole run -----

  // Turn after turn until one does not continue, at most up to step max.
  function Iterate(turn: (nat, LoopState) -> Turn, max: int, k: nat, L: LoopState): (outcome: Turn)
    ensures !outcome.Continue?
    decreases max - k
  {
    if k >= max then Stop(L, MaxSteps)
    else if turn(k, L).Continue? then Iterate(turn, max, k + 1, turn(k, L).loop)
    else turn(k, L)
  }

  function Body(env: Env, budget: LoopBudget, deadline: real): (nat, LoopState) -> Turn {
    (k: nat, L: LoopState) => TurnOf(env, budget, deadline, k, L)
  }

  function BudgetFromState(s: State): LoopBudget {
    LoopBudget(s.budget.maxSteps, s.budget.timeout, None)
  }

  function EffectiveBudget(s: State, budget: Option<LoopBudget>): LoopBudget {
    (if budget.Some? then budget.value else BudgetFromState(s)).Normalize()
  }

  function WithMemory(env: Env, s: State): State {
    if env.memory.None? || s.goal.workspaceId == "" then s
    else
      var context := env.memory.value(s);
      if context == "" then s else s.(memoryContext := context)
  }

  function Entry(env: Env, s: State): LoopState {
    LoopState(WithMemory(env, s), [], [], 0, 0, [], [], [])
  }

  function RunLoop(env: Env, s: State, budget: Option<LoopBudget>): Turn {
    var b := EffectiveBudget(s, budget);
    Iterate(Body(env, b, env.clock(0) + b.maxTime), b.maxSteps, 0, Entry(env, s))
  }

  // ----- The loop itself -----

  method DecideWithFallback(env: Env, k: nat, s: State) returns (reply: Reply)
    ensures reply == DecideAt(env, k, s)
  {
    var recovery := RecoveryDecision(env, s);
    if recovery.Some? {
      return Decided(recovery.value);
    }
    reply := env.provider(k, s);
    if reply.Raises? && env.fallback.Some? {
      reply := env.fallback.value(k, s);
    }
  }

  // One pass of the loop body.
  method RunStep(env: Env, budget: LoopBudget, deadline: real, k: nat, L: LoopState) returns (turn: Turn)
    ensures turn == Body(env, budget, deadline)(k, L)
  {
    if env.clock(k + 1) >= deadline { return Stop(L, MaxTime); }
    var currentState, queue, marks := L.state, L.queue + env.arrivals(2 * k), L.marks;
    if env.hasBridge && currentState.runId != "" {
      var applied := I.ApplyPendingInterventions(I.Pending(queue, marks), currentState, marks);
      if applied.Invalid? { return Abort; }
      currentState, marks := applied.state, applied.marks;
    }
    currentState := WithBudget(currentState, budget, k);
    var reply := DecideWithFallback(env, k, currentState);
    if reply.Raises? { return Abort; }
    var decision := reply.decision;
    queue := queue + env.arrivals(2 * k + 1);
    if env.hasBridge && currentState.runId != "" {
      var overridden := I.ApplyReplaceIntervention(I.Pending(queue, marks), decision, marks);
      decision, marks := overridden.decision, overridden.marks;
    }
    var result: Option<EvidenceItem> := None;
    var items, calls := L.items, L.calls;
    if CallsTool(env, decision) {
      var answer := env.tool.value(k, decision);
      if answer.ToolRaises? { return Abort; }
      result := Some(answer.item);
      items, calls := items + [answer.item], calls + [decision.selectedTool];
      currentState := AddToolEvidence(currentState, decision, AssessmentOf(env, decision, answer.item));
    }
    turn := Account(env, budget, k, LoopState(currentState, L.steps, items, L.tokens, L.low, queue, marks, calls),
                    decision, result);
  }

  method Account(env: Env, budget: LoopBudget, k: nat, L: LoopState, decision: AgentDecision,
                 result: Option<EvidenceItem>)
    returns (turn: Turn)
    ensures turn == Record(env, budget, k, L, decision, result)
  {
    if result.Some? && result.value.status == ApprovalRequired {
      return Stop(L.(steps := L.steps + [LoopStep(k, decision, 0, result)]), ApprovalNeeded);
    }
    var stepTokens := StepTokens(env, k, decision);
    var tokenUsage := L.tokens + stepTokens;
    if budget.maxTokens.Some? && tokenUsage > budget.maxTokens.value {
      return Stop(L.(tokens := tokenUsage), MaxTokens);
    }
    var recorded := L.(state := L.state.WithDecision(decision), tokens := tokenUsage,
                       steps := L.steps + [LoopStep(k, decision, stepTokens, result)]);
    var terminal := Terminal(decision.action);
    if terminal.Some? {
      return Stop(recorded, terminal.value);
    }
    if env.lowLimit.Some? {
      recorded := recorded.(low := if decision.confidence < env.lowThreshold then L.low + 1 else 0);
      if recorded.low >= env.lowLimit.value {
        return Stop(recorded, LowConfidence);
      }
    }
    return Continue(recorded);
  }

  lemma IterateOnce(turn: (nat, LoopState) -> Turn, max: int, k: nat, L: LoopState)
    requires k < max
    ensures Iterate(turn, max, k, L)
            == if turn(k, L).Continue? then Iterate(turn, max, k + 1, turn(k, L).loop) else turn(k, L)
  {}

  method Run(env: Env, s: State, budget: Option<LoopBudget>) returns (outcome: Turn)
    ensures outcome == RunLoop(env, s, budget)
  {
    var b := EffectiveBudget(s, budget);
    var deadline := env.clock(0) + b.maxTime;
    var current := Entry(env, s);
    ghost var body, all := Body(env, b, deadline), RunLoop(env, s, budget);
    assert Iterate(body, b.maxSteps, 0, current) == all;
    for k := 0 to b.maxSteps
      invariant body == Body(env, b, deadline)
      invariant Iterate(body, b.maxSteps, k, current) == all
    {
      var turn := RunStep(env, b, deadline, k, current);
      IterateOnce(body, b.maxSteps, k, current);
      if !turn.Continue? {
        return turn;
      }
      current := turn.loop;
    }
    return Stop(current, MaxSteps);
  }
}

// What a caller of the bounded loop can rely on, whichever way the run ends. In every theorem
// outcome is RunLoop(env, s, given), the outcome of ReactLoop.Run.
module ReactLoopExits {
  import opened Common
  import opened Decision
  import opened Evidence
  import opened ReactLoop
  import opened ReactLoopRuns
  import Recovery
  import I = Intervention

  // ----- How a run ends -----

  datatype Ending = OutOfSteps | OutOfTime | Aborted | ByTurn(passage: Passage)

  ghost predicate EndsBy(r: Setup, j: nat, M: LoopState, e: Ending, outcome: Turn) {
    match e
    case OutOfSteps => j == r.budget.maxSteps && outcome == Stop(M, MaxSteps)
    case OutOfTime => j < r.budget.maxSteps && r.env.clock(j + 1) >= r.deadline && outcome == Stop(M, MaxTime)
    case Aborted => outcome == Abort
    case ByTurn(p) =>
      && j < r.budget.maxSteps && r.env.clock(j + 1) < r.deadline && Passes(r.env, j, M, p)
      && DecisionAt(r.env, r.budget, j, M) == Some(p.decision)
      && outcome == Record(r.env, r.budget, j, p.loop, p.decision, p.result) && outcome.Stop?
  }

  function SetupOf(env: Env, s: State, given: Option<LoopBudget>): Setup {
    var budget := EffectiveBudget(s, given);
    Setup(env, budget, env.clock(0) + budget.maxTime, WithMemory(env, s))
  }

  lemma TurnEnds(r: Setup, j: nat, M: LoopState) returns (e: Ending)
    requires j < r.budget.maxSteps && !TurnOf(r.env, r.budget, r.deadline, j, M).Continue?
    ensures EndsBy(r, j, M, e, TurnOf(r.env, r.budget, r.deadline, j, M))
  {
    var turn := TurnOf(r.env, r.budget, r.deadline, j, M);
    if turn.Abort? {
      e := Aborted;
    } else if r.env.clock(j + 1) >= r.deadline {
      e := OutOfTime;
    } else {
      var prepared := Prepare(r.env, r.budget, j, M).value;
      var p := TakeApart(r.env, r.budget, j, M, prepared);
      e := ByTurn(p);
    }
  }

  lemma {:induction false} BodyKeeps(r: Setup, turn: (nat, LoopState) -> Turn, keep: (nat, LoopState) -> bool)
    requires turn == Body(r.env, r.budget, r.deadline)
    requires forall k: nat, L: LoopState :: keep(k, L) <==> Kept(r, k, L)
    ensures forall k: nat, L: LoopState | keep(k, L) && turn(k, L).Continue? :: keep(k + 1, turn(k, L).loop)
  {
    forall k: nat, L: LoopState | keep(k, L) && turn(k, L).Continue?
      ensures keep(k + 1, turn(k, L).loop)
    {
      TurnKeeps(r, k, L);
    }
  }

  lemma KeptToTheEnd(r: Setup, turn: (nat, LoopState) -> Turn) returns (j: nat, M: LoopState)
    requires turn == Body(r.env, r.budget, r.deadline) && r.budget.maxSteps >= 1
    requires r.budget.maxTokens.Some? ==> r.budget.maxTokens.value >= 0
    ensures j <= r.budget.maxSteps && Kept(r, j, M) && M == StateAt(turn, 0, StartOf(r), j)
    ensures GoesOn(turn, 0, StartOf(r), j)
    ensures Iterate(turn, r.budget.maxSteps, 0, StartOf(r))
            == if j == r.budget.maxSteps then Stop(M, MaxSteps) else turn(j, M)
  {
    var keep := (k: nat, L: LoopState) => Kept(r, k, L);
    BodyKeeps(r, turn, keep);
    StartKept(r);
    j, M := EndsWith(turn, r.budget.maxSteps, 0, StartOf(r), keep);
  }

  // The loop state at the top of step j of a run.
  function TopOf(r: Setup, j: nat): LoopState {
    StateAt(Body(r.env, r.budget, r.deadline), 0, StartOf(r), j)
  }

  // The run gets to the top of step j.
  ghost predicate Reaches(r: Setup, j: nat) {
    GoesOn(Body(r.env, r.budget, r.deadline), 0, StartOf(r), j)
  }

  lemma SetupEnds(r: Setup) returns (j: nat, M: LoopState, e: Ending)
    requires r.budget.maxSteps >= 1 && (r.budget.maxTokens.Some? ==> r.budget.maxTokens.value >= 0)
    ensures Kept(r, j, M) && M == TopOf(r, j) && Reaches(r, j)
    ensures EndsBy(r, j, M, e, Iterate(Body(r.env, r.budget, r.deadline), r.budget.maxSteps, 0, StartOf(r)))
  {
    var turn := Body(r.env, r.budget, r.deadline);
    j, M := KeptToTheEnd(r, turn);
    if j == r.budget.maxSteps {
      e := OutOfSteps;
    } else {
      e := TurnEnds(r, j, M);
    }
  }

  lemma RunIterates(env: Env, s: State, given: Option<LoopBudget>)
    ensures var r := SetupOf(env, s, given);
            RunLoop(env, s, given) == Iterate(Body(r.env, r.budget, r.deadline), r.budget.maxSteps, 0, StartOf(r))
  {
    assert Entry(env, s) == StartOf(SetupOf(env, s, given));
  }

  lemma RunEnds(env: Env, s: State, given: Option<LoopBudget>) returns (j: nat, M: LoopState, e: Ending)
    ensures var r := SetupOf(env, s, given);
            Kept(r, j, M) && M == TopOf(r, j) && Reaches(r, j)
    ensures EndsBy(SetupOf(env, s, given), j, M, e, RunLoop(env, s, given))
  {
    RunIterates(env, s, given);
    j, M, e := SetupEnds(SetupOf(env, s, given));
  }

  // ----- Every step on the way -----

  lemma {:induction false} KeptOnTheWay(r: Setup, turn: (nat, LoopState) -> Turn, k: nat, L: LoopState, j: nat)
    requires turn == Body(r.env, r.budget, r.deadline) && k <= j && Kept(r, k, L) && GoesOn(turn, k, L, j)
    ensures Kept(r, j, StateAt(turn, k, L, j))
    decreases j - k
  {
    if k < j {
      assert turn(k, StateAt(turn, k, L, k)).Continue?;
      TurnKeeps(r, k, L);
      var next := turn(k, L).loop;
      GoesOnAfter(turn, k, L, k + 1, next, j);
      KeptOnTheWay(r, turn, k + 1, next, j);
    }
  }

  // At the top of every step a run gets to, all that the loop keeps holds.
  lemma TopIsKept(env: Env, s: State, given: Option<LoopBudget>, k: nat)
    requires Reaches(SetupOf(env, s, given), k)
    ensures Kept(SetupOf(env, s, given), k, TopOf(SetupOf(env, s, given), k))
  {
    var r := SetupOf(env, s, given);
    StartKept(r);
    KeptOnTheWay(r, Body(r.env, r.budget, r.deadline), 0, StartOf(r), k);
  }

  // The state that the decision of step k is taken on.
  function DecidedOn(r: Setup, k: nat): Option<State> {
    var prepared := Prepare(r.env, r.budget, k, TopOf(r, k));
    if prepared.None? then None else Some(prepared.value.state)
  }

  lemma ContinuedOnAState(r: Setup, k: nat, L: LoopState)
    requires TurnOf(r.env, r.budget, r.deadline, k, L).Continue?
    ensures Prepare(r.env, r.budget, k, L).Some?
  {}

  lemma ReachedUpTo(r: Setup, j: nat, decided: nat, k: nat)
    requires Reaches(r, j) && k < decided <= j + 1 && j <= r.budget.maxSteps
    requires decided == j + 1 ==> j < r.budget.maxSteps && DecidedOn(r, j).Some?
    ensures Reaches(r, k) && k < r.budget.maxSteps && DecidedOn(r, k).Some?
  {
    if k < j {
      ReachedOnAState(r, k, j);
    }
  }

  lemma FinalReached(r: Setup, j: nat, M: LoopState, e: Ending, outcome: Turn)
    requires Books(r, j, M) && M == TopOf(r, j) && EndsBy(r, j, M, e, outcome) && outcome.Stop?
    ensures j <= r.budget.maxSteps && DecisionsTaken(outcome.loop, outcome.reason) <= j + 1
    ensures DecisionsTaken(outcome.loop, outcome.reason) == j + 1 ==>
              j < r.budget.maxSteps && DecidedOn(r, j).Some?
  {
    TakenUpTo(r, j, M, e, outcome);
    EndsWithin(r, j, M, e, outcome);
  }

  // A run gets to every step it decided, and decided it on some state.
  lemma {:induction false} DecidedStepsAreReached(env: Env, s: State, given: Option<LoopBudget>, k: nat)
    requires RunLoop(env, s, given).Stop?
    requires k < DecisionsTaken(RunLoop(env, s, given).loop, RunLoop(env, s, given).reason)
    ensures var r := SetupOf(env, s, given);
            Reaches(r, k) && k < r.budget.maxSteps && DecidedOn(r, k).Some?
  {
    var j, M, e := RunEnds(env, s, given);
    FinalReached(SetupOf(env, s, given), j, M, e, RunLoop(env, s, given));
    ReachedUpTo(SetupOf(env, s, given), j,
                DecisionsTaken(RunLoop(env, s, given).loop, RunLoop(env, s, given).reason), k);
  }

  lemma ReachedOnAState(r: Setup, k: nat, j: nat)
    requires k < j && Reaches(r, j)
    ensures Reaches(r, k) && DecidedOn(r, k).Some?
  {
    assert Body(r.env, r.budget, r.deadline)(k, TopOf(r, k)).Continue?;
    ContinuedOnAState(r, k, TopOf(r, k));
  }

  lemma EndsWithin(r: Setup, j: nat, M: LoopState, e: Ending, outcome: Turn)
    requires EndsBy(r, j, M, e, outcome) && outcome.Stop?
    ensures j <= r.budget.maxSteps
    ensures e.ByTurn? ==> j < r.budget.maxSteps && Prepare(r.env, r.budget, j, M).Some?
  {}

  lemma {:induction false} TakenUpTo(r: Setup, j: nat, M: LoopState, e: Ending, outcome: Turn)
    requires Books(r, j, M) && EndsBy(r, j, M, e, outcome) && outcome.Stop?
    ensures DecisionsTaken(outcome.loop, outcome.reason) == if e.ByTurn? then j + 1 else j
  {
    if e.ByTurn? {
      StepsAtStop(r, j, M, e.passage, outcome);
    }
  }

  // ----- Steps, decisions, tokens and status -----

  // The steps a run recorded and acted on: a pause for approval records its step without deciding.
  function DecidedSteps(steps: seq<LoopStep>, reason: Termination): seq<LoopStep> {
    if reason == ApprovalNeeded && steps != [] then steps[..|steps| - 1] else steps
  }

  // The accounts of a run that starts in s0 and stops with F.
  ghost predicate Balanced(r: Setup, F: LoopState, reason: Termination) {
    && |F.steps| <= r.budget.maxSteps
    && (forall i | 0 <= i < |F.steps| :: F.steps[i].index == i && r.env.clock(i + 1) < r.deadline)
    && F.state.decisions == r.initial.decisions + DecisionsOf(DecidedSteps(F.steps, reason))
    && (reason == MaxTime ==> r.env.clock(|F.steps| + 1) >= r.deadline)
    && (reason == MaxSteps ==> |F.steps| == r.budget.maxSteps)
  }

  // last is the decision of the pass after the recorded steps, if there was one.
  ghost predicate Counted(r: Setup, F: LoopState, reason: Termination, last: Option<AgentDecision>) {
    && (r.budget.maxTokens.Some? ==> TokenSum(F.steps) <= r.budget.maxTokens.value)
    && if reason == MaxTokens then
         && r.budget.maxTokens.Some? && F.tokens > r.budget.maxTokens.value
         && last.Some?
         && var t := r.env.tokens(|F.steps|, last.value); F.tokens == TokenSum(F.steps) + if t > 0 then t else 0
       else F.tokens == TokenSum(F.steps)
  }

  function FinalStatus(before: RunStatus, reason: Termination): RunStatus {
    match reason
    case AskedApproval => WaitingApproval
    case Reported => Completed
    case HandedOff => HandoffRequired
    case _ => before
  }

  // What the accounting adds when it ends the run.
  ghost predicate Adds(env: Env, budget: LoopBudget, k: nat, A: LoopState, d: AgentDecision,
                       result: Option<EvidenceItem>, F: LoopState, reason: Termination) {
    match reason
    case MaxTokens =>
      && F.steps == A.steps && F.state == A.state && F.tokens == A.tokens + StepTokens(env, k, d)
      && budget.maxTokens.Some? && F.tokens > budget.maxTokens.value
    case ApprovalNeeded =>
      F.steps == A.steps + [LoopStep(k, d, 0, result)] && F.state == A.state && F.tokens == A.tokens
    case AskedApproval => AddsStep(env, budget, k, A, d, result, F) && d.action == AskApproval
    case Reported => AddsStep(env, budget, k, A, d, result, F) && d.action == FinalReport
    case HandedOff => AddsStep(env, budget, k, A, d, result, F) && d.action == Handoff
    case LowConfidence =>
      && AddsStep(env, budget, k, A, d, result, F) && Terminal(d.action).None?
      && env.lowLimit.Some? && NextLow(env, A.low, d) >= env.lowLimit.value
    case _ => false
  }

  ghost predicate AddsStep(env: Env, budget: LoopBudget, k: nat, A: LoopState, d: AgentDecision,
                           result: Option<EvidenceItem>, F: LoopState) {
    && F.steps == A.steps + [LoopStep(k, d, StepTokens(env, k, d), result)]
    && F.state == A.state.WithDecision(d) && F.tokens == A.tokens + StepTokens(env, k, d)
    && (budget.maxTokens.Some? ==> F.tokens <= budget.maxTokens.value)
  }

  lemma RecordAdds(env: Env, budget: LoopBudget, k: nat, A: LoopState, d: AgentDecision, result: Option<EvidenceItem>)
    requires Record(env, budget, k, A, d, result).Stop?
    ensures var turn := Record(env, budget, k, A, d, result);
            Adds(env, budget, k, A, d, result, turn.loop, turn.reason)
  {}

  lemma StopBalances(r: Setup, j: nat, M: LoopState, p: Passage, F: LoopState, reason: Termination)
    requires Books(r, j, M) && Untouched(M, p.loop) && j < r.budget.maxSteps && r.env.clock(j + 1) < r.deadline
    requires Adds(r.env, r.budget, j, p.loop, p.decision, p.result, F, reason)
    ensures Balanced(r, F, reason)
  {
    if reason == MaxTokens {
      assert DecidedSteps(F.steps, reason) == M.steps;
      forall i | 0 <= i < |F.steps|
        ensures F.steps[i].index == i && r.env.clock(i + 1) < r.deadline
      {
        assert IsOpenStep(r, M.steps[i], i);
      }
    } else {
      StepBalances(r, j, M, F.steps[j], F, reason);
    }
  }

  lemma StepBalances(r: Setup, j: nat, M: LoopState, step: LoopStep, F: LoopState, reason: Termination)
    requires Books(r, j, M) && j < r.budget.maxSteps && r.env.clock(j + 1) < r.deadline
    requires F.steps == M.steps + [step] && step.index == j && reason != MaxTime && reason != MaxSteps
    requires F.state.decisions == M.state.decisions + if reason == ApprovalNeeded then [] else [step.decision]
    ensures Balanced(r, F, reason)
  {
    AppendStep(M.steps, step, r.initial.decisions);
    assert DecidedSteps(F.steps, reason) == if reason == ApprovalNeeded then M.steps else F.steps;
    forall i | 0 <= i < |F.steps|
      ensures F.steps[i].index == i && r.env.clock(i + 1) < r.deadline
    {
      if i < j {
        assert IsOpenStep(r, M.steps[i], i);
      }
    }
  }

  lemma StepCounts(r: Setup, M: LoopState, step: LoopStep, F: LoopState, reason: Termination,
                   last: Option<AgentDecision>)
    requires M.tokens == TokenSum(M.steps) && reason != MaxTokens
    requires F.steps == M.steps + [step] && F.tokens == M.tokens + step.tokens
    requires r.budget.maxTokens.Some? ==> F.tokens <= r.budget.maxTokens.value
    ensures Counted(r, F, reason, last)
  {
    AppendStep(M.steps, step, []);
  }

  lemma StopCounts(r: Setup, j: nat, M: LoopState, p: Passage, F: LoopState, reason: Termination)
    requires M.tokens == TokenSum(M.steps) && (r.budget.maxTokens.Some? ==> M.tokens <= r.budget.maxTokens.value)
    requires |M.steps| == j && Untouched(M, p.loop)
    requires Adds(r.env, r.budget, j, p.loop, p.decision, p.result, F, reason)
    ensures Counted(r, F, reason, Some(p.decision))
  {
    if reason != MaxTokens {
      var tokens := if reason == ApprovalNeeded then 0 else StepTokens(r.env, j, p.decision);
      StepCounts(r, M, LoopStep(j, p.decision, tokens, p.result), F, reason, Some(p.decision));
    }
  }

  lemma StopsInStatus(r: Setup, j: nat, M: LoopState, p: Passage, F: LoopState, reason: Termination)
    requires M.state.status == r.initial.status && Untouched(M, p.loop)
    requires Adds(r.env, r.budget, j, p.loop, p.decision, p.result, F, reason)
    ensures F.state.status == FinalStatus(r.initial.status, reason)
  {}

  lemma {:induction false} FinalAccounts(r: Setup, j: nat, M: LoopState, e: Ending, outcome: Turn)
    requires Books(r, j, M) && EndsBy(r, j, M, e, outcome) && outcome.Stop? && j <= r.budget.maxSteps
    ensures Balanced(r, outcome.loop, outcome.reason)
    ensures Counted(r, outcome.loop, outcome.reason, DecisionAt(r.env, r.budget, j, M))
    ensures outcome.reason == MaxTokens ==> |outcome.loop.steps| == j
    ensures outcome.loop.state.status == FinalStatus(r.initial.status, outcome.reason)
  {
    if e.ByTurn? {
      var p := e.passage;
      RecordAdds(r.env, r.budget, j, p.loop, p.decision, p.result);
      StopBalances(r, j, M, p, outcome.loop, outcome.reason);
      StopCounts(r, j, M, p, outcome.loop, outcome.reason);
      StopsInStatus(r, j, M, p, outcome.loop, outcome.reason);
    } else {
      BoundBalances(r, j, M, outcome.reason);
    }
  }

  lemma BoundBalances(r: Setup, j: nat, M: LoopState, reason: Termination)
    requires Books(r, j, M) && j <= r.budget.maxSteps
    requires if reason == MaxTime then r.env.clock(j + 1) >= r.deadline
             else reason == MaxSteps && j == r.budget.maxSteps
    ensures Balanced(r, M, reason) && Counted(r, M, reason, None)
  {
    forall i | 0 <= i < |M.steps|
      ensures M.steps[i].index == i && r.env.clock(i + 1) < r.deadline
    {
      assert IsOpenStep(r, M.steps[i], i);
    }
    assert DecidedSteps(M.steps, reason) == M.steps;
  }

  // Steps number at most max_steps with indices 0, 1, ..., all begun before the deadline; the final
  // decisions are the initial ones followed by the steps' decisions, less the last on a pause for
  // approval.
  lemma StepsAndDecisionsAddUp(env: Env, s: State, given: Option<LoopBudget>)
    requires RunLoop(env, s, given).Stop?
    ensures Balanced(SetupOf(env, s, given), RunLoop(env, s, given).loop, RunLoop(env, s, given).reason)
  {
    var r := SetupOf(env, s, given);
    var j, M, e := RunEnds(env, s, given);
    FinalAccounts(r, j, M, e, RunLoop(env, s, given));
  }

  // The decision of the pass after the recorded steps.
  function UnrecordedDecision(r: Setup, F: LoopState): Option<AgentDecision> {
    DecisionAt(r.env, r.budget, |F.steps|, TopOf(r, |F.steps|))
  }

  // Recorded tokens stay within the bound and make up the reported total, except that a run stopped
  // by the bound also reports those of the step that broke it and is not recorded; and the final
  // status is fixed by the reason.
  lemma TokensAndStatusAddUp(env: Env, s: State, given: Option<LoopBudget>)
    requires RunLoop(env, s, given).Stop?
    ensures var (r, F) := (SetupOf(env, s, given), RunLoop(env, s, given).loop);
            Counted(r, F, RunLoop(env, s, given).reason, UnrecordedDecision(r, F))
    ensures RunLoop(env, s, given).loop.state.status == FinalStatus(s.status, RunLoop(env, s, given).reason)
  {
    var r := SetupOf(env, s, given);
    var j, M, e := RunEnds(env, s, given);
    FinalAccounts(r, j, M, e, RunLoop(env, s, given));
  }

  // ----- Evidence -----

  lemma {:induction false} FinalFindings(r: Setup, j: nat, M: LoopState, e: Ending, outcome: Turn)
    requires Findings(r, M) && Careful(r, M) && EndsBy(r, j, M, e, outcome) && outcome.Stop?
    ensures Findings(r, outcome.loop) && Careful(r, outcome.loop)
  {
    if e.ByTurn? {
      var p := e.passage;
      FindingsPassage(r, j, M, p);
      CarefulPassage(r, j, M, p);
      RecordTouches(r.env, r.budget, j, p.loop, p.decision, p.result);
      FindingsCarry(r, p.loop, outcome.loop);
    }
  }

  // New evidence matches the collected items one for one, the executed tools are the initial ones
  // and the newly called ones, and an honest counter of empty results stays honest.
  lemma EvidenceAddsUp(env: Env, s: State, given: Option<LoopBudget>)
    requires RunLoop(env, s, given).Stop?
    ensures Findings(SetupOf(env, s, given), RunLoop(env, s, given).loop)
  {
    var j, M, e := RunEnds(env, s, given);
    FinalFindings(SetupOf(env, s, given), j, M, e, RunLoop(env, s, given));
  }

  // With a recovery manager all new evidence is strong but perhaps the last, and none is gathered if
  // the evidence at the start ends with something that is not; with the deterministic provider at
  // most one tool runs, and only from no evidence.
  lemma {:induction false} RecoveryKeepsEvidenceStrong(env: Env, s: State, given: Option<LoopBudget>)
    requires env.hasRecovery && RunLoop(env, s, given).Stop?
    ensures var F := RunLoop(env, s, given).loop;
            && (forall i | |s.evidence| <= i < |F.state.evidence| - 1 :: F.state.evidence[i].quality == Strong)
            && (F.items != [] ==> s.evidence == [] || Recovery.LatestEvidence(s).quality == Strong)
            && (IsDeterministic(env) ==> |F.items| <= 1 && (F.items != [] ==> s.evidence == []))
  {
    var j, M, e := RunEnds(env, s, given);
    FinalFindings(SetupOf(env, s, given), j, M, e, RunLoop(env, s, given));
  }

  // ----- Executed tools -----

  function FirstIndex(calls: seq<string>, tool: string): (i: nat)
    ensures i <= |calls| && (i < |calls| <==> tool in calls) && (i < |calls| ==> calls[i] == tool)
  {
    if calls == [] || calls[0] == tool then 0 else FirstIndex(calls[1..], tool) + 1
  }

  lemma {:induction false} FirstIndexAppend(calls: seq<string>, more: seq<string>, tool: string)
    ensures FirstIndex(calls + more, tool)
            == if tool in calls then FirstIndex(calls, tool) else |calls| + FirstIndex(more, tool)
  {
    if calls == [] {
      assert calls + more == more;
    } else {
      FirstIndexAppend(calls[1..], more, tool);
      assert (calls + more)[1..] == calls[1..] + more;
    }
  }

  ghost predicate InCallOrder(tools: seq<string>, from: nat, calls: seq<string>)
    requires from <= |tools|
  {
    && (forall i | from <= i < |tools| :: tools[i] in calls)
    && (forall i, j | from <= i < j < |tools| :: FirstIndex(calls, tools[i]) < FirstIndex(calls, tools[j]))
  }

  // Calling tools adds each new one once, in the order of the first calls, and nothing else.
  lemma {:induction false} ExecutedToolsKeepOrder(tools: seq<string>, calls: seq<string>)
    ensures tools <= AddAll(tools, calls)
    ensures forall t :: t in AddAll(tools, calls) <==> t in tools || t in calls
    ensures InCallOrder(AddAll(tools, calls), |tools|, calls)
    ensures (forall i, j | 0 <= i < j < |tools| :: tools[i] != tools[j])
            ==> forall i, j | 0 <= i < j < |AddAll(tools, calls)| :: AddAll(tools, calls)[i] != AddAll(tools, calls)[j]
    decreases |calls|
  {
    if calls != [] {
      var before, t := calls[..|calls| - 1], calls[|calls| - 1];
      ExecutedToolsKeepOrder(tools, before);
      assert calls == before + [t];
      StillInCallOrder(AddAll(tools, before), |tools|, before, t);
    }
  }

  lemma StillInCallOrder(tools: seq<string>, from: nat, calls: seq<string>, t: string)
    requires from <= |tools| && InCallOrder(tools, from, calls) && (t in calls ==> t in tools)
    ensures InCallOrder(AddNew(tools, t), from, calls + [t])
  {
    var all := AddNew(tools, t);
    forall i | from <= i < |tools|
      ensures FirstIndex(calls + [t], tools[i]) == FirstIndex(calls, tools[i]) < |calls|
    {
      FirstIndexAppend(calls, [t], tools[i]);
    }
    if t !in tools {
      FirstIndexAppend(calls, [t], t);
    }
  }

  // ----- Low confidence -----

  // The steps the low-confidence rule looks at: recorded ones that did not end the run themselves.
  function OpenSteps(steps: seq<LoopStep>, reason: Termination): seq<LoopStep> {
    if reason in {ApprovalNeeded, AskedApproval, Reported, HandedOff} && steps != [] then steps[..|steps| - 1]
    else steps
  }

  // The rule fires when the open steps end with the limit of low ones, and no shorter start of them
  // does: at the first chance, never later.
  ghost predicate FiresInTime(env: Env, F: LoopState, reason: Termination) {
    var open := OpenSteps(F.steps, reason);
    if env.lowLimit.None? then reason != LowConfidence
    else
      && (reason == LowConfidence <==> open != [] && TrailingLow(env.lowThreshold, open) >= env.lowLimit.value)
      && NoneFires(env, open, |open|)
  }

  lemma StopFires(r: Setup, j: nat, M: LoopState, p: Passage, F: LoopState, reason: Termination)
    requires Lows(r, M) && Untouched(M, p.loop)
    requires Adds(r.env, r.budget, j, p.loop, p.decision, p.result, F, reason)
    ensures FiresInTime(r.env, F, reason)
  {
    if reason == LowConfidence {
      var step := LoopStep(j, p.decision, StepTokens(r.env, j, p.decision), p.result);
      FiresNow(r.env, M.steps, step);
      assert OpenSteps(F.steps, reason) == M.steps + [step];
    } else if r.env.lowLimit.Some? {
      assert OpenSteps(F.steps, reason) == M.steps by {
        if reason != MaxTokens { assert F.steps[..|F.steps| - 1] == M.steps; }
      }
      FiresNotYet(r.env, M.steps);
    }
  }

  lemma FiresNow(env: Env, steps: seq<LoopStep>, step: LoopStep)
    requires env.lowLimit.Some? && NoneFires(env, steps, |steps| + 1)
    requires NextLow(env, TrailingLow(env.lowThreshold, steps), step.decision) >= env.lowLimit.value
    ensures TrailingLow(env.lowThreshold, steps + [step]) >= env.lowLimit.value
    ensures NoneFires(env, steps + [step], |steps + [step]|)
  {
    AppendLow(env, steps, step);
  }

  lemma FiresNotYet(env: Env, steps: seq<LoopStep>)
    requires env.lowLimit.Some? && NoneFires(env, steps, |steps| + 1)
    ensures steps != [] ==> TrailingLow(env.lowThreshold, steps) < env.lowLimit.value
    ensures NoneFires(env, steps, |steps|)
  {
    assert steps[..|steps|] == steps;
  }

  lemma FinalLows(r: Setup, j: nat, M: LoopState, e: Ending, outcome: Turn)
    requires Lows(r, M) && EndsBy(r, j, M, e, outcome) && outcome.Stop?
    ensures FiresInTime(r.env, outcome.loop, outcome.reason)
  {
    if e.ByTurn? {
      var p := e.passage;
      RecordAdds(r.env, r.budget, j, p.loop, p.decision, p.result);
      StopFires(r, j, M, p, outcome.loop, outcome.reason);
    } else if r.env.lowLimit.Some? {
      FiresNotYet(r.env, M.steps);
    }
  }

  lemma LowConfidenceFiresInTime(env: Env, s: State, given: Option<LoopBudget>)
    requires RunLoop(env, s, given).Stop?
    ensures FiresInTime(env, RunLoop(env, s, given).loop, RunLoop(env, s, given).reason)
  {
    var r := SetupOf(env, s, given);
    var j, M, e := RunEnds(env, s, given);
    FinalLows(r, j, M, e, RunLoop(env, s, given));
  }

  // At least K low steps at the end: the last K are all low.
  lemma {:induction false} TrailingLowMeans(threshold: real, steps: seq<LoopStep>, limit: nat)
    ensures TrailingLow(threshold, steps) >= limit
            <==> && |steps| >= limit
                 && forall i | |steps| - limit <= i < |steps| :: steps[i].decision.confidence < threshold
    decreases |steps|
  {
    if steps != [] && limit > 0 {
      TrailingLowMeans(threshold, steps[..|steps| - 1], limit - 1);
      var rest := steps[..|steps| - 1];
      if |steps| >= limit {
        assert forall i | |steps| - limit <= i < |rest| :: rest[i] == steps[i];
      }
    }
  }

  // ----- Interventions -----

  // What the decisions of the first k steps have been shown.
  function ShownBy(env: Env, k: nat): seq<I.Intervention> {
    if k == 0 then [] else Arrived(env, 2 * k - 1)
  }

  // The number of decisions taken: a run stopped by the token bound took one more than it recorded.
  function DecisionsTaken(F: LoopState, reason: Termination): nat {
    if reason == MaxTokens then |F.steps| + 1 else |F.steps|
  }

  lemma HeardIsShown(r: Setup, k: nat, c: nat, L: LoopState)
    requires HeardUpTo(r, Arrived(r.env, 2 * k), c, L) && c == HeardLength(r.env, k)
    ensures L.queue[..c] == ShownBy(r.env, k)
  {
    if k > 0 {
      assert Arrived(r.env, 2 * k) == Arrived(r.env, 2 * k - 1) + r.env.arrivals(2 * k - 1);
    }
  }

  ghost predicate Applied(r: Setup, shown: seq<I.Intervention>, F: LoopState) {
    && I.HasNoRepeat(F.marks)
    && F.state.observations == r.initial.observations + I.Injected(shown)
    && F.state.goal == I.Modified(shown, r.initial.goal)
  }

  lemma FinalHeard(r: Setup, j: nat, M: LoopState, e: Ending, outcome: Turn)
    requires Books(r, j, M) && Heard(r, j, M) && EndsBy(r, j, M, e, outcome) && outcome.Stop?
    requires Listens(r.env, r.initial) && QueuedOnce(r.env, 2 * DecisionsTaken(outcome.loop, outcome.reason))
    ensures Applied(r, ShownBy(r.env, DecisionsTaken(outcome.loop, outcome.reason)), outcome.loop)
  {
    if e.ByTurn? {
      var p := e.passage;
      StepsAtStop(r, j, M, p, outcome);
      RecordTouches(r.env, r.budget, j, p.loop, p.decision, p.result);
      PassageApplied(r, j, M, p, outcome.loop);
    } else {
      HeardIsShown(r, j, HeardLength(r.env, j), M);
    }
  }

  lemma StepsAtStop(r: Setup, j: nat, M: LoopState, p: Passage, outcome: Turn)
    requires |M.steps| == j && p.loop.steps == M.steps && outcome.Stop?
    requires outcome == Record(r.env, r.budget, j, p.loop, p.decision, p.result)
    ensures DecisionsTaken(outcome.loop, outcome.reason) == j + 1
  {
    RecordAdds(r.env, r.budget, j, p.loop, p.decision, p.result);
  }

  lemma PassageApplied(r: Setup, j: nat, M: LoopState, p: Passage, F: LoopState)
    requires Heard(r, j, M) && Passes(r.env, j, M, p) && SameRest(p.loop, F)
    requires Listens(r.env, r.initial) && QueuedOnce(r.env, 2 * (j + 1))
    ensures Applied(r, ShownBy(r.env, j + 1), F)
  {
    assert 2 * (j + 1) == 2 * j + 2;
    HeardPassage(r, j, M, p);
    AppliedOnce(r, j + 1, p.loop, F);
  }

  lemma AppliedOnce(r: Setup, k: nat, A: LoopState, F: LoopState)
    requires HeardUpTo(r, Arrived(r.env, 2 * k), HeardLength(r.env, k), A) && SameRest(A, F)
    ensures Applied(r, ShownBy(r.env, k), F)
  {
    HeardIsShown(r, k, HeardLength(r.env, k), A);
  }

  // If no intervention object is queued twice before the last read, none is applied twice; the final
  // observations are the initial ones followed by everything injected before the last decision's
  // read, in queue order, and the goal carries every change queued by then.
  lemma {:induction false} InterventionsApplyOnceInOrder(env: Env, s: State, given: Option<LoopBudget>)
    requires RunLoop(env, s, given).Stop? && Listens(env, s)
    requires QueuedOnce(env, 2 * DecisionsTaken(RunLoop(env, s, given).loop, RunLoop(env, s, given).reason))
    ensures var (F, reason) := (RunLoop(env, s, given).loop, RunLoop(env, s, given).reason);
            var shown := ShownBy(env, DecisionsTaken(F, reason));
            && I.HasNoRepeat(F.marks)
            && F.state.observations == s.observations + I.Injected(shown)
            && F.state.goal == I.Modified(shown, s.goal)
  {
    var r := SetupOf(env, s, given);
    var j, M, e := RunEnds(env, s, given);
    FinalHeard(r, j, M, e, RunLoop(env, s, given));
  }

  lemma {:induction false} FinalFollows(r: Setup, j: nat, M: LoopState, e: Ending, outcome: Turn)
    requires Books(r, j, M) && Follows(r, j, M) && EndsBy(r, j, M, e, outcome) && outcome.Stop?
    ensures Follows(r, DecisionsTaken(outcome.loop, outcome.reason), outcome.loop)
  {
    if e.ByTurn? {
      var p := e.passage;
      StepsAtStop(r, j, M, p, outcome);
      RecordTouches(r.env, r.budget, j, p.loop, p.decision, p.result);
      FollowsPassage(r, j, M, p);
      FollowsCarry(r, j + 1, p.loop, outcome.loop);
    }
  }

  // Read number m finds no unmarked object of its kinds twice.
  ghost predicate ReadIsOnce(env: Env, m: nat) {
    I.NoneTwice(I.Pending(Arrived(env, m + 1), Seen(env, m)), m % 2 == 1)
  }

  lemma SeenOnceStep(env: Env, m: nat)
    ensures I.HasNoRepeat(Seen(env, m + 1)) <==> I.HasNoRepeat(Seen(env, m)) && ReadIsOnce(env, m)
  {
    I.MarksOnceExactly(Arrived(env, m + 1), Seen(env, m), m % 2 == 1);
  }

  // What starts true and goes on exactly while each step is fine is true exactly if all steps were.
  lemma {:induction false} HoldsWhileAll(holds: nat -> bool, fine: nat -> bool, n: nat)
    requires holds(0) && forall m: nat :: holds(m + 1) <==> holds(m) && fine(m)
    ensures holds(n) <==> forall m: nat | m < n :: fine(m)
  {
    if n > 0 {
      HoldsWhileAll(holds, fine, n - 1);
      assert holds(n - 1 + 1) <==> holds(n - 1) && fine(n - 1);
    }
  }

  lemma SeenOnceExactly(env: Env, n: nat)
    ensures I.HasNoRepeat(Seen(env, n)) <==> forall m: nat | m < n :: ReadIsOnce(env, m)
  {
    var holds := (m: nat) => I.HasNoRepeat(Seen(env, m));
    var fine := (m: nat) => ReadIsOnce(env, m);
    forall m: nat
      ensures holds(m + 1) <==> holds(m) && fine(m)
    {
      SeenOnceStep(env, m);
    }
    HoldsWhileAll(holds, fine, n);
    assert forall m: nat :: fine(m) == ReadIsOnce(env, m);
  }

  // Whatever is queued, a run applies exactly what its reads find, and no object twice exactly when
  // none of these reads finds an unmarked object twice.
  lemma {:induction false} InterventionsApplyOnceExactlyWhen(env: Env, s: State, given: Option<LoopBudget>)
    requires RunLoop(env, s, given).Stop? && Listens(env, s)
    ensures var (F, reason) := (RunLoop(env, s, given).loop, RunLoop(env, s, given).reason);
            var n := DecisionsTaken(F, reason);
            && F.marks == Seen(env, 2 * n)
            && (I.HasNoRepeat(F.marks) <==> forall m: nat | m < 2 * n :: ReadIsOnce(env, m))
            && F.state.observations == s.observations + Injections(env, n) && F.state.goal == Changed(env, n, s.goal)
  {
    var r := SetupOf(env, s, given);
    var j, M, e := RunEnds(env, s, given);
    FinalFollows(r, j, M, e, RunLoop(env, s, given));
    SeenOnceExactly(env, 2 * DecisionsTaken(RunLoop(env, s, given).loop, RunLoop(env, s, given).reason));
  }

  lemma ReadShows(r: Setup, k: nat, L: LoopState)
    requires HeardUpTo(r, Arrived(r.env, 2 * k), HeardLength(r.env, k), L) && QueuedOnce(r.env, 2 * k + 1)
    ensures var first := Arrived(r.env, 2 * k + 1);
            && first == L.queue + r.env.arrivals(2 * k)
            && L.state.observations + I.Injected(I.Pending(first, L.marks))
               == r.initial.observations + I.Injected(first)
            && I.Modified(I.Pending(first, L.marks), L.state.goal) == I.Modified(first, r.initial.goal)
  {
    var first, c := Arrived(r.env, 2 * k + 1), HeardLength(r.env, k);
    ArrivedTwice(r.env, k);
    I.MarkedWhenLonger(L.queue, r.env.arrivals(2 * k), L.marks, c, |L.queue|);
    I.ReadBefore(first, L.marks, c, |L.queue|, L.state.goal);
    JoinHeard(r, L, first, c);
  }

  lemma ShownWhenKept(r: Setup, k: nat, L: LoopState)
    requires Heard(r, k, L) && Listens(r.env, r.initial) && QueuedOnce(r.env, 2 * k + 1)
    requires Prepare(r.env, r.budget, k, L).Some?
    ensures var before := Prepare(r.env, r.budget, k, L).value.state;
            && before.observations == r.initial.observations + I.Injected(Arrived(r.env, 2 * k + 1))
            && before.goal == I.Modified(Arrived(r.env, 2 * k + 1), r.initial.goal)
  {
    QueuedOnceBefore(r.env, 2 * k, 2 * k + 1);
    ReadShows(r, k, L);
    PrepareTouches(r.env, r.budget, k, L);
  }

  // Every decision of a run is taken on everything injected and changed before its own read.
  lemma DecidesOnAllShown(env: Env, s: State, given: Option<LoopBudget>, k: nat)
    requires Reaches(SetupOf(env, s, given), k) && DecidedOn(SetupOf(env, s, given), k).Some?
    requires Listens(env, s) && QueuedOnce(env, 2 * k + 1)
    ensures var seen := DecidedOn(SetupOf(env, s, given), k).value;
            && seen.observations == s.observations + I.Injected(Arrived(env, 2 * k + 1))
            && seen.goal == I.Modified(Arrived(env, 2 * k + 1), s.goal)
  {
    var r := SetupOf(env, s, given);
    TopIsKept(env, s, given, k);
    ShownWhenKept(r, k, TopOf(r, k));
  }

  lemma BudgetWhenKept(r: Setup, k: nat, L: LoopState)
    requires Books(r, k, L) && Prepare(r.env, r.budget, k, L).Some?
    ensures var seen := Prepare(r.env, r.budget, k, L).value.state.budget;
            && seen.maxSteps == r.budget.maxSteps && seen.remainingSteps == r.budget.maxSteps - k
            && seen.remainingToolCalls == r.initial.budget.remainingToolCalls
            && seen.timeout == r.budget.maxTime && seen.remainingSeconds == Some(r.budget.maxTime)
  {
    PrepareTouches(r.env, r.budget, k, L);
  }

  // Every decision of a run sees as many steps left as the run can still take, itself included, but
  // always the whole time of the run. The
  // loop never counts tool calls down, so whether a decision sees an exhausted budget was settled at
  // the start.
  lemma SeesStepsLeft(env: Env, s: State, given: Option<LoopBudget>, k: nat)
    requires Reaches(SetupOf(env, s, given), k) && DecidedOn(SetupOf(env, s, given), k).Some?
    requires k < EffectiveBudget(s, given).maxSteps
    ensures var (seen, max) := (DecidedOn(SetupOf(env, s, given), k).value.budget, EffectiveBudget(s, given).maxSteps);
            && seen.remainingSteps == max - k > 0 && seen.maxSteps == max
            && seen.timeout == EffectiveBudget(s, given).maxTime && seen.remainingSeconds == Some(seen.timeout)
            && (seen.Exhausted() <==> s.budget.remainingToolCalls <= 0)
  {
    var r := SetupOf(env, s, given);
    TopIsKept(env, s, given, k);
    BudgetWhenKept(r, k, TopOf(r, k));
  }

  // ----- A recovery that leads nowhere -----

  // From step k0 on the loop has only decided d, but for replaced calls, without running a tool.
  ghost predicate Stuck(d: AgentDecision, exactly: bool, k0: nat, L0: LoopState, k: nat, L: LoopState) {
    && SameFindings(L0.state, L.state) && L.state.runId == L0.state.runId
    && L.items == L0.items && L.calls == L0.calls
    && Repeats(d, exactly, L0, L) && |L.steps| == |L0.steps| + k - k0
  }

  ghost predicate Repeats(d: AgentDecision, exactly: bool, L0: LoopState, L: LoopState) {
    && L0.steps <= L.steps
    && forall i | |L0.steps| <= i < |L.steps| :: Again(d, exactly, L.steps[i].decision) && L.steps[i].toolResult == None
  }

  ghost predicate Again(d: AgentDecision, exactly: bool, e: AgentDecision) {
    SameButForCall(d, e) && (exactly ==> e == d)
  }

  // Nobody listens, or every replacement queued at step k was applied and none arrives before the end.
  ghost predicate NoReplacement(r: Setup, k: nat, L: LoopState) {
    Listens(r.env, L.state) ==>
      && I.AllMarked(L.queue, L.marks, true)
      && forall n | 2 * k <= n < 2 * r.budget.maxSteps :: NoneReplaces(r.env.arrivals(n))
  }

  ghost predicate NoneReplaces(queue: seq<I.Intervention>) {
    forall iv | iv in queue :: !iv.kind.ReplaceToolCall?
  }

  lemma RecoveryReadsFindings(env: Env, s: State, t: State)
    requires SameFindings(s, t)
    ensures RecoveryDecision(env, s) == RecoveryDecision(env, t)
  {}

  lemma NoToolToRecover(r: Setup, k: nat, L: LoopState, d: AgentDecision)
    requires DecideAt(r.env, k, L.state) == Decided(d)
    requires Override(r.env, k, L, d).1.action == Recover
    ensures DecidedTurn(r.env, r.budget, k, L)
            == Record(r.env, r.budget, k, Override(r.env, k, L, d).0, Override(r.env, k, L, d).1, None)
  {}

  // A step that recovery decides to "recover" fails, or records that decision, with a replaced call
  // at most, and changes nothing that recovery looks at.
  lemma RecoverTurn(r: Setup, k: nat, L: LoopState, d: AgentDecision) returns (P: LoopState, e: AgentDecision)
    requires RecoveryDecision(r.env, L.state) == Some(d) && d.action == Recover
    requires Prepare(r.env, r.budget, k, L).Some?
    ensures Untouched(L, P) && SameFindings(L.state, P.state) && P.items == L.items && P.calls == L.calls
    ensures P.queue == L.queue + r.env.arrivals(2 * k) + r.env.arrivals(2 * k + 1) && L.marks <= P.marks
    ensures SameButForCall(d, e)
    ensures !Listens(r.env, L.state) || I.AllMarked(P.queue, L.marks, true) ==> e == d
    ensures DecidedTurn(r.env, r.budget, k, Prepare(r.env, r.budget, k, L).value)
            == Record(r.env, r.budget, k, P, e, None)
  {
    PrepareTouches(r.env, r.budget, k, L);
    var prepared := Prepare(r.env, r.budget, k, L).value;
    RecoveryReadsFindings(r.env, L.state, prepared.state);
    OverrideTouches(r.env, k, prepared, d);
    NoToolToRecover(r, k, prepared, d);
    P, e := Override(r.env, k, prepared, d).0, Override(r.env, k, prepared, d).1;
    I.PendingIds(P.queue, prepared.marks, true);
  }

  ghost predicate StuckStop(d: AgentDecision, exactly: bool, L0: LoopState, turn: Turn) {
    turn.Abort? ||
    (&& turn.Stop? && turn.reason in {MaxTime, MaxTokens, MaxSteps, LowConfidence}
     && Repeats(d, exactly, L0, turn.loop)
     && turn.loop.items == L0.items && turn.loop.state.evidence == L0.state.evidence)
  }

  lemma StuckRecord(r: Setup, d: AgentDecision, exactly: bool, k0: nat, L0: LoopState, k: nat, P: LoopState,
                    e: AgentDecision)
    requires d.action == Recover && Stuck(d, exactly, k0, L0, k, P) && Again(d, exactly, e)
    ensures var turn := Record(r.env, r.budget, k, P, e, None);
            if turn.Continue? then Stuck(d, exactly, k0, L0, k + 1, turn.loop) else StuckStop(d, exactly, L0, turn)
    ensures Record(r.env, r.budget, k, P, e, None).Continue? ==>
              SameRest(P, Record(r.env, r.budget, k, P, e, None).loop)
  {}

  // One more stuck step: the run goes on stuck, or it fails or a bound ends it.
  lemma StuckStep(r: Setup, d: AgentDecision, exactly: bool, k0: nat, L0: LoopState, k: nat, L: LoopState)
    requires RecoveryDecision(r.env, L0.state) == Some(d) && d.action == Recover
    requires Stuck(d, exactly, k0, L0, k, L) && (exactly ==> NoReplacement(r, k, L)) && k < r.budget.maxSteps
    ensures var turn := TurnOf(r.env, r.budget, r.deadline, k, L);
            if turn.Continue? then
              Stuck(d, exactly, k0, L0, k + 1, turn.loop) && (exactly ==> NoReplacement(r, k + 1, turn.loop))
            else StuckStop(d, exactly, L0, turn)
  {
    var prepared := Prepare(r.env, r.budget, k, L);
    if r.env.clock(k + 1) < r.deadline && prepared.Some? {
      RecoveryReadsFindings(r.env, L0.state, L.state);
      var P, e := RecoverTurn(r, k, L, d);
      if exactly && Listens(r.env, L.state) {
        NothingNewReplaces(r, k, L, P.queue);
      }
      StuckRecord(r, d, exactly, k0, L0, k, P, e);
    }
  }

  lemma NothingNewReplaces(r: Setup, k: nat, L: LoopState, queue: seq<I.Intervention>)
    requires NoReplacement(r, k, L) && Listens(r.env, L.state) && k < r.budget.maxSteps
    requires queue == L.queue + r.env.arrivals(2 * k) + r.env.arrivals(2 * k + 1)
    ensures I.AllMarked(queue, L.marks, true)
  {
    assert NoneReplaces(r.env.arrivals(2 * k)) && NoneReplaces(r.env.arrivals(2 * k + 1));
  }

  // Once recovery decides to "recover", no intervention frees the run: it decides the same again,
  // runs no tool and gathers nothing until it fails or a bound ends it. A replacement changes the
  // recorded call at most; without one the decisions are identical.
  lemma {:induction false} RecoverRepeats(r: Setup, d: AgentDecision, k0: nat, L0: LoopState,
                                          turn: (nat, LoopState) -> Turn)
    requires turn == Body(r.env, r.budget, r.deadline) && k0 <= r.budget.maxSteps
    requires RecoveryDecision(r.env, L0.state) == Some(d) && d.action == Recover
    ensures StuckStop(d, NoReplacement(r, k0, L0), L0, Iterate(turn, r.budget.maxSteps, k0, L0))
  {
    var max, exactly := r.budget.maxSteps, NoReplacement(r, k0, L0);
    var keep := (k: nat, L: LoopState) =>
      k >= k0 && Stuck(d, exactly, k0, L0, k, L) && (exactly ==> NoReplacement(r, k, L));
    forall k: nat, L: LoopState | k < max && keep(k, L) && turn(k, L).Continue?
      ensures keep(k + 1, turn(k, L).loop)
    {
      StuckStep(r, d, exactly, k0, L0, k, L);
    }
    var j, M := EndsWith(turn, max, k0, L0, keep);
    if j < max {
      StuckStep(r, d, exactly, k0, L0, j, M);
      IterateOnce(turn, max, j, M);
    }
  }
}

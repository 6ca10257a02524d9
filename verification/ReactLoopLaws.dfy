// What the steps of a run tell, in terms of the oracles alone: how each decision was chosen, which
// tool ran and what it returned, what that cost, and why the run ended.
module ReactLoopLaws {
  import opened Common
  import opened Decision
  import opened Evidence
  import opened ReactLoop
  import opened ReactLoopRuns
  import opened ReactLoopExits
  import Recovery
  import I = Intervention

  // ----- The bounds of a run and the state it starts from -----

  // b is the least of those not below low and x.
  ghost predicate IsRaisedTo(b: real, x: real, low: real) {
    b >= low && b >= x && (b == low || b == x)
  }

  // Without a budget of its own a run takes that of its state, which has no bound on tokens. It may
  // take at least one step and a millisecond, and has until then from the first reading of the clock.
  // The memory it starts with is what the retriever finds for the workspace, if it finds something.
  lemma SetupIs(env: Env, s: State, given: Option<LoopBudget>)
    ensures var r := SetupOf(env, s, given);
            && IsRaisedTo(r.budget.maxSteps as real,
                          (if given.Some? then given.value.maxSteps else s.budget.maxSteps) as real, 1.0)
            && IsRaisedTo(r.budget.maxTime, if given.Some? then given.value.maxTime else s.budget.timeout, 0.001)
            && (r.budget.maxTokens.Some? <==> given.Some? && given.value.maxTokens.Some?)
            && (r.budget.maxTokens.Some? ==>
                  IsRaisedTo(r.budget.maxTokens.value as real, given.value.maxTokens.value as real, 0.0))
            && r.deadline == env.clock(0) + r.budget.maxTime
            && r.initial == s.(memoryContext := r.initial.memoryContext)
            && (if env.memory.Some? && s.goal.workspaceId != "" && env.memory.value(s) != "" then
                  r.initial.memoryContext == env.memory.value(s)
                else r.initial.memoryContext == s.memoryContext)
  {}

  // ----- Choosing -----

  // Recovery decides if it has something to say; else the provider does, or the fallback if the
  // provider raises.
  ghost predicate Chooses(env: Env, k: nat, s: State, d: AgentDecision) {
    if env.hasRecovery && Recovery.RecoveryDecision(s).Some? then Recovery.RecoveryDecision(s) == Some(d)
    else if env.provider(k, s).Decided? then env.provider(k, s) == Decided(d)
    else env.fallback.Some? && env.fallback.value(k, s) == Decided(d)
  }

  // No decision is taken exactly when all of them fail.
  ghost predicate NobodyDecides(env: Env, k: nat, s: State) {
    && (env.hasRecovery ==> Recovery.RecoveryDecision(s).None?)
    && env.provider(k, s).Raises?
    && (env.fallback.Some? ==> env.fallback.value(k, s).Raises?)
  }

  lemma DecisionIsChosen(env: Env, k: nat, s: State)
    ensures DecideAt(env, k, s).Raises? <==> NobodyDecides(env, k, s)
    ensures DecideAt(env, k, s).Decided? ==> Chooses(env, k, s, DecideAt(env, k, s).decision)
  {}

  // The replacements found after the decision of step k, if someone listens.
  function FoundAfter(r: Setup, k: nat): seq<I.Intervention> {
    var prepared := Prepare(r.env, r.budget, k, TopOf(r, k));
    if prepared.None? || !(r.env.hasBridge && TopOf(r, k).state.runId != "") then []
    else I.Pending(prepared.value.queue + r.env.arrivals(2 * k + 1), prepared.value.marks)
  }

  // The decision of step k is the chosen one, with the replacements found after it.
  ghost predicate Decides(r: Setup, k: nat, d: AgentDecision) {
    DecidedOn(r, k).Some? &&
    exists chosen ::
      && Chooses(r.env, k, DecidedOn(r, k).value, chosen)
      && d == I.ApplyReplace(FoundAfter(r, k), chosen, []).decision
  }

  lemma {:induction false} MarksDoNotReplace(found: seq<I.Intervention>, d: AgentDecision, a: seq<nat>, b: seq<nat>)
    ensures I.ApplyReplace(found, d, a).decision == I.ApplyReplace(found, d, b).decision
    decreases found
  {
    if found != [] {
      var iv := found[0];
      if iv.kind.ReplaceToolCall? {
        MarksDoNotReplace(found[1..], I.Replaced(iv.kind, d), a + [iv.id], b + [iv.id]);
      } else {
        MarksDoNotReplace(found[1..], d, a, b);
      }
    }
  }

  lemma DecisionAtDecides(r: Setup, k: nat, d: AgentDecision)
    requires DecisionAt(r.env, r.budget, k, TopOf(r, k)) == Some(d)
    ensures Decides(r, k, d)
  {
    var L := TopOf(r, k);
    PrepareTouches(r.env, r.budget, k, L);
    var prepared := Prepare(r.env, r.budget, k, L).value;
    DecisionIsChosen(r.env, k, prepared.state);
    var chosen := DecideAt(r.env, k, prepared.state).decision;
    MarksDoNotReplace(FoundAfter(r, k), chosen, prepared.marks, []);
    assert Chooses(r.env, k, prepared.state, chosen);
  }

  // ----- Step by step -----

  lemma {:induction false} OneMoreTurn(turn: (nat, LoopState) -> Turn, k: nat, L: LoopState, j: nat)
    requires k <= j && GoesOn(turn, k, L, j + 1)
    ensures turn(j, StateAt(turn, k, L, j)).Continue?
    ensures StateAt(turn, k, L, j + 1) == turn(j, StateAt(turn, k, L, j)).loop
    decreases j - k
  {
    assert turn(k, StateAt(turn, k, L, k)).Continue?;
    if k < j {
      GoesOnAfter(turn, k, L, k + 1, turn(k, L).loop, j + 1);
      OneMoreTurn(turn, k + 1, turn(k, L).loop, j);
    }
  }

  lemma ReachedBefore(r: Setup, i: nat, j: nat)
    requires i <= j && Reaches(r, j)
    ensures Reaches(r, i)
  {}

  // Every step that a run completes is a passage, and the next step starts from its accounting.
  lemma StepIsPassage(r: Setup, k: nat) returns (p: Passage)
    requires Reaches(r, k + 1)
    ensures Passes(r.env, k, TopOf(r, k), p) && DecisionAt(r.env, r.budget, k, TopOf(r, k)) == Some(p.decision)
    ensures Record(r.env, r.budget, k, p.loop, p.decision, p.result) == Continue(TopOf(r, k + 1))
  {
    var turn, L := Body(r.env, r.budget, r.deadline), TopOf(r, k);
    OneMoreTurn(turn, 0, StartOf(r), k);
    var prepared := Prepare(r.env, r.budget, k, L).value;
    p := TakeApart(r.env, r.budget, k, L, prepared);
  }

  // What step number i of a run is: its decision, what the executor answered, and its tokens.
  ghost predicate IsStep(r: Setup, i: nat, step: LoopStep) {
    && step.index == i && Decides(r, i, step.decision)
    && Answers(r.env, i, step.decision, step.toolResult)
  }

  ghost predicate Costs(env: Env, step: LoopStep) {
    step.tokens == if env.tokens(step.index, step.decision) > 0 then env.tokens(step.index, step.decision) else 0
  }

  // The steps of a list that ran a tool.
  function Calls(steps: seq<LoopStep>): seq<LoopStep> {
    if steps == [] then []
    else Calls(steps[..|steps| - 1]) + if steps[|steps| - 1].toolResult.Some? then [steps[|steps| - 1]] else []
  }

  // What a run has gathered is what these steps' tools returned, in order, each assessed by the
  // assessor, or as its decision was if there is none.
  ghost predicate GatheredBy(r: Setup, calls: seq<LoopStep>, L: LoopState) {
    var n := |r.initial.evidence|;
    && |L.items| == |L.calls| == |calls| && |L.state.evidence| == n + |calls|
    && L.state.evidence[..n] == r.initial.evidence
    && forall c | 0 <= c < |calls| && calls[c].toolResult.Some? ::
         && L.items[c] == calls[c].toolResult.value && L.calls[c] == calls[c].decision.selectedTool
         && L.state.evidence[n + c]
            == if r.env.hasAssessor then Assess(calls[c].toolResult.value) else calls[c].decision.evidence
  }

  lemma CallsAppend(steps: seq<LoopStep>, step: LoopStep)
    ensures Calls(steps + [step]) == Calls(steps) + if step.toolResult.Some? then [step] else []
  {
    assert (steps + [step])[..|steps|] == steps;
  }

  lemma GathersMore(r: Setup, k: nat, L: LoopState, p: Passage, calls: seq<LoopStep>, step: LoopStep)
    requires GatheredBy(r, calls, L) && Passes(r.env, k, L, p)
    requires step.decision == p.decision && step.toolResult == p.result
    ensures GatheredBy(r, calls + if p.result.Some? then [step] else [], p.loop)
  {
    if p.result.Some? {
      var all, n := calls + [step], |r.initial.evidence|;
      forall c | 0 <= c < |all| && all[c].toolResult.Some?
        ensures p.loop.items[c] == all[c].toolResult.value && p.loop.calls[c] == all[c].decision.selectedTool
        ensures p.loop.state.evidence[n + c]
                == if r.env.hasAssessor then Assess(all[c].toolResult.value) else all[c].decision.evidence
      {
        if c < |calls| {
          assert all[c] == calls[c];
        }
      }
      assert p.loop.state.evidence[..n] == L.state.evidence[..n];
    } else {
      assert calls + [] == calls;
    }
  }

  predicate AsksApproval(step: LoopStep) {
    step.toolResult.Some? && step.toolResult.value.status == ApprovalRequired
  }

  // A step after which the run goes on: no terminal action, and no pause for approval.
  ghost predicate IsPassed(r: Setup, i: nat, step: LoopStep) {
    && IsStep(r, i, step) && Costs(r.env, step)
    && step.decision.action in {Observe, CallTool, Recover} && !AsksApproval(step)
  }

  ghost predicate Told(r: Setup, k: nat, L: LoopState) {
    && |L.steps| == k && (forall i | 0 <= i < k :: IsPassed(r, i, L.steps[i]))
    && GatheredBy(r, Calls(L.steps), L)
    && L.state.memoryContext == r.initial.memoryContext
  }

  lemma PassedWhenContinued(r: Setup, k: nat, p: Passage, next: LoopState)
    requires Record(r.env, r.budget, k, p.loop, p.decision, p.result) == Continue(next)
    requires Decides(r, k, p.decision) && Answers(r.env, k, p.decision, p.result)
    ensures exists step ::
              && next.steps == p.loop.steps + [step] && IsPassed(r, k, step)
              && step.decision == p.decision && step.toolResult == p.result
    ensures next.state.memoryContext == p.loop.state.memoryContext
  {
    var step := LoopStep(k, p.decision, StepTokens(r.env, k, p.decision), p.result);
    assert next.steps == p.loop.steps + [step] && IsPassed(r, k, step);
  }

  lemma GatheredCarry(r: Setup, calls: seq<LoopStep>, A: LoopState, B: LoopState)
    requires GatheredBy(r, calls, A) && SameRest(A, B)
    ensures GatheredBy(r, calls, B)
  {}

  lemma ToldNext(r: Setup, k: nat, L: LoopState, p: Passage, next: LoopState)
    requires Told(r, k, L) && Passes(r.env, k, L, p) && Decides(r, k, p.decision)
    requires Record(r.env, r.budget, k, p.loop, p.decision, p.result) == Continue(next)
    ensures Told(r, k + 1, next)
  {
    PassedWhenContinued(r, k, p, next);
    var step :| && next.steps == p.loop.steps + [step] && IsPassed(r, k, step)
                && step.decision == p.decision && step.toolResult == p.result;
    GathersMore(r, k, L, p, Calls(L.steps), step);
    RecordTouches(r.env, r.budget, k, p.loop, p.decision, p.result);
    CallsAppend(L.steps, step);
    GatheredCarry(r, Calls(next.steps), p.loop, next);
  }

  lemma {:induction false} TopIsTold(r: Setup, k: nat)
    requires Reaches(r, k)
    ensures Told(r, k, TopOf(r, k))
  {
    if k == 0 {
      assert TopOf(r, 0) == StartOf(r);
    } else {
      ReachedBefore(r, k - 1, k);
      TopIsTold(r, k - 1);
      var p := StepIsPassage(r, k - 1);
      DecisionAtDecides(r, k - 1, p.decision);
      ToldNext(r, k - 1, TopOf(r, k - 1), p, TopOf(r, k));
    }
  }

  // ----- The whole run -----

  // All passes of a run that stopped with F, the one that broke the token bound included.
  ghost predicate Tells(r: Setup, F: LoopState, all: seq<LoopStep>) {
    && (forall i | 0 <= i < |all| :: IsStep(r, i, all[i]))
    && F.steps <= all && GatheredBy(r, Calls(all), F)
    && F.state.memoryContext == r.initial.memoryContext
  }

  lemma LastPass(r: Setup, j: nat, M: LoopState, p: Passage, F: LoopState, reason: Termination)
    returns (all: seq<LoopStep>)
    requires Told(r, j, M) && Passes(r.env, j, M, p) && Decides(r, j, p.decision) && SameRest(p.loop, F)
    requires Adds(r.env, r.budget, j, p.loop, p.decision, p.result, F, reason)
    ensures Tells(r, F, all) && |all| == j + 1
  {
    var step := if reason == MaxTokens then LoopStep(j, p.decision, 0, p.result) else F.steps[j];
    all := M.steps + [step];
    GathersMore(r, j, M, p, Calls(M.steps), step);
    CallsAppend(M.steps, step);
    GatheredCarry(r, Calls(all), p.loop, F);
    forall i | 0 <= i < |all|
      ensures IsStep(r, i, all[i])
    {
      if i < j {
        assert IsPassed(r, i, M.steps[i]);
      }
    }
  }

  lemma AllPasses(r: Setup, j: nat, M: LoopState, e: Ending, outcome: Turn) returns (all: seq<LoopStep>)
    requires Told(r, j, M) && M == TopOf(r, j) && EndsBy(r, j, M, e, outcome) && outcome.Stop?
    ensures Tells(r, outcome.loop, all) && |all| == DecisionsTaken(outcome.loop, outcome.reason)
  {
    if e.ByTurn? {
      var p := e.passage;
      RecordAdds(r.env, r.budget, j, p.loop, p.decision, p.result);
      RecordTouches(r.env, r.budget, j, p.loop, p.decision, p.result);
      DecisionAtDecides(r, j, p.decision);
      StepsAtStop(r, j, M, p, outcome);
      all := LastPass(r, j, M, p, outcome.loop, outcome.reason);
    } else {
      all := M.steps;
      assert forall i | 0 <= i < |all| :: IsPassed(r, i, all[i]);
    }
  }

  // Every pass of a run decided what recovery, the provider or the fallback chose, with the
  // replacements found after it; it carries a tool result exactly when that decision calls a named tool
  // and there is an executor, and then the result is the executor's answer. The items, the new evidence
  // and the called tools of the run are exactly those of these passes, in order.
  lemma {:induction false} RunTells(env: Env, s: State, given: Option<LoopBudget>) returns (all: seq<LoopStep>)
    requires RunLoop(env, s, given).Stop?
    ensures var (F, reason) := (RunLoop(env, s, given).loop, RunLoop(env, s, given).reason);
            Tells(SetupOf(env, s, given), F, all) && |all| == DecisionsTaken(F, reason)
  {
    var r := SetupOf(env, s, given);
    var j, M, e := RunEnds(env, s, given);
    TopIsTold(r, j);
    all := AllPasses(r, j, M, e, RunLoop(env, s, given));
  }

  // The steps before the last went on; the last one says why the run ended.
  ghost predicate EndsAsSaid(r: Setup, F: LoopState, reason: Termination) {
    && (forall i | 0 <= i < |F.steps| - 1 :: IsPassed(r, i, F.steps[i]))
    && (F.steps == [] ==> reason == MaxTime || reason == MaxTokens)
    && (F.steps != [] ==>
          var last := F.steps[|F.steps| - 1];
          && (reason == AskedApproval <==> last.decision.action == AskApproval)
          && (reason == Reported <==> last.decision.action == FinalReport)
          && (reason == HandedOff <==> last.decision.action == Handoff)
          && (reason == ApprovalNeeded <==> AsksApproval(last))
          && if AsksApproval(last) then last.tokens == 0 else Costs(r.env, last))
  }

  lemma PausesExactlyWhen(env: Env, budget: LoopBudget, k: nat, A: LoopState, d: AgentDecision,
                          result: Option<EvidenceItem>)
    requires Record(env, budget, k, A, d, result).Stop?
    ensures Record(env, budget, k, A, d, result).reason == ApprovalNeeded
            <==> result.Some? && result.value.status == ApprovalRequired
  {}

  lemma AddsOneStep(env: Env, budget: LoopBudget, k: nat, A: LoopState, d: AgentDecision,
                    result: Option<EvidenceItem>, F: LoopState, reason: Termination)
    requires Adds(env, budget, k, A, d, result, F, reason)
    requires reason == ApprovalNeeded ==> d.action == CallTool
    ensures if reason == MaxTokens then F.steps == A.steps
            else exists step :: && F.steps == A.steps + [step] && step.decision == d && step.toolResult == result
                                && if reason == ApprovalNeeded then step.tokens == 0
                                   else step.index == k && Costs(env, step)
    ensures reason != MaxTokens ==>
              && (reason == AskedApproval <==> d.action == AskApproval)
              && (reason == Reported <==> d.action == FinalReport) && (reason == HandedOff <==> d.action == Handoff)
  {
    if reason != MaxTokens {
      var step := LoopStep(k, d, if reason == ApprovalNeeded then 0 else StepTokens(env, k, d), result);
      assert F.steps == A.steps + [step];
    }
  }

  lemma OneStepSays(r: Setup, j: nat, M: LoopState, step: LoopStep, F: LoopState, reason: Termination)
    requires Told(r, j, M) && F.steps == M.steps + [step]
    requires reason == AskedApproval <==> step.decision.action == AskApproval
    requires reason == Reported <==> step.decision.action == FinalReport
    requires reason == HandedOff <==> step.decision.action == Handoff
    requires reason == ApprovalNeeded <==> AsksApproval(step)
    requires if AsksApproval(step) then step.tokens == 0 else Costs(r.env, step)
    ensures EndsAsSaid(r, F, reason)
  {
    assert forall i | 0 <= i < j :: F.steps[i] == M.steps[i];
  }

  lemma LastStepSays(r: Setup, j: nat, M: LoopState, p: Passage, F: LoopState, reason: Termination)
    requires Told(r, j, M) && Untouched(M, p.loop) && Answers(r.env, j, p.decision, p.result)
    requires Record(r.env, r.budget, j, p.loop, p.decision, p.result) == Stop(F, reason)
    ensures EndsAsSaid(r, F, reason)
  {
    RecordAdds(r.env, r.budget, j, p.loop, p.decision, p.result);
    PausesExactlyWhen(r.env, r.budget, j, p.loop, p.decision, p.result);
    if reason == MaxTokens {
      NoStepSays(r, j, M, F, reason);
    } else {
      AddsOneStep(r.env, r.budget, j, p.loop, p.decision, p.result, F, reason);
      var step :| && F.steps == M.steps + [step] && step.decision == p.decision && step.toolResult == p.result
                  && if reason == ApprovalNeeded then step.tokens == 0 else step.index == j && Costs(r.env, step);
      OneStepSays(r, j, M, step, F, reason);
    }
  }

  // A run that stops at a bound recorded only steps after which it went on.
  lemma NoStepSays(r: Setup, j: nat, M: LoopState, F: LoopState, reason: Termination)
    requires Told(r, j, M) && F.steps == M.steps
    requires reason == MaxTime || reason == MaxTokens || (reason == MaxSteps && j > 0)
    ensures EndsAsSaid(r, F, reason)
  {
    if j > 0 {
      assert IsPassed(r, j - 1, M.steps[j - 1]);
    }
  }

  // No step but the last asks for approval, reports or hands off; the last one does exactly when that is
  // why the run ended, and carries a result that waits for approval exactly when the run paused for it.
  lemma {:induction false} RunEndsAsSaid(env: Env, s: State, given: Option<LoopBudget>)
    requires RunLoop(env, s, given).Stop?
    ensures EndsAsSaid(SetupOf(env, s, given), RunLoop(env, s, given).loop, RunLoop(env, s, given).reason)
  {
    var r := SetupOf(env, s, given);
    var j, M, e := RunEnds(env, s, given);
    TopIsTold(r, j);
    if e.ByTurn? {
      LastStepSays(r, j, M, e.passage, RunLoop(env, s, given).loop, RunLoop(env, s, given).reason);
    } else {
      NoStepSays(r, j, M, M, RunLoop(env, s, given).reason);
    }
  }

  // ----- When a run fails -----

  // Step k fails: an injected observation does not validate, nobody decides, or the tool raises.
  ghost predicate FailsAt(r: Setup, k: nat) {
    && r.env.clock(k + 1) < r.deadline
    && (DecidedOn(r, k).None? || NobodyDecides(r.env, k, DecidedOn(r, k).value)
        || exists d :: && DecisionAt(r.env, r.budget, k, TopOf(r, k)) == Some(d) && d.action == CallTool
                       && d.selectedTool != "" && r.env.tool.Some? && r.env.tool.value(k, d).ToolRaises?)
  }

  lemma TurnFailsExactlyWhen(r: Setup, k: nat)
    ensures TurnOf(r.env, r.budget, r.deadline, k, TopOf(r, k)).Abort? <==> FailsAt(r, k)
  {
    var L := TopOf(r, k);
    var prepared := Prepare(r.env, r.budget, k, L);
    if prepared.Some? {
      var s := prepared.value.state;
      DecisionIsChosen(r.env, k, s);
      if DecideAt(r.env, k, s).Decided? {
        var (overridden, d) := Override(r.env, k, prepared.value, DecideAt(r.env, k, s).decision);
        assert DecisionAt(r.env, r.budget, k, L) == Some(d);
        assert Act(r.env, k, overridden, d).ActRaised? <==>
            d.action == CallTool && d.selectedTool != "" && r.env.tool.Some? && r.env.tool.value(k, d).ToolRaises?;
        assert !Record(r.env, r.budget, k, overridden, d, None).Abort?;
      }
    }
  }

  lemma FailsOnlyAtTheEnd(r: Setup, k: nat, j: nat)
    requires Reaches(r, k) && Reaches(r, j)
    requires k < r.budget.maxSteps
    requires j < r.budget.maxSteps ==>
               var turn := TurnOf(r.env, r.budget, r.deadline, j, TopOf(r, j)); turn.Stop?
    ensures !FailsAt(r, k)
  {
    TurnFailsExactlyWhen(r, k);
    var turn := Body(r.env, r.budget, r.deadline);
    if k < j {
      assert turn(k, TopOf(r, k)).Continue?;
    } else if j < k {
      assert turn(j, TopOf(r, j)).Continue?;
    }
  }

  lemma EndFails(r: Setup, j: nat, outcome: Turn)
    requires j <= r.budget.maxSteps && Reaches(r, j) && !outcome.Continue?
    requires if j == r.budget.maxSteps then outcome.Stop?
             else outcome == TurnOf(r.env, r.budget, r.deadline, j, TopOf(r, j))
    ensures outcome.Abort? <==> exists k: nat | k < r.budget.maxSteps :: Reaches(r, k) && FailsAt(r, k)
  {
    if outcome.Abort? {
      TurnFailsExactlyWhen(r, j);
    } else {
      forall k: nat | k < r.budget.maxSteps && Reaches(r, k)
        ensures !FailsAt(r, k)
      {
        FailsOnlyAtTheEnd(r, k, j);
      }
    }
  }

  lemma SetupFails(r: Setup, turn: (nat, LoopState) -> Turn)
    requires turn == Body(r.env, r.budget, r.deadline) && r.budget.maxSteps >= 1
    requires r.budget.maxTokens.Some? ==> r.budget.maxTokens.value >= 0
    ensures Iterate(turn, r.budget.maxSteps, 0, StartOf(r)).Abort?
            <==> exists k: nat | k < r.budget.maxSteps :: Reaches(r, k) && FailsAt(r, k)
  {
    var j, M := KeptToTheEnd(r, turn);
    EndFails(r, j, Iterate(turn, r.budget.maxSteps, 0, StartOf(r)));
  }

  // A run fails exactly when it gets to a step within its bounds that fails.
  lemma {:induction false} FailsExactlyWhen(env: Env, s: State, given: Option<LoopBudget>)
    ensures var r := SetupOf(env, s, given);
            RunLoop(env, s, given).Abort? <==> exists k: nat | k < r.budget.maxSteps :: Reaches(r, k) && FailsAt(r, k)
  {
    var r := SetupOf(env, s, given);
    RunIterates(env, s, given);
    SetupFails(r, Body(r.env, r.budget, r.deadline));
  }
}

// What every run of the bounded loop keeps, on every exit.
module ReactLoopRuns {
  import opened Common
  import opened Decision
  import opened Evidence
  import opened ReactLoop
  import Recovery
  import I = Intervention

  // ----- One turn taken apart -----

  // What happens to the gathered evidence in one turn.
  ghost predicate Gathers(env: Env, L: LoopState, A: LoopState, d: AgentDecision, result: Option<EvidenceItem>) {
    if result.None? then
      && A.items == L.items && A.calls == L.calls
      && A.state.evidence == L.state.evidence && A.state.executedTools == L.state.executedTools
      && A.state.consecutiveEmpty == L.state.consecutiveEmpty
    else
      var a := AssessmentOf(env, d, result.value);
      && A.items == L.items + [result.value] && A.calls == L.calls + [d.selectedTool]
      && A.state.evidence == L.state.evidence + [a]
      && A.state.executedTools == AddNew(L.state.executedTools, d.selectedTool)
      && A.state.consecutiveEmpty == if a.quality == Empty then L.state.consecutiveEmpty + 1 else 0
  }

  // What no phase before the accounting touches.
  ghost predicate Untouched(L: LoopState, A: LoopState) {
    && A.steps == L.steps && A.tokens == L.tokens && A.low == L.low
    && A.state.decisions == L.state.decisions && A.state.status == L.state.status
    && A.state.availableTools == L.state.availableTools && A.state.runId == L.state.runId
    && A.state.memoryContext == L.state.memoryContext
    && A.state.budget.remainingToolCalls == L.state.budget.remainingToolCalls
  }

  // The fields that decide whether recovery is needed.
  ghost predicate SameFindings(s: State, t: State) {
    && s.evidence == t.evidence && s.consecutiveEmpty == t.consecutiveEmpty
    && s.availableTools == t.availableTools && s.executedTools == t.executedTools
  }

  lemma PrepareTouches(env: Env, budget: LoopBudget, k: nat, L: LoopState)
    requires Prepare(env, budget, k, L).Some?
    ensures var P := Prepare(env, budget, k, L).value;
            Untouched(L, P) && SameFindings(L.state, P.state) && P.items == L.items && P.calls == L.calls
    ensures var P := Prepare(env, budget, k, L).value;
            P.queue == L.queue + env.arrivals(2 * k)
            && if env.hasBridge && L.state.runId != "" then
                 var snapshot := I.Pending(P.queue, L.marks);
                 && P.state.observations == L.state.observations + I.Injected(snapshot)
                 && P.state.goal == I.Modified(snapshot, L.state.goal)
                 && P.marks == L.marks + I.Ids(snapshot, false)
               else P.state.observations == L.state.observations && P.state.goal == L.state.goal && P.marks == L.marks
  {
    if env.hasBridge && L.state.runId != "" {
      I.BeforeComesTo(I.Pending(L.queue + env.arrivals(2 * k), L.marks), L.state, L.marks);
    }
  }

  // A replacement changes the tool, its arguments and the summary at most.
  ghost predicate SameButForCall(d: AgentDecision, e: AgentDecision) {
    e == d.(selectedTool := e.selectedTool, toolArguments := e.toolArguments, summary := e.summary)
  }

  lemma OverrideTouches(env: Env, k: nat, L: LoopState, d: AgentDecision)
    ensures var (O, e) := Override(env, k, L, d);
            && O == L.(queue := L.queue + env.arrivals(2 * k + 1), marks := O.marks)
            && O.marks
               == L.marks + (if Listens(env, L.state) then I.Ids(I.Pending(O.queue, L.marks), true) else [])
            && SameButForCall(d, e)
            && (I.Ids(I.Pending(O.queue, L.marks), true) == [] ==> e == d)
  {
    var snapshot := I.Pending(L.queue + env.arrivals(2 * k + 1), L.marks);
    I.ReplaceComesTo(snapshot, d, L.marks);
    if I.Ids(snapshot, true) == [] {
      NoIdsNoReplacement(snapshot, d, L.marks);
    }
    assert L.marks + [] == L.marks;
  }

  lemma {:induction false} NoIdsNoReplacement(snapshot: seq<I.Intervention>, d: AgentDecision, marks: seq<nat>)
    requires I.Ids(snapshot, true) == []
    ensures I.ApplyReplace(snapshot, d, marks).decision == d
    decreases snapshot
  {
    if snapshot != [] {
      NoIdsNoReplacement(snapshot[1..], d, marks);
    }
  }

  // With recovery a tool runs only on no evidence or strong evidence; with the deterministic
  // provider as well, only on no evidence.
  ghost predicate Cautious(env: Env, s: State, result: Option<EvidenceItem>) {
    && (env.hasRecovery && result.Some? ==> s.evidence == [] || Recovery.LatestEvidence(s).quality == Strong)
    && (env.hasRecovery && IsDeterministic(env) && result.Some? ==> s.evidence == [])
  }

  ghost predicate IsDeterministic(env: Env) {
    forall k: nat, s: State :: env.provider(k, s) == Decided(DeterministicDecide(s))
  }

  predicate Listens(env: Env, s: State) { env.hasBridge && s.runId != "" }

  // What the two reads of the queue in step k change.
  ghost predicate Hears(env: Env, k: nat, L: LoopState, A: LoopState) {
    var first := L.queue + env.arrivals(2 * k);
    && A.queue == first + env.arrivals(2 * k + 1)
    && if Listens(env, L.state) then
         var read, marks := I.Pending(first, L.marks), L.marks + I.Ids(I.Pending(first, L.marks), false);
         && A.state.observations == L.state.observations + I.Injected(read)
         && A.state.goal == I.Modified(read, L.state.goal)
         && A.marks == marks + I.Ids(I.Pending(A.queue, marks), true)
       else
         A.marks == L.marks && A.state.observations == L.state.observations && A.state.goal == L.state.goal
  }

  // A turn up to the accounting: the loop state there, the decision and the tool result.
  datatype Passage = Passage(loop: LoopState, decision: AgentDecision, result: Option<EvidenceItem>)

  ghost predicate Passes(env: Env, k: nat, L: LoopState, p: Passage) {
    && Untouched(L, p.loop)
    && Gathers(env, L, p.loop, p.decision, p.result)
    && Answers(env, k, p.decision, p.result)
    && Cautious(env, L.state, p.result)
    && Hears(env, k, L, p.loop)
  }

  // A tool runs exactly when the decision calls one, names it, and there is an executor; the result is
  // then what the executor returned to that decision.
  ghost predicate Answers(env: Env, k: nat, d: AgentDecision, result: Option<EvidenceItem>) {
    && (result.Some? <==> d.action == CallTool && d.selectedTool != "" && env.tool.Some?)
    && (result.Some? ==> env.tool.value(k, d) == Returned(result.value))
  }

  lemma DecisionIsCautious(env: Env, k: nat, s: State, d: AgentDecision)
    requires DecideAt(env, k, s) == Decided(d) && d.action == CallTool
    ensures env.hasRecovery ==> s.evidence == [] || Recovery.LatestEvidence(s).quality == Strong
    ensures env.hasRecovery && IsDeterministic(env) ==> s.evidence == []
  {
    if env.hasRecovery {
      Recovery.ProviderIsAskedOnlyWhenStrong(s);
      if IsDeterministic(env) {
        assert env.provider(k, s) == Decided(DeterministicDecide(s));
        DeterministicCallsFreshTool(s);
      }
    }
  }

  // The decision a pass takes, replacements included.
  function DecisionAt(env: Env, budget: LoopBudget, k: nat, L: LoopState): Option<AgentDecision> {
    var prepared := Prepare(env, budget, k, L);
    if prepared.None? then None
    else
      var reply := DecideAt(env, k, prepared.value.state);
      if reply.Raises? then None else Some(Override(env, k, prepared.value, reply.decision).1)
  }

  lemma ActTouches(env: Env, k: nat, L: LoopState, d: AgentDecision)
    requires Act(env, k, L, d).Acted?
    ensures var (A, result) := (Act(env, k, L, d).loop, Act(env, k, L, d).result);
            && Untouched(L, A) && Gathers(env, L, A, d, result) && Answers(env, k, d, result)
            && A.queue == L.queue && A.marks == L.marks
            && A.state.observations == L.state.observations && A.state.goal == L.state.goal
            && (result.Some? ==> d.action == CallTool)
  {}

  // Every turn that passes the deadline check and does not abort is a passage and its accounting.
  lemma TakeApart(env: Env, budget: LoopBudget, k: nat, L: LoopState, prepared: LoopState) returns (p: Passage)
    requires Prepare(env, budget, k, L) == Some(prepared)
    requires !DecidedTurn(env, budget, k, prepared).Abort?
    ensures Passes(env, k, L, p) && DecisionAt(env, budget, k, L) == Some(p.decision)
    ensures DecidedTurn(env, budget, k, prepared) == Record(env, budget, k, p.loop, p.decision, p.result)
  {
    PrepareTouches(env, budget, k, L);
    var decided := DecideAt(env, k, prepared.state).decision;
    var (overridden, decision) := Override(env, k, prepared, decided);
    OverrideTouches(env, k, prepared, decided);
    var acted := Act(env, k, overridden, decision);
    ActTouches(env, k, overridden, decision);
    if acted.result.Some? {
      DecisionIsCautious(env, k, prepared.state, decided);
    }
    p := Passage(acted.loop, decision, acted.result);
  }

  // ----- What the loop keeps -----

  // A run: its oracles, normalized budget, deadline and the state it starts from.
  datatype Setup = Setup(env: Env, budget: LoopBudget, deadline: real, initial: State)

  function DecisionsOf(steps: seq<LoopStep>): seq<AgentDecision> {
    if steps == [] then [] else DecisionsOf(steps[..|steps| - 1]) + [steps[|steps| - 1].decision]
  }

  function TokenSum(steps: seq<LoopStep>): nat {
    if steps == [] then 0 else TokenSum(steps[..|steps| - 1]) + steps[|steps| - 1].tokens
  }

  // The steps, decisions, tokens and status at the top of step k.
  ghost predicate Books(r: Setup, k: nat, L: LoopState) {
    && |L.steps| == k
    && (forall i | 0 <= i < k :: IsOpenStep(r, L.steps[i], i))
    && L.state.decisions == r.initial.decisions + DecisionsOf(L.steps)
    && L.tokens == TokenSum(L.steps)
    && (r.budget.maxTokens.Some? ==> L.tokens <= r.budget.maxTokens.value)
    && L.state.status == r.initial.status
    && L.state.budget.remainingToolCalls == r.initial.budget.remainingToolCalls
  }

  // Step number i began before the deadline and did not end the run.
  ghost predicate IsOpenStep(r: Setup, step: LoopStep, i: nat) {
    step.index == i && r.env.clock(i + 1) < r.deadline && Terminal(step.decision.action).None?
  }

  lemma AppendStep(steps: seq<LoopStep>, step: LoopStep, before: seq<AgentDecision>)
    ensures DecisionsOf(steps + [step]) == DecisionsOf(steps) + [step.decision]
    ensures TokenSum(steps + [step]) == TokenSum(steps) + step.tokens
    ensures before + DecisionsOf(steps) + [step.decision] == before + DecisionsOf(steps + [step])
  {
    assert (steps + [step])[..|steps|] == steps;
  }

  // What the accounting adds when the run goes on.
  lemma RecordContinues(env: Env, budget: LoopBudget, k: nat, A: LoopState, d: AgentDecision,
                        result: Option<EvidenceItem>)
    requires Record(env, budget, k, A, d, result).Continue?
    ensures var next := Record(env, budget, k, A, d, result).loop;
            && next.steps == A.steps + [LoopStep(k, d, StepTokens(env, k, d), result)]
            && next.state.decisions == A.state.decisions + [d] && next.state.status == A.state.status
            && next.state.budget == A.state.budget
            && next.tokens == A.tokens + StepTokens(env, k, d)
            && (budget.maxTokens.Some? ==> next.tokens <= budget.maxTokens.value)
            && Terminal(d.action).None?
            && next.low == NextLow(env, A.low, d) && (env.lowLimit.Some? ==> next.low < env.lowLimit.value)
  {}

  lemma BooksAdd(r: Setup, k: nat, L: LoopState, step: LoopStep, next: LoopState)
    requires Books(r, k, L) && IsOpenStep(r, step, k) && next.steps == L.steps + [step]
    requires next.state.decisions == L.state.decisions + [step.decision] && next.state.status == L.state.status
    requires next.tokens == L.tokens + step.tokens
             && (r.budget.maxTokens.Some? ==> next.tokens <= r.budget.maxTokens.value)
    requires next.state.budget.remainingToolCalls == L.state.budget.remainingToolCalls
    ensures Books(r, k + 1, next)
  {
    AppendStep(L.steps, step, r.initial.decisions);
  }

  lemma BooksStep(r: Setup, k: nat, L: LoopState, p: Passage, next: LoopState)
    requires Books(r, k, L) && Untouched(L, p.loop) && r.env.clock(k + 1) < r.deadline
    requires Record(r.env, r.budget, k, p.loop, p.decision, p.result) == Continue(next)
    ensures Books(r, k + 1, next)
  {
    RecordContinues(r.env, r.budget, k, p.loop, p.decision, p.result);
    BooksAdd(r, k, L, next.steps[k], next);
  }

  // ----- Evidence -----

  function AddAll(tools: seq<string>, calls: seq<string>): seq<string> {
    if calls == [] then tools else AddNew(AddAll(tools, calls[..|calls| - 1]), calls[|calls| - 1])
  }

  // The evidence, the tools run and the counter of empty results.
  ghost predicate Findings(r: Setup, L: LoopState) {
    var s0 := r.initial;
    && |L.state.evidence| == |s0.evidence| + |L.items|
    && s0.evidence <= L.state.evidence
    && (r.env.hasAssessor ==>
        forall i | 0 <= i < |L.items| :: L.state.evidence[|s0.evidence| + i] == Assess(L.items[i]))
    && |L.calls| == |L.items|
    && L.state.executedTools == AddAll(s0.executedTools, L.calls)
    && (s0.consecutiveEmpty == Recovery.TrailingEmpty(s0.evidence) ==>
          L.state.consecutiveEmpty == Recovery.TrailingEmpty(L.state.evidence))
  }

  lemma FindingsPassage(r: Setup, k: nat, L: LoopState, p: Passage)
    requires Findings(r, L) && Passes(r.env, k, L, p)
    ensures Findings(r, p.loop)
  {
    if p.result.Some? {
      var a, e := AssessmentOf(r.env, p.decision, p.result.value), L.state.evidence;
      assert p.loop.state.evidence == e + [a] && (e + [a])[..|e|] == e;
      assert p.loop.calls[..|L.calls|] == L.calls;
    }
  }

  // With recovery, everything a run gathers is strong except perhaps the last, and nothing is gathered
  // after evidence that is not strong; with the deterministic provider as well, at most one tool runs,
  // and only if there was no evidence at all.
  ghost predicate Careful(r: Setup, L: LoopState) {
    var s0 := r.initial;
    r.env.hasRecovery ==>
      && (forall i | |s0.evidence| <= i < |L.state.evidence| - 1 :: L.state.evidence[i].quality == Strong)
      && (L.items != [] ==> s0.evidence == [] || Recovery.LatestEvidence(s0).quality == Strong)
      && (IsDeterministic(r.env) ==> |L.items| <= 1 && (L.items != [] ==> s0.evidence == []))
  }

  lemma CarefulPassage(r: Setup, k: nat, L: LoopState, p: Passage)
    requires Findings(r, L) && Careful(r, L) && Passes(r.env, k, L, p)
    ensures Careful(r, p.loop)
  {
    if L.items == [] {
      assert L.state.evidence == r.initial.evidence;
    }
  }

  // ----- Low confidence -----

  // The number of steps below the threshold at the end.
  function TrailingLow(threshold: real, steps: seq<LoopStep>): nat {
    if steps == [] || steps[|steps| - 1].decision.confidence >= threshold then 0
    else 1 + TrailingLow(threshold, steps[..|steps| - 1])
  }

  ghost predicate Lows(r: Setup, L: LoopState) {
    r.env.lowLimit.Some? ==>
      && L.low == TrailingLow(r.env.lowThreshold, L.steps)
      && NoneFires(r.env, L.steps, |L.steps| + 1)
  }

  // No proper start of the steps shorter than n had reached the limit.
  ghost predicate NoneFires(env: Env, steps: seq<LoopStep>, n: nat)
    requires env.lowLimit.Some?
  {
    forall m | 0 < m < n && m <= |steps| :: TrailingLow(env.lowThreshold, steps[..m]) < env.lowLimit.value
  }

  lemma AppendLow(env: Env, steps: seq<LoopStep>, step: LoopStep)
    requires env.lowLimit.Some?
    ensures TrailingLow(env.lowThreshold, steps + [step])
            == if step.decision.confidence < env.lowThreshold then TrailingLow(env.lowThreshold, steps) + 1 else 0
    ensures NoneFires(env, steps, |steps| + 1) ==> NoneFires(env, steps + [step], |steps| + 1)
  {
    var all := steps + [step];
    assert all[..|steps|] == steps;
    forall m | 0 < m <= |steps|
      ensures all[..m] == steps[..m]
    {}
  }

  lemma LowsAdd(r: Setup, L: LoopState, step: LoopStep, next: LoopState)
    requires Lows(r, L) && next.steps == L.steps + [step] && next.low == NextLow(r.env, L.low, step.decision)
    requires r.env.lowLimit.Some? ==> next.low < r.env.lowLimit.value
    ensures Lows(r, next)
  {
    if r.env.lowLimit.Some? {
      AppendLow(r.env, L.steps, step);
      assert next.steps[..|next.steps|] == next.steps;
    }
  }

  lemma LowsStep(r: Setup, k: nat, L: LoopState, p: Passage, next: LoopState)
    requires Lows(r, L) && Untouched(L, p.loop)
    requires Record(r.env, r.budget, k, p.loop, p.decision, p.result) == Continue(next)
    ensures Lows(r, next)
  {
    RecordContinues(r.env, r.budget, k, p.loop, p.decision, p.result);
    LowsAdd(r, L, LoopStep(k, p.decision, StepTokens(r.env, k, p.decision), p.result), next);
  }

  // ----- Interventions -----

  // Everything queued before read number n.
  function Arrived(env: Env, n: nat): seq<I.Intervention> {
    if n == 0 then [] else Arrived(env, n - 1) + env.arrivals(n - 1)
  }

  // How much of the queue the reads before the decisions of steps 0 to k - 1 have seen.
  function HeardLength(env: Env, k: nat): nat {
    if k == 0 then 0 else |Arrived(env, 2 * k - 1)|
  }

  // The objects that the first m reads mark, in that order: reads before a decision are even and take
  // injections and goal changes, reads after it are odd and take replacements.
  function Seen(env: Env, m: nat): seq<nat> {
    if m == 0 then [] else Seen(env, m - 1) + I.Ids(I.Pending(Arrived(env, m), Seen(env, m - 1)), (m - 1) % 2 == 1)
  }

  // What the read before the decision of step k finds.
  function FoundAt(env: Env, k: nat): seq<I.Intervention> {
    I.Pending(Arrived(env, 2 * k + 1), Seen(env, 2 * k))
  }

  // What such reads inject and change in steps 0 to k - 1.
  function Injections(env: Env, k: nat): seq<Observation> {
    if k == 0 then [] else Injections(env, k - 1) + I.Injected(FoundAt(env, k - 1))
  }

  function Changed(env: Env, k: nat, goal: Goal): Goal {
    if k == 0 then goal else I.Modified(FoundAt(env, k - 1), Changed(env, k - 1, goal))
  }

  // Queue, marks, observations and goal come from these reads, whatever is queued.
  ghost predicate Follows(r: Setup, k: nat, L: LoopState) {
    Listens(r.env, r.initial) ==>
      && L.state.runId == r.initial.runId
      && L.queue == Arrived(r.env, 2 * k) && L.marks == Seen(r.env, 2 * k)
      && L.state.observations == r.initial.observations + Injections(r.env, k)
      && L.state.goal == Changed(r.env, k, r.initial.goal)
  }

  lemma SeenTwice(env: Env, k: nat)
    ensures Seen(env, 2 * k + 1)
            == Seen(env, 2 * k) + I.Ids(FoundAt(env, k), false)
    ensures Seen(env, 2 * k + 2)
            == Seen(env, 2 * k + 1) + I.Ids(I.Pending(Arrived(env, 2 * k + 2), Seen(env, 2 * k + 1)), true)
  {}

  lemma FollowsPassage(r: Setup, k: nat, L: LoopState, p: Passage)
    requires Follows(r, k, L) && Passes(r.env, k, L, p)
    ensures Follows(r, k + 1, p.loop)
  {
    if Listens(r.env, r.initial) {
      var first, found := Arrived(r.env, 2 * k + 1), FoundAt(r.env, k);
      ArrivedTwice(r.env, k);
      HearsFound(r.env, k, L, p.loop);
      SeenTwice(r.env, k);
      Associate(r.initial.observations, Injections(r.env, k), I.Injected(found));
      assert 2 * (k + 1) == 2 * k + 2;
    }
  }

  lemma HearsFound(env: Env, k: nat, L: LoopState, A: LoopState)
    requires Hears(env, k, L, A) && Listens(env, L.state) && L.marks == Seen(env, 2 * k)
    requires L.queue + env.arrivals(2 * k) == Arrived(env, 2 * k + 1)
    ensures A.queue == Arrived(env, 2 * k + 1) + env.arrivals(2 * k + 1)
    ensures A.state.observations == L.state.observations + I.Injected(FoundAt(env, k))
    ensures A.state.goal == I.Modified(FoundAt(env, k), L.state.goal)
    ensures var marks := L.marks + I.Ids(FoundAt(env, k), false);
            A.marks == marks + I.Ids(I.Pending(A.queue, marks), true)
  {}

  lemma FollowsCarry(r: Setup, k: nat, A: LoopState, B: LoopState)
    requires Follows(r, k, A) && SameRest(A, B)
    ensures Follows(r, k, B)
  {}

  // No object is queued twice before read n.
  ghost predicate QueuedOnce(env: Env, n: nat) { I.AreDistinct(Arrived(env, n)) }

  lemma {:induction false} ArrivedGrows(env: Env, n: nat, m: nat)
    requires n <= m
    ensures Arrived(env, n) <= Arrived(env, m)
  {
    if n < m {
      ArrivedGrows(env, n, m - 1);
    }
  }

  lemma QueuedOnceBefore(env: Env, n: nat, m: nat)
    requires n <= m && QueuedOnce(env, m)
    ensures QueuedOnce(env, n)
  {
    ArrivedGrows(env, n, m);
  }

  // The state carries exactly what was injected and changed before those decisions, in queue order,
  // and no intervention was applied twice.
  ghost predicate CarriesFirst(r: Setup, L: LoopState, c: nat) {
    && c <= |L.queue| && I.HasNoRepeat(L.marks)
    && L.state.observations == r.initial.observations + I.Injected(L.queue[..c])
    && L.state.goal == I.Modified(L.queue[..c], r.initial.goal)
  }

  ghost predicate Heard(r: Setup, k: nat, L: LoopState) {
    Listens(r.env, r.initial) && QueuedOnce(r.env, 2 * k) ==>
      HeardUpTo(r, Arrived(r.env, 2 * k), HeardLength(r.env, k), L)
  }

  ghost predicate HeardUpTo(r: Setup, queue: seq<I.Intervention>, c: nat, L: LoopState) {
    && L.state.runId == r.initial.runId && L.queue == queue
    && I.MarkedUpTo(queue, L.marks, c, |queue|)
    && CarriesFirst(r, L, c)
  }

  lemma HeardCarry(r: Setup, queue: seq<I.Intervention>, c: nat, A: LoopState, B: LoopState)
    requires HeardUpTo(r, queue, c, A) && SameRest(A, B)
    ensures HeardUpTo(r, queue, c, B)
  {}

  lemma ArrivedTwice(env: Env, k: nat)
    ensures Arrived(env, 2 * k + 1) == Arrived(env, 2 * k) + env.arrivals(2 * k)
    ensures Arrived(env, 2 * k + 2) == Arrived(env, 2 * k + 1) + env.arrivals(2 * k + 1)
    ensures HeardLength(env, k + 1) == |Arrived(env, 2 * k + 1)|
  {}

  lemma HeardPassage(r: Setup, k: nat, L: LoopState, p: Passage)
    requires Listens(r.env, r.initial) && QueuedOnce(r.env, 2 * k + 2)
    requires Heard(r, k, L) && Passes(r.env, k, L, p)
    ensures HeardUpTo(r, Arrived(r.env, 2 * k + 2), HeardLength(r.env, k + 1), p.loop)
  {
    var env, c := r.env, HeardLength(r.env, k);
    var first, queue := Arrived(env, 2 * k + 1), Arrived(env, 2 * k + 2);
    ArrivedTwice(env, k);
    QueuedOnceBefore(env, 2 * k, 2 * k + 2);
    QueuedOnceBefore(env, 2 * k + 1, 2 * k + 2);
    I.MarkedWhenLonger(L.queue, env.arrivals(2 * k), L.marks, c, |L.queue|);
    I.ReadBefore(first, L.marks, c, |L.queue|, L.state.goal);
    var marks := L.marks + I.Ids(I.Pending(first, L.marks), false);
    I.MarkedWhenLonger(first, env.arrivals(2 * k + 1), marks, |first|, |L.queue|);
    I.ReadAfter(queue, marks, |first|, |L.queue|);
    JoinHeard(r, L, first, c);
    assert queue[..|first|] == first;
  }

  lemma JoinHeard(r: Setup, L: LoopState, first: seq<I.Intervention>, c: nat)
    requires CarriesFirst(r, L, c) && L.queue <= first
    ensures L.state.observations + I.Injected(first[c..]) == r.initial.observations + I.Injected(first)
    ensures I.Modified(first[c..], L.state.goal) == I.Modified(first, r.initial.goal)
  {
    assert first[..c] == L.queue[..c] && first == first[..c] + first[c..];
    I.InjectedAppend(first[..c], first[c..]);
    I.ModifiedAppend(first[..c], first[c..], r.initial.goal);
    Associate(r.initial.observations, I.Injected(first[..c]), I.Injected(first[c..]));
  }

  // ----- Every run -----

  ghost predicate Kept(r: Setup, k: nat, L: LoopState) {
    Books(r, k, L) && Findings(r, L) && Careful(r, L) && Lows(r, L) && Heard(r, k, L) && Follows(r, k, L)
  }

  lemma StartKept(r: Setup)
    requires r.budget.maxTokens.Some? ==> r.budget.maxTokens.value >= 0
    ensures Kept(r, 0, StartOf(r))
  {
    var L := StartOf(r);
    assert r.initial.decisions + [] == r.initial.decisions && r.initial.observations + [] == r.initial.observations;
  }

  function StartOf(r: Setup): LoopState { LoopState(r.initial, [], [], 0, 0, [], [], []) }

  // The accounting changes neither findings nor interventions.
  ghost predicate SameRest(A: LoopState, B: LoopState) {
    && A.items == B.items && A.calls == B.calls && A.queue == B.queue && A.marks == B.marks
    && A.state.evidence == B.state.evidence && A.state.executedTools == B.state.executedTools
    && A.state.consecutiveEmpty == B.state.consecutiveEmpty
    && A.state.observations == B.state.observations && A.state.goal == B.state.goal && A.state.runId == B.state.runId
  }

  lemma RecordTouches(env: Env, budget: LoopBudget, k: nat, A: LoopState, d: AgentDecision,
                      result: Option<EvidenceItem>)
    ensures SameRest(A, Record(env, budget, k, A, d, result).loop)
  {}

  lemma FindingsCarry(r: Setup, A: LoopState, B: LoopState)
    requires SameRest(A, B) && Findings(r, A) && Careful(r, A)
    ensures Findings(r, B) && Careful(r, B)
  {}

  lemma HeardStep(r: Setup, k: nat, L: LoopState, p: Passage, next: LoopState)
    requires Heard(r, k, L) && Passes(r.env, k, L, p) && SameRest(p.loop, next)
    ensures Heard(r, k + 1, next)
  {
    assert 2 * (k + 1) == 2 * k + 2;
    if Listens(r.env, r.initial) && QueuedOnce(r.env, 2 * k + 2) {
      HeardPassage(r, k, L, p);
      HeardCarry(r, Arrived(r.env, 2 * k + 2), HeardLength(r.env, k + 1), p.loop, next);
    }
  }

  lemma {:induction false} RecordKeeps(r: Setup, k: nat, L: LoopState, p: Passage, next: LoopState)
    requires Kept(r, k, L) && Passes(r.env, k, L, p) && r.env.clock(k + 1) < r.deadline
    requires Record(r.env, r.budget, k, p.loop, p.decision, p.result) == Continue(next)
    ensures Kept(r, k + 1, next)
  {
    RecordTouches(r.env, r.budget, k, p.loop, p.decision, p.result);
    assert Books(r, k + 1, next) by { BooksStep(r, k, L, p, next); }
    assert Lows(r, next) by { LowsStep(r, k, L, p, next); }
    assert Findings(r, next) && Careful(r, next) by {
      FindingsPassage(r, k, L, p);
      CarefulPassage(r, k, L, p);
      FindingsCarry(r, p.loop, next);
    }
    assert Heard(r, k + 1, next) by { HeardStep(r, k, L, p, next); }
    assert Follows(r, k + 1, next) by {
      FollowsPassage(r, k, L, p);
      FollowsCarry(r, k + 1, p.loop, next);
    }
  }

  lemma {:induction false} TurnKeeps(r: Setup, k: nat, L: LoopState)
    requires Kept(r, k, L)
    ensures var turn := TurnOf(r.env, r.budget, r.deadline, k, L);
            turn.Continue? ==> Kept(r, k + 1, turn.loop)
  {
    var turn := TurnOf(r.env, r.budget, r.deadline, k, L);
    if turn.Continue? {
      var prepared := Prepare(r.env, r.budget, k, L).value;
      var p := TakeApart(r.env, r.budget, k, L, prepared);
      RecordKeeps(r, k, L, p, turn.loop);
    }
  }

  // The loop state at the top of step j, if the run gets there.
  function StateAt(turn: (nat, LoopState) -> Turn, k: nat, L: LoopState, j: nat): LoopState
    decreases j - k
  {
    if j <= k || !turn(k, L).Continue? then L else StateAt(turn, k + 1, turn(k, L).loop, j)
  }

  // The run goes on from step k up to step j.
  ghost predicate GoesOn(turn: (nat, LoopState) -> Turn, k: nat, L: LoopState, j: nat) {
    forall i: nat | k <= i < j :: turn(i, StateAt(turn, k, L, i)).Continue?
  }

  lemma GoesOnBefore(turn: (nat, LoopState) -> Turn, k: nat, L: LoopState, j: nat)
    requires turn(k, L).Continue? && GoesOn(turn, k + 1, turn(k, L).loop, j)
    ensures GoesOn(turn, k, L, j)
  {
    forall i: nat | k <= i < j
      ensures turn(i, StateAt(turn, k, L, i)).Continue?
    {
      if i > k {
        assert turn(i, StateAt(turn, k + 1, turn(k, L).loop, i)).Continue?;
      }
    }
  }

  lemma GoesOnAfter(turn: (nat, LoopState) -> Turn, k: nat, L: LoopState, next: nat, N: LoopState, j: nat)
    requires k < j && GoesOn(turn, k, L, j) && next == k + 1
    requires turn(k, L).Continue? && N == turn(k, L).loop
    ensures GoesOn(turn, next, N, j)
  {
    forall i: nat | next <= i < j
      ensures turn(i, StateAt(turn, next, N, i)).Continue?
    {
      assert turn(i, StateAt(turn, k, L, i)).Continue?;
    }
  }

  // Induction along a run, for any property of the loop state that every turn keeps.
  lemma {:induction false} EndsWith(turn: (nat, LoopState) -> Turn, max: int, k: nat, L: LoopState,
                                    keep: (nat, LoopState) -> bool) returns (j: nat, M: LoopState)
    requires k <= max && keep(k, L)
    requires forall i: nat, N: LoopState | i < max && keep(i, N) && turn(i, N).Continue? :: keep(i + 1, turn(i, N).loop)
    ensures k <= j <= max && keep(j, M) && M == StateAt(turn, k, L, j) && GoesOn(turn, k, L, j)
    ensures Iterate(turn, max, k, L) == if j == max then Stop(M, MaxSteps) else turn(j, M)
    decreases max - k
  {
    if k == max || !turn(k, L).Continue? {
      j, M := k, L;
    } else {
      j, M := EndsWith(turn, max, k + 1, turn(k, L).loop, keep);
      GoesOnBefore(turn, k, L, j);
    }
  }
}

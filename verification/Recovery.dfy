// Recovery strategy of app/agent_runtime/recovery.py and its use in app/agent_runtime/loop.py.
module Recovery {
  import opened Common
  import opened Decision

  datatype PlanAction = Continue | TryAlternative | DowngradeReport | RetrySameTool | HandOver

  datatype Plan = Plan(action: PlanAction, reason: Reason, handoffRequired: bool)

  // RecoveryManager.choose_strategy
  function ChooseStrategy(quality: Quality, failures: int, toolAvailable: bool): Plan {
    if quality == Strong then Plan(Continue, StrongEvidence, false)
    else if (quality == Partial || quality == Weak) && toolAvailable then
      Plan(TryAlternative, if quality == Partial then PartialEvidence else WeakEvidence, false)
    else if quality == Partial || quality == Weak then
      Plan(DowngradeReport, if quality == Partial then PartialEvidence else WeakEvidence, false)
    else if quality == Empty then
      if toolAvailable && failures <= 0 then Plan(RetrySameTool, InsufficientEvidence, false)
      else if toolAvailable && failures == 1 then Plan(DowngradeReport, InsufficientEvidence, false)
      else Plan(HandOver, InsufficientEvidence, true)
    else if quality == Conflicting then Plan(HandOver, ConflictingEvidence, true)
    else if quality == Error && failures <= 0 && toolAvailable then Plan(TryAlternative, ErrorEvidence, false)
    else Plan(HandOver, EvidenceError, true)
  }

  predicate RequiresRecovery(s: State) {
    s.consecutiveEmpty > 0 || (s.evidence != [] && LatestEvidence(s).quality != Strong)
  }

  function LatestEvidence(s: State): Assessment {
    if s.evidence == [] then NO_EVIDENCE else s.evidence[|s.evidence| - 1]
  }

  predicate HasRemainingTool(s: State) {
    exists t | t in s.availableTools :: t !in s.executedTools
  }

  function DecisionFromPlan(plan: Plan, evidence: Assessment): AgentDecision {
    if plan.handoffRequired || plan.action == HandOver then
      AgentDecision(Handoff, "", "", "handoff", evidence, Guidance(plan.reason, NextHandoff), 0.3)
    else if plan.action == DowngradeReport then
      AgentDecision(FinalReport, "", "", "downgraded", evidence, Guidance(plan.reason, NextReport),
                    AtLeast(AtMost(evidence.confidence, 0.5), 0.2))
    else
      AgentDecision(Recover, "", "", "recover", evidence, Guidance(plan.reason, Retry),
                    AtLeast(AtMost(evidence.confidence, 0.4), 0.2))
  }

  // BoundedReActLoop._recover_if_required with a recovery manager.
  function RecoveryDecision(s: State): Option<AgentDecision> {
    if !RequiresRecovery(s) then None
    else
      var plan := ChooseStrategy(LatestEvidence(s).quality, s.consecutiveEmpty, HasRemainingTool(s));
      if plan.action == Continue then None else Some(DecisionFromPlan(plan, LatestEvidence(s)))
  }

  // The decision is left to the provider exactly when nothing was gathered yet or the latest
  // evidence is strong; recovery itself never calls a tool.
  lemma ProviderIsAskedOnlyWhenStrong(s: State)
    ensures RecoveryDecision(s).None? <==>
              if s.evidence == [] then s.consecutiveEmpty <= 0 else LatestEvidence(s).quality == Strong
    ensures RecoveryDecision(s).Some? ==>
              RecoveryDecision(s).value.action in {Recover, FinalReport, Handoff}
  {}

  // The length of the run of empty assessments at the end.
  function TrailingEmpty(evidence: seq<Assessment>): nat {
    if evidence == [] || evidence[|evidence| - 1].quality != Empty then 0
    else 1 + TrailingEmpty(evidence[..|evidence| - 1])
  }

  // With an honest counter the strategy "retry the same tool" never comes up. Recovery answers
  // "recover" exactly to partial, weak or failed evidence while a tool is left; it settles for a
  // report on partial or weak evidence when none is left, or on the first empty result while one is;
  // to everything else that is not strong it answers with a handoff.
  lemma RecoverExactlyWhen(s: State)
    requires s.consecutiveEmpty == TrailingEmpty(s.evidence)
    ensures var (d, q, left) := (RecoveryDecision(s), LatestEvidence(s).quality, HasRemainingTool(s));
            && (d.Some? && d.value.action == Recover <==> s.evidence != [] && left && q in {Partial, Weak, Error})
            && (d.Some? && d.value.action == FinalReport <==>
                  && s.evidence != []
                  && ((q in {Partial, Weak} && !left) || (q == Empty && left && s.consecutiveEmpty == 1)))
            && (d.Some? && d.value.action == Handoff <==>
                  s.evidence != [] && (q == Conflicting || (q == Error && !left)
                                       || (q == Empty && (!left || s.consecutiveEmpty >= 2))))
  {}

  // The latest assessment, or an empty one.
  ghost predicate IsLatest(s: State, a: Assessment) {
    if s.evidence == [] then a == Assessment(Empty, 0.0) else a == s.evidence[|s.evidence| - 1]
  }

  // Recovery acts when empty results were counted or the latest evidence is not strong, but never on
  // strong evidence. Whatever the counter says, this is what it decides.
  lemma RecoveryActsExactlyWhen(s: State, a: Assessment)
    requires IsLatest(s, a)
    ensures var (d, q, n) := (RecoveryDecision(s), a.quality, s.consecutiveEmpty);
            var left := exists t :: t in s.availableTools && t !in s.executedTools;
            var needed := (n > 0 || s.evidence != []) && q != Strong;
            && (d.Some? <==> needed)
            && (d.Some? && d.value.action == Recover <==>
                  needed && left && (q in {Partial, Weak} || (q in {Empty, Error} && n <= 0)))
            && (d.Some? && d.value.action == FinalReport <==>
                  needed && ((q in {Partial, Weak} && !left) || (q == Empty && left && n == 1)))
            && (d.Some? && d.value.action == Handoff <==>
                  needed && (q == Conflicting || (q == Empty && (!left || n >= 2)) || (q == Error && (!left || n > 0))))
  {}

  // b is x brought between low and high.
  ghost predicate IsBetween(b: real, x: real, low: real, high: real) {
    low <= b <= high && (low <= x <= high ==> b == x) && (x < low ==> b == low) && (x > high ==> b == high)
  }

  // What such a decision carries: the latest evidence, no tool, what is to follow and why, and the
  // confidence of the evidence brought between 0.2 and 0.4 or 0.5, or 0.3 on a handoff.
  lemma RecoverySays(s: State, a: Assessment)
    requires RecoveryDecision(s).Some? && IsLatest(s, a)
    ensures var (d, q) := (RecoveryDecision(s).value, a.quality);
            && d.evidence == a && d.selectedTool == "" && d.toolArguments == "" && d.recovery.Guidance?
            && (q == Partial ==> d.recovery.reason == PartialEvidence)
            && (q == Weak ==> d.recovery.reason == WeakEvidence)
            && (q == Empty ==> d.recovery.reason == InsufficientEvidence)
            && (q == Conflicting ==> d.recovery.reason == ConflictingEvidence)
            && (q == Error ==> d.recovery.reason == if d.action == Recover then ErrorEvidence else EvidenceError)
            && (d.action == Recover ==> d.recovery.next == Retry && IsBetween(d.confidence, a.confidence, 0.2, 0.4))
            && (d.action == FinalReport ==>
                  d.recovery.next == NextReport && IsBetween(d.confidence, a.confidence, 0.2, 0.5))
            && (d.action == Handoff ==> d.recovery.next == NextHandoff && d.confidence == 0.3)
  {}
}

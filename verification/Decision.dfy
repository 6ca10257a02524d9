// Decision contracts and the rule-based provider of app/agent_runtime/decision.py.
module Decision {
  import opened Common

  datatype Action = Observe | CallTool | AskApproval | Recover | FinalReport | Handoff

  datatype Quality = Strong | Partial | Weak | Empty | Conflicting | Error

  datatype RunStatus = Running | WaitingApproval | Completed | Failed | HandoffRequired | Cancelled

  datatype Assessment = Assessment(quality: Quality, confidence: real)

  datatype Reason =
    | BudgetExhausted | EmptyEvidence | NoAvailableTools
    | StrongEvidence | PartialEvidence | WeakEvidence | ErrorEvidence
    | InsufficientEvidence | ConflictingEvidence | EvidenceError
    | OtherReason(text: string)

  datatype NextAction = Retry | NextApproval | NextHandoff | NextReport

  datatype Guidance = NoRecovery | Guidance(reason: Reason, next: NextAction)

  // The fields the loop and the providers read; an absent tool is the empty string.
  datatype AgentDecision = AgentDecision(
    action: Action,
    selectedTool: string,
    toolArguments: string,
    summary: string,
    evidence: Assessment,
    recovery: Guidance,
    confidence: real)

  datatype Budget = Budget(
    maxSteps: int, remainingSteps: int,
    maxToolCalls: int, remainingToolCalls: int,
    timeout: real, remainingSeconds: Option<real>)
  {
    predicate Exhausted() { remainingSteps <= 0 || remainingToolCalls <= 0 }
  }

  datatype Goal = Goal(goal: string, successCriteria: seq<string>, priority: string, workspaceId: string)

  datatype Observation = Observation(source: string, summary: string, confidence: real)

  datatype State = State(
    runId: string,
    status: RunStatus,
    goal: Goal,
    budget: Budget,
    availableTools: seq<string>,
    executedTools: seq<string>,
    observations: seq<Observation>,
    evidence: seq<Assessment>,
    consecutiveEmpty: int,
    decisions: seq<AgentDecision>,
    memoryContext: string)
  {
    function WithDecision(d: AgentDecision): State {
      this.(status := match d.action
                      case AskApproval => WaitingApproval
                      case FinalReport => Completed
                      case Handoff => HandoffRequired
                      case _ => status,
            decisions := decisions + [d])
    }
  }

  const NO_EVIDENCE := Assessment(Empty, 0.0)

  function Rank(q: Quality): nat {
    match q
    case Strong => 0
    case Partial => 1
    case Weak => 2
    case Conflicting => 3
    case Error => 4
    case Empty => 5
  }

  // The first assessment of the best quality.
  function BestEvidence(evidence: seq<Assessment>): (best: Assessment)
    ensures evidence == [] ==> best == NO_EVIDENCE
    ensures evidence != [] ==> best in evidence && forall a | a in evidence :: Rank(best.quality) <= Rank(a.quality)
  {
    if evidence == [] then NO_EVIDENCE
    else if |evidence| == 1 then evidence[0]
    else
      var rest := BestEvidence(evidence[1..]);
      if Rank(rest.quality) < Rank(evidence[0].quality) then rest else evidence[0]
  }

  function FirstStrong(evidence: seq<Assessment>): (found: Option<Assessment>)
    ensures found.Some? ==> found.value in evidence && found.value.quality == Strong
    ensures found.None? ==> forall a | a in evidence :: a.quality != Strong
  {
    if evidence == [] then None
    else if evidence[0].quality == Strong then Some(evidence[0])
    else FirstStrong(evidence[1..])
  }

  function FirstNew(tools: seq<string>, executed: seq<string>): (found: Option<string>)
    ensures found.Some? ==> found.value in tools && found.value !in executed
    ensures found.None? ==> forall t | t in tools :: t in executed
  {
    if tools == [] then None
    else if tools[0] !in executed then Some(tools[0])
    else FirstNew(tools[1..], executed)
  }

  function AtLeast(x: real, low: real): real { if x < low then low else x }

  function AtMost(x: real, high: real): real { if x > high then high else x }

  // DeterministicDecisionProvider.decide
  function DeterministicDecide(s: State): AgentDecision {
    var strong, tool := FirstStrong(s.evidence), FirstNew(s.availableTools, s.executedTools);
    if s.budget.Exhausted() then
      AgentDecision(Handoff, "", "", "budget", BestEvidence(s.evidence), Guidance(BudgetExhausted, NextHandoff), 0.5)
    else if strong.Some? then
      AgentDecision(FinalReport, "", "", "report", strong.value, NoRecovery, AtLeast(strong.value.confidence, 0.8))
    else if s.consecutiveEmpty >= 2 then
      AgentDecision(Recover, "", "", "empty", NO_EVIDENCE, Guidance(EmptyEvidence, Retry), 0.4)
    else if tool.Some? then
      AgentDecision(CallTool, tool.value, s.goal.goal, "call", BestEvidence(s.evidence), NoRecovery, 0.7)
    else
      AgentDecision(Handoff, "", "", "no tool", BestEvidence(s.evidence), Guidance(NoAvailableTools, NextHandoff), 0.3)
  }

  // The provider asks for a tool exactly when the budget holds, nothing strong was found, fewer
  // than two empty results came in a row, and some available tool has not run; then it asks for one
  // that has not run. It reports exactly on strong evidence, and recovers exactly after two empty
  // results without any.
  lemma DeterministicCallsFreshTool(s: State)
    ensures var d := DeterministicDecide(s);
            && (d.action == CallTool <==>
                  && s.budget.remainingSteps > 0 && s.budget.remainingToolCalls > 0
                  && (forall a | a in s.evidence :: a.quality != Strong)
                  && s.consecutiveEmpty < 2
                  && exists t | t in s.availableTools :: t !in s.executedTools)
            && (d.action == CallTool ==> d.selectedTool in s.availableTools && d.selectedTool !in s.executedTools)
            && (d.action == FinalReport <==> !s.budget.Exhausted() && exists a | a in s.evidence :: a.quality == Strong)
            && (d.action == FinalReport ==> d.evidence.quality == Strong)
            && (d.action == Recover <==>
                  && !s.budget.Exhausted() && s.consecutiveEmpty >= 2
                  && forall a | a in s.evidence :: a.quality != Strong)
  {}

  ghost predicate HasQuality(evidence: seq<Assessment>, q: Quality) { exists a :: a in evidence && a.quality == q }

  // The best evidence is strong if any is, else partial, else weak, else conflicting, else an error, and
  // empty only if nothing else was found.
  lemma BestEvidenceOrder(evidence: seq<Assessment>)
    ensures var (q, has) := (BestEvidence(evidence).quality, q => HasQuality(evidence, q));
            q == if has(Strong) then Strong else if has(Partial) then Partial else if has(Weak) then Weak
                 else if has(Conflicting) then Conflicting else if has(Error) then Error else Empty
  {
    if evidence != [] {
      assert HasQuality(evidence, BestEvidence(evidence).quality);
    }
  }

  // Among assessments of that quality it is the first.
  lemma {:induction false} BestEvidenceIsFirst(evidence: seq<Assessment>) returns (i: nat)
    requires evidence != []
    ensures i < |evidence| && evidence[i] == BestEvidence(evidence)
    ensures forall j | 0 <= j < i :: evidence[j].quality != BestEvidence(evidence).quality
  {
    i := 0;
    if |evidence| > 1 && BestEvidence(evidence) != evidence[0] {
      var j := BestEvidenceIsFirst(evidence[1..]);
      i := j + 1;
    }
  }

  // The strong evidence a report is based on is the first, and the tool called next is the first new one.
  lemma {:induction false} FirstIsFound(evidence: seq<Assessment>, i: nat)
    requires i < |evidence| && evidence[i].quality == Strong
    requires forall j | 0 <= j < i :: evidence[j].quality != Strong
    ensures FirstStrong(evidence) == Some(evidence[i])
  {
    if i > 0 {
      FirstIsFound(evidence[1..], i - 1);
    }
  }

  lemma {:induction false} FirstNewIsFound(tools: seq<string>, executed: seq<string>, i: nat)
    requires i < |tools| && tools[i] !in executed
    requires forall j | 0 <= j < i :: tools[j] in executed
    ensures FirstNew(tools, executed) == Some(tools[i])
  {
    if i > 0 {
      FirstNewIsFound(tools[1..], executed, i - 1);
    }
  }

  // What the provider's decision carries, by what it does: a report has the confidence of its strong
  // evidence but at least 0.8, a call gets the goal as its argument.
  lemma DeterministicSays(s: State)
    ensures var d := DeterministicDecide(s);
            match d.action
            case CallTool =>
              && Some(d.selectedTool) == FirstNew(s.availableTools, s.executedTools)
              && d.toolArguments == s.goal.goal && d.evidence == BestEvidence(s.evidence)
              && d.recovery == NoRecovery && d.confidence == 0.7
            case FinalReport =>
              && Some(d.evidence) == FirstStrong(s.evidence) && d.selectedTool == "" && d.recovery == NoRecovery
              && d.confidence >= 0.8 && d.confidence >= d.evidence.confidence
              && (d.confidence == 0.8 || d.confidence == d.evidence.confidence)
            case Recover =>
              && d.evidence == Assessment(Empty, 0.0) && d.selectedTool == ""
              && d.recovery == Guidance(EmptyEvidence, Retry) && d.confidence == 0.4
            case Handoff =>
              && d.evidence == BestEvidence(s.evidence) && d.selectedTool == ""
              && if s.budget.remainingSteps <= 0 || s.budget.remainingToolCalls <= 0 then
                   d.recovery == Guidance(BudgetExhausted, NextHandoff) && d.confidence == 0.5
                 else d.recovery == Guidance(NoAvailableTools, NextHandoff) && d.confidence == 0.3
            case _ => false
  {}
}

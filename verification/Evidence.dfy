// Evidence assessment of app/agent_runtime/evidence.py.
module Evidence {
  import opened Decision

  datatype ToolStatus =
    | Success | PartialResult | WeakResult | ApprovalRequired | Timeout | Disabled | Forbidden
    | OtherStatus(text: string)

  // A tool result as the loop sees it: error is empty when there is none, hasOutput is false for
  // no output, an empty string or an empty collection.
  datatype EvidenceItem = EvidenceItem(toolName: string, status: ToolStatus, hasOutput: bool, error: string)

  function Assess(item: EvidenceItem): Assessment {
    if item.status == Timeout || item.status == Disabled || item.status == Forbidden || item.error != "" then
      Assessment(Error, 0.0)
    else if item.status == ApprovalRequired then Assessment(Partial, 0.2)
    else if item.status == PartialResult then Assessment(Partial, 0.4)
    else if item.status == WeakResult then Assessment(Weak, 0.35)
    else if !item.hasOutput then Assessment(Empty, 0.0)
    else Assessment(Strong, 0.8)
  }

  // Strong evidence is output without error under a status that does not qualify it; one result
  // alone never conflicts.
  lemma StrongExactlyWhen(item: EvidenceItem)
    ensures Assess(item).quality == Strong <==>
              item.error == "" && item.hasOutput && (item.status == Success || item.status.OtherStatus?)
    ensures Assess(item).quality == Empty <==>
              item.error == "" && !item.hasOutput && (item.status == Success || item.status.OtherStatus?)
    ensures Assess(item).quality == Error <==>
              item.error != "" || item.status == Timeout || item.status == Disabled || item.status == Forbidden
    ensures Assess(item).quality != Conflicting
  {}

  ghost predicate Fails(item: EvidenceItem) {
    item.error != "" || item.status == Timeout || item.status == Disabled || item.status == Forbidden
  }

  // A result that waits for approval or is marked partial is partial evidence, one marked weak is weak,
  // with or without output; every quality has its confidence.
  lemma ConfidenceIs(item: EvidenceItem)
    ensures var a := Assess(item);
            && (a.quality == Partial <==> !Fails(item) && item.status in {ApprovalRequired, PartialResult})
            && (a.quality == Weak <==> !Fails(item) && item.status == WeakResult)
            && match a.quality
               case Strong => a.confidence == 0.8
               case Partial => a.confidence == if item.status == ApprovalRequired then 0.2 else 0.4
               case Weak => a.confidence == 0.35
               case _ => a.confidence == 0.0
  {}
}

// What reading and applying the queue of human interventions comes to, entry by entry and field by
// field.
module InterventionLaws {
  import opened Common
  import opened Decision
  import opened Intervention

  // ----- The queue and its reads -----

  // A read finds one more entry exactly when its object is not marked.
  lemma PendingOne(queue: seq<Intervention>, iv: Intervention, marks: seq<nat>)
    ensures Pending([], marks) == []
    ensures Pending(queue + [iv], marks) == Pending(queue, marks) + if iv.id in marks then [] else [iv]
  {
    PendingAppend(queue, [iv], marks);
  }

  // One more entry is one more observation exactly when it injects one.
  lemma InjectedOne(queue: seq<Intervention>, iv: Intervention)
    ensures Injected([]) == []
    ensures Injected(queue + [iv])
            == Injected(queue) + if iv.kind.InjectEvidence? then [iv.kind.observation] else []
  {
    InjectedAppend(queue, [iv]);
  }

  // One more entry is one more mark of the read after the decision if it replaces a call, and of the
  // read before it otherwise.
  lemma IdsOne(queue: seq<Intervention>, iv: Intervention, replacing: bool)
    ensures Ids([], replacing) == []
    ensures Ids(queue + [iv], replacing)
            == Ids(queue, replacing) + if iv.kind.ReplaceToolCall? == replacing then [iv.id] else []
  {
    IdsAppend(queue, [iv], replacing);
  }

  ghost predicate Validates(kind: Kind) {
    kind.InjectEvidence? ==>
      var o := kind.observation; o.source != "" && o.summary != "" && 0.0 <= o.confidence <= 1.0
  }

  // Applying a snapshot succeeds exactly when every injected observation has a source, a summary and
  // a confidence between 0 and 1.
  lemma {:induction false} AppliesExactlyWhen(snapshot: seq<Intervention>, s: State, marks: seq<nat>)
    ensures ApplyBefore(snapshot, s, marks).Applied? <==> forall iv | iv in snapshot :: Validates(iv.kind)
    decreases snapshot
  {
    if snapshot != [] {
      var iv, rest := snapshot[0], snapshot[1..];
      assert forall x :: x in snapshot <==> x == iv || x in rest;
      match iv.kind
      case InjectEvidence(o) => AppliesExactlyWhen(rest, InjectedInto(o, s), marks + [iv.id]);
      case ModifyGoal(_, _, _) =>
        AppliesExactlyWhen(rest, s.(goal := WithGoal(iv.kind, s.goal)), marks + [iv.id]);
      case ReplaceToolCall(_, _, _) => AppliesExactlyWhen(rest, s, marks);
    }
  }

  // ----- The last update of a field wins -----

  // The entry at i sets the field, and none after it does.
  ghost predicate SetsLast<T>(queue: seq<Intervention>, i: nat, sets: Kind -> Option<T>) {
    i < |queue| && sets(queue[i].kind).Some? && forall j | i < j < |queue| :: sets(queue[j].kind).None?
  }

  ghost predicate NeverSets<T>(queue: seq<Intervention>, sets: Kind -> Option<T>) {
    forall iv | iv in queue :: sets(iv.kind).None?
  }

  // What a field is after the updates of a queue, one after the other.
  function Settled<T>(queue: seq<Intervention>, sets: Kind -> Option<T>, value: T): T
    decreases queue
  {
    if queue == [] then value
    else
      var update := sets(queue[0].kind);
      Settled(queue[1..], sets, if update.Some? then update.value else value)
  }

  lemma {:induction false} SettledByLast<T>(queue: seq<Intervention>, sets: Kind -> Option<T>, value: T, i: nat)
    ensures NeverSets(queue, sets) ==> Settled(queue, sets, value) == value
    ensures SetsLast(queue, i, sets) ==> Settled(queue, sets, value) == sets(queue[i].kind).value
    decreases queue
  {
    if queue != [] {
      var update, rest := sets(queue[0].kind), queue[1..];
      var next := if update.Some? then update.value else value;
      SettledByLast(rest, sets, next, if i > 0 then i - 1 else 0);
      assert queue[0] in queue && forall iv | iv in rest :: iv in queue;
      assert forall j | 0 <= j < |rest| :: rest[j] == queue[j + 1];
      if SetsLast(queue, i, sets) && i == 0 {
        assert NeverSets(rest, sets);
      }
    }
  }

  const GOAL := (k: Kind) => if k.ModifyGoal? then k.goal else None
  const CRITERIA := (k: Kind) => if k.ModifyGoal? then k.criteria else None
  const PRIORITY := (k: Kind) => if k.ModifyGoal? then k.priority else None
  const TOOL := (k: Kind) => if k.ReplaceToolCall? then k.tool else None
  const ARGUMENTS := (k: Kind) => if k.ReplaceToolCall? then k.toolArguments else None
  const SUMMARY := (k: Kind) => if k.ReplaceToolCall? then k.summary else None

  lemma {:induction false} GoalIsSettled(queue: seq<Intervention>, goal: Goal)
    ensures Modified(queue, goal)
            == Goal(Settled(queue, GOAL, goal.goal), Settled(queue, CRITERIA, goal.successCriteria),
                    Settled(queue, PRIORITY, goal.priority), goal.workspaceId)
    decreases queue
  {
    if queue != [] {
      GoalIsSettled(queue[1..], if queue[0].kind.ModifyGoal? then WithGoal(queue[0].kind, goal) else goal);
    }
  }

  // Each field of the goal is what the last change that names it says, or as it was if none does; the
  // workspace never changes.
  lemma LastGoalChangeWins(queue: seq<Intervention>, goal: Goal, i: nat)
    ensures var after := Modified(queue, goal);
            && after.workspaceId == goal.workspaceId
            && (SetsLast(queue, i, GOAL) ==> Some(after.goal) == queue[i].kind.goal)
            && (SetsLast(queue, i, CRITERIA) ==> Some(after.successCriteria) == queue[i].kind.criteria)
            && (SetsLast(queue, i, PRIORITY) ==> Some(after.priority) == queue[i].kind.priority)
            && (NeverSets(queue, GOAL) ==> after.goal == goal.goal)
            && (NeverSets(queue, CRITERIA) ==> after.successCriteria == goal.successCriteria)
            && (NeverSets(queue, PRIORITY) ==> after.priority == goal.priority)
  {
    GoalIsSettled(queue, goal);
    SettledByLast(queue, GOAL, goal.goal, i);
    SettledByLast(queue, CRITERIA, goal.successCriteria, i);
    SettledByLast(queue, PRIORITY, goal.priority, i);
  }

  lemma {:induction false} CallIsSettled(queue: seq<Intervention>, d: AgentDecision, marks: seq<nat>)
    ensures ApplyReplace(queue, d, marks).decision
            == d.(selectedTool := Settled(queue, TOOL, d.selectedTool),
                  toolArguments := Settled(queue, ARGUMENTS, d.toolArguments),
                  summary := Settled(queue, SUMMARY, d.summary))
    decreases queue
  {
    if queue != [] {
      var iv, rest := queue[0], queue[1..];
      if iv.kind.ReplaceToolCall? {
        CallIsSettled(rest, Replaced(iv.kind, d), marks + [iv.id]);
      } else {
        CallIsSettled(rest, d, marks);
      }
    }
  }

  // Tool, arguments and summary are what the last replacement that names them says, or as they were.
  lemma LastReplacementWins(queue: seq<Intervention>, d: AgentDecision, marks: seq<nat>, i: nat)
    ensures var after := ApplyReplace(queue, d, marks).decision;
            && (SetsLast(queue, i, TOOL) ==> Some(after.selectedTool) == queue[i].kind.tool)
            && (SetsLast(queue, i, ARGUMENTS) ==> Some(after.toolArguments) == queue[i].kind.toolArguments)
            && (SetsLast(queue, i, SUMMARY) ==> Some(after.summary) == queue[i].kind.summary)
            && (NeverSets(queue, TOOL) ==> after.selectedTool == d.selectedTool)
            && (NeverSets(queue, ARGUMENTS) ==> after.toolArguments == d.toolArguments)
            && (NeverSets(queue, SUMMARY) ==> after.summary == d.summary)
  {
    CallIsSettled(queue, d, marks);
    SettledByLast(queue, TOOL, d.selectedTool, i);
    SettledByLast(queue, ARGUMENTS, d.toolArguments, i);
    SettledByLast(queue, SUMMARY, d.summary, i);
  }
}

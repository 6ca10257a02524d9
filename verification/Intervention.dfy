// The human intervention queue of app/agent_runtime/intervention.py.
module Intervention {
  import opened Common
  import opened Decision

  datatype Kind =
    | InjectEvidence(observation: Observation)
    | ReplaceToolCall(tool: Option<string>, toolArguments: Option<string>, summary: Option<string>)
    | ModifyGoal(goal: Option<string>, criteria: Option<seq<string>>, priority: Option<string>)

  // An intervention object: two entries with the same identity are one object, with one flag.
  datatype Intervention = Intervention(id: nat, kind: Kind)

  // The entries whose object is not marked, in queue order.
  function Pending(queue: seq<Intervention>, applied: seq<nat>): seq<Intervention> {
    if queue == [] then []
    else (if queue[0].id in applied then [] else [queue[0]]) + Pending(queue[1..], applied)
  }

  class InterventionBridge {
    var queues: map<string, seq<Intervention>>
    // The objects marked as applied, in the order they were marked.
    var applied: seq<nat>

    constructor ()
      ensures queues == map[] && applied == []
    {
      queues, applied := map[], [];
    }

    function QueueOf(runId: string): seq<Intervention>
      reads this
    {
      if runId in queues then queues[runId] else []
    }

    method Add(runId: string, intervention: Intervention)
      modifies this`queues
      ensures queues == old(queues)[runId := old(QueueOf(runId)) + [intervention]]
    {
      queues := queues[runId := QueueOf(runId) + [intervention]];
    }

    method PendingFor(runId: string) returns (pending: seq<Intervention>)
      ensures pending == Pending(QueueOf(runId), applied)
    {
      pending := [];
      var queue := QueueOf(runId);
      for i := 0 to |queue|
        invariant pending + Pending(queue[i..], applied) == Pending(queue, applied)
      {
        OneMorePending(pending, queue, i, applied);
        if queue[i].id !in applied {
          pending := pending + [queue[i]];
        }
      }
      assert queue[|queue|..] == [];
    }

    method MarkApplied(intervention: Intervention)
      modifies this`applied
      ensures applied == old(applied) + [intervention.id]
    {
      applied := applied + [intervention.id];
    }

    method Clear(runId: string)
      modifies this`queues
      ensures queues == old(queues) - {runId}
    {
      queues := queues - {runId};
    }
  }

  lemma OneMorePending(sofar: seq<Intervention>, queue: seq<Intervention>, i: nat, applied: seq<nat>)
    requires i < |queue|
    ensures sofar + Pending(queue[i..], applied)
            == (if queue[i].id in applied then sofar else sofar + [queue[i]]) + Pending(queue[i + 1..], applied)
  {
    assert queue[i..][1..] == queue[i + 1..];
    Associate(sofar, [queue[i]], Pending(queue[i + 1..], applied));
  }

  // ----- Applying -----

  function Or<T>(update: Option<T>, current: T): T {
    if update.Some? then update.value else current
  }

  // The observation is validated when it is built.
  predicate IsValidObservation(o: Observation) {
    o.source != "" && o.summary != "" && 0.0 <= o.confidence <= 1.0
  }

  function InjectedInto(o: Observation, s: State): State {
    s.(observations := s.observations + [o])
  }

  function WithGoal(kind: Kind, goal: Goal): Goal
    requires kind.ModifyGoal?
  {
    goal.(goal := Or(kind.goal, goal.goal), successCriteria := Or(kind.criteria, goal.successCriteria),
          priority := Or(kind.priority, goal.priority))
  }

  function Replaced(kind: Kind, d: AgentDecision): AgentDecision
    requires kind.ReplaceToolCall?
  {
    d.(selectedTool := Or(kind.tool, d.selectedTool), toolArguments := Or(kind.toolArguments, d.toolArguments),
       summary := Or(kind.summary, d.summary))
  }

  // The state and the marks after the entries of a snapshot were applied before the decision, or
  // a failure when an injected observation does not validate.
  datatype Applied = Applied(state: State, marks: seq<nat>) | Invalid

  function ApplyBefore(snapshot: seq<Intervention>, s: State, marks: seq<nat>): Applied
    decreases snapshot
  {
    if snapshot == [] then Applied(s, marks)
    else
      var iv := snapshot[0];
      match iv.kind
      case InjectEvidence(o) =>
        if !IsValidObservation(o) then Invalid
        else ApplyBefore(snapshot[1..], InjectedInto(o, s), marks + [iv.id])
      case ModifyGoal(_, _, _) =>
        ApplyBefore(snapshot[1..], s.(goal := WithGoal(iv.kind, s.goal)), marks + [iv.id])
      case ReplaceToolCall(_, _, _) => ApplyBefore(snapshot[1..], s, marks)
  }

  datatype Overridden = Overridden(decision: AgentDecision, marks: seq<nat>)

  function ApplyReplace(snapshot: seq<Intervention>, d: AgentDecision, marks: seq<nat>): Overridden
    decreases snapshot
  {
    if snapshot == [] then Overridden(d, marks)
    else
      var iv := snapshot[0];
      if iv.kind.ReplaceToolCall? then ApplyReplace(snapshot[1..], Replaced(iv.kind, d), marks + [iv.id])
      else ApplyReplace(snapshot[1..], d, marks)
  }

  // The two loops of the agent loop over a snapshot.
  method ApplyPendingInterventions(snapshot: seq<Intervention>, state: State, applied: seq<nat>)
    returns (result: Applied)
    ensures result == ApplyBefore(snapshot, state, applied)
  {
    var current, marks := state, applied;
    for i := 0 to |snapshot|
      invariant ApplyBefore(snapshot[i..], current, marks) == ApplyBefore(snapshot, state, applied)
    {
      var iv := snapshot[i];
      assert snapshot[i..][0] == iv && snapshot[i..][1..] == snapshot[i + 1..];
      if iv.kind.InjectEvidence? {
        if !IsValidObservation(iv.kind.observation) { return Invalid; }
        current := InjectedInto(iv.kind.observation, current);
        marks := marks + [iv.id];
      } else if iv.kind.ModifyGoal? {
        current := current.(goal := WithGoal(iv.kind, current.goal));
        marks := marks + [iv.id];
      }
    }
    return Applied(current, marks);
  }

  method ApplyReplaceIntervention(snapshot: seq<Intervention>, decision: AgentDecision, applied: seq<nat>)
    returns (result: Overridden)
    ensures result == ApplyReplace(snapshot, decision, applied)
  {
    var current, marks := decision, applied;
    for i := 0 to |snapshot|
      invariant ApplyReplace(snapshot[i..], current, marks) == ApplyReplace(snapshot, decision, applied)
    {
      var iv := snapshot[i];
      assert snapshot[i..][0] == iv && snapshot[i..][1..] == snapshot[i + 1..];
      if iv.kind.ReplaceToolCall? {
        current := Replaced(iv.kind, current);
        marks := marks + [iv.id];
      }
    }
    return Overridden(current, marks);
  }

  // ----- What applying a snapshot comes to -----

  function Injected(queue: seq<Intervention>): seq<Observation> {
    if queue == [] then []
    else (if queue[0].kind.InjectEvidence? then [queue[0].kind.observation] else []) + Injected(queue[1..])
  }

  function Modified(queue: seq<Intervention>, goal: Goal): Goal
    decreases queue
  {
    if queue == [] then goal
    else Modified(queue[1..], if queue[0].kind.ModifyGoal? then WithGoal(queue[0].kind, goal) else goal)
  }

  // The identities of the entries of a queue that replace a tool call, or of those that do not.
  function Ids(queue: seq<Intervention>, replacing: bool): seq<nat> {
    if queue == [] then []
    else (if queue[0].kind.ReplaceToolCall? == replacing then [queue[0].id] else []) + Ids(queue[1..], replacing)
  }

  // The state after these observations and goal changes.
  function ChangedBy(s: State, injected: seq<Observation>, goal: Goal): State {
    s.(observations := s.observations + injected, goal := goal)
  }

  lemma {:induction false} BeforeComesTo(snapshot: seq<Intervention>, s: State, marks: seq<nat>)
    requires ApplyBefore(snapshot, s, marks).Applied?
    ensures ApplyBefore(snapshot, s, marks)
            == Applied(ChangedBy(s, Injected(snapshot), Modified(snapshot, s.goal)), marks + Ids(snapshot, false))
    decreases snapshot
  {
    if snapshot == [] {
      assert s.observations + [] == s.observations && marks + [] == marks;
    } else {
      var iv, rest := snapshot[0], snapshot[1..];
      Associate(marks, [iv.id], Ids(rest, false));
      match iv.kind
      case InjectEvidence(o) =>
        BeforeComesTo(rest, InjectedInto(o, s), marks + [iv.id]);
        Associate(s.observations, [o], Injected(rest));
      case ModifyGoal(_, _, _) =>
        BeforeComesTo(rest, s.(goal := WithGoal(iv.kind, s.goal)), marks + [iv.id]);
      case ReplaceToolCall(_, _, _) =>
        BeforeComesTo(rest, s, marks);
    }
  }

  // A replacement never turns a decision into another kind of action.
  lemma {:induction false} ReplaceComesTo(snapshot: seq<Intervention>, d: AgentDecision, marks: seq<nat>)
    ensures var r := ApplyReplace(snapshot, d, marks);
            && r.marks == marks + Ids(snapshot, true)
            && r.decision == d.(selectedTool := r.decision.selectedTool, toolArguments := r.decision.toolArguments,
                                summary := r.decision.summary)
    decreases snapshot
  {
    if snapshot == [] {
      assert marks + [] == marks;
    } else {
      var iv, rest := snapshot[0], snapshot[1..];
      if iv.kind.ReplaceToolCall? {
        ReplaceComesTo(rest, Replaced(iv.kind, d), marks + [iv.id]);
        Associate(marks, [iv.id], Ids(rest, true));
      } else {
        ReplaceComesTo(rest, d, marks);
      }
    }
  }

  // ----- Reading a growing queue -----

  // No object is queued twice.
  ghost predicate AreDistinct(queue: seq<Intervention>) {
    forall i, j | 0 <= i < j < |queue| :: queue[i].id != queue[j].id
  }

  ghost predicate HasNoRepeat(marks: seq<nat>) {
    forall i, j | 0 <= i < j < |marks| :: marks[i] != marks[j]
  }

  ghost predicate AllMarked(queue: seq<Intervention>, marks: seq<nat>, replacing: bool) {
    forall iv | iv in queue && iv.kind.ReplaceToolCall? == replacing :: iv.id in marks
  }

  ghost predicate NoneMarked(queue: seq<Intervention>, marks: seq<nat>, replacing: bool) {
    forall iv | iv in queue && iv.kind.ReplaceToolCall? == replacing :: iv.id !in marks
  }

  // Exactly the injections and goal changes among the first c entries and the replacements among
  // the first e are marked, each once.
  ghost predicate MarkedUpTo(queue: seq<Intervention>, marks: seq<nat>, c: nat, e: nat) {
    && c <= |queue| && e <= |queue|
    && AllMarked(queue[..c], marks, false) && AllMarked(queue[..e], marks, true)
    && (forall id | id in marks :: id in Ids(queue[..c], false) || id in Ids(queue[..e], true))
    && HasNoRepeat(marks)
  }

  lemma {:induction false} IdsAreOf(queue: seq<Intervention>, replacing: bool)
    ensures forall id | id in Ids(queue, replacing) ::
              exists iv :: iv in queue && iv.id == id && iv.kind.ReplaceToolCall? == replacing
    ensures forall iv | iv in queue && iv.kind.ReplaceToolCall? == replacing :: iv.id in Ids(queue, replacing)
  {
    if queue != [] {
      IdsAreOf(queue[1..], replacing);
    }
  }

  lemma {:induction false} IdsAppend(a: seq<Intervention>, b: seq<Intervention>, replacing: bool)
    ensures Ids(a + b, replacing) == Ids(a, replacing) + Ids(b, replacing)
  {
    if a == [] {
      assert a + b == b;
    } else {
      IdsAppend(a[1..], b, replacing);
      assert (a + b)[1..] == a[1..] + b;
      Associate(if a[0].kind.ReplaceToolCall? == replacing then [a[0].id] else [],
                Ids(a[1..], replacing), Ids(b, replacing));
    }
  }

  lemma {:induction false} InjectedAppend(a: seq<Intervention>, b: seq<Intervention>)
    ensures Injected(a + b) == Injected(a) + Injected(b)
  {
    if a == [] {
      assert a + b == b;
    } else {
      InjectedAppend(a[1..], b);
      assert (a + b)[1..] == a[1..] + b;
      Associate(if a[0].kind.InjectEvidence? then [a[0].kind.observation] else [], Injected(a[1..]), Injected(b));
    }
  }

  lemma {:induction false} ModifiedAppend(a: seq<Intervention>, b: seq<Intervention>, goal: Goal)
    ensures Modified(a + b, goal) == Modified(b, Modified(a, goal))
    decreases a
  {
    if a == [] {
      assert a + b == b;
    } else {
      ModifiedAppend(a[1..], b, if a[0].kind.ModifyGoal? then WithGoal(a[0].kind, goal) else goal);
      assert (a + b)[1..] == a[1..] + b;
    }
  }

  lemma {:induction false} PendingAppend(a: seq<Intervention>, b: seq<Intervention>, marks: seq<nat>)
    ensures Pending(a + b, marks) == Pending(a, marks) + Pending(b, marks)
  {
    if a == [] {
      assert a + b == b;
    } else {
      PendingAppend(a[1..], b, marks);
      assert (a + b)[1..] == a[1..] + b;
      Associate(if a[0].id in marks then [] else [a[0]], Pending(a[1..], marks), Pending(b, marks));
    }
  }

  lemma {:induction false} PendingIds(queue: seq<Intervention>, marks: seq<nat>, replacing: bool)
    ensures AllMarked(queue, marks, replacing) ==> Ids(Pending(queue, marks), replacing) == []
    ensures NoneMarked(queue, marks, replacing) ==> Ids(Pending(queue, marks), replacing) == Ids(queue, replacing)
  {
    if queue != [] {
      PendingIds(queue[1..], marks, replacing);
      PendingFirst(queue, marks);
      assert queue[0] in queue && forall iv | iv in queue[1..] :: iv in queue;
    }
  }

  lemma PendingFirst(queue: seq<Intervention>, marks: seq<nat>)
    requires queue != []
    ensures queue[0].id in marks ==> Pending(queue, marks) == Pending(queue[1..], marks)
    ensures queue[0].id !in marks ==>
              Pending(queue, marks) != [] && Pending(queue, marks)[0] == queue[0]
              && Pending(queue, marks)[1..] == Pending(queue[1..], marks)
  {}

  lemma {:induction false} PendingChanges(queue: seq<Intervention>, marks: seq<nat>, goal: Goal)
    ensures AllMarked(queue, marks, false) ==>
              Injected(Pending(queue, marks)) == [] && Modified(Pending(queue, marks), goal) == goal
    ensures NoneMarked(queue, marks, false) ==>
              && Injected(Pending(queue, marks)) == Injected(queue)
              && Modified(Pending(queue, marks), goal) == Modified(queue, goal)
    decreases queue
  {
    if queue != [] {
      var goal' := if queue[0].kind.ModifyGoal? then WithGoal(queue[0].kind, goal) else goal;
      PendingChanges(queue[1..], marks, goal);
      PendingChanges(queue[1..], marks, goal');
      PendingFirst(queue, marks);
      assert queue[0] in queue && forall iv | iv in queue[1..] :: iv in queue;
    }
  }

  // Entries beyond the marked part are unmarked.
  lemma BeyondIsUnmarked(queue: seq<Intervention>, marks: seq<nat>, c: nat, e: nat)
    requires AreDistinct(queue) && MarkedUpTo(queue, marks, c, e)
    ensures NoneMarked(queue[c..], marks, false) && NoneMarked(queue[e..], marks, true)
  {
    IdsAreOf(queue[..c], false);
    IdsAreOf(queue[..e], true);
    forall i | 0 <= i < |queue| && queue[i].id in marks
      ensures if queue[i].kind.ReplaceToolCall? then i < e else i < c
    {
      if queue[i].id in Ids(queue[..c], false) {
        var j :| 0 <= j < c && queue[j].id == queue[i].id && !queue[j].kind.ReplaceToolCall?;
        assert i == j;
      } else {
        var j :| 0 <= j < e && queue[j].id == queue[i].id && queue[j].kind.ReplaceToolCall?;
        assert i == j;
      }
    }
    assert forall j | 0 <= j < |queue[c..]| :: queue[c..][j] == queue[c + j];
    assert forall j | 0 <= j < |queue[e..]| :: queue[e..][j] == queue[e + j];
  }

  lemma {:induction false} IdsOfDistinct(queue: seq<Intervention>, replacing: bool)
    requires AreDistinct(queue)
    ensures HasNoRepeat(Ids(queue, replacing))
  {
    if queue != [] {
      IdsOfDistinct(queue[1..], replacing);
      IdsAreOf(queue[1..], replacing);
      assert queue[0].id !in Ids(queue[1..], replacing);
      NoRepeatAppend([queue[0].id], Ids(queue[1..], replacing));
    }
  }

  lemma NoRepeatAppend(a: seq<nat>, b: seq<nat>)
    requires HasNoRepeat(a) && HasNoRepeat(b) && forall x | x in b :: x !in a
    ensures HasNoRepeat(a + b)
  {
    var all := a + b;
    forall i, j | 0 <= i < j < |all|
      ensures all[i] != all[j]
    {
      if i < |a| <= j {
        assert all[j] == b[j - |a|] && all[j] in b;
      }
    }
  }

  // The read before a decision marks exactly the injections and goal changes not read yet.
  lemma ReadBefore(queue: seq<Intervention>, marks: seq<nat>, c: nat, e: nat, goal: Goal)
    requires AreDistinct(queue) && MarkedUpTo(queue, marks, c, e)
    ensures var read := Pending(queue, marks);
            && Injected(read) == Injected(queue[c..]) && Modified(read, goal) == Modified(queue[c..], goal)
            && Ids(read, false) == Ids(queue[c..], false)
            && MarkedUpTo(queue, marks + Ids(read, false), |queue|, e)
  {
    assert queue == queue[..c] + queue[c..];
    BeyondIsUnmarked(queue, marks, c, e);
    PendingAppend(queue[..c], queue[c..], marks);
    var old', new' := Pending(queue[..c], marks), Pending(queue[c..], marks);
    PendingIds(queue[..c], marks, false);
    PendingIds(queue[c..], marks, false);
    IdsAppend(old', new', false);
    PendingChanges(queue[..c], marks, goal);
    PendingChanges(queue[c..], marks, goal);
    InjectedAppend(old', new');
    ModifiedAppend(old', new', goal);
    MarkRest(queue, marks, c, e, false);
  }

  // The read after a decision marks exactly the replacements not read yet.
  lemma ReadAfter(queue: seq<Intervention>, marks: seq<nat>, c: nat, e: nat)
    requires AreDistinct(queue) && MarkedUpTo(queue, marks, c, e)
    ensures var read := Pending(queue, marks);
            && Ids(read, true) == Ids(queue[e..], true)
            && MarkedUpTo(queue, marks + Ids(read, true), c, |queue|)
  {
    assert queue == queue[..e] + queue[e..];
    BeyondIsUnmarked(queue, marks, c, e);
    PendingAppend(queue[..e], queue[e..], marks);
    PendingIds(queue[..e], marks, true);
    PendingIds(queue[e..], marks, true);
    IdsAppend(Pending(queue[..e], marks), Pending(queue[e..], marks), true);
    MarkRest(queue, marks, c, e, true);
  }

  lemma MarkRest(queue: seq<Intervention>, marks: seq<nat>, c: nat, e: nat, replacing: bool)
    requires AreDistinct(queue) && MarkedUpTo(queue, marks, c, e)
    ensures var rest := if replacing then queue[e..] else queue[c..];
            if replacing then MarkedUpTo(queue, marks + Ids(rest, true), c, |queue|)
            else MarkedUpTo(queue, marks + Ids(rest, false), |queue|, e)
  {
    var cut := if replacing then e else c;
    var rest := queue[cut..];
    BeyondIsUnmarked(queue, marks, c, e);
    IdsAreOf(rest, replacing);
    IdsOfDistinct(rest, replacing);
    NoRepeatAppend(marks, Ids(rest, replacing));
    assert queue[..|queue|] == queue == queue[..cut] + rest;
    IdsAppend(queue[..cut], rest, replacing);
  }

  // New entries leave the marks as they are.
  lemma MarkedWhenLonger(queue: seq<Intervention>, more: seq<Intervention>, marks: seq<nat>, c: nat, e: nat)
    requires MarkedUpTo(queue, marks, c, e)
    ensures MarkedUpTo(queue + more, marks, c, e)
  {
    assert (queue + more)[..c] == queue[..c] && (queue + more)[..e] == queue[..e];
  }

  // ----- An object queued twice -----

  // No object stands twice among the entries of that kind.
  ghost predicate NoneTwice(queue: seq<Intervention>, replacing: bool) {
    forall i, j | 0 <= i < j < |queue|
                  && queue[i].kind.ReplaceToolCall? == queue[j].kind.ReplaceToolCall? == replacing ::
      queue[i].id != queue[j].id
  }

  lemma {:induction false} NoRepeatExactly(queue: seq<Intervention>, replacing: bool)
    ensures HasNoRepeat(Ids(queue, replacing)) <==> NoneTwice(queue, replacing)
  {
    if queue != [] {
      var rest := queue[1..];
      NoRepeatExactly(rest, replacing);
      if queue[0].kind.ReplaceToolCall? == replacing {
        IdsAreOf(rest, replacing);
        NoRepeatCons(queue[0].id, Ids(rest, replacing));
        NoneTwiceCons(queue, replacing);
      } else {
        NoneTwiceRest(queue, replacing);
        assert Ids(queue, replacing) == Ids(rest, replacing);
      }
    }
  }

  lemma NoRepeatCons(x: nat, b: seq<nat>)
    ensures HasNoRepeat([x] + b) <==> x !in b && HasNoRepeat(b)
  {
    var all := [x] + b;
    assert all[0] == x && forall i | 0 <= i < |b| :: all[i + 1] == b[i];
    if x !in b && HasNoRepeat(b) {
      NoRepeatAppend([x], b);
    }
  }

  lemma NoneTwiceRest(queue: seq<Intervention>, replacing: bool)
    requires queue != [] && queue[0].kind.ReplaceToolCall? != replacing
    ensures NoneTwice(queue, replacing) <==> NoneTwice(queue[1..], replacing)
  {
    var rest := queue[1..];
    assert forall i | 0 <= i < |rest| :: rest[i] == queue[i + 1];
    assert forall i | 1 <= i < |queue| :: queue[i] == rest[i - 1];
  }

  lemma NoneTwiceCons(queue: seq<Intervention>, replacing: bool)
    requires queue != [] && queue[0].kind.ReplaceToolCall? == replacing
    ensures NoneTwice(queue, replacing) <==>
              && NoneTwice(queue[1..], replacing)
              && forall iv | iv in queue[1..] && iv.kind.ReplaceToolCall? == replacing :: iv.id != queue[0].id
  {
    var rest := queue[1..];
    assert forall i | 0 <= i < |rest| :: rest[i] == queue[i + 1];
    assert forall i | 1 <= i < |queue| :: queue[i] == rest[i - 1] && rest[i - 1] in rest;
  }

  // Marking the entries of one kind that a read finds marks no object twice exactly when none was,
  // and no unmarked object of that kind stands twice in the queue.
  lemma MarksOnceExactly(queue: seq<Intervention>, marks: seq<nat>, replacing: bool)
    ensures var snapshot := Pending(queue, marks);
            HasNoRepeat(marks + Ids(snapshot, replacing)) <==> HasNoRepeat(marks) && NoneTwice(snapshot, replacing)
  {
    var ids := Ids(Pending(queue, marks), replacing);
    NoRepeatExactly(Pending(queue, marks), replacing);
    IdsAreOf(Pending(queue, marks), replacing);
    PendingIsUnmarked(queue, marks);
    if HasNoRepeat(marks) && HasNoRepeat(ids) {
      NoRepeatAppend(marks, ids);
    } else {
      RepeatStays(marks, ids);
    }
  }

  lemma RepeatStays(a: seq<nat>, b: seq<nat>)
    requires !HasNoRepeat(a) || !HasNoRepeat(b)
    ensures !HasNoRepeat(a + b)
  {
    var all := a + b;
    if !HasNoRepeat(a) {
      var i, j :| 0 <= i < j < |a| && a[i] == a[j];
      assert all[i] == all[j];
    } else {
      var i, j :| 0 <= i < j < |b| && b[i] == b[j];
      assert all[|a| + i] == all[|a| + j];
    }
  }

  // One read, before or after a decision, applies every object at most once exactly when no unmarked
  // object of its kinds stands twice in the queue: the snapshot is taken before anything is marked.
  lemma ReadAppliesOnceExactly(queue: seq<Intervention>, marks: seq<nat>, s: State, d: AgentDecision)
    requires HasNoRepeat(marks)
    ensures var before := ApplyBefore(Pending(queue, marks), s, marks);
            before.Applied? ==> (HasNoRepeat(before.marks) <==> NoneTwice(Pending(queue, marks), false))
    ensures HasNoRepeat(ApplyReplace(Pending(queue, marks), d, marks).marks) <==> NoneTwice(Pending(queue, marks), true)
  {
    if ApplyBefore(Pending(queue, marks), s, marks).Applied? {
      BeforeComesTo(Pending(queue, marks), s, marks);
    }
    ReplaceComesTo(Pending(queue, marks), d, marks);
    MarksOnceExactly(queue, marks, false);
    MarksOnceExactly(queue, marks, true);
  }

  lemma {:induction false} PendingIsUnmarked(queue: seq<Intervention>, marks: seq<nat>)
    ensures forall iv | iv in Pending(queue, marks) :: iv in queue && iv.id !in marks
  {
    if queue != [] {
      PendingIsUnmarked(queue[1..], marks);
    }
  }
}

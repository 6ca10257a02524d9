// Every interleaving of the approval handlers with the runtime, over any number of runs.
module ApprovalRuns {
  import opened Common
  import opened Approval
  import ToolExecutor

  // A resume task that has logged ready_for_resume and waits for its tool.
  datatype InFlight = InFlight(runId: string, tool: string, arguments: Arguments)

  datatype State = State(runs: map<string, Run>, inFlight: seq<InFlight>)

  const START := State(map[], [])

  datatype Step =
    | CreateRun(runId: string)
    | RuntimeAppends(runId: string, event: Event)
    | RuntimeSetsStatus(runId: string, status: Status)
    | Expire(runId: string, now: int, timeout: int)
    | Decide(runId: string, tool: string, verdict: Verdict, queue: Scheduling, now: int, timeout: int)
    | BeginResume(runId: string, tool: string, decision: Verdict, checkpointAvailable: bool)
    | FinishResume(index: nat, tools: seq<ToolExecutor.Tool>)

  // The runtime logs neither decisions nor resumes.
  predicate IsRuntimeEvent(e: Event) {
    !e.ApprovalDecision? && !e.ApprovalResume? && !e.ResumedResult?
  }

  // Each step is what the handler of that name does to the state; a step that cannot be taken
  // changes nothing.
  function Next(s: State, step: Step): State {
    match step
    case CreateRun(id) => if id in s.runs then s else s.(runs := s.runs[id := Run(Running, [])])
    case RuntimeAppends(id, e) =>
      if id !in s.runs || !IsRuntimeEvent(e) then s
      else s.(runs := s.runs[id := s.runs[id].(events := s.runs[id].events + [e])])
    case RuntimeSetsStatus(id, status) =>
      if id !in s.runs then s else s.(runs := s.runs[id := s.runs[id].(status := status)])
    case Expire(id, now, timeout) =>
      if id !in s.runs then s else s.(runs := s.runs[id := AfterExpiry(s.runs[id], now, timeout)])
    case Decide(id, tool, verdict, queue, now, timeout) =>
      if id !in s.runs then s
      else s.(runs := s.runs[id := AfterDecision(s.runs[id], tool, verdict, queue, now, timeout).1])
    case BeginResume(id, tool, decision, available) =>
      if id == "" || id !in s.runs then s
      else
        var (outcome, run) := AfterResumeCheck(s.runs[id], tool, decision, available);
        State(s.runs[id := run],
              if outcome.Started? then s.inFlight + [InFlight(id, tool, outcome.arguments)] else s.inFlight)
    case FinishResume(i, tools) =>
      if i >= |s.inFlight| || s.inFlight[i].runId !in s.runs then s
      else
        var f := s.inFlight[i];
        var e := ResultEvent(ExecuteOriginalAction(tools, f.tool, f.arguments));
        State(s.runs[f.runId := s.runs[f.runId].(events := s.runs[f.runId].events + [e])],
              s.inFlight[..i] + s.inFlight[i + 1..])
  }

  function After(s: State, steps: seq<Step>): State
    decreases steps
  {
    if steps == [] then s else After(Next(s, steps[0]), steps[1..])
  }

  ghost predicate Reachable(s: State) {
    exists steps :: After(START, steps) == s
  }

  // ----- What a log keeps -----

  // All decisions about one named tool are the same.
  ghost predicate DecisionsAgree(events: seq<Event>) {
    forall a, b | a in events && b in events && a.ApprovalDecision? && b.ApprovalDecision?
                  && a.toolName == b.toolName && a.toolName != "" :: a.verdict == b.verdict
  }

  // At position i a resume was found ready: the tool was approved, and these were the arguments
  // of its last call.
  ghost predicate ReadyAt(events: seq<Event>, i: nat, tool: string, arguments: Arguments) {
    && i < |events| && events[i] == ApprovalResume(tool, ReadyForResume) && tool != ""
    && LatestDecision(events[..i], tool) == Some(Approved)
    && LastCall(events[..i], tool) == Some(arguments)
  }

  ghost predicate Backed(events: seq<Event>, tool: string, arguments: Arguments) {
    exists i: nat :: ReadyAt(events, i, tool, arguments)
  }

  ghost predicate ResultsAreBacked(events: seq<Event>) {
    forall j | 0 <= j < |events| && events[j].ResumedResult? ::
      Backed(events[..j], events[j].toolName, events[j].arguments)
  }

  ghost predicate Sound(events: seq<Event>) {
    DecisionsAgree(events) && ResultsAreBacked(events)
  }

  ghost predicate Good(s: State) {
    && (forall id | id in s.runs :: Sound(s.runs[id].events))
    && (forall f | f in s.inFlight :: f.runId in s.runs && Backed(s.runs[f.runId].events, f.tool, f.arguments))
  }

  lemma BackedStays(events: seq<Event>, more: seq<Event>, tool: string, arguments: Arguments)
    requires Backed(events, tool, arguments)
    ensures Backed(events + more, tool, arguments)
  {
    var i: nat :| ReadyAt(events, i, tool, arguments);
    assert (events + more)[..i] == events[..i];
    assert ReadyAt(events + more, i, tool, arguments);
  }

  lemma AppendKeepsResults(events: seq<Event>, e: Event)
    requires ResultsAreBacked(events)
    requires e.ResumedResult? ==> Backed(events, e.toolName, e.arguments)
    ensures ResultsAreBacked(events + [e])
  {
    var all := events + [e];
    forall j | 0 <= j < |all| && all[j].ResumedResult?
      ensures Backed(all[..j], all[j].toolName, all[j].arguments)
    {
      assert all[..j] == events[..j];
      assert events[..|events|] == events;
    }
  }

  // Appending one event keeps a log sound if a decision agrees with those before it and a result
  // is backed.
  lemma {:induction false} AppendKeepsSound(events: seq<Event>, e: Event)
    requires Sound(events)
    requires e.ResumedResult? ==> Backed(events, e.toolName, e.arguments)
    requires e.ApprovalDecision? ==>
               forall d | d in events && d.ApprovalDecision? && d.toolName == e.toolName && e.toolName != "" ::
                 d.verdict == e.verdict
    ensures Sound(events + [e])
  {
    AppendKeepsResults(events, e);
  }

  lemma AppendTwoKeepsSound(events: seq<Event>, a: Event, b: Event)
    requires Sound(events) && IsPlain(a) && IsPlain(b)
    ensures Sound(events + [a, b])
  {
    AppendKeepsSound(events, a);
    AppendKeepsSound(events + [a], b);
    assert events + [a] + [b] == events + [a, b];
  }

  predicate IsPlain(e: Event) { !e.ApprovalDecision? && !e.ResumedResult? }

  lemma {:induction false} DecisionIsListed(events: seq<Event>, d: Event)
    requires d in events && d.ApprovalDecision? && d.toolName != ""
    ensures d.toolName in Decisions(events)
    decreases |events|
  {
    if d != Last(events) {
      DecisionIsListed(Init(events), d);
    }
  }

  lemma UndecidedIsUnlogged(events: seq<Event>, tool: string)
    requires tool !in Decisions(events)
    ensures tool != "" ==> forall d | d in events :: !(d.ApprovalDecision? && d.toolName == tool)
  {
    forall d | d in events && d.ApprovalDecision? && d.toolName != ""
      ensures d.toolName in Decisions(events)
    {
      DecisionIsListed(events, d);
    }
  }

  lemma {:induction false} LatestIsInLog(events: seq<Event>, tool: string)
    requires LatestDecision(events, tool).Some?
    ensures ApprovalDecision(tool, LatestDecision(events, tool).value) in events
    decreases |events|
  {
    if !(Last(events).ApprovalDecision? && Last(events).toolName == tool) {
      LatestIsInLog(Init(events), tool);
    }
  }

  // ----- Expiry -----

  lemma {:induction false} OverdueIsUndecided(events: seq<Event>, decisions: map<string, Verdict>, now: int,
                                              timeout: int)
    ensures forall t | t in OverdueTools(events, decisions, now, timeout) :: t != "" && t !in decisions
    decreases |events|
  {
    if events != [] {
      OverdueIsUndecided(Init(events), decisions, now, timeout);
    }
  }

  // Every decision about tool is an expiry.
  ghost predicate OnlyExpired(events: seq<Event>, tool: string) {
    forall d | d in events && d.ApprovalDecision? && d.toolName == tool :: d.verdict == Expired
  }

  lemma {:induction false} ExpiryKeepsSound(run: Run, tools: seq<string>, undecided: set<string>)
    requires Sound(run.events) && forall t | t in tools :: t in undecided
    requires forall t | t in undecided :: OnlyExpired(run.events, t)
    ensures Sound(WithExpired(run, tools).events)
    ensures forall t | t in undecided :: OnlyExpired(WithExpired(run, tools).events, t)
    decreases |tools|
  {
    if tools == [] {
      assert run.events + [] == run.events;
    } else {
      var before, t := Init(tools), Last(tools);
      ExpiryKeepsSound(run, before, undecided);
      assert tools == before + [t];
      OneMoreExpired(run, before, t);
      var events := WithExpired(run, before).events;
      assert OnlyExpired(events, t);
      AppendKeepsSound(events, ApprovalDecision(t, Expired));
      AppendTwoKeepsSound(events + [ApprovalDecision(t, Expired)],
                          HandoffDecision(t, ApprovalExpired), Handoff(t, ApprovalExpired));
    }
  }

  lemma AfterExpiryIsSound(run: Run, now: int, timeout: int)
    requires Sound(run.events)
    ensures Sound(AfterExpiry(run, now, timeout).events)
  {
    var decisions := Decisions(run.events);
    var tools := OverdueTools(run.events, decisions, now, timeout);
    OverdueIsUndecided(run.events, decisions, now, timeout);
    var undecided := set t | t in tools;
    forall t | t in undecided ensures OnlyExpired(run.events, t) { UndecidedIsUnlogged(run.events, t); }
    ExpiryKeepsSound(run, tools, undecided);
  }

  lemma AfterDecisionIsSound(run: Run, tool: string, verdict: Verdict, queue: Scheduling, now: int, timeout: int)
    requires Sound(run.events)
    ensures Sound(AfterDecision(run, tool, verdict, queue, now, timeout).1.events)
  {
    AfterExpiryIsSound(run, now, timeout);
    var r := AfterExpiry(run, now, timeout);
    if (verdict == Approved || verdict == Rejected) && tool !in Decisions(r.events) {
      UndecidedIsUnlogged(r.events, tool);
      AppendKeepsSound(r.events, ApprovalDecision(tool, verdict));
      var decided := r.events + [ApprovalDecision(tool, verdict)];
      AppendKeepsSound(decided, ApprovalResume(tool, Scheduled(queue)));
      AppendTwoKeepsSound(decided, HandoffDecision(tool, ApprovalRejected), Handoff(tool, ApprovalRejected));
    }
  }

  lemma AfterResumeCheckIsSound(run: Run, tool: string, decision: Verdict, available: bool)
    requires Sound(run.events)
    ensures var (outcome, r) := AfterResumeCheck(run, tool, decision, available);
            Sound(r.events) && (outcome.Started? ==> Backed(r.events, tool, outcome.arguments))
  {
    var (outcome, r) := AfterResumeCheck(run, tool, decision, available);
    if r != run {
      AppendKeepsSound(run.events, Last(r.events));
      if outcome.Started? {
        assert r.events[..|run.events|] == run.events;
        assert ReadyAt(r.events, |run.events|, tool, outcome.arguments);
      }
    }
  }

  // ----- Every step -----

  // A run's log only grows.
  ghost predicate Grows(s: State, t: State) {
    forall id | id in s.runs :: id in t.runs && s.runs[id].events <= t.runs[id].events
  }

  lemma NextGrows(s: State, step: Step)
    ensures Grows(s, Next(s, step))
  {
    if step.Decide? && step.runId in s.runs {
      assert s.runs[step.runId].events <= AfterExpiry(s.runs[step.runId], step.now, step.timeout).events;
    }
  }

  lemma {:induction false} AfterGrows(s: State, steps: seq<Step>)
    ensures Grows(s, After(s, steps))
    decreases steps
  {
    if steps != [] {
      NextGrows(s, steps[0]);
      AfterGrows(Next(s, steps[0]), steps[1..]);
    }
  }

  lemma FlightsStayBacked(s: State, t: State, f: InFlight)
    requires Good(s) && Grows(s, t) && f in s.inFlight
    ensures f.runId in t.runs && Backed(t.runs[f.runId].events, f.tool, f.arguments)
  {
    var a, b := s.runs[f.runId].events, t.runs[f.runId].events;
    assert b == a + b[|a|..];
    BackedStays(a, b[|a|..], f.tool, f.arguments);
  }

  lemma NextRunsAreSound(s: State, step: Step, id: string)
    requires Good(s) && id in Next(s, step).runs
    ensures Sound(Next(s, step).runs[id].events)
  {
    if id in s.runs && Next(s, step).runs[id] != s.runs[id] {
      var run := s.runs[id];
      match step
      case CreateRun(_) =>
      case RuntimeAppends(_, e) => AppendKeepsSound(run.events, e);
      case RuntimeSetsStatus(_, _) =>
      case Expire(_, now, timeout) => AfterExpiryIsSound(run, now, timeout);
      case Decide(_, tool, verdict, queue, now, timeout) =>
        AfterDecisionIsSound(run, tool, verdict, queue, now, timeout);
      case BeginResume(_, tool, decision, available) => AfterResumeCheckIsSound(run, tool, decision, available);
      case FinishResume(i, tools) =>
        var f := s.inFlight[i];
        AppendKeepsSound(run.events, ResultEvent(ExecuteOriginalAction(tools, f.tool, f.arguments)));
    }
  }

  lemma {:induction false} NextIsGood(s: State, step: Step)
    requires Good(s)
    ensures Good(Next(s, step))
  {
    var t := Next(s, step);
    forall id | id in t.runs ensures Sound(t.runs[id].events) { NextRunsAreSound(s, step, id); }
    NextGrows(s, step);
    forall f | f in t.inFlight ensures f.runId in t.runs && Backed(t.runs[f.runId].events, f.tool, f.arguments) {
      if f in s.inFlight {
        FlightsStayBacked(s, t, f);
      } else {
        AfterResumeCheckIsSound(s.runs[step.runId], step.tool, step.decision, step.checkpointAvailable);
      }
    }
  }

  lemma {:induction false} AfterIsGood(s: State, steps: seq<Step>)
    requires Good(s)
    ensures Good(After(s, steps))
    decreases steps
  {
    if steps != [] {
      NextIsGood(s, steps[0]);
      AfterIsGood(Next(s, steps[0]), steps[1..]);
    }
  }

  lemma ReachableIsGood(s: State)
    requires Reachable(s)
    ensures Good(s)
  {
    var steps :| After(START, steps) == s;
    AfterIsGood(START, steps);
  }

  // ----- The theorems -----

  // The first decision about a named tool is final: whatever happens later, both the forward map
  // and the reverse scan keep returning it.
  lemma FirstDecisionIsFinal(s: State, more: seq<Step>, runId: string, tool: string, verdict: Verdict)
    requires Reachable(s) && runId in s.runs && tool != ""
    requires ApprovalDecision(tool, verdict) in s.runs[runId].events
    ensures runId in After(s, more).runs
    ensures var events := After(s, more).runs[runId].events;
            && LatestDecision(events, tool) == Some(verdict)
            && tool in Decisions(events) && Decisions(events)[tool] == verdict
  {
    ReachableIsGood(s);
    AfterIsGood(s, more);
    AfterGrows(s, more);
    var events := After(s, more).runs[runId].events;
    assert ApprovalDecision(tool, verdict) in events;
    DecisionIsListed(events, ApprovalDecision(tool, verdict));
    ScansAgree(events, tool);
    LatestIsInLog(events, tool);
  }

  // A tool that was rejected or whose request expired has no resumed result, then or ever.
  lemma RefusedToolIsNeverResumed(s: State, more: seq<Step>, runId: string, tool: string, verdict: Verdict)
    requires Reachable(s) && runId in s.runs && verdict != Approved
    requires ApprovalDecision(tool, verdict) in s.runs[runId].events
    ensures runId in After(s, more).runs
    ensures tool != "" ==>
            forall e | e in After(s, more).runs[runId].events :: !(e.ResumedResult? && e.toolName == tool)
  {
    AfterGrows(s, more);
    if tool != "" {
      FirstDecisionIsFinal(s, more, runId, tool, verdict);
      ReachableIsGood(s);
      AfterIsGood(s, more);
      var events := After(s, more).runs[runId].events;
      forall e | e in events ensures !(e.ResumedResult? && e.toolName == tool) {
        if e.ResumedResult? && e.toolName == tool {
          var j :| 0 <= j < |events| && events[j] == e;
          ResultNeedsApproval(events, j);
        }
      }
    }
  }

  lemma ResultNeedsApproval(events: seq<Event>, j: nat)
    requires Sound(events) && j < |events| && events[j].ResumedResult?
    ensures events[j].toolName != "" && ApprovalDecision(events[j].toolName, Approved) in events
  {
    var tool, arguments := events[j].toolName, events[j].arguments;
    var i: nat :| ReadyAt(events[..j], i, tool, arguments);
    LatestIsInLog(events[..j][..i], tool);
    assert ApprovalDecision(tool, Approved) in events[..j];
  }

  // Every resumed result (at j) in any reachable log comes after a ready_for_resume event (at i) for
  // its tool; before that, the tool was approved (at d) and had been called, and the result carries
  // the arguments of the last call (at c) at that point.
  lemma ResumedResultIsBacked(s: State, runId: string, j: nat) returns (i: nat, c: nat, d: nat)
    requires Reachable(s) && runId in s.runs
    requires j < |s.runs[runId].events| && s.runs[runId].events[j].ResumedResult?
    ensures c < i < j && d < i
    ensures var events, tool := s.runs[runId].events, s.runs[runId].events[j].toolName;
            && events[i] == ApprovalResume(tool, ReadyForResume)
            && events[d] == ApprovalDecision(tool, Approved)
            && IsCall(events[c], tool) && OrEmpty(events[c].callArguments) == events[j].arguments
            && forall k | c < k < i :: !IsCall(events[k], tool)
  {
    ReachableIsGood(s);
    var events := s.runs[runId].events;
    assert Sound(events);
    i := ReadyPosition(events, j);
    c := LastCallAt(events[..i], events[j].toolName);
    LatestIsInLog(events[..i], events[j].toolName);
    d :| 0 <= d < i && events[..i][d] == ApprovalDecision(events[j].toolName, Approved);
  }

  lemma ReadyPosition(events: seq<Event>, j: nat) returns (i: nat)
    requires ResultsAreBacked(events) && j < |events| && events[j].ResumedResult?
    ensures i < j && ReadyAt(events, i, events[j].toolName, events[j].arguments)
  {
    i :| ReadyAt(events[..j], i, events[j].toolName, events[j].arguments);
    assert events[..j][..i] == events[..i];
  }

  predicate IsCall(e: Event, tool: string) { e.ToolCall? && e.toolName == tool }

  lemma {:induction false} LastCallAt(events: seq<Event>, tool: string) returns (c: nat)
    requires LastCall(events, tool).Some?
    ensures c < |events| && IsCall(events[c], tool)
    ensures OrEmpty(events[c].callArguments) == LastCall(events, tool).value
    ensures forall k | c < k < |events| :: !IsCall(events[k], tool)
    decreases |events|
  {
    c := |events| - 1;
    if !IsCall(events[c], tool) {
      c := LastCallAt(Init(events), tool);
    }
  }

  // What an approval list shows as executed, it shows as approved.
  lemma ListedExecutionIsApproved(s: State, runId: string, row: Row)
    requires Reachable(s) && runId in s.runs && row in Rows(s.runs[runId].events)
    ensures row.resume == Some(ResultLogged) ==> row.verdict == Some(Approved) && row.execution.Some?
  {
    var events := s.runs[runId].events;
    RowsAreRead(events, events, row);
    if row.resume == Some(ResultLogged) {
      var j := ResultAt(events, row.toolName);
      ReachableIsGood(s);
      ResultNeedsApproval(events, j);
      FirstDecisionIsFinal(s, [], runId, row.toolName, Approved);
    }
  }

  lemma {:induction false} ResultAt(events: seq<Event>, tool: string) returns (j: nat)
    requires tool in Results(events)
    ensures j < |events| && events[j].ResumedResult? && events[j].toolName == tool
    decreases |events|
  {
    j := |events| - 1;
    if !(events[j].ResumedResult? && events[j].toolName == tool) {
      j := ResultAt(Init(events), tool);
    }
  }

  // ----- Cancelled runs -----

  // The step is about the run, and the guards it meets change its status: an expiry pass, also the one
  // before a decision, finds something overdue, or an undecided tool is rejected, or the runtime sets
  // another status.
  predicate Lifts(run: Run, id: string, step: Step) {
    match step
    case Expire(runId, now, timeout) =>
      runId == id && OverdueTools(run.events, Decisions(run.events), now, timeout) != []
    case Decide(runId, tool, verdict, _, now, timeout) =>
      && runId == id && (verdict == Approved || verdict == Rejected)
      && (|| OverdueTools(run.events, Decisions(run.events), now, timeout) != []
          || (verdict == Rejected && tool !in Decisions(AfterExpiry(run, now, timeout).events)))
    case RuntimeSetsStatus(runId, status) => runId == id && status != Cancelled
    case _ => false
  }

  lemma CancellationEndsExactlyWhen(s: State, step: Step, id: string)
    requires id in s.runs && s.runs[id].status == Cancelled
    ensures id in Next(s, step).runs
    ensures Next(s, step).runs[id].status != Cancelled <==> Lifts(s.runs[id], id, step)
  {}

  ghost predicate NoneLifts(s: State, steps: seq<Step>, id: string)
    decreases steps
  {
    steps == [] || (id in s.runs && !Lifts(s.runs[id], id, steps[0]) && NoneLifts(Next(s, steps[0]), steps[1..], id))
  }

  ghost predicate IsAlwaysCancelled(s: State, steps: seq<Step>, id: string)
    decreases steps
  {
    && id in s.runs && s.runs[id].status == Cancelled
    && (steps != [] ==> IsAlwaysCancelled(Next(s, steps[0]), steps[1..], id))
  }

  // A cancelled run stays cancelled exactly as long as no step lifts the cancellation, and gets no new
  // ready_for_resume event till then.
  lemma {:induction false} CancelledRunIsNotResumed(s: State, steps: seq<Step>, id: string)
    requires id in s.runs && s.runs[id].status == Cancelled
    ensures IsAlwaysCancelled(s, steps, id) <==> NoneLifts(s, steps, id)
    ensures NoneLifts(s, steps, id) ==>
              && id in After(s, steps).runs && After(s, steps).runs[id].status == Cancelled
              && ReadyCount(After(s, steps).runs[id].events) == ReadyCount(s.runs[id].events)
    decreases steps
  {
    if steps != [] {
      CancellationEndsExactlyWhen(s, steps[0], id);
      if !Lifts(s.runs[id], id, steps[0]) {
        OneStepWhileCancelled(s, steps[0], id);
        CancelledRunIsNotResumed(Next(s, steps[0]), steps[1..], id);
      }
    }
  }

  // Only the runtime cancels: without it a run that ends up cancelled was so all along.
  lemma {:induction false} OnlyRuntimeCancels(s: State, steps: seq<Step>, id: string)
    requires id in s.runs && s.runs[id].status == Cancelled
    requires forall step | step in steps :: !(step.RuntimeSetsStatus? && step.runId == id)
    requires id in After(s, steps).runs && After(s, steps).runs[id].status == Cancelled
    ensures NoneLifts(s, steps, id)
    decreases steps
  {
    if steps != [] {
      var t := Next(s, steps[0]);
      CancellationEndsExactlyWhen(s, steps[0], id);
      if t.runs[id].status != Cancelled {
        NeverCancelledAgain(t, steps[1..], id);
      } else {
        OnlyRuntimeCancels(t, steps[1..], id);
      }
    }
  }

  lemma LastCallStays(events: seq<Event>, more: seq<Event>, tool: string)
    requires LastCall(events, tool).Some?
    ensures LastCall(events + more, tool).Some?
    decreases |more|
  {
    if more == [] {
      assert events + more == events;
    } else {
      LastCallStays(events, Init(more), tool);
      assert Init(events + more) == events + Init(more);
    }
  }

  // Right after a step, a resume of an approved tool that was called starts in a cancelled run exactly
  // when the step lifts the cancellation.
  lemma ResumeStartsExactlyWhenLifted(s: State, step: Step, id: string, tool: string)
    requires Reachable(s) && id in s.runs && s.runs[id].status == Cancelled && id != "" && tool != ""
    requires ApprovalDecision(tool, Approved) in s.runs[id].events && LastCall(s.runs[id].events, tool).Some?
    ensures var t := Next(s, step);
            && id in t.runs && LastCall(t.runs[id].events, tool).Some?
            && Next(t, BeginResume(id, tool, Approved, true)).inFlight
               == if Lifts(s.runs[id], id, step) then
                    t.inFlight + [InFlight(id, tool, LastCall(t.runs[id].events, tool).value)]
                  else t.inFlight
  {
    var t := Next(s, step);
    CancellationEndsExactlyWhen(s, step, id);
    FirstDecisionIsFinal(s, [step], id, tool, Approved);
    assert After(s, [step]) == t;
    NextGrows(s, step);
    var before, after := s.runs[id].events, t.runs[id].events;
    assert after == before + after[|before|..];
    LastCallStays(before, after[|before|..], tool);
  }

  function ReadyCount(events: seq<Event>): nat {
    if events == [] then 0
    else
      ReadyCount(Init(events))
      + if Last(events).ApprovalResume? && Last(events).resumeStatus.ReadyForResume? then 1 else 0
  }

  lemma {:induction false} NeverCancelledAgain(s: State, steps: seq<Step>, id: string)
    requires id in s.runs && s.runs[id].status != Cancelled
    requires forall step | step in steps :: !(step.RuntimeSetsStatus? && step.runId == id)
    ensures id in After(s, steps).runs && After(s, steps).runs[id].status != Cancelled
    decreases steps
  {
    if steps != [] {
      NeverCancelledAgain(Next(s, steps[0]), steps[1..], id);
    }
  }

  lemma {:induction false} OneStepWhileCancelled(s: State, step: Step, id: string)
    requires id in s.runs && s.runs[id].status == Cancelled && Next(s, step).runs[id].status == Cancelled
    ensures ReadyCount(Next(s, step).runs[id].events) == ReadyCount(s.runs[id].events)
  {
    var run, run' := s.runs[id], Next(s, step).runs[id];
    if run' != run {
      match step
      case CreateRun(_) =>
      case RuntimeAppends(_, e) => AppendUnready(run.events, e);
      case RuntimeSetsStatus(_, _) =>
      case Expire(_, _, _) =>
      case Decide(_, tool, verdict, queue, now, timeout) =>
        DecideWhileCancelled(run, tool, verdict, queue, now, timeout);
      case BeginResume(_, _, _, _) =>
      case FinishResume(i, tools) => AppendUnready(run.events, Last(run'.events));
    }
  }

  lemma AppendUnready(events: seq<Event>, e: Event)
    requires !(e.ApprovalResume? && e.resumeStatus.ReadyForResume?)
    ensures ReadyCount(events + [e]) == ReadyCount(events)
  {
    assert Init(events + [e]) == events;
  }

  lemma DecideWhileCancelled(run: Run, tool: string, verdict: Verdict, queue: Scheduling, now: int, timeout: int)
    requires AfterDecision(run, tool, verdict, queue, now, timeout).1.status == Cancelled
    ensures ReadyCount(AfterDecision(run, tool, verdict, queue, now, timeout).1.events) == ReadyCount(run.events)
  {
    if AfterExpiry(run, now, timeout).status == Cancelled {
      assert AfterExpiry(run, now, timeout).events == run.events + [] == run.events;
      AppendUnready(run.events, ApprovalDecision(tool, Approved));
      AppendUnready(run.events + [ApprovalDecision(tool, Approved)], ApprovalResume(tool, Scheduled(queue)));
    }
  }

  // One run named "r", and no resume in flight.
  function Only(run: Run): State { State(map["r" := run], []) }

  lemma OnlyUpdated(a: Run, b: Run)
    ensures Only(a).(runs := Only(a).runs["r" := b]) == Only(b)
  {}

  lemma CreateAndCall()
    ensures Next(Next(START, CreateRun("r")), RuntimeAppends("r", ToolCall("t", None)))
            == Only(Run(Running, [ToolCall("t", None)]))
  {
    assert Next(START, CreateRun("r")) == Only(Run(Running, []));
    var none: seq<Event> := [];
    assert none + [ToolCall("t", None)] == [ToolCall("t", None)];
    OnlyUpdated(Run(Running, []), Run(Running, [ToolCall("t", None)]));
  }

  const APPROVED_LOG := [ToolCall("t", None), ApprovalDecision("t", Approved), ApprovalResume("t", Scheduled(Queued))]

  lemma ApproveCall()
    ensures Next(Only(Run(Running, [ToolCall("t", None)])), Decide("r", "t", Approved, Queued, 0, 60))
            == Only(Run(Running, APPROVED_LOG))
  {
    var run := Run(Running, [ToolCall("t", None)]);
    NothingOverdue(run, 0, 60);
    assert run.events + [ApprovalDecision("t", Approved)] + [ApprovalResume("t", Scheduled(Queued))] == APPROVED_LOG;
    OnlyUpdated(run, Run(Running, APPROVED_LOG));
  }

  const REJECTED_LOG := APPROVED_LOG + [ApprovalDecision("u", Rejected)] + HandoffEvents("u", ApprovalRejected)

  lemma DecisionsOfApproved()
    ensures "u" !in Decisions(APPROVED_LOG)
  {
    assert Init(APPROVED_LOG) == [ToolCall("t", None), ApprovalDecision("t", Approved)];
    assert Init(Init(APPROVED_LOG)) == [ToolCall("t", None)];
  }

  lemma RejectOther()
    ensures Next(Only(Run(Cancelled, APPROVED_LOG)), Decide("r", "u", Rejected, Queued, 1, 60))
            == Only(Run(HandoffRequired, REJECTED_LOG))
  {
    NothingOverdue(Run(Cancelled, APPROVED_LOG), 1, 60);
    DecisionsOfApproved();
    OnlyUpdated(Run(Cancelled, APPROVED_LOG), Run(HandoffRequired, REJECTED_LOG));
  }

  lemma ResumeRejected()
    ensures Next(Only(Run(HandoffRequired, REJECTED_LOG)), BeginResume("r", "t", Approved, true)).inFlight
            == [InFlight("r", "t", map[])]
  {
    ScanOfLog(REJECTED_LOG);
  }

  // A rejection of another tool turns a cancelled run into a handed-over one, and then an approved
  // tool of the cancelled run is resumed after all.
  lemma {:induction false} HandoffLiftsCancellation()
    ensures var steps := [CreateRun("r"), RuntimeAppends("r", ToolCall("t", None)),
                          Decide("r", "t", Approved, Queued, 0, 60),
                          RuntimeSetsStatus("r", Cancelled), Decide("r", "u", Rejected, Queued, 1, 60),
                          BeginResume("r", "t", Approved, true)];
            After(START, steps).inFlight == [InFlight("r", "t", map[])]
  {
    CreateAndCall();
    ApproveCall();
    OnlyUpdated(Run(Running, APPROVED_LOG), Run(Cancelled, APPROVED_LOG));
    RejectOther();
    ResumeRejected();
    AfterSix(START, [CreateRun("r"), RuntimeAppends("r", ToolCall("t", None)),
                     Decide("r", "t", Approved, Queued, 0, 60),
                     RuntimeSetsStatus("r", Cancelled), Decide("r", "u", Rejected, Queued, 1, 60),
                     BeginResume("r", "t", Approved, true)]);
  }

  lemma NothingOverdue(run: Run, now: int, timeout: int)
    requires forall e | e in run.events :: !e.ToolResult?
    ensures AfterExpiry(run, now, timeout) == run
  {
    NoResultsNoneOverdue(run.events, Decisions(run.events), now, timeout);
    assert run.events + [] == run.events;
  }

  lemma {:induction false} NoResultsNoneOverdue(events: seq<Event>, decisions: map<string, Verdict>, now: int,
                                                timeout: int)
    requires forall e | e in events :: !e.ToolResult?
    ensures OverdueTools(events, decisions, now, timeout) == []
    decreases |events|
  {
    if events != [] {
      NoResultsNoneOverdue(Init(events), decisions, now, timeout);
    }
  }

  lemma ScanOfLog(log: seq<Event>)
    requires log == [ToolCall("t", None), ApprovalDecision("t", Approved), ApprovalResume("t", Scheduled(Queued)),
                     ApprovalDecision("u", Rejected), HandoffDecision("u", ApprovalRejected),
                     Handoff("u", ApprovalRejected)]
    ensures LatestDecision(log, "t") == Some(Approved) && LastCall(log, "t") == Some(map[])
  {
    SixInits(log);
    assert LatestDecision(log[..2], "t") == Some(Approved);
    assert LastCall(log[..1], "t") == Some(map[]) && LastCall(log[..2], "t") == Some(map[]);
    assert LatestDecision(log[..4], "t") == LatestDecision(log[..3], "t") == LatestDecision(log[..2], "t");
    assert LastCall(log[..4], "t") == LastCall(log[..3], "t") == LastCall(log[..2], "t");
    assert LatestDecision(log[..5], "t") == LatestDecision(log[..4], "t");
    assert LastCall(log[..5], "t") == LastCall(log[..4], "t");
  }

  lemma SixInits<T>(s: seq<T>)
    requires |s| == 6
    ensures Init(s) == s[..5]
    ensures forall k | 0 <= k < 5 :: Init(s[..k + 1]) == s[..k] && Last(s[..k + 1]) == s[k]
  {}

  lemma {:induction false} AfterSix(s: State, steps: seq<Step>)
    requires |steps| == 6
    ensures After(s, steps)
            == Next(Next(Next(Next(Next(Next(s, steps[0]), steps[1]), steps[2]), steps[3]), steps[4]), steps[5])
  {
    var t1 := Next(s, steps[0]);
    var t2 := Next(t1, steps[1]);
    var t3 := Next(t2, steps[2]);
    var t4 := Next(t3, steps[3]);
    var t5 := Next(t4, steps[4]);
    assert steps[1..][1..] == steps[2..] && steps[2..][1..] == steps[3..] && steps[3..][1..] == steps[4..];
    assert steps[4..][1..] == steps[5..] && steps[5..][1..] == [];
    assert After(t5, steps[5..]) == Next(t5, steps[5]);
    assert After(t4, steps[4..]) == After(t5, steps[5..]);
    assert After(t3, steps[3..]) == After(t4, steps[4..]);
    assert After(t2, steps[2..]) == After(t3, steps[3..]);
  }

  // ----- Unnamed tools -----

  // The condition on the name is needed: the forward map skips an empty one, so a tool without a
  // name can be approved and then rejected.
  lemma UnnamedToolIsDecidedTwice()
    ensures var steps := [CreateRun("r"), Decide("r", "", Approved, Queued, 0, 60),
                          Decide("r", "", Rejected, Queued, 1, 60)];
            var s := After(START, steps);
            "r" in s.runs
            && ApprovalDecision("", Approved) in s.runs["r"].events
            && ApprovalDecision("", Rejected) in s.runs["r"].events
  {
    var steps := [CreateRun("r"), Decide("r", "", Approved, Queued, 0, 60), Decide("r", "", Rejected, Queued, 1, 60)];
    var s1 := Next(START, steps[0]);
    assert s1.runs["r"] == Run(Running, []);
    var s2 := Next(s1, steps[1]);
    var log := [ApprovalDecision("", Approved), ApprovalResume("", Scheduled(Queued))];
    UnnamedDecision(Run(Running, []), Approved, 0);
    UnnamedDecision(s2.runs["r"], Rejected, 1);
    assert steps[1..][1..] == [steps[2]] && steps[1..][1..][1..] == [];
  }

  lemma UnnamedDecision(run: Run, verdict: Verdict, now: int)
    requires verdict == Approved || verdict == Rejected
    ensures var r := AfterDecision(run, "", verdict, Queued, now, 60).1;
            run.events <= r.events && ApprovalDecision("", verdict) in r.events
  {
    NoUnnamedDecision(AfterExpiry(run, now, 60).events);
  }

  // Whatever was decided before, a decision about a tool without a name is recorded.
  lemma UnnamedDecisionIsNeverFinal(s: State, id: string, verdict: Verdict, queue: Scheduling, now: int, timeout: int)
    requires id in s.runs && (verdict == Approved || verdict == Rejected)
    ensures var t := Next(s, Decide(id, "", verdict, queue, now, timeout));
            id in t.runs && |t.runs[id].events| > |s.runs[id].events|
            && ApprovalDecision("", verdict) in t.runs[id].events[|s.runs[id].events|..]
  {
    var before, after := s.runs[id].events, AfterExpiry(s.runs[id], now, timeout).events;
    NoUnnamedDecision(after);
    var events := Next(s, Decide(id, "", verdict, queue, now, timeout)).runs[id].events;
    assert |before| <= |after| < |events| && events[|after|] == ApprovalDecision("", verdict);
    assert events[|before|..][|after| - |before|] == events[|after|];
  }

  lemma {:induction false} NoUnnamedDecision(events: seq<Event>)
    ensures "" !in Decisions(events)
    decreases |events|
  {
    if events != [] {
      NoUnnamedDecision(Init(events));
    }
  }
}

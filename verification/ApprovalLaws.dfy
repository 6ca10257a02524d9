// What the approval handlers promise, in terms of the events of the log alone.
module ApprovalLaws {
  import opened Common
  import opened Approval
  import opened ApprovalRuns
  import ToolExecutor

  // ----- The scans -----

  ghost predicate IsDecision(e: Event, tool: string) { e.ApprovalDecision? && e.toolName == tool }

  // The event at i is about the tool, and none after it is.
  ghost predicate IsLast(events: seq<Event>, i: nat, about: Event -> bool) {
    i < |events| && about(events[i]) && forall k | i < k < |events| :: !about(events[k])
  }

  lemma LastStays(events: seq<Event>, e: Event, i: nat, about: Event -> bool)
    requires !about(e)
    ensures IsLast(events + [e], i, about) <==> IsLast(events, i, about)
  {
    var all := events + [e];
    assert all[|events|] == e && forall k | 0 <= k < |events| :: all[k] == events[k];
  }

  lemma LastIsNew(events: seq<Event>, e: Event, i: nat, about: Event -> bool)
    requires about(e)
    ensures IsLast(events + [e], i, about) <==> i == |events|
  {
    assert (events + [e])[|events|] == e;
  }

  lemma NoneExactlyWhen(events: seq<Event>, about: Event -> bool)
    requires events != []
    ensures (forall e | e in events :: !about(e)) <==> !about(Last(events)) && forall e | e in Init(events) :: !about(e)
  {
    assert events == Init(events) + [Last(events)];
    assert forall e | e in Init(events) :: e in events;
  }

  // The reverse scan answers with the verdict of the last decision about the tool.
  lemma {:induction false} LatestDecisionIsLast(events: seq<Event>, tool: string, i: nat)
    requires IsLast(events, i, e => IsDecision(e, tool))
    ensures LatestDecision(events, tool) == Some(events[i].verdict)
    decreases |events|
  {
    var about := e => IsDecision(e, tool);
    assert events == Init(events) + [Last(events)];
    if about(Last(events)) {
      LastIsNew(Init(events), Last(events), i, about);
    } else {
      LastStays(Init(events), Last(events), i, about);
      LatestDecisionIsLast(Init(events), tool, i);
    }
  }

  lemma {:induction false} NoDecisionExactlyWhen(events: seq<Event>, tool: string)
    ensures LatestDecision(events, tool).None? <==> forall d | d in events :: !IsDecision(d, tool)
    decreases |events|
  {
    if events != [] {
      NoDecisionExactlyWhen(Init(events), tool);
      NoneExactlyWhen(events, e => IsDecision(e, tool));
    }
  }

  // The last decision about a tool, or the tool is undecided.
  lemma {:induction false} LastDecisionAt(events: seq<Event>, tool: string) returns (i: nat)
    requires LatestDecision(events, tool).Some?
    ensures IsLast(events, i, e => IsDecision(e, tool)) && LatestDecision(events, tool) == Some(events[i].verdict)
    decreases |events|
  {
    var about := e => IsDecision(e, tool);
    assert events == Init(events) + [Last(events)];
    if about(Last(events)) {
      i := |events| - 1;
      LastIsNew(Init(events), Last(events), i, about);
    } else {
      i := LastDecisionAt(Init(events), tool);
      LastStays(Init(events), Last(events), i, about);
    }
  }

  ghost predicate IsCallOf(e: Event, tool: string) { e.ToolCall? && e.toolName == tool }

  // The search for the original action finds the arguments of the last call of the tool.
  lemma {:induction false} LastCallIsLast(events: seq<Event>, tool: string, i: nat)
    requires IsLast(events, i, e => IsCallOf(e, tool))
    ensures LastCall(events, tool)
            == Some(if events[i].callArguments.Some? then events[i].callArguments.value else map[])
    decreases |events|
  {
    var about := e => IsCallOf(e, tool);
    assert events == Init(events) + [Last(events)];
    if about(Last(events)) {
      LastIsNew(Init(events), Last(events), i, about);
    } else {
      LastStays(Init(events), Last(events), i, about);
      LastCallIsLast(Init(events), tool, i);
    }
  }

  lemma {:induction false} NoCallExactlyWhen(events: seq<Event>, tool: string)
    ensures LastCall(events, tool).None? <==> forall e | e in events :: !IsCallOf(e, tool)
    decreases |events|
  {
    if events != [] {
      NoCallExactlyWhen(Init(events), tool);
      NoneExactlyWhen(events, e => IsCallOf(e, tool));
    }
  }

  // ----- Expiry -----

  // A request for approval of the tool that is past its deadline.
  ghost predicate IsDue(e: Event, tool: string, now: int, timeout: int) {
    && e.ToolResult? && e.approvalRequired && e.toolName == tool
    && e.createdAt.Some? && e.createdAt.value + timeout <= now
  }

  ghost predicate IsUndecided(events: seq<Event>, tool: string) {
    forall d | d in events :: !(d.ApprovalDecision? && d.toolName == tool)
  }

  ghost predicate MustExpire(events: seq<Event>, tool: string, now: int, timeout: int) {
    tool != "" && IsUndecided(events, tool) && exists e :: e in events && IsDue(e, tool, now, timeout)
  }

  lemma UndecidedExactlyWhen(events: seq<Event>, tool: string)
    requires tool != ""
    ensures tool !in Decisions(events) <==> IsUndecided(events, tool)
  {
    if tool !in Decisions(events) {
      UndecidedIsUnlogged(events, tool);
    } else {
      ScansAgree(events, tool);
      LatestIsInLog(events, tool);
    }
  }

  lemma {:induction false} OverdueAre(part: seq<Event>, decisions: map<string, Verdict>, now: int, timeout: int,
                                      tool: string)
    ensures tool in OverdueTools(part, decisions, now, timeout) <==>
              tool != "" && tool !in decisions && exists e :: e in part && IsDue(e, tool, now, timeout)
    decreases |part|
  {
    if part != [] {
      var e := Last(part);
      OverdueAre(Init(part), decisions, now, timeout, tool);
      assert part == Init(part) + [e];
      assert IsOverdue(e, decisions, now, timeout) && e.toolName == tool <==>
          tool != "" && tool !in decisions && IsDue(e, tool, now, timeout);
      assert forall f | f in Init(part) :: f in part;
    }
  }

  lemma OverdueExactlyWhen(events: seq<Event>, now: int, timeout: int, tool: string)
    ensures tool in OverdueTools(events, Decisions(events), now, timeout) <==> MustExpire(events, tool, now, timeout)
  {
    OverdueAre(events, Decisions(events), now, timeout, tool);
    if tool != "" {
      UndecidedExactlyWhen(events, tool);
    }
  }

  // The three events that expire a request.
  ghost predicate Expires(e: Event, tool: string) {
    || e == ApprovalDecision(tool, Expired) || e == HandoffDecision(tool, ApprovalExpired)
    || e == Handoff(tool, ApprovalExpired)
  }

  lemma {:induction false} TailHolds(tools: seq<string>, e: Event)
    ensures e in ExpiryTail(tools) <==> exists t :: t in tools && Expires(e, t)
    decreases |tools|
  {
    if tools != [] {
      TailHolds(Init(tools), e);
      assert tools == Init(tools) + [Last(tools)];
      assert e in ExpiryEvents(Last(tools)) <==> Expires(e, Last(tools));
    }
  }

  // A pass appends an expired decision about a named tool exactly when the log holds no decision about
  // it and a request for its approval that is past its deadline.
  lemma ExpiresExactlyWhen(run: Run, now: int, timeout: int, tool: string)
    requires tool != ""
    ensures var after := AfterExpiry(run, now, timeout);
            && run.events <= after.events
            && (ApprovalDecision(tool, Expired) in after.events[|run.events|..] <==>
                  && (forall d | d in run.events :: !(d.ApprovalDecision? && d.toolName == tool))
                  && exists e :: e in run.events && e.ToolResult? && e.approvalRequired && e.toolName == tool
                                 && e.createdAt.Some? && e.createdAt.value + timeout <= now)
  {
    var tools := OverdueTools(run.events, Decisions(run.events), now, timeout);
    var after := AfterExpiry(run, now, timeout);
    assert after.events[|run.events|..] == ExpiryTail(tools);
    TailHolds(tools, ApprovalDecision(tool, Expired));
    assert Expires(ApprovalDecision(tool, Expired), tool);
    OverdueExactlyWhen(run.events, now, timeout, tool);
    DueExactly(run.events, tool, now, timeout);
  }

  lemma DueExactly(events: seq<Event>, tool: string, now: int, timeout: int)
    ensures (exists e :: e in events && IsDue(e, tool, now, timeout)) <==>
              exists e :: e in events && e.ToolResult? && e.approvalRequired && e.toolName == tool
                          && e.createdAt.Some? && e.createdAt.value + timeout <= now
  {
    if exists e :: e in events && e.ToolResult? && e.approvalRequired && e.toolName == tool
                   && e.createdAt.Some? && e.createdAt.value + timeout <= now {
      var e :| e in events && e.ToolResult? && e.approvalRequired && e.toolName == tool
               && e.createdAt.Some? && e.createdAt.value + timeout <= now;
      assert IsDue(e, tool, now, timeout);
    }
  }

  // Everything a pass appends expires such a tool.
  lemma OnlyDueToolsExpire(run: Run, now: int, timeout: int, e: Event)
    requires e in AfterExpiry(run, now, timeout).events[|run.events|..]
    ensures exists t :: MustExpire(run.events, t, now, timeout) && Expires(e, t)
  {
    var tools := OverdueTools(run.events, Decisions(run.events), now, timeout);
    assert AfterExpiry(run, now, timeout).events[|run.events|..] == ExpiryTail(tools);
    TailHolds(tools, e);
    var t :| t in tools && Expires(e, t);
    OverdueExactlyWhen(run.events, now, timeout, t);
  }

  // A pass leaves a run as it was exactly when no request is both undecided and due, and hands it off
  // otherwise.
  lemma PassChangesExactlyWhen(run: Run, now: int, timeout: int)
    ensures AfterExpiry(run, now, timeout) != run <==> exists t :: MustExpire(run.events, t, now, timeout)
    ensures AfterExpiry(run, now, timeout) != run ==> AfterExpiry(run, now, timeout).status == HandoffRequired
  {
    var tools := OverdueTools(run.events, Decisions(run.events), now, timeout);
    if tools == [] {
      assert run.events + [] == run.events;
      forall t
        ensures !MustExpire(run.events, t, now, timeout)
      {
        OverdueExactlyWhen(run.events, now, timeout, t);
      }
    } else {
      OverdueExactlyWhen(run.events, now, timeout, Last(tools));
      TailIsLong(tools);
    }
  }

  lemma TailIsLong(tools: seq<string>)
    requires tools != []
    ensures |ExpiryTail(tools)| > 0
  {}

  // The tools whose requests expire, once for each request, in the order of the log.
  ghost function DueTools(part: seq<Event>, events: seq<Event>, now: int, timeout: int): seq<string> {
    if part == [] then []
    else
      var before, e := DueTools(part[..|part| - 1], events, now, timeout), part[|part| - 1];
      if && e.ToolResult? && e.toolName != "" && IsDue(e, e.toolName, now, timeout)
         && IsUndecided(events, e.toolName)
      then before + [e.toolName]
      else before
  }

  lemma {:induction false} OverdueAreDue(part: seq<Event>, events: seq<Event>, now: int, timeout: int)
    ensures OverdueTools(part, Decisions(events), now, timeout) == DueTools(part, events, now, timeout)
    decreases |part|
  {
    if part != [] {
      var e := Last(part);
      OverdueAreDue(Init(part), events, now, timeout);
      if e.ToolResult? && e.toolName != "" {
        UndecidedExactlyWhen(events, e.toolName);
      }
    }
  }

  lemma {:induction false} TailAt(tools: seq<string>, k: nat)
    requires k < |tools|
    ensures |ExpiryTail(tools)| == 3 * |tools|
    ensures ExpiryTail(tools)[3 * k..3 * k + 3]
            == [ApprovalDecision(tools[k], Expired), HandoffDecision(tools[k], ApprovalExpired),
                Handoff(tools[k], ApprovalExpired)]
    decreases |tools|
  {
    if |tools| > 1 {
      TailAt(Init(tools), if k < |tools| - 1 then k else 0);
    }
  }

  // A pass appends three events for each of them, in the order of the requests.
  lemma PassAppends(run: Run, now: int, timeout: int, k: nat)
    requires k < |DueTools(run.events, run.events, now, timeout)|
    ensures var (due, n) := (DueTools(run.events, run.events, now, timeout), |run.events|);
            var after := AfterExpiry(run, now, timeout);
            && |after.events| == n + 3 * |due| && after.events[..n] == run.events
            && after.events[n + 3 * k..n + 3 * k + 3]
               == [ApprovalDecision(due[k], Expired), HandoffDecision(due[k], ApprovalExpired),
                   Handoff(due[k], ApprovalExpired)]
  {
    OverdueAreDue(run.events, run.events, now, timeout);
    var due := DueTools(run.events, run.events, now, timeout);
    TailAt(due, k);
    var (n, tail) := (|run.events|, ExpiryTail(due));
    assert (run.events + tail)[n + 3 * k..n + 3 * k + 3] == tail[3 * k..3 * k + 3];
  }

  // ----- Deciding -----

  // What a decision is answered and logs, after the expiry pass, by the last decision about the tool.
  lemma DecisionIsAnswered(run: Run, tool: string, verdict: Verdict, queue: Scheduling, now: int, timeout: int)
    requires tool != ""
    ensures var (answer, after) := AfterDecision(run, tool, verdict, queue, now, timeout);
            var r := AfterExpiry(run, now, timeout);
            if verdict != Approved && verdict != Rejected then answer == InvalidDecision && after == run
            else if !IsUndecided(r.events, tool) then
              && after == r
              && answer == if LatestDecision(r.events, tool) == Some(Expired) then AlreadyExpired else AlreadyDecided
            else if verdict == Approved then
              && answer == Recorded && after.status == r.status
              && after.events == r.events + [ApprovalDecision(tool, Approved), ApprovalResume(tool, Scheduled(queue))]
            else
              && answer == Recorded && after.status == HandoffRequired
              && after.events == r.events + [ApprovalDecision(tool, Rejected), HandoffDecision(tool, ApprovalRejected),
                                             Handoff(tool, ApprovalRejected)]
  {
    var r := AfterExpiry(run, now, timeout);
    UndecidedExactlyWhen(r.events, tool);
    ScansAgree(r.events, tool);
    assert r.events + [ApprovalDecision(tool, Rejected)] + HandoffEvents(tool, ApprovalRejected)
        == r.events + [ApprovalDecision(tool, Rejected), HandoffDecision(tool, ApprovalRejected),
                       Handoff(tool, ApprovalRejected)];
  }

  // ----- Resuming -----

  ghost predicate IsApproved(events: seq<Event>, tool: string) {
    exists i: nat :: IsLast(events, i, e => IsDecision(e, tool)) && events[i].verdict == Approved
  }

  lemma ApprovedExactlyWhen(events: seq<Event>, tool: string)
    ensures LatestDecision(events, tool) == Some(Approved) <==> IsApproved(events, tool)
  {
    if LatestDecision(events, tool) == Some(Approved) {
      var i := LastDecisionAt(events, tool);
    } else if IsApproved(events, tool) {
      var i: nat :| IsLast(events, i, e => IsDecision(e, tool)) && events[i].verdict == Approved;
      LatestDecisionIsLast(events, tool, i);
    }
  }

  // A resume starts the tool exactly when the payload approves a named tool, the run is not cancelled,
  // the last decision about the tool approves it, it was called, and a checkpoint is available.
  lemma ResumeStartsExactlyWhen(run: Run, tool: string, decision: Verdict, checkpointAvailable: bool)
    ensures AfterResumeCheck(run, tool, decision, checkpointAvailable).0.Started? <==>
              && tool != "" && decision == Approved && run.status != Cancelled && IsApproved(run.events, tool)
              && (exists e :: e in run.events && IsCallOf(e, tool)) && checkpointAvailable
  {
    ApprovedExactlyWhen(run.events, tool);
    NoCallExactlyWhen(run.events, tool);
  }

  // What it logs: nothing unless all checks up to the approval pass, and then one event that tells
  // what was missing, if anything.
  lemma ResumeLogs(run: Run, tool: string, decision: Verdict, checkpointAvailable: bool)
    ensures var after := AfterResumeCheck(run, tool, decision, checkpointAvailable).1;
            && after.status == run.status
            && if tool != "" && decision == Approved && run.status != Cancelled && IsApproved(run.events, tool) then
                 var called := exists e :: e in run.events && IsCallOf(e, tool);
                 after.events == run.events + [ApprovalResume(tool, if !called then OriginalActionMissing
                                                                    else if !checkpointAvailable then CheckpointMissing
                                                                    else ReadyForResume)]
               else after.events == run.events
  {
    ApprovedExactlyWhen(run.events, tool);
    NoCallExactlyWhen(run.events, tool);
  }

  // Why a resume that does not start did not.
  lemma ResumeIsAnswered(run: Run, tool: string, decision: Verdict, checkpointAvailable: bool)
    ensures var answer := AfterResumeCheck(run, tool, decision, checkpointAvailable).0;
            && (answer == InvalidPayload <==> tool == "" || decision != Approved)
            && (answer == RunCancelled <==> tool != "" && decision == Approved && run.status == Cancelled)
            && (answer == ApprovalNotFound ==> !IsApproved(run.events, tool))
            && (answer == ActionMissing ==> forall e | e in run.events :: !IsCallOf(e, tool))
            && (answer == NoCheckpoint ==> !checkpointAvailable) && answer != RunNotFound
  {
    ApprovedExactlyWhen(run.events, tool);
    NoCallExactlyWhen(run.events, tool);
  }

  // A started tool gets the arguments of its last call.
  lemma StartsWithLastCall(run: Run, tool: string, decision: Verdict, checkpointAvailable: bool, i: nat)
    requires AfterResumeCheck(run, tool, decision, checkpointAvailable).0.Started?
    requires IsLast(run.events, i, e => IsCallOf(e, tool))
    ensures AfterResumeCheck(run, tool, decision, checkpointAvailable).0.arguments
            == if run.events[i].callArguments.Some? then run.events[i].callArguments.value else map[]
  {
    LastCallIsLast(run.events, tool, i);
  }

  // Without a checkpoint no resume starts, in any state, and no run becomes ready.
  lemma NoResumeWithoutCheckpoint(s: State, id: string, tool: string, decision: Verdict, other: string)
    requires other in s.runs
    ensures var t := Next(s, BeginResume(id, tool, decision, false));
            && t.inFlight == s.inFlight && other in t.runs
            && ReadyCount(t.runs[other].events) == ReadyCount(s.runs[other].events)
  {
    if id != "" && id in s.runs {
      ResumeStartsExactlyWhen(s.runs[id], tool, decision, false);
      ResumeLogs(s.runs[id], tool, decision, false);
      AppendUnready(s.runs[id].events, ApprovalResume(tool, OriginalActionMissing));
      AppendUnready(s.runs[id].events, ApprovalResume(tool, CheckpointMissing));
    }
  }

  lemma {:induction false} FirstToolIsFound(tools: seq<ToolExecutor.Tool>, tool: string, i: nat)
    requires i < |tools| && tools[i].name == tool && forall j | 0 <= j < i :: tools[j].name != tool
    ensures FindTool(tools, tool) == Some(tools[i])
  {
    if i > 0 {
      FirstToolIsFound(tools[1..], tool, i - 1);
    }
  }

  // A finished resume leaves the tools in flight and logs, at the end of its run, a result that names
  // its tool and arguments. No other run changes.
  lemma FinishLogsOneResult(s: State, i: nat, tools: seq<ToolExecutor.Tool>)
    requires i < |s.inFlight| && s.inFlight[i].runId in s.runs
    ensures var (f, t) := (s.inFlight[i], Next(s, FinishResume(i, tools)));
            && t.inFlight == s.inFlight[..i] + s.inFlight[i + 1..] && t.runs.Keys == s.runs.Keys
            && (forall id | id in s.runs && id != f.runId :: t.runs[id] == s.runs[id])
            && t.runs[f.runId].status == s.runs[f.runId].status
            && |t.runs[f.runId].events| == |s.runs[f.runId].events| + 1
            && s.runs[f.runId].events <= t.runs[f.runId].events
            && var e := Last(t.runs[f.runId].events);
               e.ResumedResult? && e.toolName == f.tool && e.arguments == f.arguments
               && e.status == ExecuteOriginalAction(tools, f.tool, f.arguments).status
  {}

  // Its status is that of the first tool of that name, run as if its policy asked for no approval and
  // all capabilities were held; it is an error if there is no such tool.
  lemma ResumedStatusIs(tools: seq<ToolExecutor.Tool>, tool: string, arguments: Arguments, i: nat)
    ensures (forall j | 0 <= j < |tools| :: tools[j].name != tool) ==>
              ExecuteOriginalAction(tools, tool, arguments).status == ToolExecutor.Error
    ensures i < |tools| && tools[i].name == tool && (forall j | 0 <= j < i :: tools[j].name != tool) ==>
              var ungated := tools[i].(policy := tools[i].policy.(approvalRequired := false));
              ExecuteOriginalAction(tools, tool, arguments).status
              == ToolExecutor.Execute(ungated, arguments, {"*"}).result.status
  {
    ResumeRunsLikeUngatedCall(tools, tool, arguments);
    if i < |tools| && tools[i].name == tool && forall j | 0 <= j < i :: tools[j].name != tool {
      FirstToolIsFound(tools, tool, i);
    }
  }

  // ----- The list -----

  // The list has one row for each request, in the order of the log, and no other.
  lemma {:induction false} RequestsAreListed(events: seq<Event>, a: seq<Event>, e: Event)
    ensures RowsOf(events, []) == []
    ensures RowsOf(events, a + [e])
            == RowsOf(events, a) + if e.ToolResult? && e.approvalRequired then [RowOf(events, e)] else []
  {
    assert Init(a + [e]) == a;
  }

  ghost predicate IsResumeOf(e: Event, tool: string) { e.ApprovalResume? && e.toolName == tool }

  ghost predicate IsResultOf(e: Event, tool: string) { e.ResumedResult? && e.toolName == tool }

  lemma {:induction false} LastResume(events: seq<Event>, tool: string, i: nat)
    requires tool != "" && IsLast(events, i, e => IsResumeOf(e, tool))
    ensures tool in Resumes(events) && Resumes(events)[tool] == events[i].resumeStatus
    decreases |events|
  {
    var about := e => IsResumeOf(e, tool);
    assert events == Init(events) + [Last(events)];
    if about(Last(events)) {
      LastIsNew(Init(events), Last(events), i, about);
    } else {
      LastStays(Init(events), Last(events), i, about);
      LastResume(Init(events), tool, i);
    }
  }

  lemma {:induction false} NoResumeExactlyWhen(events: seq<Event>, tool: string)
    requires tool != ""
    ensures tool !in Resumes(events) <==> forall e | e in events :: !IsResumeOf(e, tool)
    decreases |events|
  {
    if events != [] {
      NoResumeExactlyWhen(Init(events), tool);
      NoneExactlyWhen(events, e => IsResumeOf(e, tool));
    }
  }

  lemma {:induction false} LastResult(events: seq<Event>, tool: string, i: nat)
    requires tool != "" && IsLast(events, i, e => IsResultOf(e, tool))
    ensures tool in Results(events) && Results(events)[tool] == events[i].status
    decreases |events|
  {
    var about := e => IsResultOf(e, tool);
    assert events == Init(events) + [Last(events)];
    if about(Last(events)) {
      LastIsNew(Init(events), Last(events), i, about);
    } else {
      LastStays(Init(events), Last(events), i, about);
      LastResult(Init(events), tool, i);
    }
  }

  lemma {:induction false} NoResultExactlyWhen(events: seq<Event>, tool: string)
    requires tool != ""
    ensures tool !in Results(events) <==> forall e | e in events :: !IsResultOf(e, tool)
    decreases |events|
  {
    if events != [] {
      NoResultExactlyWhen(Init(events), tool);
      NoneExactlyWhen(events, e => IsResultOf(e, tool));
    }
  }

  // The row of a request for a named tool: its verdict is that of the last decision about the tool, its
  // execution that of the last resumed result; its resume status says that there is one, or else is
  // that of the last resume event, or else what the decision was logged with.
  lemma RowShows(events: seq<Event>, e: Event)
    requires e.ToolResult? && e.toolName != ""
    ensures var (row, t) := (RowOf(events, e), e.toolName);
            && row.toolName == t && row.createdAt == e.createdAt && row.verdict == LatestDecision(events, t)
            && (forall i: nat | IsLast(events, i, x => IsResultOf(x, t)) ::
                  row.execution == Some(events[i].status) && row.resume == Some(ResultLogged))
            && ((forall x | x in events :: !IsResultOf(x, t)) ==>
                  && row.execution == None
                  && (forall i: nat | IsLast(events, i, x => IsResumeOf(x, t)) ::
                        row.resume == Some(Resume(events[i].resumeStatus)))
                  && ((forall x | x in events :: !IsResumeOf(x, t)) ==>
                        && (row.verdict == Some(Approved) ==> row.resume == Some(PendingEnqueue))
                        && (row.verdict == Some(Rejected) || row.verdict == Some(Expired) ==>
                              row.resume == Some(NotResumed))
                        && (row.verdict == None ==> row.resume == None)))
  {
    var t := e.toolName;
    ScansAgree(events, t);
    NoResultExactlyWhen(events, t);
    NoResumeExactlyWhen(events, t);
    forall i: nat | IsLast(events, i, x => IsResultOf(x, t))
      ensures t in Results(events) && Results(events)[t] == events[i].status
    {
      LastResult(events, t, i);
    }
    forall i: nat | IsLast(events, i, x => IsResumeOf(x, t))
      ensures t in Resumes(events) && Resumes(events)[t] == events[i].resumeStatus
    {
      LastResume(events, t, i);
    }
  }
}

// The approval and resume protocol of app/application/native_agent_application_service.py and
// app/application/agent_resume_service.py. A run is an append-only event log and a status; every
// handler decides what to do by scanning the log.
module Approval {
  import opened Common
  import ToolExecutor

  type Arguments = ToolExecutor.Arguments

  datatype Verdict = Approved | Rejected | Expired | Unknown

  // How the scheduling of a resume task ended.
  datatype Scheduling = Queued | EnqueueFailed | Deferred

  datatype ResumeStatus = Scheduled(how: Scheduling) | ReadyForResume | CheckpointMissing | OriginalActionMissing

  datatype HandoffReason = ApprovalRejected | ApprovalExpired

  // An event with the payload fields the handlers read. A missing tool name is the empty string,
  // an event without a payload is Other.
  datatype Event =
    | ToolCall(toolName: string, callArguments: Option<Arguments>)
    | ToolResult(toolName: string, approvalRequired: bool, createdAt: Option<int>)
    | ApprovalDecision(toolName: string, verdict: Verdict)
    | ApprovalResume(toolName: string, resumeStatus: ResumeStatus)
    | ResumedResult(toolName: string, arguments: Arguments, status: ToolExecutor.Status)
    | HandoffDecision(toolName: string, reason: HandoffReason)
    | Handoff(toolName: string, reason: HandoffReason)
    | Other

  datatype Status = Running | WaitingApproval | Completed | Failed | HandoffRequired | Cancelled

  datatype Run = Run(status: Status, events: seq<Event>)

  // ----- Scans of the log -----

  function Init<T>(s: seq<T>): seq<T>
    requires s != []
  {
    s[..|s| - 1]
  }

  function Last<T>(s: seq<T>): T
    requires s != []
  {
    s[|s| - 1]
  }

  // The service's forward scan: a later decision replaces an earlier one.
  function Decisions(events: seq<Event>): map<string, Verdict> {
    if events == [] then map[]
    else
      var m, e := Decisions(Init(events)), Last(events);
      if e.ApprovalDecision? && e.toolName != "" then m[e.toolName := e.verdict] else m
  }

  method ApprovalDecisionsByTool(events: seq<Event>) returns (decisions: map<string, Verdict>)
    ensures decisions == Decisions(events)
  {
    decisions := map[];
    for i := 0 to |events|
      invariant decisions == Decisions(events[..i])
    {
      assert Init(events[..i + 1]) == events[..i];
      var event := events[i];
      if !event.ApprovalDecision? { continue; }
      if event.toolName == "" { continue; }
      decisions := decisions[event.toolName := event.verdict];
    }
    assert events[..|events|] == events;
  }

  // The resume worker's reverse scan.
  function LatestDecision(events: seq<Event>, tool: string): Option<Verdict> {
    if events == [] then None
    else if Last(events).ApprovalDecision? && Last(events).toolName == tool then Some(Last(events).verdict)
    else LatestDecision(Init(events), tool)
  }

  method LatestApprovalDecision(events: seq<Event>, tool: string) returns (verdict: Option<Verdict>)
    ensures verdict == LatestDecision(events, tool)
  {
    assert events[..|events|] == events;
    for i := |events| downto 0
      invariant LatestDecision(events[..i], tool) == LatestDecision(events, tool)
    {
      assert Init(events[..i + 1]) == events[..i];
      var event := events[i];
      if !event.ApprovalDecision? { continue; }
      if event.toolName != tool { continue; }
      return Some(event.verdict);
    }
    return None;
  }

  function OrEmpty(arguments: Option<Arguments>): Arguments {
    if arguments.Some? then arguments.value else map[]
  }

  // The arguments of the last tool call for a tool.
  function LastCall(events: seq<Event>, tool: string): Option<Arguments> {
    if events == [] then None
    else if Last(events).ToolCall? && Last(events).toolName == tool then Some(OrEmpty(Last(events).callArguments))
    else LastCall(Init(events), tool)
  }

  method FindOriginalAction(events: seq<Event>, tool: string) returns (arguments: Option<Arguments>)
    ensures arguments == LastCall(events, tool)
  {
    assert events[..|events|] == events;
    for i := |events| downto 0
      invariant LastCall(events[..i], tool) == LastCall(events, tool)
    {
      assert Init(events[..i + 1]) == events[..i];
      var event := events[i];
      if !event.ToolCall? { continue; }
      if event.toolName != tool { continue; }
      return Some(OrEmpty(event.callArguments));
    }
    return None;
  }

  // The two scans always agree on a named tool.
  lemma {:induction false} ScansAgree(events: seq<Event>, tool: string)
    requires tool != ""
    ensures tool in Decisions(events) <==> LatestDecision(events, tool).Some?
    ensures tool in Decisions(events) ==> LatestDecision(events, tool) == Some(Decisions(events)[tool])
    decreases |events|
  {
    if events != [] {
      ScansAgree(Init(events), tool);
    }
  }

  // ----- Expiry -----

  function IsExpired(createdAt: Option<int>, now: int, timeout: int): bool {
    createdAt.Some? && createdAt.value + timeout <= now
  }

  function IsOverdue(event: Event, decisions: map<string, Verdict>, now: int, timeout: int): bool {
    && event.ToolResult? && event.approvalRequired
    && event.toolName != "" && event.toolName !in decisions
    && IsExpired(event.createdAt, now, timeout)
  }

  function ExpiryEvents(tool: string): seq<Event> {
    [ApprovalDecision(tool, Expired), HandoffDecision(tool, ApprovalExpired), Handoff(tool, ApprovalExpired)]
  }

  // The tools of the overdue requests, judged by decisions read before the pass; a tool with
  // several overdue requests appears once for each.
  function OverdueTools(events: seq<Event>, decisions: map<string, Verdict>, now: int, timeout: int): seq<string> {
    if events == [] then []
    else
      OverdueTools(Init(events), decisions, now, timeout)
      + if IsOverdue(Last(events), decisions, now, timeout) then [Last(events).toolName] else []
  }

  lemma OneMoreScanned(events: seq<Event>, i: nat, decisions: map<string, Verdict>, now: int, timeout: int)
    requires i < |events|
    ensures OverdueTools(events[..i + 1], decisions, now, timeout)
            == OverdueTools(events[..i], decisions, now, timeout)
               + if IsOverdue(events[i], decisions, now, timeout) then [events[i].toolName] else []
  {
    assert Init(events[..i + 1]) == events[..i];
  }

  // What one expiry pass appends.
  function ExpiryTail(tools: seq<string>): seq<Event> {
    if tools == [] then [] else ExpiryTail(Init(tools)) + ExpiryEvents(Last(tools))
  }

  function AfterExpiry(run: Run, now: int, timeout: int): Run {
    WithExpired(run, OverdueTools(run.events, Decisions(run.events), now, timeout))
  }

  function WithExpired(run: Run, tools: seq<string>): Run {
    Run(if tools == [] then run.status else HandoffRequired, run.events + ExpiryTail(tools))
  }

  lemma OneMoreExpired(run: Run, tools: seq<string>, tool: string)
    ensures WithExpired(run, tools + [tool])
            == Run(HandoffRequired, WithExpired(run, tools).events + [ApprovalDecision(tool, Expired)]
                                    + HandoffEvents(tool, ApprovalExpired))
  {
    assert Init(tools + [tool]) == tools;
    var tail := ExpiryTail(tools);
    assert run.events + (tail + ExpiryEvents(tool))
        == run.events + tail + [ApprovalDecision(tool, Expired)] + HandoffEvents(tool, ApprovalExpired);
  }

  // ----- Deciding -----

  datatype DecideResult = NoSuchRun | InvalidDecision | AlreadyExpired | AlreadyDecided | Recorded

  function AfterDecision(run: Run, tool: string, verdict: Verdict, queue: Scheduling, now: int, timeout: int):
    (DecideResult, Run)
  {
    if verdict != Approved && verdict != Rejected then (InvalidDecision, run)
    else
      var r, decisions := AfterExpiry(run, now, timeout), Decisions(AfterExpiry(run, now, timeout).events);
      if tool in decisions then
        (if decisions[tool] == Expired then AlreadyExpired else AlreadyDecided, r)
      else if verdict == Approved then
        (Recorded,
         Run(r.status, r.events + [ApprovalDecision(tool, Approved)] + [ApprovalResume(tool, Scheduled(queue))]))
      else
        (Recorded,
         Run(HandoffRequired, r.events + [ApprovalDecision(tool, Rejected)] + HandoffEvents(tool, ApprovalRejected)))
  }

  function HandoffEvents(tool: string, reason: HandoffReason): seq<Event> {
    [HandoffDecision(tool, reason), Handoff(tool, reason)]
  }

  // ----- Resuming -----

  datatype ResumeOutcome =
    | InvalidPayload | RunNotFound | RunCancelled | ApprovalNotFound
    | ActionMissing | NoCheckpoint | Started(arguments: Arguments)

  // The synchronous part of process_resume_task, up to the tool execution.
  function AfterResumeCheck(run: Run, tool: string, decision: Verdict, checkpointAvailable: bool):
    (ResumeOutcome, Run)
  {
    if tool == "" || decision != Approved then (InvalidPayload, run)
    else if run.status == Cancelled then (RunCancelled, run)
    else if LatestDecision(run.events, tool) != Some(Approved) then (ApprovalNotFound, run)
    else
      var action := LastCall(run.events, tool);
      if action.None? then
        (ActionMissing, run.(events := run.events + [ApprovalResume(tool, OriginalActionMissing)]))
      else if !checkpointAvailable then
        (NoCheckpoint, run.(events := run.events + [ApprovalResume(tool, CheckpointMissing)]))
      else
        (Started(action.value), run.(events := run.events + [ApprovalResume(tool, ReadyForResume)]))
  }

  // The first tool of the catalog with this name.
  function FindTool(tools: seq<ToolExecutor.Tool>, tool: string): (found: Option<ToolExecutor.Tool>)
    ensures found.Some? ==> found.value in tools && found.value.name == tool
    ensures found.None? ==> forall t | t in tools :: t.name != tool
  {
    if tools == [] then None
    else if tools[0].name == tool then Some(tools[0])
    else FindTool(tools[1..], tool)
  }

  function ExecuteOriginalAction(tools: seq<ToolExecutor.Tool>, tool: string, arguments: Arguments):
    (result: ToolExecutor.Result)
    ensures result.toolName == tool && result.arguments == arguments
  {
    var found := FindTool(tools, tool);
    if found.None? then
      ToolExecutor.Result(tool, ToolExecutor.Error, arguments, None, ToolExecutor.Denied)
    else
      ToolExecutor.ApprovedResultKeepsCall(found.value, arguments, {"*"}, tool, true);
      ToolExecutor.ExecuteApproved(found.value, arguments, {"*"}, tool, true).result
  }

  // A resume runs the tool just as a call would with all capabilities if the policy asked for no
  // approval, however the policy reads; an unknown tool is an error.
  lemma ResumeRunsLikeUngatedCall(tools: seq<ToolExecutor.Tool>, tool: string, arguments: Arguments)
    ensures var (found, result) := (FindTool(tools, tool), ExecuteOriginalAction(tools, tool, arguments));
            if found.None? then result.status == ToolExecutor.Error
            else
              var t := found.value;
              var ungated := ToolExecutor.Execute(t.(policy := t.policy.(approvalRequired := false)), arguments, {"*"});
              && result.status == ungated.result.status && result.output == ungated.result.output
              && (result.ruling == ToolExecutor.ExecutedAfterApproval <==> ungated.attempts > 0)
  {
    var found := FindTool(tools, tool);
    if found.Some? {
      ToolExecutor.ApprovalLiftsOneGate(found.value, arguments, {"*"}, tool, true);
    }
  }

  function ResultEvent(result: ToolExecutor.Result): Event {
    ResumedResult(result.toolName, result.arguments, result.status)
  }

  // ----- The approval list -----

  function Resumes(events: seq<Event>): map<string, ResumeStatus> {
    if events == [] then map[]
    else
      var m, e := Resumes(Init(events)), Last(events);
      if e.ApprovalResume? && e.toolName != "" then m[e.toolName := e.resumeStatus] else m
  }

  function Results(events: seq<Event>): map<string, ToolExecutor.Status> {
    if events == [] then map[]
    else
      var m, e := Results(Init(events)), Last(events);
      if e.ResumedResult? && e.toolName != "" then m[e.toolName := e.status] else m
  }

  function Get<V>(m: map<string, V>, key: string): Option<V> {
    if key in m then Some(m[key]) else None
  }

  // The resume status a row shows: that of the result if there is one, else that of the latest resume
  // event, else the one the decision itself was logged with.
  datatype ShownStatus = ResultLogged | Resume(status: ResumeStatus) | PendingEnqueue | NotResumed

  function DecidedStatus(verdict: Verdict): Option<ShownStatus> {
    match verdict
    case Approved => Some(PendingEnqueue)
    case Rejected => Some(NotResumed)
    case Expired => Some(NotResumed)
    case Unknown => None
  }

  function ShownFor(verdict: Option<Verdict>, resume: Option<ResumeStatus>, result: Option<ToolExecutor.Status>):
    Option<ShownStatus>
  {
    if result.Some? then Some(ResultLogged)
    else if resume.Some? then Some(Resume(resume.value))
    else if verdict.Some? then DecidedStatus(verdict.value)
    else None
  }

  // One listed request: no verdict means pending.
  datatype Row = Row(toolName: string, verdict: Option<Verdict>, resume: Option<ShownStatus>,
                     execution: Option<ToolExecutor.Status>, createdAt: Option<int>)

  function RowOf(events: seq<Event>, e: Event): Row
    requires e.ToolResult?
  {
    var (verdict, result) := (Get(Decisions(events), e.toolName), Get(Results(events), e.toolName));
    Row(e.toolName, verdict, ShownFor(verdict, Get(Resumes(events), e.toolName), result), result, e.createdAt)
  }

  // The rows of the requests in part, read against the whole log.
  function RowsOf(events: seq<Event>, part: seq<Event>): seq<Row> {
    if part == [] then []
    else
      RowsOf(events, Init(part))
      + if Last(part).ToolResult? && Last(part).approvalRequired then [RowOf(events, Last(part))] else []
  }

  function Rows(events: seq<Event>): seq<Row> {
    RowsOf(events, events)
  }

  lemma {:induction false} RowsAreRead(events: seq<Event>, part: seq<Event>, row: Row)
    requires row in RowsOf(events, part)
    ensures exists e :: e in part && e.ToolResult? && e.approvalRequired && row == RowOf(events, e)
    decreases |part|
  {
    if row in RowsOf(events, Init(part)) {
      RowsAreRead(events, Init(part), row);
      var e :| e in Init(part) && e.ToolResult? && e.approvalRequired && row == RowOf(events, e);
      assert e in part;
    }
  }

  lemma {:induction false} OverdueIsTaken(events: seq<Event>, decisions: map<string, Verdict>, now: int, timeout: int,
                                          e: Event)
    requires e in events && IsOverdue(e, decisions, now, timeout)
    ensures e.toolName in OverdueTools(events, decisions, now, timeout)
    decreases |events|
  {
    if e != Last(events) {
      OverdueIsTaken(Init(events), decisions, now, timeout, e);
    }
  }

  lemma {:induction false} ExpiredIsDecided(events: seq<Event>, tools: seq<string>)
    ensures forall t | t in Decisions(events) || (t in tools && t != "") :: t in Decisions(events + ExpiryTail(tools))
    decreases |tools|
  {
    if tools == [] {
      assert events + [] == events;
    } else {
      var before, t := events + ExpiryTail(Init(tools)), Last(tools);
      ExpiredIsDecided(events, Init(tools));
      DecisionsOfExpiry(before, t);
      assert events + ExpiryTail(tools) == before + ExpiryEvents(t);
      forall u | u in Decisions(events) || (u in tools && u != "")
        ensures u in Decisions(before + ExpiryEvents(t))
      {
        assert u in tools ==> u in Init(tools) || u == t;
      }
    }
  }

  lemma DecisionsOfExpiry(events: seq<Event>, tool: string)
    ensures Decisions(events + ExpiryEvents(tool))
            == if tool != "" then Decisions(events)[tool := Expired] else Decisions(events)
  {
    var all := events + ExpiryEvents(tool);
    assert Init(all) == events + [ApprovalDecision(tool, Expired), HandoffDecision(tool, ApprovalExpired)];
    var first := events + [ApprovalDecision(tool, Expired)];
    assert Init(Init(all)) == first && Init(first) == events;
    assert Decisions(Init(all)) == Decisions(first);
  }

  // After an expiry pass every named request past its deadline has a decision, so the list that
  // follows the pass shows no overdue request as pending.
  lemma NoOverdueRowIsPending(run: Run, now: int, timeout: int, row: Row)
    requires row in Rows(AfterExpiry(run, now, timeout).events)
    ensures row.toolName != "" && IsExpired(row.createdAt, now, timeout) ==> row.verdict.Some?
  {
    var decisions := Decisions(run.events);
    var tools := OverdueTools(run.events, decisions, now, timeout);
    var events := run.events + ExpiryTail(tools);
    RowsAreRead(events, events, row);
    var e :| e in events && e.ToolResult? && e.approvalRequired && row == RowOf(events, e);
    NoRequestInTail(tools);
    ExpiredIsDecided(run.events, tools);
    if IsOverdue(e, decisions, now, timeout) {
      OverdueIsTaken(run.events, decisions, now, timeout, e);
    }
  }

  lemma {:induction false} NoRequestInTail(tools: seq<string>)
    ensures forall e | e in ExpiryTail(tools) :: !e.ToolResult?
    decreases |tools|
  {
    if tools != [] {
      NoRequestInTail(Init(tools));
    }
  }

  // ----- The services -----

  class AgentRunRepository {
    var runs: map<string, Run>

    constructor ()
      ensures runs == map[]
    {
      runs := map[];
    }

    method AppendEvent(runId: string, event: Event)
      requires runId in runs
      modifies this
      ensures runs == old(runs)[runId := old(runs)[runId].(events := old(runs)[runId].events + [event])]
    {
      runs := runs[runId := runs[runId].(events := runs[runId].events + [event])];
    }

    method UpdateRun(runId: string, status: Status)
      requires runId in runs
      modifies this
      ensures runs == old(runs)[runId := old(runs)[runId].(status := status)]
    {
      runs := runs[runId := runs[runId].(status := status)];
    }
  }

  class ApprovalService {
    const repository: AgentRunRepository
    const approvalTimeout: int

    constructor (repository: AgentRunRepository, approvalTimeout: int)
      ensures this.repository == repository && this.approvalTimeout == approvalTimeout
    {
      this.repository := repository;
      this.approvalTimeout := approvalTimeout;
    }

    method MarkRunHandoff(runId: string, tool: string, reason: HandoffReason)
      requires runId in repository.runs
      modifies repository
      ensures var run := old(repository.runs)[runId];
              repository.runs
              == old(repository.runs)[runId := Run(HandoffRequired, run.events + HandoffEvents(tool, reason))]
    {
      repository.AppendEvent(runId, HandoffDecision(tool, reason));
      repository.AppendEvent(runId, Handoff(tool, reason));
      repository.UpdateRun(runId, HandoffRequired);
      ghost var events := old(repository.runs)[runId].events;
      assert events + [HandoffDecision(tool, reason)] + [Handoff(tool, reason)] == events + HandoffEvents(tool, reason);
    }

    // What the pass does for one overdue request.
    method ExpireOne(runId: string, tool: string)
      requires runId in repository.runs
      modifies repository
      ensures var run := old(repository.runs)[runId];
              repository.runs == old(repository.runs)[runId :=
                Run(HandoffRequired,
                    run.events + [ApprovalDecision(tool, Expired)] + HandoffEvents(tool, ApprovalExpired))]
    {
      repository.AppendEvent(runId, ApprovalDecision(tool, Expired));
      MarkRunHandoff(runId, tool, ApprovalExpired);
    }

    method ExpirePendingApprovals(runId: string, now: int) returns (expired: seq<string>)
      modifies repository
      ensures runId !in old(repository.runs) ==> repository.runs == old(repository.runs) && expired == []
      ensures runId in old(repository.runs) ==>
                var run := old(repository.runs)[runId];
                && expired == OverdueTools(run.events, Decisions(run.events), now, approvalTimeout)
                && repository.runs == old(repository.runs)[runId := AfterExpiry(run, now, approvalTimeout)]
    {
      expired := [];
      if runId !in repository.runs { return; }
      ghost var before := repository.runs;
      var run := repository.runs[runId];
      var events := run.events;
      var decisions := ApprovalDecisionsByTool(events);
      assert WithExpired(run, []) == run by { assert run.events + [] == run.events; }
      for i := 0 to |events|
        invariant runId in repository.runs
        invariant expired == OverdueTools(events[..i], decisions, now, approvalTimeout)
        invariant repository.runs == before[runId := WithExpired(run, expired)]
      {
        var event := events[i];
        OneMoreScanned(events, i, decisions, now, approvalTimeout);
        if !event.ToolResult? || !event.approvalRequired { continue; }
        var tool := event.toolName;
        if tool == "" || tool in decisions { continue; }
        if !IsExpired(event.createdAt, now, approvalTimeout) { continue; }
        ExpireOne(runId, tool);
        OneMoreExpired(run, expired, tool);
        expired := expired + [tool];
      }
      assert events[..|events|] == events;
    }

    method DecideAgentApproval(runId: string, tool: string, decision: Verdict, queue: Scheduling, now: int)
      returns (result: DecideResult)
      modifies repository
      ensures runId !in old(repository.runs) ==> result == NoSuchRun && repository.runs == old(repository.runs)
      ensures runId in old(repository.runs) ==>
                var (r, run) := AfterDecision(old(repository.runs)[runId], tool, decision, queue, now, approvalTimeout);
                result == r && repository.runs == old(repository.runs)[runId := run]
    {
      if runId !in repository.runs { return NoSuchRun; }
      if decision != Approved && decision != Rejected { return InvalidDecision; }
      var _ := ExpirePendingApprovals(runId, now);
      var decisions := ApprovalDecisionsByTool(repository.runs[runId].events);
      if tool in decisions {
        return if decisions[tool] == Expired then AlreadyExpired else AlreadyDecided;
      }
      repository.AppendEvent(runId, ApprovalDecision(tool, decision));
      if decision == Approved {
        repository.AppendEvent(runId, ApprovalResume(tool, Scheduled(queue)));
      } else {
        MarkRunHandoff(runId, tool, ApprovalRejected);
      }
      return Recorded;
    }

    // list_agent_approvals for one run: expire first, then list.
    method ListForRun(runId: string, now: int) returns (rows: seq<Row>)
      requires runId in repository.runs
      modifies repository
      ensures var run := AfterExpiry(old(repository.runs)[runId], now, approvalTimeout);
              repository.runs == old(repository.runs)[runId := run] && rows == Rows(run.events)
    {
      var _ := ExpirePendingApprovals(runId, now);
      var events := repository.runs[runId].events;
      var decisions := ApprovalDecisionsByTool(events);
      var resumes, results := Resumes(events), Results(events);
      rows := [];
      for i := 0 to |events|
        invariant rows == RowsOf(events, events[..i])
      {
        var event := events[i];
        assert Init(events[..i + 1]) == events[..i];
        if !event.ToolResult? || !event.approvalRequired { continue; }
        var tool := event.toolName;
        var decision, resume, result := Get(decisions, tool), Get(resumes, tool), Get(results, tool);
        var status: Option<ShownStatus> := None;
        if result.Some? {
          status := Some(ResultLogged);
        } else if resume.Some? {
          status := Some(Resume(resume.value));
        } else if decision.Some? {
          status := DecidedStatus(decision.value);
        }
        rows := rows + [Row(tool, decision, status, result, event.createdAt)];
      }
      assert events[..|events|] == events;
    }
  }

  class AgentResumeService {
    const repository: AgentRunRepository

    constructor (repository: AgentRunRepository)
      ensures this.repository == repository
    {
      this.repository := repository;
    }

    // process_resume_task up to the point where it waits for the tool.
    method BeginResumeTask(runId: string, tool: string, decision: Verdict, checkpointAvailable: bool)
      returns (outcome: ResumeOutcome)
      modifies repository
      ensures runId !in old(repository.runs) ==>
                && repository.runs == old(repository.runs)
                && outcome == if runId == "" || tool == "" || decision != Approved then InvalidPayload else RunNotFound
      ensures runId in old(repository.runs) ==>
                var (o, run) := if runId == "" then (InvalidPayload, old(repository.runs)[runId])
                                else AfterResumeCheck(old(repository.runs)[runId], tool, decision, checkpointAvailable);
                outcome == o && repository.runs == old(repository.runs)[runId := run]
    {
      if runId == "" || tool == "" || decision != Approved { return InvalidPayload; }
      if runId !in repository.runs { return RunNotFound; }
      var run := repository.runs[runId];
      if run.status == Cancelled { return RunCancelled; }
      var audited := LatestApprovalDecision(run.events, tool);
      if audited != Some(Approved) { return ApprovalNotFound; }
      var action := FindOriginalAction(run.events, tool);
      if action.None? {
        repository.AppendEvent(runId, ApprovalResume(tool, OriginalActionMissing));
        return ActionMissing;
      }
      repository.AppendEvent(runId,
                             ApprovalResume(tool, if checkpointAvailable then ReadyForResume else CheckpointMissing));
      if checkpointAvailable {
        return Started(action.value);
      }
      return NoCheckpoint;
    }

    // The rest of process_resume_task: the tool has run, its result is logged.
    method FinishResumeTask(runId: string, tool: string, arguments: Arguments, tools: seq<ToolExecutor.Tool>)
      requires runId in repository.runs
      modifies repository
      ensures var run := old(repository.runs)[runId];
              repository.runs == old(repository.runs)[runId :=
                run.(events := run.events + [ResultEvent(ExecuteOriginalAction(tools, tool, arguments))])]
    {
      var result := ExecuteOriginalAction(tools, tool, arguments);
      repository.AppendEvent(runId, ResumedResult(result.toolName, result.arguments, result.status));
    }
  }
}

// The tool execution boundary of app/agent_runtime/tool_executor.py: policy checks in front of a
// bounded retry loop. What the tool does at each attempt is an oracle.
module ToolExecutor {
  import opened Common

  type Arguments = map<string, string>

  datatype Attempt = Returned(output: string) | TimedOut | Raised(error: string)

  datatype Policy = Policy(enabled: bool, capability: Option<string>, approvalRequired: bool, retryCount: int)

  // A tool as the executor sees it: its name, its normalized policy, the two schema checks, and
  // how attempt number n on given arguments would end.
  datatype Tool = Tool(
    name: string,
    policy: Policy,
    acceptsArguments: Arguments -> bool,
    acceptsOutput: string -> bool,
    attempt: (Arguments, nat) -> Attempt)

  datatype Status = Success | InvalidOutput | Error | Disabled | Forbidden | InvalidInput | ApprovalRequired

  // What the audit payload calls the decision.
  datatype Ruling = Denied | NeedsApproval | Executed | ExecutedAfterApproval

  datatype Result = Result(toolName: string, status: Status, arguments: Arguments, output: Option<string>,
                           ruling: Ruling)

  // ----- The retry loop -----

  function Retries(policy: Policy): nat {
    if policy.retryCount > 0 then policy.retryCount else 0
  }

  datatype Invocation = Invocation(last: Attempt, attempts: nat)

  // What attempt k and its retries come to: the first attempt that returns, or the last one allowed.
  function Invoke(tool: Tool, arguments: Arguments, k: nat): (r: Invocation)
    requires k <= Retries(tool.policy)
    ensures k < r.attempts <= Retries(tool.policy) + 1
    ensures r.last == tool.attempt(arguments, r.attempts - 1)
    ensures r.last.Returned? || r.attempts == Retries(tool.policy) + 1
    ensures forall j: nat | k <= j < r.attempts - 1 :: !tool.attempt(arguments, j).Returned?
    decreases Retries(tool.policy) - k
  {
    var a := tool.attempt(arguments, k);
    if a.Returned? || k >= Retries(tool.policy) then Invocation(a, k + 1)
    else Invoke(tool, arguments, k + 1)
  }

  method InvokeToolWithPolicy(tool: Tool, arguments: Arguments) returns (last: Attempt, attempts: nat)
    ensures Invocation(last, attempts) == Invoke(tool, arguments, 0)
  {
    var retryCount := Retries(tool.policy);
    for attempt := 0 to retryCount + 1
      invariant attempt <= retryCount
      invariant Invoke(tool, arguments, attempt) == Invoke(tool, arguments, 0)
    {
      last := tool.attempt(arguments, attempt);
      if last.Returned? || attempt >= retryCount {
        return last, attempt + 1;
      }
    }
    assert false;
  }

  // ----- The two entry points -----

  // A run of the executor: its result, and how often the tool itself was invoked.
  datatype Outcome = Outcome(result: Result, attempts: nat)

  function Refuse(tool: Tool, arguments: Arguments, status: Status): Outcome {
    Outcome(Result(tool.name, status, arguments, None, Denied), 0)
  }

  function RunTool(tool: Tool, arguments: Arguments, ruling: Ruling): Outcome {
    var run := Invoke(tool, arguments, 0);
    if !run.last.Returned? then Outcome(Result(tool.name, Error, arguments, None, ruling), run.attempts)
    else
      var status := if tool.acceptsOutput(run.last.output) then Success else InvalidOutput;
      Outcome(Result(tool.name, status, arguments, Some(run.last.output), ruling), run.attempts)
  }

  function Execute(tool: Tool, arguments: Arguments, capabilities: set<string>): Outcome {
    if !tool.policy.enabled then Refuse(tool, arguments, Disabled)
    else if !HasCapability(tool.policy.capability, capabilities) then Refuse(tool, arguments, Forbidden)
    else if !tool.acceptsArguments(arguments) then Refuse(tool, arguments, InvalidInput)
    else if tool.policy.approvalRequired then
      Outcome(Result(tool.name, ApprovalRequired, arguments, None, NeedsApproval), 0)
    else RunTool(tool, arguments, Executed)
  }

  function ExecuteApproved(tool: Tool, arguments: Arguments, capabilities: set<string>,
                           approvedTool: string, approved: bool): Outcome
  {
    if approvedTool != tool.name || !approved then Refuse(tool, arguments, Forbidden)
    else if !tool.policy.enabled then Refuse(tool, arguments, Disabled)
    else if !HasCapability(tool.policy.capability, capabilities) then Refuse(tool, arguments, Forbidden)
    else if !tool.acceptsArguments(arguments) then Refuse(tool, arguments, InvalidInput)
    else RunTool(tool, arguments, ExecutedAfterApproval)
  }

  function HasCapability(capability: Option<string>, held: set<string>): bool {
    capability.None? || capability.value == "" || "*" in held || capability.value in held
  }

  // A tool is invoked by execute_approved only under a matching approval, and then only as far as
  // execute would have gone had the policy not asked for one: the approval lifts that single gate.
  lemma ApprovalLiftsOneGate(tool: Tool, arguments: Arguments, capabilities: set<string>, approvedTool: string,
                             approved: bool)
    ensures var granted := ExecuteApproved(tool, arguments, capabilities, approvedTool, approved);
            var ungated := Execute(tool.(policy := tool.policy.(approvalRequired := false)), arguments, capabilities);
            && (granted.attempts > 0 ==> approvedTool == tool.name && approved)
            && (approvedTool == tool.name && approved ==>
                  granted == ungated.(result := ungated.result.(ruling :=
                    if ungated.attempts > 0 then ExecutedAfterApproval else Denied)))
    ensures tool.policy.approvalRequired ==> Execute(tool, arguments, capabilities).attempts == 0
  {
    var open := tool.(policy := tool.policy.(approvalRequired := false));
    InvokeIgnoresGate(tool, open, arguments, 0);
  }

  lemma {:induction false} InvokeIgnoresGate(a: Tool, b: Tool, arguments: Arguments, k: nat)
    requires b == a.(policy := a.policy.(approvalRequired := b.policy.approvalRequired))
    requires k <= Retries(a.policy)
    ensures Invoke(a, arguments, k) == Invoke(b, arguments, k)
    decreases Retries(a.policy) - k
  {
    if !a.attempt(arguments, k).Returned? && k < Retries(a.policy) {
      InvokeIgnoresGate(a, b, arguments, k + 1);
    }
  }

  // Whatever the exit, the result names the tool and carries the arguments it was given.
  lemma ApprovedResultKeepsCall(tool: Tool, arguments: Arguments, capabilities: set<string>, approvedTool: string,
                                approved: bool)
    ensures var r := ExecuteApproved(tool, arguments, capabilities, approvedTool, approved).result;
            r.toolName == tool.name && r.arguments == arguments
  {}

  // ----- What a result tells -----

  ghost predicate Holds(capabilities: set<string>, policy: Policy) {
    || policy.capability == None || policy.capability == Some("")
    || "*" in capabilities || policy.capability.value in capabilities
  }

  // The tool ran: it was tried until it first returned, or one more time than it may be retried. The
  // output is what it returned last; the status tells whether it did, and whether the schema takes it.
  ghost predicate Ran(tool: Tool, arguments: Arguments, o: Outcome) {
    var tries := if tool.policy.retryCount > 0 then tool.policy.retryCount + 1 else 1;
    && 1 <= o.attempts <= tries
    && (forall j: nat | j < o.attempts - 1 :: !tool.attempt(arguments, j).Returned?)
    && var last := tool.attempt(arguments, o.attempts - 1);
       && (last.Returned? || o.attempts == tries)
       && o.result.output == (if last.Returned? then Some(last.output) else None)
       && (o.result.status == Success <==> last.Returned? && tool.acceptsOutput(last.output))
       && (o.result.status == InvalidOutput <==> last.Returned? && !tool.acceptsOutput(last.output))
       && (o.result.status == Error <==> !last.Returned?)
  }

  lemma RunToolRan(tool: Tool, arguments: Arguments, ruling: Ruling)
    ensures Ran(tool, arguments, RunTool(tool, arguments, ruling))
    ensures RunTool(tool, arguments, ruling).result.ruling == ruling
    ensures RunTool(tool, arguments, ruling).attempts > 0
  {}

  // The tool runs exactly when its policy is enabled, the capability is held, the arguments are valid and
  // no approval is asked for; otherwise the status is that of the first of these that fails.
  lemma ExecuteTells(tool: Tool, arguments: Arguments, capabilities: set<string>)
    ensures var (o, p) := (Execute(tool, arguments, capabilities), tool.policy);
            var mayRun := p.enabled && Holds(capabilities, p) && tool.acceptsArguments(arguments);
            && o.result.toolName == tool.name && o.result.arguments == arguments
            && (o.attempts > 0 <==> mayRun && !p.approvalRequired)
            && (o.attempts > 0 ==> Ran(tool, arguments, o) && o.result.ruling == Executed)
            && (o.attempts == 0 ==> o.result.output == None)
            && (o.result.status == Disabled <==> !p.enabled)
            && (o.result.status == Forbidden <==> p.enabled && !Holds(capabilities, p))
            && (o.result.status == InvalidInput <==>
                  p.enabled && Holds(capabilities, p) && !tool.acceptsArguments(arguments))
            && (o.result.status == ApprovalRequired <==> mayRun && p.approvalRequired)
            && (o.result.ruling == NeedsApproval <==> o.result.status == ApprovalRequired)
  {
    RunToolRan(tool, arguments, Executed);
  }

  // After an approval it runs exactly when the approval names the tool and grants it, and the same holds
  // but for the gate.
  lemma ApprovedTells(tool: Tool, arguments: Arguments, capabilities: set<string>, approvedTool: string,
                      approved: bool)
    ensures var (o, p) := (ExecuteApproved(tool, arguments, capabilities, approvedTool, approved), tool.policy);
            var granted := approvedTool == tool.name && approved;
            && (o.attempts > 0 <==>
                  granted && p.enabled && Holds(capabilities, p) && tool.acceptsArguments(arguments))
            && (o.attempts > 0 ==> Ran(tool, arguments, o) && o.result.ruling == ExecutedAfterApproval)
            && (o.attempts == 0 ==> o.result.output == None && o.result.ruling == Denied)
            && (o.result.status == Disabled <==> granted && !p.enabled)
            && (o.result.status == Forbidden <==> !granted || (p.enabled && !Holds(capabilities, p)))
            && (o.result.status == InvalidInput <==>
                  granted && p.enabled && Holds(capabilities, p) && !tool.acceptsArguments(arguments))
  {
    RunToolRan(tool, arguments, ExecutedAfterApproval);
  }
}

// The rows of a tool trajectory, field by field.
module TrajectoryLaws {
  import opened Common
  import opened T = Trajectory

  // An event goes by its tool name, or else by its tool; it has no name if it has neither or no payload.
  ghost predicate GoesBy(e: Event, tool: string) {
    && e.payload.Payload? && tool != ""
    && (e.payload.toolName == tool || (e.payload.toolName == "" && e.payload.tool == tool))
  }

  // The events of a tool and the named events are those, in order.
  lemma EventsOfTool(events: seq<Event>, e: Event, tool: string)
    requires tool != ""
    ensures OfTool([], tool) == [] && Named([]) == []
    ensures OfTool(events + [e], tool) == OfTool(events, tool) + if GoesBy(e, tool) then [e] else []
    ensures Named(events + [e]) == Named(events) + if exists t :: GoesBy(e, t) then [e] else []
  {
    assert (events + [e])[..|events|] == events;
    assert NameOf(e) != "" ==> GoesBy(e, NameOf(e));
  }

  lemma {:induction false} LeftRowAt(tool: string, results: seq<Event>, k: nat)
    requires k < |results|
    ensures |LeftRows(tool, results)| == |results|
    ensures LeftRows(tool, results)[k] == Row(tool, None, Some(results[k]), None, None, None)
    decreases |results|
  {
    LeftRowsLength(tool, results);
    if k < |results| - 1 {
      LeftRowAt(tool, results[..|results| - 1], k);
    } else {
      LeftRowsLength(tool, results[..k]);
    }
  }

  lemma {:induction false} OfToolGoBy(events: seq<Event>, tool: string, k: nat)
    requires tool != "" && k < |OfTool(events, tool)|
    ensures GoesBy(OfTool(events, tool)[k], tool)
    decreases |events|
  {
    if k < |OfTool(events[..|events| - 1], tool)| {
      OfToolGoBy(events[..|events| - 1], tool, k);
    }
  }

  // The row shows the call with what its payload says, and the result if there is one.
  ghost predicate ShowsCall(row: Row, call: Event, tool: string, result: Option<Event>) {
    && call.payload.Payload? && row.toolName == tool && row.call == Some(call) && row.result == result
    && row.approvalState == call.payload.approvalState && row.policy == call.payload.policy
    && row.executionStatus == call.payload.executionStatus
  }

  lemma PairShows(calls: seq<Event>, results: seq<Event>, tool: string, k: nat)
    requires tool != "" && k < |calls| && GoesBy(calls[k], tool)
    ensures var row := Paired(calls, results)[k];
            ShowsCall(row, calls[k], tool, if k < |results| then Some(results[k]) else None)
  {}

  lemma ZippedAt(tool: string, calls: seq<Event>, results: seq<Event>, k: nat)
    ensures |Zipped(tool, calls, results)| == if |calls| > |results| then |calls| else |results|
    ensures k < |calls| ==> Zipped(tool, calls, results)[k] == Paired(calls, results)[k]
    ensures |calls| <= k < |results| ==>
              Zipped(tool, calls, results)[k] == Row(tool, None, Some(results[k]), None, None, None)
  {
    var left := Rest(results, |calls|);
    LeftRowsLength(tool, left);
    if |calls| <= k < |results| {
      LeftRowAt(tool, left, k - |calls|);
      assert left[k - |calls|] == results[k];
    }
  }

  // The k-th row of a tool shows its k-th call with what the call's payload says and with its k-th result,
  // each if there is one; a row without a call shows the result alone.
  lemma RowShows(calls: seq<Event>, results: seq<Event>, tool: string, k: nat)
    requires tool != ""
    ensures var (rows, c, r) := (RowsOf(Trajectory(calls, results), tool), OfTool(calls, tool), OfTool(results, tool));
            && |rows| == (if |c| > |r| then |c| else |r|)
            && (k < |c| ==> ShowsCall(rows[k], c[k], tool, if k < |r| then Some(r[k]) else None))
            && (|c| <= k < |r| ==> rows[k] == Row(tool, None, Some(r[k]), None, None, None))
  {
    var c, r := OfTool(calls, tool), OfTool(results, tool);
    PairsFirstInFirstOut(calls, results, tool);
    ZippedAt(tool, c, r, k);
    if k < |c| {
      OfToolGoBy(calls, tool, k);
      PairShows(c, r, tool, k);
    }
  }
}

// The pairing of tool calls and tool results in app/application/native_agent_application_service.py.
module Trajectory {
  import opened Common

  // A missing name is the empty string.
  datatype Payload =
    | NotADict
    | Payload(toolName: string, tool: string, approvalState: Option<string>, policy: Option<string>,
              executionStatus: Option<string>)

  datatype Event = Event(id: nat, payload: Payload)

  datatype Row = Row(toolName: string, call: Option<Event>, result: Option<Event>, approvalState: Option<string>,
                     policy: Option<string>, executionStatus: Option<string>)

  // The name an event goes by; an event without one is skipped.
  function NameOf(e: Event): string {
    if e.payload.NotADict? then "" else if e.payload.toolName != "" then e.payload.toolName else e.payload.tool
  }

  // ----- The dictionary of pending results, in insertion order -----

  datatype Bin = Bin(tool: string, results: seq<Event>)

  function BinIndex(bins: seq<Bin>, tool: string): (i: nat)
    ensures i <= |bins| && (i < |bins| ==> bins[i].tool == tool)
    ensures forall k | 0 <= k < i :: bins[k].tool != tool
  {
    if bins == [] || bins[0].tool == tool then 0 else 1 + BinIndex(bins[1..], tool)
  }

  function Pending(bins: seq<Bin>, tool: string): seq<Event> {
    var i := BinIndex(bins, tool);
    if i < |bins| then bins[i].results else []
  }

  function AddResult(bins: seq<Bin>, result: Event): seq<Bin> {
    var tool := NameOf(result);
    var i := BinIndex(bins, tool);
    if tool == "" then bins
    else if i < |bins| then bins[i := Bin(tool, bins[i].results + [result])]
    else bins + [Bin(tool, [result])]
  }

  function Bins(results: seq<Event>): seq<Bin> {
    if results == [] then [] else AddResult(Bins(results[..|results| - 1]), results[|results| - 1])
  }

  // The dictionary without the first pending result of a tool.
  function Pop(bins: seq<Bin>, tool: string): seq<Bin> {
    var i := BinIndex(bins, tool);
    if i < |bins| && bins[i].results != [] then bins[i := Bin(tool, bins[i].results[1..])] else bins
  }

  // ----- The rows -----

  function CallRow(call: Event, result: Option<Event>): Row {
    if call.payload.NotADict? then Row(NameOf(call), Some(call), result, None, None, None)
    else Row(NameOf(call), Some(call), result, call.payload.approvalState, call.payload.policy,
             call.payload.executionStatus)
  }

  function ResultRow(tool: string, result: Event): Row {
    Row(tool, None, Some(result), None, None, None)
  }

  function HeadOf(events: seq<Event>): Option<Event> {
    if events == [] then None else Some(events[0])
  }

  // The dictionary and the rows after some calls.
  datatype Matched = Matched(bins: seq<Bin>, rows: seq<Row>)

  function MatchOne(m: Matched, call: Event): Matched {
    var tool := NameOf(call);
    if tool == "" then m else Matched(Pop(m.bins, tool), m.rows + [CallRow(call, HeadOf(Pending(m.bins, tool)))])
  }

  function MatchCalls(bins: seq<Bin>, calls: seq<Event>): Matched {
    if calls == [] then Matched(bins, []) else MatchOne(MatchCalls(bins, calls[..|calls| - 1]), calls[|calls| - 1])
  }

  // The rows of the results of one tool that no call took.
  function LeftRows(tool: string, results: seq<Event>): seq<Row> {
    if results == [] then [] else LeftRows(tool, results[..|results| - 1]) + [ResultRow(tool, results[|results| - 1])]
  }

  function Leftovers(bins: seq<Bin>): seq<Row> {
    if bins == [] then []
    else Leftovers(bins[..|bins| - 1]) + LeftRows(bins[|bins| - 1].tool, bins[|bins| - 1].results)
  }

  function Trajectory(calls: seq<Event>, results: seq<Event>): seq<Row> {
    var matched := MatchCalls(Bins(results), calls);
    matched.rows + Leftovers(matched.bins)
  }

  method BuildToolTrajectory(toolCalls: seq<Event>, toolResults: seq<Event>) returns (trajectories: seq<Row>)
    ensures trajectories == Trajectory(toolCalls, toolResults)
  {
    var bins: seq<Bin> := [];
    for i := 0 to |toolResults|
      invariant bins == Bins(toolResults[..i])
    {
      assert toolResults[..i + 1][..i] == toolResults[..i];
      var tool := NameOf(toolResults[i]);
      if tool == "" {
        continue;
      }
      var at := BinIndex(bins, tool);
      if at == |bins| {
        bins := bins + [Bin(tool, [toolResults[i]])];
      } else {
        bins := bins[at := Bin(tool, bins[at].results + [toolResults[i]])];
      }
    }
    assert toolResults[..|toolResults|] == toolResults;
    bins, trajectories := MatchAll(bins, toolCalls);
    var left := CollectLeftovers(bins);
    trajectories := trajectories + left;
  }

  // The loop over the calls.
  method MatchAll(pending: seq<Bin>, calls: seq<Event>) returns (bins: seq<Bin>, rows: seq<Row>)
    ensures Matched(bins, rows) == MatchCalls(pending, calls)
  {
    bins, rows := pending, [];
    for i := 0 to |calls|
      invariant Matched(bins, rows) == MatchCalls(pending, calls[..i])
    {
      assert calls[..i + 1][..i] == calls[..i];
      var tool := NameOf(calls[i]);
      if tool == "" {
        continue;
      }
      var matched: Option<Event> := None;
      var at := BinIndex(bins, tool);
      if at < |bins| && bins[at].results != [] {
        matched := Some(bins[at].results[0]);
        bins := bins[at := Bin(tool, bins[at].results[1..])];
      }
      rows := rows + [CallRow(calls[i], matched)];
    }
    assert calls[..|calls|] == calls;
  }

  // The loops over the remaining results.
  method CollectLeftovers(bins: seq<Bin>) returns (rows: seq<Row>)
    ensures rows == Leftovers(bins)
  {
    rows := [];
    for i := 0 to |bins|
      invariant rows == Leftovers(bins[..i])
    {
      assert bins[..i + 1][..i] == bins[..i];
      ghost var before := rows;
      var results := bins[i].results;
      for j := 0 to |results|
        invariant rows == before + LeftRows(bins[i].tool, results[..j])
      {
        assert results[..j + 1][..j] == results[..j];
        Associate(before, LeftRows(bins[i].tool, results[..j]), [ResultRow(bins[i].tool, results[j])]);
        rows := rows + [ResultRow(bins[i].tool, results[j])];
      }
      assert results[..|results|] == results;
    }
    assert bins[..|bins|] == bins;
  }

  // ----- One tool at a time -----

  function OfTool(events: seq<Event>, tool: string): seq<Event> {
    if events == [] then []
    else
      var last := events[|events| - 1];
      OfTool(events[..|events| - 1], tool) + if NameOf(last) == tool then [last] else []
  }

  function RowsOf(rows: seq<Row>, tool: string): seq<Row> {
    if rows == [] then []
    else
      var last := rows[|rows| - 1];
      RowsOf(rows[..|rows| - 1], tool) + if last.toolName == tool then [last] else []
  }

  lemma {:induction false} RowsOfAppend(a: seq<Row>, b: seq<Row>, tool: string)
    ensures RowsOf(a + b, tool) == RowsOf(a, tool) + RowsOf(b, tool)
    decreases |b|
  {
    if b == [] {
      assert a + b == a && RowsOf(a, tool) + [] == RowsOf(a, tool);
    } else {
      var init, last := b[..|b| - 1], b[|b| - 1];
      RowsOfAppend(a, init, tool);
      assert (a + b)[..|a + b| - 1] == a + init;
      Associate(RowsOf(a, tool), RowsOf(init, tool), if last.toolName == tool then [last] else []);
    }
  }

  ghost predicate AreDistinct(bins: seq<Bin>) {
    forall i, j | 0 <= i < j < |bins| :: bins[i].tool != bins[j].tool
  }

  lemma IndexAfterUpdate(bins: seq<Bin>, i: nat, results: seq<Event>, tool: string)
    requires i < |bins|
    ensures BinIndex(bins[i := Bin(bins[i].tool, results)], tool) == BinIndex(bins, tool)
  {
    var next := bins[i := Bin(bins[i].tool, results)];
    assert forall k | 0 <= k < |bins| :: next[k].tool == bins[k].tool;
  }

  lemma IndexAfterAdd(bins: seq<Bin>, added: Bin, tool: string)
    ensures BinIndex(bins + [added], tool)
            == if BinIndex(bins, tool) == |bins| && added.tool != tool then |bins| + 1 else BinIndex(bins, tool)
  {
    var next := bins + [added];
    assert next[|bins|] == added && forall k | 0 <= k < |bins| :: next[k] == bins[k];
  }

  // Replacing the results of one bin.
  lemma PendingAfterUpdate(bins: seq<Bin>, i: nat, results: seq<Event>, tool: string)
    requires AreDistinct(bins) && i < |bins|
    ensures var next := bins[i := Bin(bins[i].tool, results)];
            AreDistinct(next) && Pending(next, tool) == if tool == bins[i].tool then results else Pending(bins, tool)
  {
    IndexAfterUpdate(bins, i, results, tool);
  }

  lemma {:induction false} PendingAfterAdd(bins: seq<Bin>, added: Bin, tool: string)
    requires AreDistinct(bins) && BinIndex(bins, added.tool) == |bins|
    ensures AreDistinct(bins + [added])
    ensures Pending(bins + [added], tool) == if tool == added.tool then added.results else Pending(bins, tool)
  {
    IndexAfterAdd(bins, added, tool);
  }

  // The dictionary holds the results of each tool, in order.
  lemma {:induction false} BinsHoldResults(results: seq<Event>, tool: string)
    requires tool != ""
    ensures AreDistinct(Bins(results)) && Pending(Bins(results), tool) == OfTool(results, tool)
  {
    if results != [] {
      var init, last := results[..|results| - 1], results[|results| - 1];
      BinsHoldResults(init, tool);
      ResultAdded(Bins(init), last, tool);
    }
  }

  lemma ResultAdded(bins: seq<Bin>, result: Event, tool: string)
    requires AreDistinct(bins) && tool != ""
    ensures AreDistinct(AddResult(bins, result))
    ensures Pending(AddResult(bins, result), tool)
            == Pending(bins, tool) + if NameOf(result) == tool then [result] else []
  {
    var i := BinIndex(bins, NameOf(result));
    if NameOf(result) != "" {
      if i < |bins| {
        PendingAfterUpdate(bins, i, bins[i].results + [result], tool);
      } else {
        PendingAfterAdd(bins, Bin(NameOf(result), [result]), tool);
      }
    }
  }

  lemma PendingAfterPop(bins: seq<Bin>, popped: string, tool: string)
    requires AreDistinct(bins)
    ensures AreDistinct(Pop(bins, popped))
    ensures Pending(Pop(bins, popped), tool)
            == if tool == popped && Pending(bins, tool) != [] then Pending(bins, tool)[1..] else Pending(bins, tool)
  {
    var i := BinIndex(bins, popped);
    if i < |bins| && bins[i].results != [] {
      PendingAfterUpdate(bins, i, bins[i].results[1..], tool);
    }
  }

  // ----- First in, first out -----

  // The k-th call of a tool with the k-th result, or with none.
  function Paired(calls: seq<Event>, results: seq<Event>): (rows: seq<Row>)
    ensures |rows| == |calls|
    ensures forall k | 0 <= k < |calls| ::
              rows[k] == CallRow(calls[k], if k < |results| then Some(results[k]) else None)
  {
    seq(|calls|, k requires 0 <= k < |calls| => CallRow(calls[k], if k < |results| then Some(results[k]) else None))
  }

  function Rest(results: seq<Event>, n: nat): seq<Event> {
    if n < |results| then results[n..] else []
  }

  // The rows of one tool: pairs while there are calls, then the results that are left.
  function Zipped(tool: string, calls: seq<Event>, results: seq<Event>): seq<Row> {
    Paired(calls, results) + LeftRows(tool, Rest(results, |calls|))
  }

  lemma PairedMore(calls: seq<Event>, call: Event, results: seq<Event>)
    ensures Paired(calls + [call], results) == Paired(calls, results) + [CallRow(call, HeadOf(Rest(results, |calls|)))]
    ensures Rest(results, |calls| + 1)
            == if Rest(results, |calls|) == [] then [] else Rest(results, |calls|)[1..]
  {}

  ghost predicate MatchesTool(m: Matched, calls: seq<Event>, results: seq<Event>, tool: string) {
    && AreDistinct(m.bins) && Pending(m.bins, tool) == Rest(results, |calls|)
    && RowsOf(m.rows, tool) == Paired(calls, results)
  }

  lemma MatchesOneMore(m: Matched, call: Event, calls: seq<Event>, results: seq<Event>, tool: string)
    requires MatchesTool(m, calls, results, tool) && tool != ""
    ensures MatchesTool(MatchOne(m, call), calls + if NameOf(call) == tool then [call] else [], results, tool)
  {
    if NameOf(call) != "" {
      var row := CallRow(call, HeadOf(Pending(m.bins, NameOf(call))));
      PendingAfterPop(m.bins, NameOf(call), tool);
      assert (m.rows + [row])[..|m.rows|] == m.rows;
    }
    if NameOf(call) == tool {
      PairedMore(calls, call, results);
    } else {
      assert calls + [] == calls;
    }
  }

  lemma {:induction false} CallsMatch(bins: seq<Bin>, calls: seq<Event>, tool: string)
    requires AreDistinct(bins) && tool != ""
    ensures MatchesTool(MatchCalls(bins, calls), OfTool(calls, tool), Pending(bins, tool), tool)
  {
    if calls != [] {
      var init, last := calls[..|calls| - 1], calls[|calls| - 1];
      CallsMatch(bins, init, tool);
      MatchesOneMore(MatchCalls(bins, init), last, OfTool(init, tool), Pending(bins, tool), tool);
    }
  }

  lemma {:induction false} LeftRowsOf(of: string, results: seq<Event>, tool: string)
    ensures RowsOf(LeftRows(of, results), tool) == if of == tool then LeftRows(of, results) else []
  {
    if results != [] {
      var before := LeftRows(of, results[..|results| - 1]);
      LeftRowsOf(of, results[..|results| - 1], tool);
      assert LeftRows(of, results)[..|before|] == before;
    }
  }

  lemma {:induction false} LeftoversOf(bins: seq<Bin>, tool: string)
    requires AreDistinct(bins)
    ensures RowsOf(Leftovers(bins), tool) == LeftRows(tool, Pending(bins, tool))
  {
    if bins != [] {
      var init, last := bins[..|bins| - 1], bins[|bins| - 1];
      LeftoversOf(init, tool);
      RowsOfAppend(Leftovers(init), LeftRows(last.tool, last.results), tool);
      LeftRowsOf(last.tool, last.results, tool);
      assert bins == init + [last];
      PendingAfterAdd(init, last, tool);
      if last.tool == tool {
        assert Pending(init, tool) == [];
      }
    }
  }

  // For every tool, the rows are its calls in order, the k-th with the k-th result of the tool or
  // with none, followed by the results no call took, in order.
  lemma {:induction false} PairsFirstInFirstOut(calls: seq<Event>, results: seq<Event>, tool: string)
    requires tool != ""
    ensures RowsOf(Trajectory(calls, results), tool) == Zipped(tool, OfTool(calls, tool), OfTool(results, tool))
  {
    var m := MatchCalls(Bins(results), calls);
    BinsHoldResults(results, tool);
    CallsMatch(Bins(results), calls, tool);
    LeftoversOf(m.bins, tool);
    RowsOfAppend(m.rows, Leftovers(m.bins), tool);
  }

  // ----- Order and length of the whole -----

  function Named(events: seq<Event>): seq<Event> {
    if events == [] then []
    else
      var last := events[|events| - 1];
      Named(events[..|events| - 1]) + if NameOf(last) != "" then [last] else []
  }

  ghost predicate AreCalls(rows: seq<Row>, calls: seq<Event>) {
    && |rows| == |calls|
    && forall i | 0 <= i < |rows| :: rows[i].call == Some(calls[i]) && rows[i].toolName == NameOf(calls[i])
  }

  lemma {:induction false} MatchedAreCalls(bins: seq<Bin>, calls: seq<Event>)
    ensures AreCalls(MatchCalls(bins, calls).rows, Named(calls))
  {
    if calls != [] {
      MatchedAreCalls(bins, calls[..|calls| - 1]);
    }
  }

  ghost predicate HaveNoCall(rows: seq<Row>) {
    forall row | row in rows :: row.call == None && row.toolName != ""
  }

  lemma {:induction false} LeftRowsHaveNoCall(tool: string, results: seq<Event>)
    requires tool != ""
    ensures HaveNoCall(LeftRows(tool, results))
  {
    if results != [] {
      LeftRowsHaveNoCall(tool, results[..|results| - 1]);
    }
  }

  ghost predicate AreNamed(bins: seq<Bin>) {
    forall i | 0 <= i < |bins| :: bins[i].tool != ""
  }

  lemma {:induction false} LeftoversHaveNoCall(bins: seq<Bin>)
    requires AreNamed(bins)
    ensures HaveNoCall(Leftovers(bins))
  {
    if bins != [] {
      LeftoversHaveNoCall(bins[..|bins| - 1]);
      LeftRowsHaveNoCall(bins[|bins| - 1].tool, bins[|bins| - 1].results);
    }
  }

  lemma {:induction false} BinsAreNamed(results: seq<Event>)
    ensures AreNamed(Bins(results))
  {
    if results != [] {
      BinsAreNamed(results[..|results| - 1]);
    }
  }

  lemma {:induction false} MatchedAreNamed(bins: seq<Bin>, calls: seq<Event>)
    requires AreNamed(bins)
    ensures AreNamed(MatchCalls(bins, calls).bins)
  {
    if calls != [] {
      MatchedAreNamed(bins, calls[..|calls| - 1]);
    }
  }

  // The rows of the named calls come first, in the order of the calls; the rest has no calls.
  lemma CallsKeepOrder(calls: seq<Event>, results: seq<Event>)
    ensures var (rows, n) := (Trajectory(calls, results), |Named(calls)|);
            n <= |rows| && AreCalls(rows[..n], Named(calls)) && HaveNoCall(rows[n..])
  {
    var m := MatchCalls(Bins(results), calls);
    MatchedAreCalls(Bins(results), calls);
    BinsAreNamed(results);
    MatchedAreNamed(Bins(results), calls);
    LeftoversHaveNoCall(m.bins);
    var rows, n := Trajectory(calls, results), |m.rows|;
    assert rows[..n] == m.rows && rows[n..] == Leftovers(m.bins);
  }

  function MaxSum(tools: seq<string>, calls: seq<Event>, results: seq<Event>): nat {
    if tools == [] then 0
    else
      var (c, r) := (|OfTool(calls, tools[0])|, |OfTool(results, tools[0])|);
      (if c > r then c else r) + MaxSum(tools[1..], calls, results)
  }

  function RowSum(tools: seq<string>, rows: seq<Row>): nat {
    if tools == [] then 0 else |RowsOf(rows, tools[0])| + RowSum(tools[1..], rows)
  }

  // The tools of the rows, each once.
  ghost predicate Lists(tools: seq<string>, rows: seq<Row>) {
    && (forall i, j | 0 <= i < j < |tools| :: tools[i] != tools[j])
    && (forall i | 0 <= i < |tools| :: tools[i] != "")
    && (forall row | row in rows :: row.toolName in tools)
  }

  lemma {:induction false} LeftRowsLength(tool: string, results: seq<Event>)
    ensures |LeftRows(tool, results)| == |results|
  {
    if results != [] {
      LeftRowsLength(tool, results[..|results| - 1]);
    }
  }

  lemma {:induction false} SumsAgree(tools: seq<string>, calls: seq<Event>, results: seq<Event>)
    requires forall i | 0 <= i < |tools| :: tools[i] != ""
    ensures RowSum(tools, Trajectory(calls, results)) == MaxSum(tools, calls, results)
  {
    if tools != [] {
      var t := tools[0];
      PairsFirstInFirstOut(calls, results, t);
      LeftRowsLength(t, Rest(OfTool(results, t), |OfTool(calls, t)|));
      SumsAgree(tools[1..], calls, results);
    }
  }

  lemma {:induction false} RowSumMore(tools: seq<string>, rows: seq<Row>, row: Row)
    requires forall i, j | 0 <= i < j < |tools| :: tools[i] != tools[j]
    ensures RowSum(tools, rows + [row]) == RowSum(tools, rows) + if row.toolName in tools then 1 else 0
  {
    assert (rows + [row])[..|rows|] == rows;
    if tools != [] {
      RowSumMore(tools[1..], rows, row);
      assert tools[0] !in tools[1..];
    }
  }

  lemma {:induction false} RowsCountOnce(tools: seq<string>, rows: seq<Row>)
    requires Lists(tools, rows)
    ensures RowSum(tools, rows) == |rows|
    decreases |rows|
  {
    if rows == [] {
      NoRows(tools);
    } else {
      var init, last := rows[..|rows| - 1], rows[|rows| - 1];
      RowsCountOnce(tools, init);
      RowSumMore(tools, init, last);
      assert rows == init + [last] && last in rows;
    }
  }

  lemma {:induction false} NoRows(tools: seq<string>)
    ensures RowSum(tools, []) == 0
  {
    if tools != [] {
      NoRows(tools[1..]);
    }
  }

  // The names of the calls and results, each once.
  ghost predicate ListsTools(tools: seq<string>, calls: seq<Event>, results: seq<Event>) {
    && (forall i, j | 0 <= i < j < |tools| :: tools[i] != tools[j])
    && (forall i | 0 <= i < |tools| :: tools[i] != "")
    && (forall e | (e in calls || e in results) && NameOf(e) != "" :: NameOf(e) in tools)
  }

  lemma {:induction false} RowIsOfItsTool(rows: seq<Row>, row: Row)
    requires row in rows
    ensures RowsOf(rows, row.toolName) != []
  {
    if rows[|rows| - 1] != row {
      RowIsOfItsTool(rows[..|rows| - 1], row);
    }
  }

  lemma {:induction false} ToolIsOfAnEvent(events: seq<Event>, tool: string)
    requires OfTool(events, tool) != []
    ensures exists e :: e in events && NameOf(e) == tool
  {
    var last := events[|events| - 1];
    if NameOf(last) != tool {
      ToolIsOfAnEvent(events[..|events| - 1], tool);
    } else {
      assert last in events;
    }
  }

  lemma RowIsListed(tools: seq<string>, calls: seq<Event>, results: seq<Event>, row: Row)
    requires ListsTools(tools, calls, results) && row in Trajectory(calls, results) && row.toolName != ""
    ensures row.toolName in tools
  {
    var t := row.toolName;
    RowIsOfItsTool(Trajectory(calls, results), row);
    PairsFirstInFirstOut(calls, results, t);
    if OfTool(calls, t) != [] {
      ToolIsOfAnEvent(calls, t);
    } else if OfTool(results, t) != [] {
      ToolIsOfAnEvent(results, t);
    }
  }

  lemma {:induction false} NamedHaveNames(calls: seq<Event>)
    ensures forall e | e in Named(calls) :: NameOf(e) != ""
  {
    if calls != [] {
      NamedHaveNames(calls[..|calls| - 1]);
    }
  }

  lemma RowIsNamed(calls: seq<Event>, results: seq<Event>, row: Row)
    requires row in Trajectory(calls, results)
    ensures row.toolName != ""
  {
    var rows, n := Trajectory(calls, results), |Named(calls)|;
    CallsKeepOrder(calls, results);
    NamedHaveNames(calls);
    var i :| 0 <= i < |rows| && rows[i] == row;
    if i < n {
      assert rows[..n][i] == row && Named(calls)[i] in Named(calls);
    } else {
      assert rows[n..][i - n] == row;
    }
  }

  // The number of rows is the sum over the tools of max(calls, results).
  lemma LengthIsSumOfMaxima(calls: seq<Event>, results: seq<Event>, tools: seq<string>)
    requires ListsTools(tools, calls, results)
    ensures |Trajectory(calls, results)| == MaxSum(tools, calls, results)
  {
    forall row | row in Trajectory(calls, results)
      ensures row.toolName in tools
    {
      RowIsNamed(calls, results, row);
      RowIsListed(tools, calls, results, row);
    }
    RowsCountOnce(tools, Trajectory(calls, results));
    SumsAgree(tools, calls, results);
  }
}

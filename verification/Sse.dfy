// The incremental Server-Sent Events parser of frontend/lib/sse.ts. A stream is a sequence of
// decoded text chunks.
module Sse {
  import opened Common

  datatype Message = Message(event: string, data: string, id: Option<string>)

  // ----- Separators and lines -----

  // The length of the separator /\r\n\r\n|\n\n/ at position i, or 0.
  function SeparatorAt(s: string, i: nat): nat {
    if i + 4 <= |s| && s[i] == '\r' && s[i + 1] == '\n' && s[i + 2] == '\r' && s[i + 3] == '\n' then 4
    else if i + 2 <= |s| && s[i] == '\n' && s[i + 1] == '\n' then 2
    else 0
  }

  // The leftmost separator at or after i, or -1: the meaning of buffer.search.
  function Search(s: string, i: nat): (k: int)
    requires i <= |s|
    ensures k == -1 || i <= k < |s|
    ensures k >= 0 ==> SeparatorAt(s, k) > 0
    decreases |s| - i
  {
    if i == |s| then -1
    else if SeparatorAt(s, i) > 0 then i
    else Search(s, i + 1)
  }

  // The length of the line break /\r?\n/ at position i, or 0.
  function BreakAt(s: string, i: nat): nat {
    if i + 2 <= |s| && s[i] == '\r' && s[i + 1] == '\n' then 2
    else if i + 1 <= |s| && s[i] == '\n' then 1
    else 0
  }

  function NextBreak(s: string, i: nat): (k: int)
    requires i <= |s|
    ensures k == -1 || i <= k < |s|
    ensures k >= 0 ==> BreakAt(s, k) > 0
    decreases |s| - i
  {
    if i == |s| then -1
    else if BreakAt(s, i) > 0 then i
    else NextBreak(s, i + 1)
  }

  // block.split(/\r?\n/)
  function SplitLines(s: string): (lines: seq<string>)
    ensures lines != []
    decreases |s|
  {
    var k := NextBreak(s, 0);
    if k == -1 then [s] else [s[..k]] + SplitLines(s[k + BreakAt(s, k)..])
  }

  lemma {:induction false} NextBreakSkipsNone(s: string, i: nat)
    requires i <= |s|
    ensures forall j: nat | i <= j < (if NextBreak(s, i) >= 0 then NextBreak(s, i) else |s|) :: BreakAt(s, j) == 0
    decreases |s| - i
  {
    if i < |s| && BreakAt(s, i) == 0 {
      NextBreakSkipsNone(s, i + 1);
    }
  }

  lemma {:induction false} NextBreakIs(s: string, i: nat, k: nat)
    requires i <= k < |s| && BreakAt(s, k) > 0
    requires forall j: nat | i <= j < k :: BreakAt(s, j) == 0
    ensures NextBreak(s, i) == k
    decreases k - i
  {
    if i < k {
      NextBreakIs(s, i + 1, k);
    }
  }

  lemma {:induction false} NoNextBreak(s: string, i: nat)
    requires i <= |s| && forall j: nat | i <= j < |s| :: BreakAt(s, j) == 0
    ensures NextBreak(s, i) == -1
    decreases |s| - i
  {
    if i < |s| {
      NoNextBreak(s, i + 1);
    }
  }

  // ----- One block -----

  datatype Fields = Fields(event: string, data: seq<string>, id: Option<string>)

  const NO_FIELDS := Fields("message", [], None)

  function IndexOfColon(s: string): (k: int)
    ensures -1 <= k < |s|
    ensures k >= 0 ==> s[k] == ':'
    ensures forall j | 0 <= j < (if k >= 0 then k else |s|) :: s[j] != ':'
  {
    if s == "" then -1
    else if s[0] == ':' then 0
    else var k := IndexOfColon(s[1..]); if k == -1 then -1 else k + 1
  }

  function DropLeadingSpace(s: string): string {
    if s != "" && s[0] == ' ' then s[1..] else s
  }

  function FieldOf(line: string): string {
    var colon := IndexOfColon(line);
    if colon == -1 then line else line[..colon]
  }

  function ValueOf(line: string): string {
    var colon := IndexOfColon(line);
    if colon == -1 then "" else DropLeadingSpace(line[colon + 1..])
  }

  function WithLine(fields: Fields, line: string): Fields {
    if line == "" || line[0] == ':' then fields
    else if FieldOf(line) == "event" then fields.(event := ValueOf(line))
    else if FieldOf(line) == "data" then fields.(data := fields.data + [ValueOf(line)])
    else if FieldOf(line) == "id" then fields.(id := Some(ValueOf(line)))
    else fields
  }

  function WithLines(fields: Fields, lines: seq<string>): Fields
    decreases lines
  {
    if lines == [] then fields else WithLines(WithLine(fields, lines[0]), lines[1..])
  }

  function Join(lines: seq<string>, separator: string): string {
    if lines == [] then ""
    else if |lines| == 1 then lines[0]
    else lines[0] + separator + Join(lines[1..], separator)
  }

  function MessageOf(fields: Fields): Option<Message> {
    if fields.data == [] then None
    else Some(Message(fields.event, Join(fields.data, "\n"), fields.id))
  }

  function Block(block: string): Option<Message> {
    MessageOf(WithLines(NO_FIELDS, SplitLines(block)))
  }

  method ParseBlock(block: string) returns (message: Option<Message>)
    ensures message == Block(block)
  {
    var lines := SplitLines(block);
    var event := "message";
    var dataLines: seq<string> := [];
    var id: Option<string> := None;
    for n := 0 to |lines|
      invariant WithLines(Fields(event, dataLines, id), lines[n..]) == WithLines(NO_FIELDS, lines)
    {
      var line := lines[n];
      assert lines[n..][0] == line && lines[n..][1..] == lines[n + 1..];
      if line == "" || line[0] == ':' { continue; }
      var colon := IndexOfColon(line);
      var field := if colon == -1 then line else line[..colon];
      var value := if colon == -1 then "" else DropLeadingSpace(line[colon + 1..]);
      if field == "event" {
        event := value;
      } else if field == "data" {
        dataLines := dataLines + [value];
      } else if field == "id" {
        id := Some(value);
      }
    }
    if dataLines == [] { return None; }
    return Some(Message(event, Join(dataLines, "\n"), id));
  }

  // ----- The whole stream -----

  datatype Pieces = Pieces(blocks: seq<string>, rest: string)

  // The complete blocks of a text, and what follows the last separator.
  function Split(s: string): Pieces
    decreases |s|
  {
    var k := Search(s, 0);
    if k == -1 then Pieces([], s)
    else
      var tail := Split(s[k + SeparatorAt(s, k)..]);
      Pieces([s[..k]] + tail.blocks, tail.rest)
  }

  function Messages(parse: string -> Option<Message>, blocks: seq<string>): seq<Message>
    decreases blocks
  {
    if blocks == [] then [] else Emitted(parse(blocks[0])) + Messages(parse, blocks[1..])
  }

  function Emitted(message: Option<Message>): seq<Message> {
    if message.Some? then [message.value] else []
  }

  // The code points that String.prototype.trim removes.
  predicate IsSpace(c: char) {
    || '\U{0009}' <= c <= '\U{000D}' || c == ' ' || c == '\U{00A0}' || c == '\U{1680}'
    || '\U{2000}' <= c <= '\U{200A}' || c == '\U{2028}' || c == '\U{2029}' || c == '\U{202F}'
    || c == '\U{205F}' || c == '\U{3000}' || c == '\U{FEFF}'
  }

  predicate IsBlank(s: string) {
    forall i | 0 <= i < |s| :: IsSpace(s[i])
  }

  function Flushed(rest: string): seq<Message> {
    if IsBlank(rest) then [] else Emitted(Block(rest))
  }

  // The messages of the complete blocks of a text.
  function Complete(s: string): seq<Message> {
    Messages(Block, Split(s).blocks)
  }

  // Parsing a whole text at once.
  function Parse(s: string): seq<Message> {
    Complete(s) + Flushed(Split(s).rest)
  }

  // The text of the first k chunks.
  function Text(chunks: seq<string>, k: nat): string
    requires k <= |chunks|
  {
    if k == 0 then "" else Text(chunks, k - 1) + chunks[k - 1]
  }

  lemma {:induction false} MessagesAppend(parse: string -> Option<Message>, a: seq<string>, b: seq<string>)
    ensures Messages(parse, a + b) == Messages(parse, a) + Messages(parse, b)
    decreases a
  {
    if a == [] {
      assert a + b == b;
    } else {
      MessagesAppend(parse, a[1..], b);
      assert (a + b)[1..] == a[1..] + b;
      Associate(Emitted(parse(a[0])), Messages(parse, a[1..]), Messages(parse, b));
    }
  }

  lemma {:induction false} SearchSkipsNone(s: string, i: nat)
    requires i <= |s|
    ensures forall j: nat | i <= j < (if Search(s, i) >= 0 then Search(s, i) else |s|) :: SeparatorAt(s, j) == 0
    decreases |s| - i
  {
    if i < |s| && SeparatorAt(s, i) == 0 {
      SearchSkipsNone(s, i + 1);
    }
  }

  lemma {:induction false} LeftmostIs(s: string, i: nat, k: nat)
    requires i <= k < |s| && SeparatorAt(s, k) > 0
    requires forall j: nat | i <= j < k :: SeparatorAt(s, j) == 0
    ensures Search(s, i) == k
    decreases k - i
  {
    if i < k {
      LeftmostIs(s, i + 1, k);
    }
  }

  // A separator that is leftmost in a text stays leftmost, with the same length, when text is
  // appended.
  lemma LeftmostSeparatorIsStable(s: string, more: string)
    requires Search(s, 0) >= 0
    ensures Search(s + more, 0) == Search(s, 0)
    ensures SeparatorAt(s + more, Search(s, 0)) == SeparatorAt(s, Search(s, 0))
  {
    var k, t := Search(s, 0), s + more;
    SearchSkipsNone(s, 0);
    forall j: nat | j < k
      ensures SeparatorAt(t, j) == 0
    {
      assert SeparatorAt(s, j) == 0;
    }
    LeftmostIs(t, 0, k);
  }

  lemma SplitOff(s: string, k: nat)
    requires k == Search(s, 0)
    ensures Split(s).blocks == [s[..k]] + Split(s[k + SeparatorAt(s, k)..]).blocks
    ensures Split(s).rest == Split(s[k + SeparatorAt(s, k)..]).rest
  {}

  lemma AppendedParts(s: string, more: string, k: nat, n: nat)
    requires k <= n <= |s|
    ensures (s + more)[..k] == s[..k] && (s + more)[n..] == s[n..] + more
  {}

  lemma SplitOffAppended(s: string, more: string, k: nat)
    requires k == Search(s, 0)
    ensures Split(s + more).blocks == [s[..k]] + Split(s[k + SeparatorAt(s, k)..] + more).blocks
    ensures Split(s + more).rest == Split(s[k + SeparatorAt(s, k)..] + more).rest
  {
    LeftmostSeparatorIsStable(s, more);
    SplitOff(s + more, k);
    AppendedParts(s, more, k, k + SeparatorAt(s, k));
  }

  // Splitting what is buffered together with new text continues where the splitting stopped.
  lemma {:induction false} SplitContinues(s: string, more: string)
    ensures Split(s + more).blocks == Split(s).blocks + Split(Split(s).rest + more).blocks
    ensures Split(s + more).rest == Split(Split(s).rest + more).rest
    decreases |s|
  {
    var k := Search(s, 0);
    if k == -1 {
      assert Split(s) == Pieces([], s);
    } else {
      var tail := s[k + SeparatorAt(s, k)..];
      SplitOff(s, k);
      SplitOffAppended(s, more, k);
      SplitContinues(tail, more);
      Associate([s[..k]], Split(tail).blocks, Split(Split(tail).rest + more).blocks);
    }
  }

  // Reading one more chunk: what was complete stays, and the buffer with the chunk goes on.
  lemma {:induction false} CompleteContinues(s: string, more: string)
    ensures Complete(s + more) == Complete(s) + Complete(Split(s).rest + more)
  {
    SplitContinues(s, more);
    MessagesAppend(Block, Split(s).blocks, Split(Split(s).rest + more).blocks);
  }

  lemma CompleteFirst(s: string, k: nat)
    requires k == Search(s, 0)
    ensures Complete(s) == Emitted(Block(s[..k])) + Complete(s[k + SeparatorAt(s, k)..])
  {
    SplitOff(s, k);
    assert Split(s).blocks[1..] == Split(s[k + SeparatorAt(s, k)..]).blocks;
  }

  lemma OneMoreChunk(chunks: seq<string>, k: nat)
    requires k < |chunks|
    ensures var buffer := Split(Text(chunks, k)).rest + chunks[k];
            && Complete(Text(chunks, k + 1)) == Complete(Text(chunks, k)) + Complete(buffer)
            && Split(Text(chunks, k + 1)).rest == Split(buffer).rest
  {
    SplitContinues(Text(chunks, k), chunks[k]);
    CompleteContinues(Text(chunks, k), chunks[k]);
  }

  // The generator: it reads the chunks in turn, and stops early when the abort signal is seen
  // before a read. However the text was cut into chunks, it yields what one parse of the whole
  // text yields; an aborted run yields the complete blocks read so far.
  method ParseSSE(chunks: seq<string>, abortedAt: Option<nat>) returns (yielded: seq<Message>)
    ensures abortedAt.Some? && abortedAt.value <= |chunks| ==> yielded == Complete(Text(chunks, abortedAt.value))
    ensures abortedAt.None? || abortedAt.value > |chunks| ==> yielded == Parse(Text(chunks, |chunks|))
  {
    yielded := [];
    var buffer := "";
    var next := 0;
    while true
      invariant 0 <= next <= |chunks|
      invariant abortedAt.Some? ==> next <= abortedAt.value
      invariant Split(Text(chunks, next)).rest == buffer
      invariant Complete(Text(chunks, next)) == yielded
      decreases |chunks| - next
    {
      if abortedAt == Some(next) { return; }
      if next == |chunks| { break; }
      OneMoreChunk(chunks, next);
      yielded, buffer := DrainBlocks(yielded, buffer + chunks[next]);
      next := next + 1;
    }
    yielded := Flush(yielded, buffer);
  }

  method Flush(sofar: seq<Message>, buffer: string) returns (yielded: seq<Message>)
    ensures yielded == sofar + Flushed(buffer)
  {
    yielded := sofar;
    if !IsBlank(buffer) {
      var message := ParseBlock(buffer);
      if message.Some? {
        yielded := yielded + [message.value];
      }
    }
  }

  lemma DrainOne(buffer: string, k: nat, sofar: seq<Message>)
    requires k == Search(buffer, 0)
    ensures var tail := buffer[k + SeparatorAt(buffer, k)..];
            && sofar + Complete(buffer) == sofar + Emitted(Block(buffer[..k])) + Complete(tail)
            && Split(buffer).rest == Split(tail).rest
  {
    var tail := buffer[k + SeparatorAt(buffer, k)..];
    SplitOff(buffer, k);
    CompleteFirst(buffer, k);
    Associate(sofar, Emitted(Block(buffer[..k])), Complete(tail));
  }

  // The inner loop of the generator: it cuts off and parses one complete block after the other.
  method DrainBlocks(sofar: seq<Message>, text: string) returns (yielded: seq<Message>, buffer: string)
    ensures yielded == sofar + Complete(text) && buffer == Split(text).rest
  {
    yielded, buffer := sofar, text;
    var separator := Search(buffer, 0);
    while separator != -1
      invariant separator == Search(buffer, 0)
      invariant Split(buffer).rest == Split(text).rest
      invariant yielded + Complete(buffer) == sofar + Complete(text)
      decreases |buffer|
    {
      DrainOne(buffer, separator, yielded);
      var block := buffer[..separator];
      buffer := buffer[separator + SeparatorAt(buffer, separator)..];
      var message := ParseBlock(block);
      yielded := yielded + Emitted(message);
      separator := Search(buffer, 0);
    }
    NothingComplete(buffer);
  }

  lemma NothingComplete(s: string)
    requires Search(s, 0) == -1
    ensures Complete(s) == [] && Split(s).rest == s
  {}

  lemma {:induction false} TextExtends(chunks: seq<string>, k: nat, n: nat)
    requires k <= n <= |chunks|
    ensures Text(chunks, k) <= Text(chunks, n)
    decreases n - k
  {
    if k < n {
      TextExtends(chunks, k, n - 1);
    }
  }

  // What an aborted run yielded is a prefix of what a complete run yields.
  lemma AbortYieldsAPrefix(chunks: seq<string>, k: nat)
    requires k <= |chunks|
    ensures Complete(Text(chunks, k)) <= Parse(Text(chunks, |chunks|))
  {
    TextExtends(chunks, k, |chunks|);
    var seen, all := Text(chunks, k), Text(chunks, |chunks|);
    assert all == seen + all[|seen|..];
    CompleteContinues(seen, all[|seen|..]);
  }

  // The blank test before the final flush never changes what is emitted.
  lemma BlankRestHasNoMessage(rest: string)
    requires IsBlank(rest)
    ensures Block(rest) == None
  {
    LinesOfBlank(rest);
    BlankLinesAddNoData(NO_FIELDS, SplitLines(rest));
  }

  lemma {:induction false} LinesOfBlank(s: string)
    requires IsBlank(s)
    ensures forall i | 0 <= i < |SplitLines(s)| :: IsBlank(SplitLines(s)[i])
    decreases |s|
  {
    var k := NextBreak(s, 0);
    if k != -1 {
      LinesOfBlank(s[k + BreakAt(s, k)..]);
    }
  }

  lemma {:induction false} BlankLinesAddNoData(fields: Fields, lines: seq<string>)
    requires forall i | 0 <= i < |lines| :: IsBlank(lines[i])
    ensures WithLines(fields, lines).data == fields.data
    decreases lines
  {
    if lines != [] {
      var field := FieldOf(lines[0]);
      assert field != "" ==> field[0] == lines[0][0];
      BlankLinesAddNoData(WithLine(fields, lines[0]), lines[1..]);
    }
  }

  // ----- Printing -----

  predicate IsLineEnding(nl: string) { nl == "\n" || nl == "\r\n" }

  predicate IsOneLine(s: string) {
    forall i | 0 <= i < |s| :: s[i] != '\n'
  }

  function IndexOfFeed(s: string): (k: int)
    ensures -1 <= k < |s|
    ensures k >= 0 ==> s[k] == '\n'
    ensures forall j | 0 <= j < (if k >= 0 then k else |s|) :: s[j] != '\n'
  {
    if s == "" then -1
    else if s[0] == '\n' then 0
    else var k := IndexOfFeed(s[1..]); if k == -1 then -1 else k + 1
  }

  // The data lines of a message: its data cut at every line feed.
  function CutLines(s: string): (lines: seq<string>)
    ensures lines != []
    decreases |s|
  {
    var k := IndexOfFeed(s);
    if k == -1 then [s] else [s[..k]] + CutLines(s[k + 1..])
  }

  function DataLines(values: seq<string>): (lines: seq<string>)
    ensures |lines| == |values|
  {
    if values == [] then [] else ["data: " + values[0]] + DataLines(values[1..])
  }

  function IdLines(id: Option<string>): seq<string> {
    if id.Some? then ["id: " + id.value] else []
  }

  function LinesFor(event: string, values: seq<string>, id: Option<string>): seq<string> {
    ["event: " + event] + (DataLines(values) + IdLines(id))
  }

  function LinesOf(m: Message): seq<string> {
    LinesFor(m.event, CutLines(m.data), m.id)
  }

  function Terminated(lines: seq<string>, nl: string): string {
    if lines == [] then "" else lines[0] + nl + Terminated(lines[1..], nl)
  }

  function Print(ms: seq<Message>, nl: string): string {
    if ms == [] then "" else Terminated(LinesOf(ms[0]), nl) + nl + Print(ms[1..], nl)
  }

  predicate AreOneLine(lines: seq<string>) {
    forall i | 0 <= i < |lines| :: IsOneLine(lines[i])
  }

  lemma LineBeforeFeed(s: string)
    ensures IsOneLine(if IndexOfFeed(s) == -1 then s else s[..IndexOfFeed(s)])
  {}

  lemma OneLineMore(line: string, rest: seq<string>)
    requires IsOneLine(line) && AreOneLine(rest)
    ensures AreOneLine([line] + rest)
  {}

  lemma {:induction false} CutLinesAreOneLine(s: string)
    ensures AreOneLine(CutLines(s))
    decreases |s|
  {
    var k := IndexOfFeed(s);
    LineBeforeFeed(s);
    if k != -1 {
      CutLinesAreOneLine(s[k + 1..]);
      OneLineMore(s[..k], CutLines(s[k + 1..]));
    }
  }

  lemma JoinFirst(line: string, rest: seq<string>, separator: string)
    requires rest != []
    ensures Join([line] + rest, separator) == line + separator + Join(rest, separator)
  {
    assert ([line] + rest)[1..] == rest;
  }

  lemma AtFeed(s: string, k: nat)
    requires k < |s| && s[k] == '\n'
    ensures s[..k] + "\n" + s[k + 1..] == s
  {}

  lemma CutFirst(s: string)
    requires IndexOfFeed(s) != -1
    ensures CutLines(s) == [s[..IndexOfFeed(s)]] + CutLines(s[IndexOfFeed(s) + 1..])
  {}

  // Joining a first line to lines that join to rest.
  lemma JoinRest(line: string, lines: seq<string>, rest: string)
    requires lines != [] && Join(lines, "\n") == rest
    ensures Join([line] + lines, "\n") == line + "\n" + rest
  {
    JoinFirst(line, lines, "\n");
  }

  lemma {:induction false} JoinOfCutLines(s: string)
    ensures Join(CutLines(s), "\n") == s
    decreases |s|
  {
    var k := IndexOfFeed(s);
    if k != -1 {
      var rest := s[k + 1..];
      JoinOfCutLines(rest);
      CutFirst(s);
      JoinRest(s[..k], CutLines(rest), rest);
      AtFeed(s, k);
    }
  }

  lemma CutAfterFirst(line: string, rest: string)
    requires IsOneLine(line)
    ensures CutLines(line + "\n" + rest) == [line] + CutLines(rest)
  {
    FirstFeed(line, rest);
    CutFirst(line + "\n" + rest);
  }

  lemma {:induction false} CutLinesOfJoin(lines: seq<string>)
    requires lines != [] && AreOneLine(lines)
    ensures CutLines(Join(lines, "\n")) == lines
  {
    if |lines| == 1 {
      assert lines == [lines[0]];
    } else {
      CutLinesOfJoin(lines[1..]);
      CutAfterFirst(lines[0], Join(lines[1..], "\n"));
      assert lines == [lines[0]] + lines[1..];
    }
  }

  lemma FirstFeed(line: string, rest: string)
    requires IsOneLine(line)
    ensures var s := line + "\n" + rest;
            IndexOfFeed(s) == |line| && s[..|line|] == line && s[|line| + 1..] == rest
  {
    var s := line + "\n" + rest;
    assert s[|line|] == '\n' && forall j | 0 <= j < |line| :: s[j] == line[j];
  }

  // ----- Where a printed block ends -----

  predicate AreFieldLines(lines: seq<string>) {
    forall i | 0 <= i < |lines| :: lines[i] != "" && lines[i][0] != '\r' && IsOneLine(lines[i])
  }

  lemma {:induction false} DataLinesAreFieldLines(values: seq<string>)
    requires AreOneLine(values)
    ensures AreFieldLines(DataLines(values))
  {
    if values != [] {
      DataLinesAreFieldLines(values[1..]);
    }
  }

  lemma LinesForAreFieldLines(event: string, values: seq<string>, id: Option<string>)
    requires IsOneLine(event) && AreOneLine(values) && (id.Some? ==> IsOneLine(id.value))
    ensures AreFieldLines(LinesFor(event, values, id))
  {
    DataLinesAreFieldLines(values);
  }

  // The printed lines of one message end at the first separator, whatever comes after.
  lemma {:induction false} FirstSeparator(lines: seq<string>, nl: string, after: string)
    requires IsLineEnding(nl) && lines != [] && AreFieldLines(lines)
    ensures var s := Terminated(lines, nl) + nl + after;
            && Search(s, 0) == |Terminated(lines, nl)| - |nl|
            && SeparatorAt(s, Search(s, 0)) == 2 * |nl|
            && s[..Search(s, 0)] == Join(lines, nl)
  {
    if |lines| == 1 {
      Associate(lines[0] + nl, nl, after);
      assert Terminated(lines, nl) == lines[0] + nl + Terminated([], nl) == lines[0] + nl;
      SeparatorAfterLine(lines[0], nl, after);
    } else {
      var rest := Terminated(lines[1..], nl) + nl + after;
      FirstSeparator(lines[1..], nl, after);
      Associate(lines[0] + nl, Terminated(lines[1..], nl), nl);
      Associate(lines[0] + nl, Terminated(lines[1..], nl) + nl, after);
      StartsWithLine(lines[1..], nl, after);
      SeparatorBeyondLine(lines[0], nl, rest);
      PrefixBeyond(lines[0] + nl, rest, Search(rest, 0));
    }
  }

  // A return at the end of a line starts no separator: a separator has one after its first feed.
  lemma NoSeparatorInLine(line: string, more: string)
    requires IsOneLine(line) && |more| >= 2 && !(more[0] == '\n' && more[1] == '\r')
    ensures forall j: nat | j < |line| :: SeparatorAt(line + more, j) == 0
  {
    var s := line + more;
    assert forall j: nat | j < |line| :: s[j] == line[j];
    assert s[|line|] == more[0] && s[|line| + 1] == more[1];
  }

  lemma PrefixBeyond(prefix: string, s: string, k: nat)
    requires k <= |s|
    ensures (prefix + s)[..|prefix| + k] == prefix + s[..k]
  {}

  lemma StartsWithLine(lines: seq<string>, nl: string, after: string)
    requires lines != [] && lines[0] != ""
    ensures (Terminated(lines, nl) + nl + after)[0] == lines[0][0]
  {}

  lemma SeparatorAfterLine(line: string, nl: string, after: string)
    requires IsLineEnding(nl) && IsOneLine(line)
    ensures var s := line + nl + (nl + after);
            Search(s, 0) == |line| && SeparatorAt(s, |line|) == 2 * |nl| && s[..|line|] == line
  {
    var s, n := line + nl + (nl + after), |line|;
    assert s == line + (nl + nl + after);
    NoSeparatorInLine(line, nl + nl + after);
    assert s[n..n + 2 * |nl|] == nl + nl;
    assert forall j | n <= j < n + 2 * |nl| :: s[j] == (nl + nl)[j - n];
    LeftmostIs(s, 0, n);
  }

  lemma SeparatorBeyondLine(line: string, nl: string, rest: string)
    requires IsLineEnding(nl) && IsOneLine(line)
    requires rest != "" && rest[0] != '\r' && rest[0] != '\n' && Search(rest, 0) >= 0
    ensures var s, m := line + nl + rest, |line + nl|;
            && Search(s, 0) == m + Search(rest, 0)
            && SeparatorAt(s, m + Search(rest, 0)) == SeparatorAt(rest, Search(rest, 0))
  {
    var s, n, m := line + nl + rest, |line|, |line + nl|;
    assert s == line + (nl + rest);
    NoSeparatorInLine(line, nl + rest);
    NoSeparatorInBreak(s, nl, n);
    SeparatorShift(line + nl, rest);
    SearchSkipsNone(rest, 0);
    LeftmostIs(s, 0, m + Search(rest, 0));
  }

  lemma SeparatorShift(prefix: string, s: string)
    ensures forall j: nat | |prefix| <= j :: SeparatorAt(prefix + s, j) == SeparatorAt(s, j - |prefix|)
  {}

  // A line break followed by the first character of a line is no separator.
  lemma NoSeparatorInBreak(s: string, nl: string, n: nat)
    requires IsLineEnding(nl) && n + |nl| < |s| && s[n..n + |nl|] == nl
    requires s[n + |nl|] != '\r' && s[n + |nl|] != '\n'
    ensures forall j: nat | n <= j < n + |nl| :: SeparatorAt(s, j) == 0
  {
    assert s[n..n + |nl|][0] == s[n] && s[n..n + |nl|][|nl| - 1] == s[n + |nl| - 1];
  }

  // ----- What arrives of the lines -----

  predicate EndsInReturn(line: string) {
    line != "" && line[|line| - 1] == '\r'
  }

  // A line before a line break: under LF a return at its end counts as part of the break.
  function Kept(line: string, nl: string): string {
    if nl == "\n" && EndsInReturn(line) then line[..|line| - 1] else line
  }

  function KeptAll(lines: seq<string>, nl: string): (kept: seq<string>)
    ensures |kept| == |lines| && forall i | 0 <= i < |lines| :: kept[i] == Kept(lines[i], nl)
  {
    seq(|lines|, i requires 0 <= i < |lines| => Kept(lines[i], nl))
  }

  // The lines of a block: no break follows the last.
  function Arriving(lines: seq<string>, nl: string): (arriving: seq<string>)
    ensures |arriving| == |lines|
  {
    if lines == [] then [] else KeptAll(lines[..|lines| - 1], nl) + [lines[|lines| - 1]]
  }

  lemma FirstLineOf(line: string, nl: string, rest: string)
    requires IsLineEnding(nl) && IsOneLine(line)
    ensures var s, k := line + nl + rest, |Kept(line, nl)|;
            && NextBreak(s, 0) == k && s[..k] == Kept(line, nl)
            && k + BreakAt(s, k) == |line| + |nl| && s[|line| + |nl|..] == rest
  {
    var s, n := line + nl + rest, |line|;
    assert forall j | 0 <= j < n :: s[j] == line[j];
    assert forall j | 0 <= j < |nl| :: s[n + j] == nl[j];
    NextBreakIs(s, 0, |Kept(line, nl)|);
  }

  lemma KeptAllFirst(line: string, rest: seq<string>, nl: string)
    ensures KeptAll([line] + rest, nl) == [Kept(line, nl)] + KeptAll(rest, nl)
  {}

  lemma ArrivingFirst(line: string, rest: seq<string>, nl: string)
    requires rest != []
    ensures Arriving([line] + rest, nl) == [Kept(line, nl)] + Arriving(rest, nl)
  {
    var init, last := rest[..|rest| - 1], [rest[|rest| - 1]];
    assert ([line] + rest)[..|rest|] == [line] + init;
    KeptAllFirst(line, init, nl);
    Associate([Kept(line, nl)], KeptAll(init, nl), last);
  }

  // Splitting a printed block gives its lines as they arrive.
  lemma {:induction false} SplitLinesOfJoin(lines: seq<string>, nl: string)
    requires IsLineEnding(nl) && lines != [] && AreOneLine(lines)
    ensures SplitLines(Join(lines, nl)) == Arriving(lines, nl)
  {
    if |lines| == 1 {
      NoNextBreak(lines[0], 0);
    } else {
      FirstLineOf(lines[0], nl, Join(lines[1..], nl));
      SplitLinesOfJoin(lines[1..], nl);
      ArrivingFirst(lines[0], lines[1..], nl);
      assert lines == [lines[0]] + lines[1..];
    }
  }

  lemma KeptAfterPrefix(prefix: string, value: string, nl: string)
    requires prefix != "" && !EndsInReturn(prefix)
    ensures Kept(prefix + value, nl) == prefix + Kept(value, nl)
  {
    assert value != "" ==> (prefix + value)[|prefix + value| - 1] == value[|value| - 1];
    assert value != "" ==> (prefix + value)[..|prefix + value| - 1] == prefix + value[..|value| - 1];
    assert prefix + "" == prefix;
  }

  lemma {:induction false} DataLineAt(values: seq<string>, i: nat)
    requires i < |values|
    ensures DataLines(values)[i] == "data: " + values[i]
  {
    if i > 0 {
      DataLineAt(values[1..], i - 1);
    }
  }

  // The data values that arrive: the last one is whole if no id line follows.
  function ArrivingValues(values: seq<string>, id: Option<string>, nl: string): (arriving: seq<string>)
    ensures |arriving| == |values|
  {
    if id.Some? then KeptAll(values, nl) else Arriving(values, nl)
  }

  lemma ArrivingAt(lines: seq<string>, nl: string, i: nat)
    requires i < |lines|
    ensures Arriving(lines, nl)[i] == if i < |lines| - 1 then Kept(lines[i], nl) else lines[i]
  {
    assert i < |lines| - 1 ==> lines[..|lines| - 1][i] == lines[i];
  }

  lemma ArrivingValuesAt(values: seq<string>, id: Option<string>, nl: string, i: nat)
    requires i < |values|
    ensures ArrivingValues(values, id, nl)[i]
            == if id.Some? || i < |values| - 1 then Kept(values[i], nl) else values[i]
  {
    ArrivingAt(values, nl, i);
  }

  lemma FirstPart(lines: seq<string>, more: seq<string>, i: nat)
    requires i < |lines|
    ensures (lines + more)[i] == lines[i]
  {}

  lemma DataLineArrives(values: seq<string>, id: Option<string>, nl: string, i: nat)
    requires i < |values|
    ensures Arriving(DataLines(values) + IdLines(id), nl)[i] == DataLines(ArrivingValues(values, id, nl))[i]
  {
    DataLineAt(values, i);
    FirstPart(DataLines(values), IdLines(id), i);
    ArrivingAt(DataLines(values) + IdLines(id), nl, i);
    ArrivingValuesAt(values, id, nl, i);
    DataLineAt(ArrivingValues(values, id, nl), i);
    KeptAfterPrefix("data: ", values[i], nl);
  }

  lemma DataLinesArrive(values: seq<string>, id: Option<string>, nl: string)
    requires values != []
    ensures Arriving(DataLines(values) + IdLines(id), nl) == DataLines(ArrivingValues(values, id, nl)) + IdLines(id)
  {
    forall i | 0 <= i < |values|
      ensures Arriving(DataLines(values) + IdLines(id), nl)[i] == DataLines(ArrivingValues(values, id, nl))[i]
    {
      DataLineArrives(values, id, nl, i);
    }
  }

  lemma LinesArrive(event: string, values: seq<string>, id: Option<string>, nl: string)
    requires values != []
    ensures Arriving(LinesFor(event, values, id), nl) == LinesFor(Kept(event, nl), ArrivingValues(values, id, nl), id)
  {
    KeptAfterPrefix("event: ", event, nl);
    DataLinesArrive(values, id, nl);
    ArrivingFirst("event: " + event, DataLines(values) + IdLines(id), nl);
  }

  // ----- Reading lines back -----

  lemma ColonAfter(name: string, rest: string)
    requires rest != "" && rest[0] == ':' && forall j | 0 <= j < |name| :: name[j] != ':'
    ensures var line := name + rest;
            IndexOfColon(line) == |name| && line[..|name|] == name && line[|name| + 1..] == rest[1..]
  {
    var line := name + rest;
    assert line[|name|] == ':' && forall j | 0 <= j < |name| :: line[j] == name[j];
  }

  lemma FieldLine(name: string, value: string)
    requires name == "event" || name == "data" || name == "id"
    ensures FieldOf(name + ": " + value) == name && ValueOf(name + ": " + value) == value
  {
    Associate(name, ": ", value);
    ColonAfter(name, ": " + value);
    assert (": " + value)[1..] == " " + value;
  }

  lemma {:induction false} ReadDataLine(fields: Fields, value: string, more: seq<string>)
    ensures WithLines(fields, ["data: " + value] + more)
            == WithLines(fields.(data := fields.data + [value]), more)
  {
    FieldLine("data", value);
    assert "data" + ": " + value == "data: " + value;
    assert (["data: " + value] + more)[1..] == more;
  }

  lemma {:induction false} ReadDataLines(fields: Fields, values: seq<string>, more: seq<string>)
    ensures WithLines(fields, DataLines(values) + more)
            == WithLines(fields.(data := fields.data + values), more)
    decreases values
  {
    if values == [] {
      assert DataLines(values) + more == more && fields.data + values == fields.data;
    } else {
      Associate(["data: " + values[0]], DataLines(values[1..]), more);
      ReadDataLine(fields, values[0], DataLines(values[1..]) + more);
      ReadDataLines(fields.(data := fields.data + [values[0]]), values[1..], more);
      Associate(fields.data, [values[0]], values[1..]);
      assert [values[0]] + values[1..] == values;
    }
  }

  lemma ReadIdLines(id: Option<string>, fields: Fields)
    requires fields.id == None
    ensures WithLines(fields, IdLines(id)) == fields.(id := id)
  {
    if id.Some? {
      FieldLine("id", id.value);
      assert "id" + ": " + id.value == "id: " + id.value;
    }
  }

  lemma ReadLinesFor(event: string, values: seq<string>, id: Option<string>)
    ensures WithLines(NO_FIELDS, LinesFor(event, values, id)) == Fields(event, values, id)
  {
    FieldLine("event", event);
    assert "event" + ": " + event == "event: " + event;
    assert LinesFor(event, values, id)[1..] == DataLines(values) + IdLines(id);
    var named := NO_FIELDS.(event := event);
    ReadDataLines(named, values, IdLines(id));
    assert named.data + values == values;
    ReadIdLines(id, named.(data := values));
  }

  // What the parser makes of a printed message.
  function Received(m: Message, nl: string): Message {
    Message(Kept(m.event, nl), Join(ArrivingValues(CutLines(m.data), m.id, nl), "\n"), m.id)
  }

  function ReceivedAll(ms: seq<Message>, nl: string): (received: seq<Message>)
    ensures |received| == |ms| && forall i | 0 <= i < |ms| :: received[i] == Received(ms[i], nl)
  {
    if ms == [] then [] else [Received(ms[0], nl)] + ReceivedAll(ms[1..], nl)
  }

  // Event and id have no line feed.
  predicate HasOneLineFields(m: Message) {
    IsOneLine(m.event) && (m.id.Some? ==> IsOneLine(m.id.value))
  }

  lemma ReadPrinted(m: Message, nl: string)
    requires IsLineEnding(nl) && HasOneLineFields(m)
    ensures Block(Join(LinesOf(m), nl)) == Some(Received(m, nl))
  {
    var values := CutLines(m.data);
    CutLinesAreOneLine(m.data);
    LinesForAreFieldLines(m.event, values, m.id);
    SplitLinesOfJoin(LinesOf(m), nl);
    LinesArrive(m.event, values, m.id, nl);
    ReadLinesFor(Kept(m.event, nl), ArrivingValues(values, m.id, nl), m.id);
  }

  // The first printed message is the first one parsed.
  lemma {:induction false} FirstPrinted(m: Message, nl: string, after: string)
    requires IsLineEnding(nl) && HasOneLineFields(m)
    ensures var s := Terminated(LinesOf(m), nl) + nl + after;
            Complete(s) == [Received(m, nl)] + Complete(after) && Split(s).rest == Split(after).rest
  {
    var s := Terminated(LinesOf(m), nl) + nl + after;
    CutLinesAreOneLine(m.data);
    LinesForAreFieldLines(m.event, CutLines(m.data), m.id);
    FirstSeparator(LinesOf(m), nl, after);
    var k := Search(s, 0);
    assert s[k + SeparatorAt(s, k)..] == after;
    SplitOff(s, k);
    CompleteFirst(s, k);
    ReadPrinted(m, nl);
  }

  lemma {:induction false} CompleteOfPrint(ms: seq<Message>, nl: string)
    requires IsLineEnding(nl)
    requires forall i | 0 <= i < |ms| :: HasOneLineFields(ms[i])
    ensures Complete(Print(ms, nl)) == ReceivedAll(ms, nl) && Split(Print(ms, nl)).rest == ""
    decreases ms
  {
    if ms != [] {
      FirstPrinted(ms[0], nl, Print(ms[1..], nl));
      CompleteOfPrint(ms[1..], nl);
    }
  }

  // ----- When printing is undone -----

  // Under LF no line of the message but the last ends in a return; under CRLF any may.
  predicate KeepsReturns(m: Message, nl: string) {
    nl == "\n" ==>
      var values := CutLines(m.data);
      && !EndsInReturn(m.event)
      && forall i | 0 <= i < (if m.id.Some? then |values| else |values| - 1) :: !EndsInReturn(values[i])
  }

  predicate IsPrintable(m: Message, nl: string) {
    HasOneLineFields(m) && KeepsReturns(m, nl)
  }

  lemma ArrivingValuesAreSentExactlyWhen(values: seq<string>, id: Option<string>, nl: string)
    requires values != []
    ensures ArrivingValues(values, id, nl) == values <==>
              nl == "\n" ==>
                forall i | 0 <= i < (if id.Some? then |values| else |values| - 1) :: !EndsInReturn(values[i])
  {
    var got := ArrivingValues(values, id, nl);
    var n := if id.Some? then |values| else |values| - 1;
    assert forall i | 0 <= i < n :: got[i] == Kept(values[i], nl);
    assert forall i | n <= i < |values| :: got[i] == values[i];
    assert forall i | 0 <= i < n :: |Kept(values[i], nl)| < |values[i]| || Kept(values[i], nl) == values[i];
  }

  lemma ArrivingValuesAreOneLine(values: seq<string>, id: Option<string>, nl: string)
    requires AreOneLine(values)
    ensures AreOneLine(ArrivingValues(values, id, nl))
  {}

  lemma ReceivedIsSentExactlyWhen(m: Message, nl: string)
    ensures Received(m, nl) == m <==> KeepsReturns(m, nl)
  {
    var values := CutLines(m.data);
    var got := ArrivingValues(values, m.id, nl);
    CutLinesAreOneLine(m.data);
    JoinOfCutLines(m.data);
    ArrivingValuesAreOneLine(values, m.id, nl);
    CutLinesOfJoin(got);
    ArrivingValuesAreSentExactlyWhen(values, m.id, nl);
  }

  // No parsed message has a line feed in its event or id.
  lemma {:induction false} SplitLinesAreOneLine(s: string)
    ensures AreOneLine(SplitLines(s))
    decreases |s|
  {
    var k := NextBreak(s, 0);
    NextBreakSkipsNone(s, 0);
    forall j: nat | j < (if k == -1 then |s| else k)
      ensures s[j] != '\n'
    {
      assert BreakAt(s, j) == 0;
    }
    if k != -1 {
      SplitLinesAreOneLine(s[k + BreakAt(s, k)..]);
    }
  }

  lemma {:induction false} FieldsStayOneLine(fields: Fields, lines: seq<string>)
    requires AreOneLine(lines) && IsOneLine(fields.event) && (fields.id.Some? ==> IsOneLine(fields.id.value))
    ensures var read := WithLines(fields, lines);
            IsOneLine(read.event) && (read.id.Some? ==> IsOneLine(read.id.value))
    decreases lines
  {
    if lines != [] {
      assert IsOneLine(lines[0]);
      FieldsStayOneLine(WithLine(fields, lines[0]), lines[1..]);
    }
  }

  lemma BlockHasOneLineFields(block: string)
    ensures Block(block).Some? ==> HasOneLineFields(Block(block).value)
  {
    SplitLinesAreOneLine(block);
    FieldsStayOneLine(NO_FIELDS, SplitLines(block));
  }

  lemma {:induction false} MessagesHaveOneLineFields(blocks: seq<string>)
    ensures forall m | m in Messages(Block, blocks) :: HasOneLineFields(m)
  {
    if blocks != [] {
      BlockHasOneLineFields(blocks[0]);
      MessagesHaveOneLineFields(blocks[1..]);
    }
  }

  lemma ParsedHaveOneLineFields(s: string)
    ensures forall i | 0 <= i < |Parse(s)| :: HasOneLineFields(Parse(s)[i])
  {
    MessagesHaveOneLineFields(Split(s).blocks);
    BlockHasOneLineFields(Split(s).rest);
    forall i | 0 <= i < |Parse(s)|
      ensures HasOneLineFields(Parse(s)[i])
    {
      assert i < |Complete(s)| ==> Complete(s)[i] in Complete(s);
    }
  }

  lemma ReceivedAllAreSentExactlyWhen(ms: seq<Message>, nl: string)
    ensures ReceivedAll(ms, nl) == ms <==> forall i | 0 <= i < |ms| :: KeepsReturns(ms[i], nl)
  {
    forall i | 0 <= i < |ms|
      ensures Received(ms[i], nl) == ms[i] <==> KeepsReturns(ms[i], nl)
    {
      ReceivedIsSentExactlyWhen(ms[i], nl);
    }
    var received := ReceivedAll(ms, nl);
    assert forall i | 0 <= i < |ms| :: received[i] == Received(ms[i], nl);
  }

  // Printing is undone by parsing exactly when no event or id has a line feed and, under LF, no line
  // of a message but its last ends in a return.
  lemma {:induction false} ParseOfPrint(ms: seq<Message>, nl: string)
    requires IsLineEnding(nl)
    ensures Parse(Print(ms, nl)) == ms <==> forall i | 0 <= i < |ms| :: IsPrintable(ms[i], nl)
  {
    if forall i | 0 <= i < |ms| :: HasOneLineFields(ms[i]) {
      CompleteOfPrint(ms, nl);
      ReceivedAllAreSentExactlyWhen(ms, nl);
    } else {
      ParsedHaveOneLineFields(Print(ms, nl));
    }
  }

  lemma CutReturn()
    ensures CutLines("\r\n") == ["\r", ""]
  {
    assert Join(["\r", ""], "\n") == "\r" + "\n" + "" == "\r\n";
    CutLinesOfJoin(["\r", ""]);
  }

  lemma ArrivingReturn()
    ensures Arriving(["\r", ""], "\n") == ["", ""]
  {
    assert ["\r"] + [""] == ["\r", ""] && [""] + [""] == ["", ""];
    ArrivingFirst("\r", [""], "\n");
    ArrivingAt([""], "\n", 0);
  }

  lemma JoinOfEmpty()
    ensures Join(["", ""], "\n") == "\n"
  {
    assert [""] + [""] == ["", ""];
    JoinFirst("", [""], "\n");
  }

  lemma ReceivedReturn(event: string)
    requires !EndsInReturn(event)
    ensures Received(Message(event, "\r\n", None), "\n") == Message(event, "\n", None)
  {
    CutReturn();
    ArrivingReturn();
    JoinOfEmpty();
  }

  lemma ParseOfOnePrinted(m: Message, nl: string)
    requires IsLineEnding(nl) && HasOneLineFields(m)
    ensures Parse(Print([m], nl)) == [Received(m, nl)]
  {
    CompleteOfPrint([m], nl);
    assert ReceivedAll([m], nl) == [Received(m, nl)];
  }

  // A return at the end of a data line that is not the last line: LF loses it, CRLF does not.
  lemma CarriageReturnIsLost(event: string)
    requires IsOneLine(event) && !EndsInReturn(event)
    ensures var m := Message(event, "\r\n", None);
            && Parse(Print([m], "\n")) == [Message(event, "\n", None)]
            && Parse(Print([m], "\r\n")) == [m]
  {
    var m := Message(event, "\r\n", None);
    ParseOfOnePrinted(m, "\n");
    ReceivedReturn(event);
    ParseOfOnePrinted(m, "\r\n");
    ReceivedIsSentExactlyWhen(m, "\r\n");
  }
}

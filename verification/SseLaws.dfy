// What any text parses to, printed by whom it may be: where its blocks end, what their lines are, and
// what each line says.
module SseLaws {
  import opened Common
  import opened Sse

  // ----- One line -----

  // The line is the name of the field alone, or the name with a colon after it.
  ghost predicate IsField(line: string, name: string) {
    line == name || name + ":" <= line
  }

  // What follows the colon, less one leading space if there is one.
  function Value(line: string, name: string): string
    requires name <= line
  {
    if |line| <= |name| + 1 then ""
    else if line[|name| + 1] == ' ' then line[|name| + 2..]
    else line[|name| + 1..]
  }

  predicate HasNoColon(name: string) { forall j | 0 <= j < |name| :: name[j] != ':' }

  lemma FieldIsNamed(line: string, name: string)
    requires name != "" && HasNoColon(name) && line != "" && line[0] != ':'
    ensures FieldOf(line) == name <==> IsField(line, name)
    ensures IsField(line, name) ==> ValueOf(line) == Value(line, name)
  {
    var colon := IndexOfColon(line);
    if name + ":" <= line {
      assert line[|name|] == (name + ":")[|name|] == ':';
      assert forall j | 0 <= j < |name| :: line[j] == name[j];
      assert line[..|name|] == name;
    }
  }

  lemma CommentsAreNoField(line: string, name: string)
    requires name != "" && name[0] != ':' && (line == "" || line[0] == ':')
    ensures !IsField(line, name)
  {}

  // Exactly the lines of the fields event, data and id say something.
  lemma LineSays(fields: Fields, line: string)
    ensures WithLine(fields, line)
            == if IsField(line, "event") then fields.(event := Value(line, "event"))
               else if IsField(line, "data") then fields.(data := fields.data + [Value(line, "data")])
               else if IsField(line, "id") then fields.(id := Some(Value(line, "id")))
               else fields
  {
    if line == "" || line[0] == ':' {
      CommentsAreNoField(line, "event");
      CommentsAreNoField(line, "data");
      CommentsAreNoField(line, "id");
    } else {
      FieldIsNamed(line, "event");
      FieldIsNamed(line, "data");
      FieldIsNamed(line, "id");
    }
  }

  // ----- The lines of a block -----

  lemma {:induction false} LinesAppend(fields: Fields, a: seq<string>, b: seq<string>)
    ensures WithLines(fields, a + b) == WithLines(WithLines(fields, a), b)
    decreases a
  {
    if a == [] {
      assert a + b == b;
    } else {
      assert (a + b)[1..] == a[1..] + b;
      LinesAppend(WithLine(fields, a[0]), a[1..], b);
    }
  }

  lemma OneLine(fields: Fields, line: string)
    ensures WithLines(fields, [line]) == WithLine(fields, line)
  {}

  // A comment line, wherever it stands, changes nothing.
  lemma CommentsAreSkipped(fields: Fields, a: seq<string>, x: string, b: seq<string>)
    ensures WithLines(fields, a + [":" + x] + b) == WithLines(fields, a + b)
  {
    LinesAppend(fields, a + [":" + x], b);
    LinesAppend(fields, a, [":" + x]);
    OneLine(WithLines(fields, a), ":" + x);
    LinesAppend(fields, a, b);
  }

  // The values of the data lines, in order.
  function DataOf(lines: seq<string>): seq<string> {
    if lines == [] then []
    else
      var (before, line) := (DataOf(lines[..|lines| - 1]), lines[|lines| - 1]);
      if line == "data" then before + [""]
      else if "data:" <= line then before + [Value(line, "data")]
      else before
  }

  // The last line of the field.
  ghost predicate IsLastOf(lines: seq<string>, i: nat, name: string) {
    && i < |lines| && IsField(lines[i], name)
    && forall j | i < j < |lines| :: !IsField(lines[j], name)
  }

  ghost predicate HasNone(lines: seq<string>, name: string) {
    forall line | line in lines :: !IsField(line, name)
  }

  // The event is that of the last event line, or "message"; the id that of the last id line, or none.
  ghost predicate SaysEvent(lines: seq<string>, event: string) {
    && (HasNone(lines, "event") ==> event == "message")
    && forall i: nat | IsLastOf(lines, i, "event") :: event == Value(lines[i], "event")
  }

  ghost predicate SaysId(lines: seq<string>, id: Option<string>) {
    && (HasNone(lines, "id") ==> id == None)
    && forall i: nat | IsLastOf(lines, i, "id") :: id == Some(Value(lines[i], "id"))
  }

  ghost predicate Says(lines: seq<string>, fields: Fields) {
    SaysEvent(lines, fields.event) && fields.data == DataOf(lines) && SaysId(lines, fields.id)
  }

  lemma LastOfMore(lines: seq<string>, line: string, name: string)
    ensures HasNone(lines + [line], name) <==> HasNone(lines, name) && !IsField(line, name)
    ensures forall i: nat :: IsLastOf(lines + [line], i, name) <==>
              if IsField(line, name) then i == |lines| else IsLastOf(lines, i, name)
  {
    var all := lines + [line];
    assert all[|lines|] == line && forall j | 0 <= j < |lines| :: all[j] == lines[j];
    assert line in all && forall x | x in lines :: x in all;
    forall i: nat
      ensures IsLastOf(all, i, name) <==> if IsField(line, name) then i == |lines| else IsLastOf(lines, i, name)
    {
      if i < |lines| && IsField(line, name) {
        assert IsField(all[|lines|], name);
      }
    }
  }

  lemma StartsAlike(line: string, name: string)
    requires name != "" && IsField(line, name)
    ensures line != "" && line[0] == name[0]
  {
    assert (name + ":")[0] == name[0];
  }

  lemma NamesDiffer(line: string)
    ensures IsField(line, "data") ==> !IsField(line, "event") && !IsField(line, "id")
    ensures IsField(line, "event") ==> !IsField(line, "id")
  {
    if IsField(line, "data") { StartsAlike(line, "data"); }
    if IsField(line, "event") { StartsAlike(line, "event"); }
    if IsField(line, "id") { StartsAlike(line, "id"); }
  }

  lemma DataMore(lines: seq<string>, line: string)
    ensures DataOf(lines + [line]) == DataOf(lines) + if IsField(line, "data") then [Value(line, "data")] else []
  {
    assert (lines + [line])[..|lines|] == lines;
    assert "data" + ":" == "data:";
  }

  lemma EventMore(lines: seq<string>, line: string, event: string)
    requires SaysEvent(lines, event)
    ensures SaysEvent(lines + [line], if IsField(line, "event") then Value(line, "event") else event)
  {
    LastOfMore(lines, line, "event");
    assert (lines + [line])[|lines|] == line;
    assert forall i: nat | i < |lines| :: (lines + [line])[i] == lines[i];
  }

  lemma IdMore(lines: seq<string>, line: string, id: Option<string>)
    requires SaysId(lines, id)
    ensures SaysId(lines + [line], if IsField(line, "id") then Some(Value(line, "id")) else id)
  {
    LastOfMore(lines, line, "id");
    assert (lines + [line])[|lines|] == line;
    assert forall i: nat | i < |lines| :: (lines + [line])[i] == lines[i];
  }

  lemma SaysMore(lines: seq<string>, fields: Fields, line: string)
    requires Says(lines, fields)
    ensures Says(lines + [line], WithLine(fields, line))
  {
    LineSays(fields, line);
    NamesDiffer(line);
    DataMore(lines, line);
    EventMore(lines, line, fields.event);
    IdMore(lines, line, fields.id);
  }

  lemma {:induction false} LinesSay(lines: seq<string>)
    ensures Says(lines, WithLines(NO_FIELDS, lines))
    decreases |lines|
  {
    if lines != [] {
      var before, line := lines[..|lines| - 1], lines[|lines| - 1];
      LinesSay(before);
      SaysMore(before, WithLines(NO_FIELDS, before), line);
      LinesAppend(NO_FIELDS, before, [line]);
      OneLine(WithLines(NO_FIELDS, before), line);
      assert lines == before + [line];
    }
  }

  lemma {:induction false} NoDataExactlyWhen(lines: seq<string>)
    ensures DataOf(lines) == [] <==> HasNone(lines, "data")
    decreases |lines|
  {
    if lines != [] {
      var before, line := lines[..|lines| - 1], lines[|lines| - 1];
      NoDataExactlyWhen(before);
      DataMore(before, line);
      LastOfMore(before, line, "data");
      assert lines == before + [line];
    }
  }

  // A block has a message exactly when it has a data line; the message is what its lines say. So a block
  // of empty lines, comments and other fields has none.
  lemma BlockSays(block: string)
    ensures Block(block).None? <==> HasNone(SplitLines(block), "data")
    ensures Block(block).Some? ==>
              exists fields :: && Says(SplitLines(block), fields)
                               && Block(block) == Some(Message(fields.event, Join(fields.data, "\n"), fields.id))
  {
    var fields := WithLines(NO_FIELDS, SplitLines(block));
    LinesSay(SplitLines(block));
    NoDataExactlyWhen(SplitLines(block));
    assert Says(SplitLines(block), fields);
  }

  // A text without a line feed is one line. A line ends at the first line feed, and a return right
  // before that belongs to the break.
  lemma LinesAre(line: string, rest: string)
    requires forall i | 0 <= i < |line| :: line[i] != '\n'
    ensures SplitLines(line) == [line]
    ensures SplitLines(line + "\n" + rest)
            == [if line != "" && line[|line| - 1] == '\r' then line[..|line| - 1] else line] + SplitLines(rest)
  {
    NoNextBreak(line, 0);
    FirstLineOf(line, "\n", rest);
  }

  // ----- The blocks of a text -----

  // A separator of n characters stands at i.
  ghost predicate Separates(s: string, i: nat, n: nat) {
    i + n <= |s| && ((n == 4 && s[i..i + n] == "\r\n\r\n") || (n == 2 && s[i..i + n] == "\n\n"))
  }

  ghost predicate NoneBefore(s: string, k: nat) {
    forall i: nat, n: nat | i < k :: !Separates(s, i, n)
  }

  lemma SeparatorIs(s: string, i: nat)
    requires i < |s|
    ensures SeparatorAt(s, i) > 0 ==> Separates(s, i, SeparatorAt(s, i))
    ensures forall n: nat :: Separates(s, i, n) ==> n == SeparatorAt(s, i)
  {
    forall n: nat | Separates(s, i, n)
      ensures n == SeparatorAt(s, i)
    {
      var cut := s[i..i + n];
      assert cut[0] == s[i] && cut[1] == s[i + 1];
      assert n == 4 ==> cut[2] == s[i + 2] && cut[3] == s[i + 3];
    }
    if SeparatorAt(s, i) > 0 {
      assert |s[i..i + SeparatorAt(s, i)]| == SeparatorAt(s, i);
    }
  }

  lemma FirstAt(s: string, k: nat, n: nat)
    requires Separates(s, k, n) && NoneBefore(s, k)
    ensures Search(s, 0) == k && SeparatorAt(s, k) == n
  {
    SeparatorIs(s, k);
    forall j: nat | j < k
      ensures SeparatorAt(s, j) == 0
    {
      SeparatorIs(s, j);
    }
    LeftmostIs(s, 0, k);
  }

  lemma NoSeparator(s: string)
    requires NoneBefore(s, |s|)
    ensures Search(s, 0) == -1
  {
    if Search(s, 0) != -1 {
      SeparatorIs(s, Search(s, 0));
    }
  }

  ghost predicate Yields(message: Option<Message>, yielded: seq<Message>) {
    if message.Some? then yielded == [message.value] else yielded == []
  }

  lemma NoneIsComplete(s: string)
    requires NoneBefore(s, |s|)
    ensures Yields(Block(s), Parse(s)) && Complete(s) == []
  {
    NoSeparator(s);
    NothingComplete(s);
    if IsBlank(s) {
      BlankRestHasNoMessage(s);
    }
  }

  lemma FirstIsComplete(s: string, k: nat, n: nat)
    requires Separates(s, k, n) && NoneBefore(s, k)
    ensures Complete(s) == Emitted(Block(s[..k])) + Complete(s[k + n..])
    ensures Parse(s) == Emitted(Block(s[..k])) + Parse(s[k + n..])
  {
    FirstAt(s, k, n);
    SplitOff(s, k);
    CompleteFirst(s, k);
    Associate(Emitted(Block(s[..k])), Complete(s[k + n..]), Flushed(Split(s[k + n..]).rest));
  }

  // A text parses to the message of what stands before its first separator, if that has one, and then
  // to what the text after the separator parses to; a text without a separator parses to its own
  // message, if it has one, but holds no complete block.
  lemma ParseIs(s: string, k: nat, n: nat)
    ensures NoneBefore(s, |s|) ==> Yields(Block(s), Parse(s)) && Complete(s) == []
    ensures Separates(s, k, n) && NoneBefore(s, k) ==>
              exists first ::
                && Yields(Block(s[..k]), first)
                && Parse(s) == first + Parse(s[k + n..]) && Complete(s) == first + Complete(s[k + n..])
  {
    if NoneBefore(s, |s|) {
      NoneIsComplete(s);
    }
    if Separates(s, k, n) && NoneBefore(s, k) {
      FirstIsComplete(s, k, n);
      assert Yields(Block(s[..k]), Emitted(Block(s[..k])));
    }
  }
}

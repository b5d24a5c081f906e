/** The incremental Server-Sent Events parser (src/streams.ts). It follows a subset of "Interpreting an event
    stream", section 9.2.6 of the WHATWG HTML Living Standard: the model is of the code, which dispatches frames
    without data, forgets `id` between frames, and ends lines at LF only. */
module SseParser {
  import opened Results

  // ---- Lines ----

  /** The first position of c in s, or -1. */
  function IndexOf(s: string, c: char): (i: int)
    ensures -1 <= i < |s|
    ensures i >= 0 ==> s[i] == c && c !in s[..i]
    ensures i < 0 ==> c !in s
  {
    if s == "" then -1
    else if s[0] == c then 0
    else
      var i := IndexOf(s[1..], c);
      assert s == [s[0]] + s[1..];
      assert i >= 0 ==> s[..i + 1] == [s[0]] + s[1..][..i];
      if i < 0 then -1 else i + 1
  }

  lemma IndexOfUnique(s: string, c: char, i: nat)
    requires i < |s| && s[i] == c && c !in s[..i]
    ensures IndexOf(s, c) == i
  {
    if i > 0 {
      assert s[0] == s[..i][0];
      assert s[1..][..i - 1] == s[..i][1..];
      IndexOfUnique(s[1..], c, i - 1);
    }
  }

  /** The lines of the text that are complete, without their LF. */
  function Lines(text: string): (lines: seq<string>)
    ensures Unbroken(lines)
    decreases |text|
  {
    var i := IndexOf(text, '\n');
    if i < 0 then [] else [text[..i]] + Lines(text[i + 1..])
  }

  /** What follows the last LF. */
  function Remainder(text: string): (rest: string)
    ensures '\n' !in rest
    decreases |text|
  {
    var i := IndexOf(text, '\n');
    if i < 0 then text else Remainder(text[i + 1..])
  }

  /** Lines written out, each ended by LF. */
  function Written(lines: seq<string>): string {
    if lines == [] then "" else lines[0] + "\n" + Written(lines[1..])
  }

  predicate Unbroken(lines: seq<string>) {
    forall i | 0 <= i < |lines| :: '\n' !in lines[i]
  }

  lemma WrittenCons(first: string, lines: seq<string>, rest: string)
    ensures Written([first] + lines) + rest == first + "\n" + (Written(lines) + rest)
  {
    assert ([first] + lines)[1..] == lines;
  }

  lemma Cut(text: string, i: nat)
    requires i < |text| && text[i] == '\n'
    ensures text == text[..i] + "\n" + text[i + 1..]
  {
  }

  lemma {:induction false} SplitJoin(text: string)
    ensures Written(Lines(text)) + Remainder(text) == text
    decreases |text|
  {
    var i := IndexOf(text, '\n');
    if i >= 0 {
      var rest := text[i + 1..];
      SplitJoin(rest);
      WrittenCons(text[..i], Lines(rest), Remainder(rest));
      Cut(text, i);
    } else {
      assert Lines(text) == [] && Remainder(text) == text;
    }
  }

  lemma {:induction false} JoinSplit(lines: seq<string>, rest: string)
    requires Unbroken(lines) && '\n' !in rest
    ensures Lines(Written(lines) + rest) == lines && Remainder(Written(lines) + rest) == rest
  {
    if lines == [] {
      assert Written(lines) + rest == rest;
    } else {
      var all, i := Written(lines) + rest, |lines[0]|;
      assert all == lines[0] + "\n" + (Written(lines[1..]) + rest);
      assert all[..i] == lines[0];
      assert all[i + 1..] == Written(lines[1..]) + rest;
      IndexOfUnique(all, '\n', i);
      assert forall k | 0 <= k < |lines[1..]| :: lines[1..][k] == lines[k + 1];
      JoinSplit(lines[1..], rest);
    }
  }

  /** Lines and Remainder are the one way to cut a text into LF-free lines and an LF-free rest. */
  lemma SplitIsUnique(text: string, lines: seq<string>, rest: string)
    requires Unbroken(lines) && '\n' !in rest
    ensures text == Written(lines) + rest <==> lines == Lines(text) && rest == Remainder(text)
  {
    SplitJoin(text);
    JoinSplit(lines, rest);
  }

  lemma LinesStep(text: string, i: nat)
    requires i < |text| && text[i] == '\n' && '\n' !in text[..i]
    ensures Lines(text) == [text[..i]] + Lines(text[i + 1..])
    ensures Remainder(text) == Remainder(text[i + 1..])
  {
    IndexOfUnique(text, '\n', i);
  }

  lemma {:induction false} SplitAppend(a: string, b: string)
    ensures Lines(a + b) == Lines(a) + Lines(Remainder(a) + b)
    ensures Remainder(a + b) == Remainder(Remainder(a) + b)
    decreases |a|
  {
    var i := IndexOf(a, '\n');
    if i < 0 {
      assert [] + Lines(a + b) == Lines(a + b);
    } else {
      var first, rest := a[..i], a[i + 1..];
      LinesStep(a, i);
      AppendStep(a, b, i);
      SplitAppend(rest, b);
      ConsAppend(first, Lines(rest), Lines(Remainder(rest) + b));
    }
  }

  lemma ConsAppend<T>(x: T, xs: seq<T>, ys: seq<T>)
    ensures [x] + (xs + ys) == ([x] + xs) + ys
  {
  }

  lemma AppendStep(a: string, b: string, i: nat)
    requires i < |a| && a[i] == '\n' && '\n' !in a[..i]
    ensures Lines(a + b) == [a[..i]] + Lines(a[i + 1..] + b)
    ensures Remainder(a + b) == Remainder(a[i + 1..] + b)
  {
    assert (a + b)[..i] == a[..i] && (a + b)[i + 1..] == a[i + 1..] + b;
    LinesStep(a + b, i);
  }

  // ---- One line ----

  datatype FieldName = Event | Id | DataText | Other

  datatype Line = Blank | Comment | Field(name: FieldName, value: string)

  function NameOf(field: string): FieldName {
    if field == "event" then Event
    else if field == "id" then Id
    else if field == "data" then DataText
    else Other
  }

  function StripCr(line: string): string {
    if line != "" && line[|line| - 1] == '\r' then line[..|line| - 1] else line
  }

  function ParseLine(raw: string): Line {
    var line := StripCr(raw);
    if line == "" then Blank
    else if line[0] == ':' then Comment
    else
      var colon := IndexOf(line, ':');
      if colon < 0 then Field(NameOf(line), "")
      else if colon + 1 < |line| && line[colon + 1] == ' ' then Field(NameOf(line[..colon]), line[colon + 2..])
      else Field(NameOf(line[..colon]), line[colon + 1..])
  }

  function ParseAll(raws: seq<string>): (lines: seq<Line>)
    ensures |lines| == |raws|
  {
    seq(|raws|, i requires 0 <= i < |raws| => ParseLine(raws[i]))
  }

  lemma ParseAllAppend(a: seq<string>, b: seq<string>)
    ensures ParseAll(a + b) == ParseAll(a) + ParseAll(b)
  {
  }

  // ---- Frames ----

  /** The frame being collected. */
  datatype Pending = Pending(event: Option<string>, id: Option<string>, data: seq<string>)

  const EMPTY := Pending(None, None, [])

  datatype Data<J> = Text(text: string) | Parsed(json: J)

  datatype Frame<J> = Frame(event: string, id: Option<string>, data: Data<J>, raw: string)

  function JoinLines(lines: seq<string>): string {
    if lines == [] then ""
    else if |lines| == 1 then lines[0]
    else lines[0] + "\n" + JoinLines(lines[1..])
  }

  /** Text that looks like an object or an array is parsed as JSON, and stays text when that fails. */
  function Interpret<J>(raw: string, parse: string -> Option<J>): Data<J> {
    if raw != "" && (raw[0] == '{' || raw[0] == '[') then
      match parse(raw)
      case Some(json) => Parsed(json)
      case None => Text(raw)
    else Text(raw)
  }

  function Flush<J>(cur: Pending, parse: string -> Option<J>): Option<Frame<J>> {
    if cur.data == [] && cur.event == None && cur.id == None then None
    else
      var raw := JoinLines(cur.data);
      Some(Frame(if cur.event.Some? then cur.event.value else "message", cur.id, Interpret(raw, parse), raw))
  }

  function Collect(cur: Pending, line: Line): Pending {
    match line
    case Blank => EMPTY
    case Comment => cur
    case Field(name, value) =>
      match name
      case Event => cur.(event := Some(value))
      case Id => cur.(id := Some(value))
      case DataText => cur.(data := cur.data + [value])
      case Other => cur
  }

  function Dispatch<J>(cur: Pending, line: Line, parse: string -> Option<J>): seq<Frame<J>> {
    if !line.Blank? then []
    else
      match Flush(cur, parse)
      case Some(frame) => [frame]
      case None => []
  }

  function After(cur: Pending, lines: seq<Line>): Pending
    decreases |lines|
  {
    if lines == [] then cur else After(Collect(cur, lines[0]), lines[1..])
  }

  function Emitted<J>(cur: Pending, lines: seq<Line>, parse: string -> Option<J>): seq<Frame<J>>
    decreases |lines|
  {
    if lines == [] then []
    else Dispatch(cur, lines[0], parse) + Emitted(Collect(cur, lines[0]), lines[1..], parse)
  }

  /** The parsed form of every complete line of the text. */
  function LinesOf(text: string): seq<Line> {
    ParseAll(Lines(text))
  }

  lemma EmittedStep<J>(cur: Pending, line: Line, rest: seq<Line>, parse: string -> Option<J>)
    ensures After(cur, [line] + rest) == After(Collect(cur, line), rest)
    ensures Emitted(cur, [line] + rest, parse) == Dispatch(cur, line, parse) + Emitted(Collect(cur, line), rest, parse)
  {
    assert ([line] + rest)[1..] == rest;
  }

  lemma Regroup<T>(a: seq<T>, b: seq<T>, c: seq<T>)
    ensures a + (b + c) == (a + b) + c
  {
  }

  /** What is left to do after the first line is taken off the buffer. */
  lemma TakeLine<J>(cur: Pending, buf: string, idx: nat, parse: string -> Option<J>)
    requires idx < |buf| && idx == IndexOf(buf, '\n')
    ensures var line, rest := ParseLine(buf[..idx]), buf[idx + 1..];
            && After(cur, LinesOf(buf)) == After(Collect(cur, line), LinesOf(rest))
            && Emitted(cur, LinesOf(buf), parse)
               == Dispatch(cur, line, parse) + Emitted(Collect(cur, line), LinesOf(rest), parse)
            && Remainder(buf) == Remainder(rest)
  {
    LinesStep(buf, idx);
    ParseAllAppend([buf[..idx]], Lines(buf[idx + 1..]));
    assert ParseAll([buf[..idx]]) == [ParseLine(buf[..idx])];
    EmittedStep(cur, ParseLine(buf[..idx]), LinesOf(buf[idx + 1..]), parse);
  }

  // ---- The parser ----

  class Parser<J> {
    var buf: string
    var cur: Pending
    const parse: string -> Option<J>

    ghost predicate Valid()
      reads this
    {
      '\n' !in buf
    }

    constructor (parse: string -> Option<J>)
      ensures Valid() && buf == "" && cur == EMPTY && this.parse == parse
    {
      buf, cur := "", EMPTY;
      this.parse := parse;
    }

    method Push(chunk: string) returns (out: seq<Frame<J>>)
      requires Valid()
      modifies this
      ensures Valid()
      ensures PushState(old(State(buf, cur)), chunk) == State(buf, cur)
      ensures out == PushFrames(old(State(buf, cur)), chunk, parse)
    {
      buf := buf + chunk;
      out := [];
      ghost var text, before := buf, cur;
      var idx := IndexOf(buf, '\n');
      while idx != -1
        invariant idx == IndexOf(buf, '\n')
        invariant Emitted(before, LinesOf(text), parse) == out + Emitted(cur, LinesOf(buf), parse)
        invariant After(before, LinesOf(text)) == After(cur, LinesOf(buf))
        invariant Remainder(text) == Remainder(buf)
        decreases |buf|
      {
        TakeLine(cur, buf, idx, parse);
        ghost var dispatched := Dispatch(cur, ParseLine(buf[..idx]), parse);
        var raw := buf[..idx];
        buf := buf[idx + 1..];
        idx := IndexOf(buf, '\n');
        var frame := Accept(raw);
        Regroup(out, dispatched, Emitted(cur, LinesOf(buf), parse));
        if frame.Some? {
          out := out + [frame.value];
        } else {
          assert out + dispatched == out;
        }
      }
    }

    /** One complete line: a blank one ends the frame, a comment is skipped, anything else is a field. */
    method Accept(raw: string) returns (frame: Option<Frame<J>>)
      modifies this`cur
      ensures cur == Collect(old(cur), ParseLine(raw))
      ensures Dispatch(old(cur), ParseLine(raw), parse) == if frame.Some? then [frame.value] else []
    {
      var line := StripCr(raw);
      if line == "" {
        frame := FlushCurrent();
        return;
      }
      frame := None;
      if line[0] == ':' {
        return;
      }
      var colon := IndexOf(line, ':');
      var field := if colon == -1 then line else line[..colon];
      var value :=
        if colon == -1 then ""
        else if colon + 1 < |line| && line[colon + 1] == ' ' then line[colon + 2..]
        else line[colon + 1..];
      SetField(field, value);
    }

    /** Records one field of the frame being collected; unknown fields are ignored. */
    method SetField(field: string, value: string)
      modifies this`cur
      ensures cur == Collect(old(cur), Field(NameOf(field), value))
    {
      if field == "event" {
        cur := cur.(event := Some(value));
      } else if field == "id" {
        cur := cur.(id := Some(value));
      } else if field == "data" {
        cur := cur.(data := cur.data + [value]);
      }
    }

    /** Emits the collected frame, if any field of it was set. Data that looks like an object or an array is parsed,
        and stays text when that fails; without an event name the frame is a message. */
    method FlushCurrent() returns (frame: Option<Frame<J>>)
      modifies this`cur
      ensures cur == EMPTY
      ensures frame.Some? <==> old(cur).data != [] || old(cur).event.Some? || old(cur).id.Some?
      ensures frame.Some? ==>
                var f := frame.value;
                && f.raw == JoinLines(old(cur).data) && f.id == old(cur).id
                && (old(cur).event.Some? ==> f.event == old(cur).event.value)
                && (old(cur).event.None? ==> f.event == "message")
                && (f.data.Parsed? <==> f.raw != "" && f.raw[0] in {'{', '['} && parse(f.raw).Some?)
                && (f.data.Parsed? ==> parse(f.raw) == Some(f.data.json))
                && (f.data.Text? ==> f.data.text == f.raw)
      ensures frame == Flush(old(cur), parse)
    {
      if cur.data == [] && cur.event == None && cur.id == None {
        return None;
      }
      var raw := JoinLines(cur.data);
      var parsed := Text(raw);
      if raw != "" && (raw[0] == '{' || raw[0] == '[') {
        match parse(raw) {
          case Some(json) => parsed := Parsed(json);
          case None =>
        }
      }
      frame := Some(Frame(if cur.event.Some? then cur.event.value else "message", cur.id, parsed, raw));
      cur := EMPTY;
    }
  }

  lemma {:induction false} WrittenIsJoined(data: seq<string>)
    requires data != []
    ensures Written(data) == JoinLines(data) + "\n"
  {
    if |data| == 1 {
      assert Written(data[1..]) == "";
    } else {
      WrittenIsJoined(data[1..]);
    }
  }

  /** The raw text of a frame with data determines its data lines. */
  lemma RawDeterminesData(data: seq<string>, other: seq<string>)
    requires Unbroken(data) && Unbroken(other) && data != [] && other != []
    requires JoinLines(data) == JoinLines(other)
    ensures data == other
  {
    WrittenIsJoined(data);
    WrittenIsJoined(other);
    JoinSplit(data, "");
    JoinSplit(other, "");
    assert Written(data) + "" == Written(other) + "";
  }

  // ---- Chunking does not matter ----

  datatype State = State(buf: string, cur: Pending)

  const START := State("", EMPTY)

  function PushState(st: State, chunk: string): State {
    State(Remainder(st.buf + chunk), After(st.cur, LinesOf(st.buf + chunk)))
  }

  function PushFrames<J>(st: State, chunk: string, parse: string -> Option<J>): seq<Frame<J>> {
    Emitted(st.cur, LinesOf(st.buf + chunk), parse)
  }

  function PushAllState(st: State, chunks: seq<string>): State
    decreases |chunks|
  {
    if chunks == [] then st else PushAllState(PushState(st, chunks[0]), chunks[1..])
  }

  function PushAllFrames<J>(st: State, chunks: seq<string>, parse: string -> Option<J>): seq<Frame<J>>
    decreases |chunks|
  {
    if chunks == [] then []
    else PushFrames(st, chunks[0], parse) + PushAllFrames(PushState(st, chunks[0]), chunks[1..], parse)
  }

  function Concat(chunks: seq<string>): string {
    if chunks == [] then "" else chunks[0] + Concat(chunks[1..])
  }

  lemma {:induction false} FoldAppend<J>(cur: Pending, a: seq<Line>, b: seq<Line>, parse: string -> Option<J>)
    ensures After(cur, a + b) == After(After(cur, a), b)
    ensures Emitted(cur, a + b, parse) == Emitted(cur, a, parse) + Emitted(After(cur, a), b, parse)
    decreases |a|
  {
    if a == [] {
      assert a + b == b;
    } else {
      assert (a + b)[1..] == a[1..] + b;
      FoldAppend(Collect(cur, a[0]), a[1..], b, parse);
    }
  }

  lemma LinesOfAppend(a: string, b: string)
    ensures LinesOf(a + b) == LinesOf(a) + LinesOf(Remainder(a) + b)
  {
    SplitAppend(a, b);
    ParseAllAppend(Lines(a), Lines(Remainder(a) + b));
  }

  lemma PushAppend<J>(st: State, a: string, b: string, parse: string -> Option<J>)
    ensures PushState(PushState(st, a), b) == PushState(st, a + b)
    ensures PushFrames(st, a, parse) + PushFrames(PushState(st, a), b, parse) == PushFrames(st, a + b, parse)
  {
    Regroup(st.buf, a, b);
    SplitAppend(st.buf + a, b);
    LinesOfAppend(st.buf + a, b);
    FoldAppend(st.cur, LinesOf(st.buf + a), LinesOf(Remainder(st.buf + a) + b), parse);
  }

  /** Pushing a text in any chunks gives the frames and the parser state of pushing it whole. */
  lemma {:induction false} ChunkingIrrelevant<J>(st: State, chunks: seq<string>, parse: string -> Option<J>)
    requires '\n' !in st.buf
    ensures PushAllState(st, chunks) == PushState(st, Concat(chunks))
    ensures PushAllFrames(st, chunks, parse) == PushFrames(st, Concat(chunks), parse)
    ensures '\n' !in PushAllState(st, chunks).buf
    decreases |chunks|
  {
    if chunks == [] {
      assert st.buf + "" == st.buf;
    } else {
      ChunkingIrrelevant(PushState(st, chunks[0]), chunks[1..], parse);
      PushAppend(st, chunks[0], Concat(chunks[1..]), parse);
    }
  }

  // ---- A one-shot reading: blocks of lines separated by blank lines ----

  /** The lines after the last blank line. */
  function OpenBlock(lines: seq<Line>): seq<Line> {
    if lines == [] then []
    else
      var init, last := lines[..|lines| - 1], lines[|lines| - 1];
      if last.Blank? then [] else OpenBlock(init) + [last]
  }

  /** The groups of lines that a blank line closes, in order; a group may be empty. */
  function ClosedBlocks(lines: seq<Line>): seq<seq<Line>> {
    if lines == [] then []
    else
      var init, last := lines[..|lines| - 1], lines[|lines| - 1];
      ClosedBlocks(init) + (if last.Blank? then [OpenBlock(init)] else [])
  }

  /** The values of every field of that name in a block, in order. */
  function Values(block: seq<Line>, name: FieldName): seq<string> {
    if block == [] then []
    else
      var last := block[|block| - 1];
      Values(block[..|block| - 1], name) + (if last.Field? && last.name == name then [last.value] else [])
  }

  function Last(values: seq<string>): Option<string> {
    if values == [] then None else Some(values[|values| - 1])
  }

  /** The last `event` and `id` of a block count, and all its `data`. */
  function Summary(block: seq<Line>): Pending {
    Pending(Last(Values(block, Event)), Last(Values(block, Id)), Values(block, DataText))
  }

  function BlockFrames<J>(blocks: seq<seq<Line>>, parse: string -> Option<J>): seq<Frame<J>> {
    if blocks == [] then []
    else
      var init, last := blocks[..|blocks| - 1], blocks[|blocks| - 1];
      BlockFrames(init, parse) + (match Flush(Summary(last), parse) case Some(f) => [f] case None => [])
  }

  lemma {:induction false} FoldIsBlockwise<J>(lines: seq<Line>, parse: string -> Option<J>)
    ensures After(EMPTY, lines) == Summary(OpenBlock(lines))
    ensures Emitted(EMPTY, lines, parse) == BlockFrames(ClosedBlocks(lines), parse)
  {
    if lines != [] {
      var init, last := lines[..|lines| - 1], lines[|lines| - 1];
      assert lines == init + [last];
      FoldIsBlockwise(init, parse);
      FoldAppend(EMPTY, init, [last], parse);
      EmittedStep(After(EMPTY, init), last, [], parse);
      assert [last] + [] == [last];
      var open, closed := OpenBlock(init), ClosedBlocks(init);
      if last.Blank? {
        BlockFramesSnoc(closed, open, parse);
      } else {
        SummarySnoc(open, last);
        assert closed + [] == closed;
      }
    }
  }

  lemma BlockFramesSnoc<J>(blocks: seq<seq<Line>>, last: seq<Line>, parse: string -> Option<J>)
    ensures BlockFrames(blocks + [last], parse) == BlockFrames(blocks, parse) + Dispatch(Summary(last), Blank, parse)
  {
    assert (blocks + [last])[..|blocks|] == blocks;
  }

  lemma SummarySnoc(block: seq<Line>, last: Line)
    requires !last.Blank?
    ensures Summary(block + [last]) == Collect(Summary(block), last)
  {
    assert (block + [last])[..|block|] == block;
    assert forall name :: Values(block, name) + [] == Values(block, name);
  }

  /** The parser, fed any text in any chunks, emits one frame for each closed block that sets a field, built from
      the block alone, and retains the open block's fields and the unfinished line. */
  lemma ParserMeetsReference<J>(chunks: seq<string>, parse: string -> Option<J>)
    ensures var lines := ParseAll(Lines(Concat(chunks)));
            && PushAllFrames(START, chunks, parse) == BlockFrames(ClosedBlocks(lines), parse)
            && PushAllState(START, chunks) == State(Remainder(Concat(chunks)), Summary(OpenBlock(lines)))
  {
    ChunkingIrrelevant(START, chunks, parse);
    assert "" + Concat(chunks) == Concat(chunks);
    FoldIsBlockwise(LinesOf(Concat(chunks)), parse);
  }

  // ---- Printing and parsing back ----

  /** A frame to print. Leaving out the event prints no `event:` line. */
  datatype Printable = Printable(event: Option<string>, id: Option<string>, data: seq<string>)

  /** A value that fits on one line. */
  predicate OneLine(s: string) {
    '\n' !in s && (s != "" ==> s[|s| - 1] != '\r')
  }

  predicate IsPrintable(p: Printable) {
    && (p.event.Some? || p.id.Some? || p.data != [])
    && (p.event.Some? ==> OneLine(p.event.value))
    && (p.id.Some? ==> OneLine(p.id.value))
    && forall i | 0 <= i < |p.data| :: OneLine(p.data[i])
  }

  function PrintField(name: string, value: string): string {
    name + ": " + value
  }

  function PrintOptional(name: string, value: Option<string>): seq<string> {
    if value.Some? then [PrintField(name, value.value)] else []
  }

  function PrintData(data: seq<string>): seq<string> {
    seq(|data|, i requires 0 <= i < |data| => PrintField("data", data[i]))
  }

  /** A frame as it is written on the wire, without the line ends. */
  function Print(p: Printable): seq<string> {
    PrintOptional("event", p.event) + PrintOptional("id", p.id) + PrintData(p.data) + [""]
  }

  function PrintAll(ps: seq<Printable>): seq<string> {
    if ps == [] then [] else Print(ps[0]) + PrintAll(ps[1..])
  }

  function FrameOf<J>(p: Printable, parse: string -> Option<J>): Frame<J> {
    var raw := JoinLines(p.data);
    Frame(if p.event.Some? then p.event.value else "message", p.id, Interpret(raw, parse), raw)
  }

  /** The lines that are not comments. */
  function DropComments(lines: seq<string>): seq<string> {
    if lines == [] then []
    else
      var init, last := lines[..|lines| - 1], lines[|lines| - 1];
      DropComments(init) + (if last != "" && last[0] == ':' then [] else [last])
  }

  function OptionalField(name: FieldName, value: Option<string>): seq<Line> {
    if value.Some? then [Field(name, value.value)] else []
  }

  function DataFields(data: seq<string>): seq<Line> {
    seq(|data|, i requires 0 <= i < |data| => Field(DataText, data[i]))
  }

  lemma ParsePrinted(name: string, value: string)
    requires name != "" && ':' !in name && OneLine(value)
    ensures ParseLine(PrintField(name, value)) == Field(NameOf(name), value)
  {
    var line := PrintField(name, value);
    assert line[|line| - 1] != '\r' by {
      assert value != "" ==> line[|line| - 1] == value[|value| - 1];
    }
    assert line[..|name|] == name && line[|name|] == ':' && line[|name| + 1] == ' ';
    assert line[|name| + 2..] == value;
    assert line[0] == name[0];
    IndexOfUnique(line, ':', |name|);
  }

  lemma OptionalParsed(name: string, value: Option<string>)
    requires name != "" && ':' !in name && (value.Some? ==> OneLine(value.value))
    ensures ParseAll(PrintOptional(name, value)) == OptionalField(NameOf(name), value)
  {
    if value.Some? {
      ParsePrinted(name, value.value);
    }
  }

  lemma DataParsed(data: seq<string>)
    requires forall i | 0 <= i < |data| :: OneLine(data[i])
    ensures ParseAll(PrintData(data)) == DataFields(data)
  {
    forall i | 0 <= i < |data|
      ensures ParseLine(PrintField("data", data[i])) == Field(DataText, data[i])
    {
      ParsePrinted("data", data[i]);
    }
  }

  lemma PrintParsed(p: Printable)
    requires IsPrintable(p)
    ensures ParseAll(Print(p)) == OptionalField(Event, p.event) + OptionalField(Id, p.id) + DataFields(p.data) + [Blank]
  {
    var a, b, c := PrintOptional("event", p.event), PrintOptional("id", p.id), PrintData(p.data);
    OptionalParsed("event", p.event);
    OptionalParsed("id", p.id);
    DataParsed(p.data);
    ParseAllAppend(a, b);
    ParseAllAppend(a + b, c);
    ParseAllAppend(a + b + c, [""]);
    assert ParseAll([""]) == [Blank];
  }

  lemma CommentParsed(raw: string)
    requires raw != "" && raw[0] == ':'
    ensures ParseLine(raw) == Comment
  {
    assert StripCr(raw)[0] == ':';
  }

  lemma {:induction false} CommentsIgnored<J>(lines: seq<string>, parse: string -> Option<J>)
    ensures After(EMPTY, ParseAll(lines)) == After(EMPTY, ParseAll(DropComments(lines)))
    ensures Emitted(EMPTY, ParseAll(lines), parse) == Emitted(EMPTY, ParseAll(DropComments(lines)), parse)
  {
    if lines != [] {
      var init, last := lines[..|lines| - 1], lines[|lines| - 1];
      CommentsIgnored(init, parse);
      assert lines == init + [last];
      ParseAllAppend(init, [last]);
      assert ParseAll([last]) == [ParseLine(last)];
      FoldAppend(EMPTY, ParseAll(init), [ParseLine(last)], parse);
      if last != "" && last[0] == ':' {
        CommentParsed(last);
        assert DropComments(lines) == DropComments(init) + [] == DropComments(init);
        EmittedStep(After(EMPTY, ParseAll(init)), Comment, [], parse);
        assert [Comment] + [] == [Comment];
      } else {
        assert DropComments(lines) == DropComments(init) + [last];
        ParseAllAppend(DropComments(init), [last]);
        FoldAppend(EMPTY, ParseAll(DropComments(init)), [ParseLine(last)], parse);
      }
    }
  }

  lemma {:induction false} DataCollected<J>(cur: Pending, data: seq<string>, parse: string -> Option<J>)
    ensures After(cur, DataFields(data)) == cur.(data := cur.data + data)
    ensures Emitted(cur, DataFields(data), parse) == []
    decreases |data|
  {
    if data == [] {
      assert cur.data + data == cur.data;
    } else {
      var next := cur.(data := cur.data + [data[0]]);
      DataCollected(next, data[1..], parse);
      assert DataFields(data) == [Field(DataText, data[0])] + DataFields(data[1..]);
      EmittedStep(cur, Field(DataText, data[0]), DataFields(data[1..]), parse);
      assert next.data + data[1..] == cur.data + data;
    }
  }

  lemma FrameReparsed<J>(p: Printable, parse: string -> Option<J>)
    requires IsPrintable(p)
    ensures After(EMPTY, ParseAll(Print(p))) == EMPTY
    ensures Emitted(EMPTY, ParseAll(Print(p)), parse) == [FrameOf(p, parse)]
  {
    PrintParsed(p);
    var fields := OptionalField(Event, p.event) + OptionalField(Id, p.id) + DataFields(p.data);
    FieldsCollected(p, parse);
    BlankEnds(fields, Pending(p.event, p.id, p.data), FrameOf(p, parse), parse);
  }

  lemma BlankEnds<J>(fields: seq<Line>, cur: Pending, frame: Frame<J>, parse: string -> Option<J>)
    requires After(EMPTY, fields) == cur && Emitted(EMPTY, fields, parse) == [] && Flush(cur, parse) == Some(frame)
    ensures After(EMPTY, fields + [Blank]) == EMPTY
    ensures Emitted(EMPTY, fields + [Blank], parse) == [frame]
  {
    FoldAppend(EMPTY, fields, [Blank], parse);
    BlankFlushes(cur, parse);
  }

  lemma FieldsCollected<J>(p: Printable, parse: string -> Option<J>)
    ensures var fields := OptionalField(Event, p.event) + OptionalField(Id, p.id) + DataFields(p.data);
            && After(EMPTY, fields) == Pending(p.event, p.id, p.data)
            && Emitted(EMPTY, fields, parse) == []
  {
    var head, idLine, data := OptionalField(Event, p.event), OptionalField(Id, p.id), DataFields(p.data);
    var b := Pending(p.event, p.id, []);
    OptionalCollected(EMPTY, Event, p.event, parse);
    FoldAppend(EMPTY, head, idLine, parse);
    OptionalCollected(Pending(p.event, None, []), Id, p.id, parse);
    FoldAppend(EMPTY, head + idLine, data, parse);
    DataCollected(b, p.data, parse);
    assert b.data + p.data == p.data;
  }

  lemma BlankFlushes<J>(cur: Pending, parse: string -> Option<J>)
    ensures After(cur, [Blank]) == EMPTY
    ensures Emitted(cur, [Blank], parse) == Dispatch(cur, Blank, parse)
  {
    EmittedStep(cur, Blank, [], parse);
    assert [Blank] + [] == [Blank];
  }

  lemma OptionalCollected<J>(cur: Pending, name: FieldName, value: Option<string>, parse: string -> Option<J>)
    ensures After(cur, OptionalField(name, value))
            == if value.Some? then Collect(cur, Field(name, value.value)) else cur
    ensures Emitted(cur, OptionalField(name, value), parse) == []
  {
  }

  function FramesOf<J>(ps: seq<Printable>, parse: string -> Option<J>): (frames: seq<Frame<J>>)
    ensures |frames| == |ps| && forall i | 0 <= i < |ps| :: frames[i] == FrameOf(ps[i], parse)
  {
    if ps == [] then [] else [FrameOf(ps[0], parse)] + FramesOf(ps[1..], parse)
  }

  lemma {:induction false} FramesReparsed<J>(ps: seq<Printable>, parse: string -> Option<J>)
    requires forall i | 0 <= i < |ps| :: IsPrintable(ps[i])
    ensures After(EMPTY, ParseAll(PrintAll(ps))) == EMPTY
    ensures Emitted(EMPTY, ParseAll(PrintAll(ps)), parse) == FramesOf(ps, parse)
  {
    if ps != [] {
      FrameReparsed(ps[0], parse);
      assert forall i | 0 <= i < |ps[1..]| :: ps[1..][i] == ps[i + 1];
      FramesReparsed(ps[1..], parse);
      var first, rest := ParseAll(Print(ps[0])), ParseAll(PrintAll(ps[1..]));
      assert ParseAll(PrintAll(ps)) == first + rest by {
        ParseAllAppend(Print(ps[0]), PrintAll(ps[1..]));
      }
      FoldAppend(EMPTY, first, rest, parse);
    } else {
      assert ParseAll([]) == [];
    }
  }

  lemma LinesReparsed<J>(lines: seq<string>, chunks: seq<string>, parse: string -> Option<J>)
    requires Unbroken(lines) && Concat(chunks) == Written(lines)
    ensures PushAllState(START, chunks) == State("", After(EMPTY, ParseAll(lines)))
    ensures PushAllFrames(START, chunks, parse) == Emitted(EMPTY, ParseAll(lines), parse)
  {
    ChunkingIrrelevant(START, chunks, parse);
    JoinSplit(lines, "");
    assert "" + Concat(chunks) == Written(lines) + "";
  }

  /** Any printable frames, printed with comment lines anywhere between the lines and pushed in any chunks, come
      back with the same event (or the default one), id and raw text, in order, and nothing is left over. */
  lemma PrintThenParse<J>(ps: seq<Printable>, lines: seq<string>, chunks: seq<string>, parse: string -> Option<J>)
    requires forall i | 0 <= i < |ps| :: IsPrintable(ps[i])
    requires Unbroken(lines) && DropComments(lines) == PrintAll(ps)
    requires Concat(chunks) == Written(lines)
    ensures PushAllState(START, chunks) == START
    ensures var frames := PushAllFrames(START, chunks, parse);
            && |frames| == |ps|
            && forall i | 0 <= i < |ps| ::
                 && frames[i].event == (if ps[i].event.Some? then ps[i].event.value else "message")
                 && frames[i].id == ps[i].id
                 && frames[i].raw == JoinLines(ps[i].data)
  {
    LinesReparsed(lines, chunks, parse);
    CommentsIgnored(lines, parse);
    FramesReparsed(ps, parse);
  }
}

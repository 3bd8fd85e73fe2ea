/**
 The wire format of the event stream, against the parser that the WHATWG HTML
 Living Standard gives for it in sections 9.2.5 and 9.2.6.
 */
module SseFraming {

  datatype Message = Message(id: string, event: string, data: string)
  datatype Chunk = Frame(message: Message) | KeepAlive

  function SseData(m: Message): string {
    "id: " + m.id + "\nevent: " + m.event + "\ndata: " + m.data + "\n\n"
  }

  function Written(c: Chunk): string {
    if c.KeepAlive? then ": keep-alive\n\n" else SseData(c.message)
  }

  function Stream(chunks: seq<Chunk>): string {
    if chunks == [] then "" else Written(chunks[0]) + Stream(chunks[1..])
  }

  function Messages(chunks: seq<Chunk>): seq<Message> {
    if chunks == [] then []
    else (if chunks[0].Frame? then [chunks[0].message] else []) + Messages(chunks[1..])
  }

  // ----------------------------------------------------------------- parser

  predicate IsBreak(c: char) {
    c == '\n' || c == '\r'
  }

  predicate OneLine(s: string) {
    forall i :: 0 <= i < |s| ==> !IsBreak(s[i])
  }

  /** Where the first character of the wanted kind is, |s| if there is none. */
  function FirstBreak(s: string): (k: nat)
    ensures k <= |s| && OneLine(s[..k]) && (k < |s| ==> IsBreak(s[k]))
  {
    if s == "" || IsBreak(s[0]) then 0
    else
      var k := FirstBreak(s[1..]);
      assert s[..k + 1] == [s[0]] + s[1..][..k];
      k + 1
  }

  function FirstColon(s: string): (k: nat)
    ensures k <= |s| && ':' !in s[..k] && (k < |s| ==> s[k] == ':')
  {
    if s == "" || s[0] == ':' then 0
    else
      var k := FirstColon(s[1..]);
      assert s[..k + 1] == [s[0]] + s[1..][..k];
      k + 1
  }

  /** The complete lines: each ends in LF, CR, or the pair CR LF. An unfinished last
      line is dropped, and so is a byte order mark in front. */
  function Lines(s: string): seq<string>
    decreases |s|
  {
    var k := FirstBreak(s);
    if k == |s| then []
    else if s[k] == '\r' && k + 1 < |s| && s[k + 1] == '\n' then [s[..k]] + Lines(s[k + 2..])
    else [s[..k]] + Lines(s[k + 1..])
  }

  datatype Parser = Parser(data: string, event: string, id: string, dispatched: seq<Message>)

  const FRESH := Parser("", "", "", [])

  function Field(p: Parser, name: string, value: string): Parser {
    if name == "event" then p.(event := value)
    else if name == "data" then p.(data := p.data + value + "\n")
    else if name == "id" && '\0' !in value then p.(id := value)
    else p
  }

  function Dispatch(p: Parser): Parser {
    if p.data == "" then p.(event := "")
    else
      var data := if p.data[|p.data| - 1] == '\n' then p.data[..|p.data| - 1] else p.data;
      Parser("", "", p.id,
             p.dispatched + [Message(p.id, if p.event == "" then "message" else p.event, data)])
  }

  function ProcessLine(p: Parser, line: string): Parser {
    if line == "" then Dispatch(p)
    else
      var k := FirstColon(line);
      if k == 0 then p
      else if k == |line| then Field(p, line, "")
      else
        var value := line[k + 1..];
        Field(p, line[..k], if value != "" && value[0] == ' ' then value[1..] else value)
  }

  function ProcessLines(p: Parser, lines: seq<string>): Parser
    decreases |lines|
  {
    if lines == [] then p else ProcessLines(ProcessLine(p, lines[0]), lines[1..])
  }

  /** The messages dispatched by the time the stream ends. */
  function Parse(stream: string): seq<Message> {
    var s := if stream != "" && stream[0] == '\U{FEFF}' then stream[1..] else stream;
    ProcessLines(FRESH, Lines(s)).dispatched
  }

  // ------------------------------------------------------------- round trip

  predicate WellFormed(m: Message) {
    OneLine(m.id) && OneLine(m.event) && OneLine(m.data) && '\0' !in m.id && m.event != ""
  }

  predicate ChunkIsWellFormed(c: Chunk) {
    c.Frame? ==> WellFormed(c.message)
  }

  lemma {:induction false} FirstBreakOf(line: string, rest: string)
    requires OneLine(line)
    ensures FirstBreak(line + "\n" + rest) == |line|
  {
    var s := line + "\n" + rest;
    var k := FirstBreak(s);
    assert s[|line|] == '\n' && forall i :: 0 <= i < |line| ==> s[i] == line[i];
    assert forall i :: 0 <= i < k ==> s[..k][i] == s[i];
  }

  lemma {:induction false} LinesOf(line: string, rest: string)
    requires OneLine(line)
    ensures Lines(line + "\n" + rest) == [line] + Lines(rest)
  {
    var s := line + "\n" + rest;
    FirstBreakOf(line, rest);
    assert s[..|line|] == line && s[|line| + 1..] == rest;
  }

  /** The parser takes one line and goes on. */
  lemma {:induction false} TakesLine(p: Parser, line: string, rest: string)
    requires OneLine(line)
    ensures ProcessLines(p, Lines(line + "\n" + rest)) == ProcessLines(ProcessLine(p, line), Lines(rest))
  {
    LinesOf(line, rest);
    assert ([line] + Lines(rest))[1..] == Lines(rest);
  }

  lemma {:induction false} FieldLine(p: Parser, name: string, value: string)
    requires name != "" && ':' !in name
    ensures ProcessLine(p, name + ": " + value) == Field(p, name, value)
  {
    var line := name + ": " + value;
    var k := FirstColon(line);
    assert line[|name|] == ':' && forall i :: 0 <= i < |name| ==> line[i] == name[i];
    assert forall i :: 0 <= i < k ==> line[i] in line[..k];
    assert line[..k] == name;
    assert line[k + 1..] == " " + value;
  }

  function FieldThen(name: string, value: string, rest: string): string {
    (name + ": " + value) + "\n" + rest
  }

  lemma {:induction false} TakesField(p: Parser, name: string, value: string, rest: string)
    requires name != "" && ':' !in name && OneLine(name) && OneLine(value)
    ensures ProcessLines(p, Lines(FieldThen(name, value, rest))) == ProcessLines(Field(p, name, value), Lines(rest))
  {
    TakesLine(p, name + ": " + value, rest);
    FieldLine(p, name, value);
  }

  lemma Layout(m: Message, rest: string)
    ensures SseData(m) + rest
            == FieldThen("id", m.id, FieldThen("event", m.event, FieldThen("data", m.data, "" + "\n" + rest)))
  {
    assert "\nevent: " == "\n" + ("event" + ": ") && "\ndata: " == "\n" + ("data" + ": ") && "\n\n" == "\n" + ("" + "\n");
    assert SseData(m) + rest
        == "id: " + (m.id + ("\nevent: " + (m.event + ("\ndata: " + (m.data + ("\n\n" + rest))))));
    assert FieldThen("data", m.data, "" + "\n" + rest) == "data: " + (m.data + ("\n\n" + rest));
  }

  lemma {:induction false} TakesFrame(p: Parser, m: Message, rest: string)
    requires WellFormed(m) && p.data == "" && p.event == ""
    ensures ProcessLines(p, Lines(SseData(m) + rest))
            == ProcessLines(Parser("", "", m.id, p.dispatched + [m]), Lines(rest))
  {
    var r2 := "" + "\n" + rest;
    var r1 := FieldThen("data", m.data, r2);
    var r0 := FieldThen("event", m.event, r1);
    Layout(m, rest);
    var p1 := Field(p, "id", m.id);
    var p2 := Field(p1, "event", m.event);
    var p3 := Field(p2, "data", m.data);
    calc {
      ProcessLines(p, Lines(SseData(m) + rest));
      { TakesField(p, "id", m.id, r0); }
      ProcessLines(p1, Lines(r0));
      { TakesField(p1, "event", m.event, r1); }
      ProcessLines(p2, Lines(r1));
      { TakesField(p2, "data", m.data, r2); }
      ProcessLines(p3, Lines(r2));
      { TakesLine(p3, "", rest); }
      ProcessLines(Dispatch(p3), Lines(rest));
      { Dispatches(p, m); }
      ProcessLines(Parser("", "", m.id, p.dispatched + [m]), Lines(rest));
    }
  }

  lemma Dispatches(p: Parser, m: Message)
    requires WellFormed(m) && p.data == "" && p.event == ""
    ensures Dispatch(Field(Field(Field(p, "id", m.id), "event", m.event), "data", m.data))
            == Parser("", "", m.id, p.dispatched + [m])
  {
    var p3 := Field(Field(Field(p, "id", m.id), "event", m.event), "data", m.data);
    assert p3 == Parser(m.data + "\n", m.event, m.id, p.dispatched);
    assert p3.data[..|p3.data| - 1] == m.data;
  }

  lemma {:induction false} TakesKeepAlive(p: Parser, rest: string)
    requires p.data == "" && p.event == ""
    ensures ProcessLines(p, Lines(": keep-alive\n\n" + rest)) == ProcessLines(p, Lines(rest))
  {
    assert ": keep-alive\n\n" + rest == ": keep-alive" + "\n" + ("" + "\n" + rest);
    TakesLine(p, ": keep-alive", "" + "\n" + rest);
    TakesLine(p, "", rest);
  }

  function AfterChunk(p: Parser, c: Chunk): Parser {
    if c.Frame? then Parser("", "", c.message.id, p.dispatched + [c.message]) else p
  }

  lemma {:induction false} TakesChunk(p: Parser, c: Chunk, rest: string)
    requires ChunkIsWellFormed(c)
    requires p.data == "" && p.event == ""
    ensures ProcessLines(p, Lines(Written(c) + rest)) == ProcessLines(AfterChunk(p, c), Lines(rest))
  {
    if c.Frame? {
      TakesFrame(p, c.message, rest);
    } else {
      TakesKeepAlive(p, rest);
    }
  }

  lemma {:induction false} TakesStream(p: Parser, chunks: seq<Chunk>)
    requires forall i :: 0 <= i < |chunks| ==> ChunkIsWellFormed(chunks[i])
    requires p.data == "" && p.event == ""
    ensures ProcessLines(p, Lines(Stream(chunks))).dispatched == p.dispatched + Messages(chunks)
    decreases |chunks|
  {
    if chunks == [] {
      assert Lines("") == [];
    } else {
      var c, tail := chunks[0], chunks[1..];
      TakesChunk(p, c, Stream(tail));
      TakesStream(AfterChunk(p, c), tail);
      Joins(p, c, Messages(tail));
    }
  }

  lemma Joins(p: Parser, c: Chunk, tail: seq<Message>)
    ensures AfterChunk(p, c).dispatched + tail == p.dispatched + ((if c.Frame? then [c.message] else []) + tail)
  {
  }

  /** Any concatenation of frames and keep-alive comments parses back to exactly the
      messages that were framed. */
  lemma {:induction false} FramingRoundTrips(chunks: seq<Chunk>)
    requires forall i :: 0 <= i < |chunks| ==> ChunkIsWellFormed(chunks[i])
    ensures Parse(Stream(chunks)) == Messages(chunks)
  {
    if chunks != [] {
      assert Written(chunks[0])[0] == if chunks[0].Frame? then 'i' else ':';
    }
    TakesStream(FRESH, chunks);
  }
}

/** The client's parser for the event stream of a chat answer. */
module ClientEvents {
  import opened Options
  import opened Lines
  import opened CanonicalJson

  datatype Event = Event(name: string, data: string)

  /** Fields of the event being read. */
  datatype Pending = Pending(name: Option<string>, data: seq<string>)

  const NOTHING := Pending(None, [])

  /** `line.replace(/\r$/, "")` */
  function StripReturn(line: string): string {
    if line != "" && line[|line| - 1] == '\r' then line[..|line| - 1] else line
  }

  function JoinData(data: seq<string>): string {
    if data == [] then "" else Join(data[..|data| - 1], data[|data| - 1], '\n')
  }

  /** The event that ends here, if any field has been seen. */
  function Dispatched(p: Pending): seq<Event> {
    if p == NOTHING then []
    else [Event(if p.name.Some? then p.name.value else "message", JoinData(p.data))]
  }

  function Value(line: string, colon: nat): string
    requires colon <= |line|
  {
    var value := if colon == |line| then "" else line[colon + 1..];
    if " " <= value then value[1..] else value
  }

  /** A field line; comments and unknown fields change nothing. */
  function Noted(p: Pending, line: string): Pending {
    if ":" <= line then p
    else
      var colon := Find(line, ':');
      if line[..colon] == "event" then p.(name := Some(Value(line, colon)))
      else if line[..colon] == "data" then p.(data := p.data + [Value(line, colon)])
      else p
  }

  /** The events of a list of lines, and the fields of one not yet ended. */
  function Read(p: Pending, lines: seq<string>): (r: (seq<Event>, Pending))
    decreases |lines|
  {
    if lines == [] then ([], p)
    else
      var line := StripReturn(lines[0]);
      if line == "" then
        var (events, last) := Read(NOTHING, lines[1..]);
        (Dispatched(p) + events, last)
      else Read(Noted(p, line), lines[1..])
  }

  /** All lines of a text; an unterminated last one counts unless it is empty. */
  function AllLines(text: string): seq<string> {
    var tail := Tail(text, '\n');
    Split(text, '\n') + if tail == "" then [] else [tail]
  }

  /** The events of a text: those its blank lines end, and one its end does. */
  function Events(text: string): seq<Event> {
    var (events, last) := Read(NOTHING, AllLines(text));
    events + Dispatched(last)
  }

  lemma {:induction false} ReadAppend(p: Pending, a: seq<string>, b: seq<string>)
    ensures var (first, middle) := Read(p, a);
            var (second, last) := Read(middle, b);
            Read(p, a + b) == (first + second, last)
    decreases |a|
  {
    if a == [] {
      assert [] + b == b;
      assert [] + Read(p, b).0 == Read(p, b).0;
    } else {
      assert (a + b)[1..] == a[1..] + b;
      var line := StripReturn(a[0]);
      if line == "" {
        ReadAppend(NOTHING, a[1..], b);
        var first, middle := Read(NOTHING, a[1..]).0, Read(NOTHING, a[1..]).1;
        assert Dispatched(p) + (first + Read(middle, b).0) == Dispatched(p) + first + Read(middle, b).0;
      } else {
        ReadAppend(Noted(p, line), a[1..], b);
      }
    }
  }

  // ----- the handlers -----

  datatype Call = Citation(hits: seq<Json>) | Token(text: string) | Done | Failed(code: string, message: string)

  const PROTOCOL_ERROR := "E_SSE_PROTOCOL"

  predicate IsText(v: Option<Json>) {
    v.Some? && v.value.Text?
  }

  predicate IsNumber(v: Option<Json>) {
    v.Some? && v.value.Number?
  }

  predicate IsSearchHit(v: Json) {
    IsText(Get(v, "document_id")) && IsNumber(Get(v, "chunk_idx")) && IsText(Get(v, "content")) &&
        IsNumber(Get(v, "score"))
  }

  /** The handler call of an event; `parse` gives null for malformed JSON. */
  function CallOf(parse: string -> Json, e: Event): Call {
    var v := parse(e.data);
    if e.name == "citation" then
      match Get(v, "hits")
      case Some(Array(hits)) =>
        if forall i :: 0 <= i < |hits| ==> IsSearchHit(hits[i]) then Citation(hits)
        else Failed(PROTOCOL_ERROR, "malformed citation payload")
      case _ => Failed(PROTOCOL_ERROR, "malformed citation payload")
    else if e.name == "token" then
      match Get(v, "text")
      case Some(Text(text)) => Token(text)
      case _ => Failed(PROTOCOL_ERROR, "malformed token payload")
    else if e.name == "done" then Done
    else if e.name == "error" then
      if IsText(Get(v, "code")) && IsText(Get(v, "message")) then
        Failed(Get(v, "code").value.s, Get(v, "message").value.s)
      else Failed(PROTOCOL_ERROR, "malformed error payload")
    else Failed(PROTOCOL_ERROR, "unknown event type: " + e.name)
  }

  function CallsOf(parse: string -> Json, events: seq<Event>): (calls: seq<Call>)
    ensures |calls| == |events| && forall i :: 0 <= i < |calls| ==> calls[i] == CallOf(parse, events[i])
  {
    seq(|events|, i requires 0 <= i < |events| => CallOf(parse, events[i]))
  }

  /** The next line goes from the buffer to the lines read. */
  lemma LineMoves(lines: seq<string>, buffer: string, nl: nat)
    requires nl == Find(buffer, '\n') < |buffer|
    ensures lines + Split(buffer, '\n') == lines + [buffer[..nl]] + Split(buffer[nl + 1..], '\n')
    ensures Tail(buffer, '\n') == Tail(buffer[nl + 1..], '\n')
  {
    SplitFirst(buffer, '\n', nl, buffer[nl + 1..]);
  }

  lemma OneMoreChunk(chunks: seq<string>, i: nat)
    requires i < |chunks|
    ensures var text, more := Concat(chunks[..i]), Concat(chunks[..i + 1]);
            && Split(more, '\n') == Split(text, '\n') + Split(Tail(text, '\n') + chunks[i], '\n')
            && Tail(more, '\n') == Tail(Tail(text, '\n') + chunks[i], '\n')
  {
    assert chunks[..i + 1] == chunks[..i] + [chunks[i]];
    ConcatAppend(chunks[..i], chunks[i]);
    SplitAppend(Concat(chunks[..i]), chunks[i], '\n');
  }

  // ----- the parser -----

  class Parser {
    const parse: string -> Json
    var eventName: Option<string>
    var dataLines: seq<string>
    var calls: seq<Call>

    constructor (parse: string -> Json)
      ensures this.parse == parse && Fields() == NOTHING && calls == []
    {
      this.parse, this.eventName, this.dataLines, this.calls := parse, None, [], [];
    }

    function Fields(): Pending
      reads this
    {
      Pending(eventName, dataLines)
    }

    method Dispatch()
      modifies this
      ensures Fields() == NOTHING
      ensures calls == old(calls) + CallsOf(parse, Dispatched(old(Fields())))
    {
      if eventName == None && dataLines == [] {
        return;
      }
      var name := if eventName.Some? then eventName.value else "message";
      var data := JoinData(dataLines);
      eventName, dataLines := None, [];
      calls := calls + [CallOf(parse, Event(name, data))];
    }

    method HandleLine(line: string)
      modifies this
      ensures line == "" ==> Fields() == NOTHING && calls == old(calls) + CallsOf(parse, Dispatched(old(Fields())))
      ensures line != "" ==> Fields() == Noted(old(Fields()), line) && calls == old(calls)
    {
      if line == "" {
        Dispatch();
        return;
      }
      if ":" <= line {
        return;
      }
      var colon := Find(line, ':');
      var field := line[..colon];
      var value := if colon == |line| then "" else line[colon + 1..];
      if " " <= value {
        value := value[1..];
      }
      if field == "event" {
        eventName := Some(value);
      } else if field == "data" {
        dataLines := dataLines + [value];
      }
    }

    /** The state is that of having read the lines of `seen`. */
    ghost predicate HasRead(lines: seq<string>)
      reads this
    {
      Read(NOTHING, lines).1 == Fields() && calls == CallsOf(parse, Read(NOTHING, lines).0)
    }

    method HandleNext(line: string, ghost lines: seq<string>)
      requires HasRead(lines)
      modifies this
      ensures HasRead(lines + [line])
    {
      HandleLine(StripReturn(line));
      ReadAppend(NOTHING, lines, [line]);
      assert [line][1..] == [];
      var events := Read(NOTHING, lines).0;
      assert events + [] == events;
    }

    /** Handle all complete lines of the buffer; the rest stays in it. */
    method HandleLines(text: string, ghost before: seq<string>) returns (buffer: string)
      requires HasRead(before)
      modifies this
      ensures HasRead(before + Split(text, '\n')) && buffer == Tail(text, '\n')
    {
      buffer := text;
      ghost var lines := before;
      var nl := Find(buffer, '\n');
      while nl < |buffer|
        invariant nl == Find(buffer, '\n')
        invariant HasRead(lines) && lines + Split(buffer, '\n') == before + Split(text, '\n')
        invariant Tail(buffer, '\n') == Tail(text, '\n')
        decreases |buffer|
      {
        HandleNext(buffer[..nl], lines);
        LineMoves(lines, buffer, nl);
        lines := lines + [buffer[..nl]];
        buffer := buffer[nl + 1..];
        nl := Find(buffer, '\n');
      }
      assert lines + [] == lines;
    }

    /** The whole stream, however it is cut. */
    method Consume(chunks: seq<string>)
      requires Fields() == NOTHING && calls == []
      modifies this
      ensures calls == CallsOf(parse, Events(Concat(chunks)))
    {
      var buffer := "";
      for i := 0 to |chunks|
        invariant HasRead(Split(Concat(chunks[..i]), '\n')) && buffer == Tail(Concat(chunks[..i]), '\n')
      {
        OneMoreChunk(chunks, i);
        buffer := HandleLines(buffer + chunks[i], Split(Concat(chunks[..i]), '\n'));
      }
      assert chunks[..|chunks|] == chunks;
      ghost var lines := Split(Concat(chunks), '\n');
      assert lines + [] == lines;
      if buffer != "" {
        HandleNext(buffer, lines);
      }
      Dispatch();
    }
  }

  // ----- what is sent is what is received -----

  /** The pieces of data sent on one line each. */
  function Pieces(data: string): seq<string> {
    Split(data, '\n') + [Tail(data, '\n')]
  }

  function DataLines(pieces: seq<string>): seq<string> {
    if pieces == [] then [] else ["data: " + pieces[0]] + DataLines(pieces[1..])
  }

  function EventLines(e: Event): seq<string> {
    ["event: " + e.name] + DataLines(Pieces(e.data)) + [""]
  }

  function Encoding(events: seq<Event>): seq<string> {
    if events == [] then [] else EventLines(events[0]) + Encoding(events[1..])
  }

  /** The lines that are no comments, without a trailing carriage return. */
  function Plain(lines: seq<string>): seq<string> {
    if lines == [] then []
    else
      var line := StripReturn(lines[0]);
      (if ":" <= line then [] else [line]) + Plain(lines[1..])
  }

  /** Reading lines already stripped, without comments. */
  function ReadPlain(p: Pending, lines: seq<string>): (seq<Event>, Pending)
    decreases |lines|
  {
    if lines == [] then ([], p)
    else if lines[0] == "" then
      var (events, last) := ReadPlain(NOTHING, lines[1..]);
      (Dispatched(p) + events, last)
    else ReadPlain(Noted(p, lines[0]), lines[1..])
  }

  lemma {:induction false} ReadIgnoresComments(p: Pending, lines: seq<string>)
    ensures Read(p, lines) == ReadPlain(p, Plain(lines))
    decreases |lines|
  {
    if lines == [] {
    } else {
      var line := StripReturn(lines[0]);
      var rest := Plain(lines[1..]);
      if ":" <= line {
        assert [] + rest == rest;
        ReadIgnoresComments(p, lines[1..]);
      } else {
        assert ([line] + rest)[1..] == rest;
        ReadIgnoresComments(if line == "" then NOTHING else Noted(p, line), lines[1..]);
      }
    }
  }

  lemma NotedEvent(p: Pending, name: string)
    ensures Noted(p, "event: " + name) == p.(name := Some(name))
  {
    var line := "event: " + name;
    assert line[..5] == "event" && line[6..] == " " + name && (" " + name)[1..] == name;
    FindIs(line, ':', 5);
  }

  lemma NotedData(p: Pending, piece: string)
    ensures Noted(p, "data: " + piece) == p.(data := p.data + [piece])
  {
    var line := "data: " + piece;
    assert line[..4] == "data" && line[5..] == " " + piece && (" " + piece)[1..] == piece;
    FindIs(line, ':', 4);
  }

  lemma {:induction false} ReadData(p: Pending, pieces: seq<string>, rest: seq<string>)
    ensures ReadPlain(p, DataLines(pieces) + rest) == ReadPlain(p.(data := p.data + pieces), rest)
    decreases |pieces|
  {
    if pieces == [] {
      assert p.data + [] == p.data && [] + rest == rest;
    } else {
      var line := "data: " + pieces[0];
      ReadOne(p, line, DataLines(pieces[1..]), rest);
      NotedData(p, pieces[0]);
      ReadData(p.(data := p.data + [pieces[0]]), pieces[1..], rest);
      assert p.data + [pieces[0]] + pieces[1..] == p.data + pieces;
    }
  }

  lemma ReadOne(p: Pending, line: string, lines: seq<string>, rest: seq<string>)
    requires line != ""
    ensures ReadPlain(p, [line] + lines + rest) == ReadPlain(Noted(p, line), lines + rest)
  {
    assert ([line] + lines + rest)[1..] == lines + rest;
  }

  lemma DataComesBack(data: string)
    ensures JoinData(Pieces(data)) == data
  {
    var lines, tail := Split(data, '\n'), Tail(data, '\n');
    assert (lines + [tail])[..|lines|] == lines;
    JoinSplit(data, '\n');
  }

  lemma ReadEvent(e: Event, rest: seq<string>)
    ensures var (events, last) := ReadPlain(NOTHING, rest);
            ReadPlain(NOTHING, EventLines(e) + rest) == ([e] + events, last)
  {
    var pieces := Pieces(e.data);
    var lines := EventLines(e) + rest;
    var after := [""] + rest;
    assert lines[0] == "event: " + e.name && lines[1..] == DataLines(pieces) + after;
    NotedEvent(NOTHING, e.name);
    var p := Pending(Some(e.name), []);
    ReadData(p, pieces, after);
    assert [] + pieces == pieces;
    assert after[1..] == rest;
    DataComesBack(e.data);
  }

  lemma {:induction false} ReadEncoding(events: seq<Event>)
    ensures ReadPlain(NOTHING, Encoding(events)) == (events, NOTHING)
    decreases |events|
  {
    if events == [] {
    } else {
      ReadEvent(events[0], Encoding(events[1..]));
      ReadEncoding(events[1..]);
      assert [events[0]] + events[1..] == events;
    }
  }

  /** Any events, sent as lines with comments in between and either line ending,
      come back as they were. */
  lemma {:induction false} EncodedEventsComeBack(events: seq<Event>, wire: seq<string>)
    requires forall i :: 0 <= i < |wire| ==> '\n' !in wire[i]
    requires Plain(wire) == Encoding(events)
    ensures Events(Join(wire, "", '\n')) == events
  {
    SplitJoin(wire, "", '\n');
    assert wire + [] == wire;
    ReadIgnoresComments(NOTHING, wire);
    ReadEncoding(events);
    assert events + [] == events;
  }

  /** Lines that a line reader gives back as they are. */
  predicate Clean(line: string) {
    '\n' !in line && '\r' !in line && !(":" <= line)
  }

  lemma {:induction false} PlainKeeps(lines: seq<string>)
    requires forall i :: 0 <= i < |lines| ==> Clean(lines[i])
    ensures Plain(lines) == lines
  {
    if lines == [] {
    } else {
      PlainKeeps(lines[1..]);
      assert lines == [lines[0]] + lines[1..];
    }
  }

  lemma CleanConcat(field: string, value: string)
    requires Clean(field) && field != "" && '\n' !in value && '\r' !in value
    ensures Clean(field + value)
  {
    var line := field + value;
    forall i | 0 <= i < |line|
      ensures line[i] != '\n' && line[i] != '\r'
    {
      if i < |field| {
        assert line[i] in field;
      } else {
        assert line[i] in value;
      }
    }
    assert line[0] == field[0];
  }

  lemma {:induction false} DataLinesClean(pieces: seq<string>)
    requires forall i :: 0 <= i < |pieces| ==> '\n' !in pieces[i] && '\r' !in pieces[i]
    ensures forall i :: 0 <= i < |DataLines(pieces)| ==> Clean(DataLines(pieces)[i])
  {
    if pieces == [] {
    } else {
      assert ":"[0] != "data: "[0];
      CleanConcat("data: ", pieces[0]);
      DataLinesClean(pieces[1..]);
    }
  }

  lemma {:induction false} SplitHas<T>(s: seq<T>, nl: T, x: T)
    requires x !in s
    ensures forall i :: 0 <= i < |Split(s, nl)| ==> x !in Split(s, nl)[i]
    ensures x !in Tail(s, nl)
    decreases |s|
  {
    var n := Find(s, nl);
    if n >= |s| {
    } else {
      var first, rest := s[..n], s[n + 1..];
      assert x !in first && x !in rest;
      SplitHas(rest, nl, x);
      SplitFirst(s, nl, n, rest);
      forall i | 0 <= i < |Split(s, nl)|
        ensures x !in Split(s, nl)[i]
      {
        if i > 0 {
          assert Split(s, nl)[i] == Split(rest, nl)[i - 1];
        }
      }
    }
  }

  lemma {:induction false} SplitCuts<T>(s: seq<T>, nl: T)
    ensures forall i :: 0 <= i < |Split(s, nl)| ==> nl !in Split(s, nl)[i]
    decreases |s|
  {
    var n := Find(s, nl);
    if n == |s| {
    } else {
      SplitCuts(s[n + 1..], nl);
    }
  }

  /** An event that can be sent: no line end in its name, no return in its data. */
  predicate Sendable(e: Event) {
    '\n' !in e.name && '\r' !in e.name && '\r' !in e.data
  }

  lemma EventLinesClean(e: Event)
    requires Sendable(e)
    ensures forall i :: 0 <= i < |EventLines(e)| ==> Clean(EventLines(e)[i])
  {
    SplitHas(e.data, '\n', '\r');
    SplitCuts(e.data, '\n');
    TailHasNoNewline(e.data, '\n');
    DataLinesClean(Pieces(e.data));
    assert ":"[0] != "event: "[0];
    CleanConcat("event: ", e.name);
  }

  lemma {:induction false} EncodingClean(events: seq<Event>)
    requires forall i :: 0 <= i < |events| ==> Sendable(events[i])
    ensures forall i :: 0 <= i < |Encoding(events)| ==> Clean(Encoding(events)[i])
  {
    if events == [] {
    } else {
      EventLinesClean(events[0]);
      EncodingClean(events[1..]);
    }
  }

  /** In particular, sendable events come back from their own encoding. */
  lemma {:induction false} SentEventsComeBack(events: seq<Event>)
    requires forall i :: 0 <= i < |events| ==> Sendable(events[i])
    ensures Plain(Encoding(events)) == Encoding(events)
    ensures Events(Join(Encoding(events), "", '\n')) == events
  {
    EncodingClean(events);
    PlainKeeps(Encoding(events));
    EncodedEventsComeBack(events, Encoding(events));
  }

  /** The end of the text ends the last event as a blank line would. */
  lemma EndIsBlankLine(text: string)
    ensures Events(text + "\n") == Events(text)
  {
    SplitTerminated(text, '\n');
    EndOrBlankLine(Split(text, '\n'), Tail(text, '\n'));
    var lines := Split(text, '\n') + [Tail(text, '\n')];
    assert "\n" == ['\n'] && lines + [] == lines;
  }

  lemma EndOrBlankLine(lines: seq<string>, tail: string)
    ensures var (some, p) := Read(NOTHING, lines + if tail == "" then [] else [tail]);
            var (all, q) := Read(NOTHING, lines + [tail]);
            some + Dispatched(p) == all + Dispatched(q)
  {
    var (events, p) := Read(NOTHING, lines);
    ReadAppend(NOTHING, lines, [tail]);
    assert [tail][1..] == [] && lines + [] == lines;
    if tail == "" {
      assert events + (Dispatched(p) + []) + [] == events + Dispatched(p);
    }
  }
}

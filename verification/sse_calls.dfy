/** What the client hears of the answer that the server sends: handler calls, as events,
    and back. */
module ClientCalls {
  import opened Options
  import opened Lines
  import opened CanonicalJson
  import opened ClientEvents
  import LlmStreams

  // ----- the events the server sends -----

  function NameOf(c: Call): string {
    match c
    case Citation(_) => "citation"
    case Token(_) => "token"
    case Done => "done"
    case Failed(_, _) => "error"
  }

  function Payload(c: Call): Json {
    match c
    case Citation(hits) => Object([Field("hits", Array(hits))])
    case Token(text) => Object([Field("text", Text(text))])
    case Done => Object([])
    case Failed(code, message) => Object([Field("code", Text(code)), Field("message", Text(message))])
  }

  /** `send_json` and `send_error`; `show` writes JSON as text. */
  function Sent(show: Json -> string, c: Call): Event {
    Event(NameOf(c), show(Payload(c)))
  }

  function AllSent(show: Json -> string, calls: seq<Call>): (events: seq<Event>)
    ensures |events| == |calls| && forall i :: 0 <= i < |events| ==> events[i] == Sent(show, calls[i])
  {
    seq(|calls|, i requires 0 <= i < |calls| => Sent(show, calls[i]))
  }

  /** The text is JSON that the client reads as what was written, on lines without returns. */
  predicate Shown(parse: string -> Json, show: Json -> string, v: Json) {
    parse(show(v)) == v && '\r' !in show(v)
  }

  /** Citations carry search hits. */
  predicate Sound(c: Call) {
    c.Citation? ==> forall i :: 0 <= i < |c.hits| ==> IsSearchHit(c.hits[i])
  }

  lemma CallComesBack(parse: string -> Json, show: Json -> string, c: Call)
    requires Sound(c) && Shown(parse, show, Payload(c))
    ensures CallOf(parse, Sent(show, c)) == c
  {
    var v := Payload(c);
    match c
    case Citation(hits) => assert Get(v, "hits") == Some(Array(hits));
    case Token(text) => assert Get(v, "text") == Some(Text(text));
    case Done =>
    case Failed(code, message) =>
      assert "code"[0] != "message"[0];
      LookupIs(v.fields, 0);
      LookupIs(v.fields, 1);
  }

  /** What the server says is what the client's handlers hear, call by call. */
  lemma {:induction false} SentCallsComeBack(parse: string -> Json, show: Json -> string, calls: seq<Call>)
    requires forall i :: 0 <= i < |calls| ==> Sound(calls[i]) && Shown(parse, show, Payload(calls[i]))
    ensures CallsOf(parse, Events(Join(Encoding(AllSent(show, calls)), "", '\n'))) == calls
  {
    var events := AllSent(show, calls);
    forall i | 0 <= i < |events|
      ensures Sendable(events[i]) && CallOf(parse, events[i]) == calls[i]
    {
      NamesAreClean(calls[i]);
      CallComesBack(parse, show, calls[i]);
    }
    SentEventsComeBack(events);
  }

  lemma NamesAreClean(c: Call)
    ensures '\n' !in NameOf(c) && '\r' !in NameOf(c)
  {
  }

  // ----- a whole answer -----

  function Tokens(fragments: seq<string>): (calls: seq<Call>)
    ensures |calls| == |fragments| && forall i :: 0 <= i < |calls| ==> calls[i] == Token(fragments[i])
  {
    seq(|fragments|, i requires 0 <= i < |fragments| => Token(fragments[i]))
  }

  /** `chat_stream` once the model answers: the hits, each fragment, and how it ended. */
  function Answer(hits: seq<Json>, t: LlmStreams.Transcript, failed: LlmStreams.Error -> (string, string)): seq<Call> {
    [Citation(hits)] + Tokens(t.fragments)
    + [match t.error case None => Done case Some(e) => Failed(failed(e).0, failed(e).1)]
  }

  /** The text of the tokens, joined. */
  function Heard(calls: seq<Call>): string {
    if calls == [] then "" else (if calls[0].Token? then calls[0].text else "") + Heard(calls[1..])
  }

  lemma {:induction false} HeardConcat(a: seq<Call>, b: seq<Call>)
    ensures Heard(a + b) == Heard(a) + Heard(b)
  {
    if a == [] {
      assert a + b == b;
    } else {
      assert (a + b)[1..] == a[1..] + b;
      HeardConcat(a[1..], b);
    }
  }

  lemma {:induction false} HeardTokens(fragments: seq<string>)
    ensures Heard(Tokens(fragments)) == Concat(fragments)
  {
    if fragments == [] {
    } else {
      assert Tokens(fragments)[1..] == Tokens(fragments[1..]);
      HeardTokens(fragments[1..]);
    }
  }

  /** From the model to the browser: the tokens the client shows are the fragments the
      model's stream means, in order, between the citation and one final call. */
  lemma {:induction false} AnswerComesBack(parse: string -> Json, show: Json -> string, hits: seq<Json>,
                                           t: LlmStreams.Transcript, failed: LlmStreams.Error -> (string, string))
    requires forall i :: 0 <= i < |hits| ==> IsSearchHit(hits[i])
    requires forall i :: 0 <= i < |Answer(hits, t, failed)| ==> Shown(parse, show, Payload(Answer(hits, t, failed)[i]))
    ensures var calls := CallsOf(parse, Events(Join(Encoding(AllSent(show, Answer(hits, t, failed))), "", '\n')));
            && calls == Answer(hits, t, failed)
            && Heard(calls) == Concat(t.fragments)
            && (calls[|calls| - 1] == Done <==> t.error == None)
  {
    var calls := Answer(hits, t, failed);
    forall i | 0 <= i < |calls|
      ensures Sound(calls[i])
    {
      assert calls[i] == Citation(hits) || !calls[i].Citation?;
    }
    SentCallsComeBack(parse, show, calls);
    var last := calls[|calls| - 1];
    HeardConcat([Citation(hits)] + Tokens(t.fragments), [last]);
    HeardConcat([Citation(hits)], Tokens(t.fragments));
    HeardTokens(t.fragments);
    assert [last][1..] == [] && [Citation(hits)][1..] == [];
  }

  // ----- exactly which events are heard as what -----

  predicate TextAt(v: Json, key: string, s: string) {
    Get(v, key) == Some(Text(s))
  }

  predicate AnyText(v: Json, key: string) {
    Get(v, key).Some? && Get(v, key).value.Text?
  }

  /** The payload lists search hits, each with a document, a number, a content and a score. */
  predicate HitsAt(v: Json, hits: seq<Json>) {
    && Get(v, "hits") == Some(Array(hits))
    && forall i :: 0 <= i < |hits| ==>
         && AnyText(hits[i], "document_id") && AnyText(hits[i], "content")
         && Get(hits[i], "chunk_idx").Some? && Get(hits[i], "chunk_idx").value.Number?
         && Get(hits[i], "score").Some? && Get(hits[i], "score").value.Number?
  }

  /** Well-formed events reach their own handlers with what they carry. */
  lemma CallsExactly(parse: string -> Json, e: Event)
    ensures forall hits :: CallOf(parse, e) == Citation(hits) <==> e.name == "citation" && HitsAt(parse(e.data), hits)
    ensures forall text :: CallOf(parse, e) == Token(text) <==> e.name == "token" && TextAt(parse(e.data), "text", text)
    ensures CallOf(parse, e) == Done <==> e.name == "done"
    ensures forall code, message ::
              e.name == "error" && TextAt(parse(e.data), "code", code) && TextAt(parse(e.data), "message", message) ==>
              CallOf(parse, e) == Failed(code, message)
  {
  }

  /** Everything else is a protocol error, which says what was wrong. */
  lemma ErrorsExactly(parse: string -> Json, e: Event)
    ensures CallOf(parse, e).Failed? && !(e.name == "error" && AnyText(parse(e.data), "code")
                                          && AnyText(parse(e.data), "message")) ==>
              CallOf(parse, e) == Failed("E_SSE_PROTOCOL",
                                         if e.name == "citation" then "malformed citation payload"
                                         else if e.name == "token" then "malformed token payload"
                                         else if e.name == "error" then "malformed error payload"
                                         else "unknown event type: " + e.name)
  {
  }

  // ----- field lines -----

  /** What a field line adds: an event's name, one more data line, or nothing. */
  function Added(p: Pending, field: string, value: string): Pending {
    if field == "event" then Pending(Some(value), p.data)
    else if field == "data" then Pending(p.name, p.data + [value])
    else p
  }

  lemma TightLine(p: Pending, field: string, value: string)
    requires field != "" && ':' !in field && !(" " <= value)
    ensures Noted(p, field + (":" + value)) == Added(p, field, value)
  {
    var line := field + (":" + value);
    FieldEndsAt(field, ":" + value);
    assert line[|field| + 1..] == value;
    NotedField(p, line, field, value);
  }

  lemma LooseLine(p: Pending, field: string, value: string)
    requires field != "" && ':' !in field
    ensures Noted(p, field + (": " + value)) == Added(p, field, value)
  {
    var line := field + (": " + value);
    FieldEndsAt(field, ": " + value);
    assert line[|field| + 1..] == " " + value;
    assert (" " + value)[1..] == value;
    NotedField(p, line, field, value);
  }

  lemma NotedField(p: Pending, line: string, field: string, value: string)
    requires |field| < |line| && Find(line, ':') == |field| && line[..|field|] == field && !(":" <= line)
    requires Value(line, |field|) == value
    ensures Noted(p, line) == Added(p, field, value)
  {
  }

  /** With or without the space after its colon, a field line adds its value; of more
      spaces than one the rest belongs to the value. */
  lemma FieldLines(p: Pending, field: string, value: string)
    requires field != "" && ':' !in field
    ensures !(" " <= value) ==> Noted(p, field + (":" + value)) == Added(p, field, value)
    ensures Noted(p, field + (": " + value)) == Added(p, field, value)
  {
    if !(" " <= value) {
      TightLine(p, field, value);
    }
    LooseLine(p, field, value);
  }

  /** A line without a colon is a field without a value, and one that begins with a
      colon is a comment. */
  lemma BareLines(p: Pending, field: string, value: string)
    requires field != "" && ':' !in field
    ensures Noted(p, field) == Added(p, field, "") && Noted(p, ":" + value) == p
  {
    assert field[..|field|] == field;
    FindIs(field, ':', |field|);
  }

  lemma FieldEndsAt(field: string, rest: string)
    requires ':' !in field && rest != "" && rest[0] == ':' && field != ""
    ensures Find(field + rest, ':') == |field| && (field + rest)[..|field|] == field && !(":" <= field + rest)
  {
    assert (field + rest)[..|field|] == field;
    assert (field + rest)[0] == field[0];
    FindIs(field + rest, ':', |field|);
  }
}

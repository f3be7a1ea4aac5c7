/** The language model's response stream, cut into text fragments. */
module LlmStreams {
  import opened Options
  import opened Lines
  import opened Headings

  newtype byte = x: int | 0 <= x < 256

  const NEWLINE: byte := 10
  const MAX_SSE_FRAME := 65536

  /** `text` is the lossy decoding of bytes; `delta` the text of the first choice of
      a JSON value, empty when absent, or nothing when the text is no JSON. */
  datatype Codec = Codec(text: seq<byte> -> string, delta: string -> Option<string>)

  datatype Error = Protocol | Connection

  datatype Line = Malformed | Delta(text: string) | Done | Skip

  function TrimReturns(s: string): string {
    if s != "" && s[|s| - 1] == '\r' then TrimReturns(s[..|s| - 1]) else s
  }

  function ParseLine(codec: Codec, bytes: seq<byte>): Line {
    var line := TrimReturns(codec.text(bytes));
    if !("data:" <= line) then Skip
    else
      var rest := line[5..];
      var data := if " " <= rest then rest[1..] else rest;
      if Trim(data) == "[DONE]" then Done
      else
        match codec.delta(data)
        case None => Malformed
        case Some(text) => if text == "" then Skip else Delta(text)
  }

  // ----- what a line says, by its text -----

  lemma {:induction false} ReturnsTrimmed(text: string, cr: string)
    requires forall i :: 0 <= i < |cr| ==> cr[i] == '\r'
    requires text == "" || text[|text| - 1] != '\r'
    ensures TrimReturns(text + cr) == text
    decreases |cr|
  {
    if cr == "" {
      assert text + cr == text;
    } else {
      var fewer := cr[..|cr| - 1];
      assert (text + cr)[..|text + cr| - 1] == text + fewer;
      ReturnsTrimmed(text, fewer);
    }
  }

  /** Carriage cr at the end of a line change nothing. */
  lemma {:induction false} TrimReturnsDrops(s: string) returns (cr: string)
    ensures s == TrimReturns(s) + cr && forall i :: 0 <= i < |cr| ==> cr[i] == '\r'
  {
    if s != "" && s[|s| - 1] == '\r' {
      cr := TrimReturnsDrops(s[..|s| - 1]);
      assert s == s[..|s| - 1] + "\r";
      assert TrimReturns(s) + cr + "\r" == TrimReturns(s) + (cr + "\r");
      cr := cr + "\r";
    } else {
      cr := "";
    }
  }

  /** A line that does not begin with "data:" says nothing: comments, other fields, blanks. */
  lemma OtherLine(codec: Codec, bytes: seq<byte>)
    requires !("data:" <= codec.text(bytes))
    ensures ParseLine(codec, bytes) == Skip
  {
    var cr := TrimReturnsDrops(codec.text(bytes));
    var line := TrimReturns(codec.text(bytes));
    assert codec.text(bytes) == line + cr;
    assert "data:" <= line ==> "data:" <= line + cr;
  }

  /** The meaning of a data line: the end, an error, nothing, or a fragment. */
  function Said(codec: Codec, data: string): Line {
    if Trim(data) == "[DONE]" then Done
    else if codec.delta(data) == None then Malformed
    else if codec.delta(data) == Some("") then Skip
    else Delta(codec.delta(data).value)
  }

  /** A data line with or without the space after its colon, and with any returns at its
      end, says what its data says. */
  lemma {:induction false} DataLine(codec: Codec, bytes: seq<byte>, data: string, cr: string)
    requires forall i :: 0 <= i < |cr| ==> cr[i] == '\r'
    requires data == "" || data[|data| - 1] != '\r'
    ensures codec.text(bytes) == ("data: " + data) + cr ==> ParseLine(codec, bytes) == Said(codec, data)
    ensures !(" " <= data) && codec.text(bytes) == ("data:" + data) + cr ==>
              ParseLine(codec, bytes) == Said(codec, data)
  {
    if codec.text(bytes) == ("data: " + data) + cr {
      ReturnsTrimmed("data: " + data, cr);
      assert ("data: " + data)[5..] == " " + data && (" " + data)[1..] == data;
    } else if !(" " <= data) && codec.text(bytes) == ("data:" + data) + cr {
      ReturnsTrimmed("data:" + data, cr);
      assert ("data:" + data)[5..] == data;
    }
  }

  /** The line that ends the stream, in the usual spellings, and a comment. */
  lemma EndLines(codec: Codec, bytes: seq<byte>)
    ensures codec.text(bytes) in {"data: [DONE]", "data:[DONE]", "data: [DONE]\r"} ==> ParseLine(codec, bytes) == Done
    ensures codec.text(bytes) in {": ping", "event: x", ""} ==> ParseLine(codec, bytes) == Skip
  {
    assert "data: " + "[DONE]" == "data: [DONE]" && "data:" + "[DONE]" == "data:[DONE]";
    assert ("data: " + "[DONE]") + "\r" == "data: [DONE]\r";
    assert Trim("[DONE]") == "[DONE]";
    DataLine(codec, bytes, "[DONE]", "");
    DataLine(codec, bytes, "[DONE]", "\r");
    assert ("data: " + "[DONE]") + "" == "data: [DONE]" && ("data:" + "[DONE]") + "" == "data:[DONE]";
    if codec.text(bytes) in {": ping", "event: x", ""} {
      assert ": ping"[0] != "data:"[0] && "event: x"[0] != "data:"[0];
      OtherLine(codec, bytes);
    }
  }

  // ----- the meaning of a stream -----

  /** Everything a stream yields: its fragments, and the error that ends it, if any. */
  datatype Transcript = Transcript(fragments: seq<string>, error: Option<Error>)

  function Emit(text: string, t: Transcript): Transcript {
    t.(fragments := [text] + t.fragments)
  }

  /** Line by line, up to the first [DONE] or error.  A broken connection drops an
      unterminated line; otherwise that line counts. */
  function Fold(codec: Codec, lines: seq<seq<byte>>, tail: seq<byte>, broken: bool): Transcript {
    if lines == [] then FoldTail(codec, tail, broken)
    else
      match ParseLine(codec, lines[0])
      case Malformed => Transcript([], Some(Protocol))
      case Done => Transcript([], None)
      case Skip => Fold(codec, lines[1..], tail, broken)
      case Delta(text) => Emit(text, Fold(codec, lines[1..], tail, broken))
  }

  function FoldTail(codec: Codec, tail: seq<byte>, broken: bool): Transcript {
    if broken then Transcript([], Some(Connection))
    else if tail == [] then Transcript([], None)
    else
      match ParseLine(codec, tail)
      case Malformed => Transcript([], Some(Protocol))
      case Delta(text) => Transcript([text], None)
      case _ => Transcript([], None)
  }

  function Meaning(codec: Codec, bytes: seq<byte>, broken: bool): Transcript {
    Fold(codec, Split(bytes, NEWLINE), Tail(bytes, NEWLINE), broken)
  }

  /** The texts of the lines that deliver any. */
  function TextsOf(codec: Codec, lines: seq<seq<byte>>): seq<string> {
    if lines == [] then []
    else (match ParseLine(codec, lines[0]) case Delta(text) => [text] case _ => []) + TextsOf(codec, lines[1..])
  }

  /** The line neither ends the stream nor is an error. */
  predicate GoesOn(codec: Codec, line: seq<byte>) {
    ParseLine(codec, line).Skip? || ParseLine(codec, line).Delta?
  }

  /** After lines that go on, the rest is told as if it stood alone. */
  lemma {:induction false} FoldGoesOn(codec: Codec, lines: seq<seq<byte>>, more: seq<seq<byte>>, tail: seq<byte>,
                                      broken: bool)
    requires forall i :: 0 <= i < |lines| ==> GoesOn(codec, lines[i])
    ensures var rest := Fold(codec, more, tail, broken);
            Fold(codec, lines + more, tail, broken)
            == Transcript(TextsOf(codec, lines) + rest.fragments, rest.error)
  {
    if lines == [] {
      assert lines + more == more;
    } else {
      assert GoesOn(codec, lines[0]);
      assert (lines + more)[1..] == lines[1..] + more;
      FoldGoesOn(codec, lines[1..], more, tail, broken);
      var rest := Fold(codec, more, tail, broken);
      match ParseLine(codec, lines[0])
      case Delta(text) =>
        assert [text] + (TextsOf(codec, lines[1..]) + rest.fragments)
            == ([text] + TextsOf(codec, lines[1..])) + rest.fragments;
      case Skip =>
        assert [] + TextsOf(codec, lines[1..]) == TextsOf(codec, lines[1..]);
    }
  }

  /** All texts up to the first [DONE] or malformed line; what comes after it is not read. */
  lemma {:induction false} EndsAtLine(codec: Codec, lines: seq<seq<byte>>, n: nat, tail: seq<byte>, broken: bool)
    requires n < |lines| && !GoesOn(codec, lines[n]) && forall i :: 0 <= i < n ==> GoesOn(codec, lines[i])
    ensures Fold(codec, lines, tail, broken)
         == Transcript(TextsOf(codec, lines[..n]),
                       if ParseLine(codec, lines[n]).Done? then None else Some(Protocol))
  {
    assert lines == lines[..n] + lines[n..];
    FoldGoesOn(codec, lines[..n], lines[n..], tail, broken);
    assert TextsOf(codec, lines[..n]) + [] == TextsOf(codec, lines[..n]);
  }

  /** Without such a line: all texts, and at the end of the body an unterminated line still
      counts; a broken connection drops it and is an error. */
  lemma {:induction false} EndsWithBody(codec: Codec, lines: seq<seq<byte>>, tail: seq<byte>, broken: bool)
    requires forall i :: 0 <= i < |lines| ==> GoesOn(codec, lines[i])
    ensures var texts := TextsOf(codec, lines);
            Fold(codec, lines, tail, broken)
            == if broken then Transcript(texts, Some(Connection))
               else if tail == [] then Transcript(texts, None)
               else Transcript(texts + TextsOf(codec, [tail]),
                               if ParseLine(codec, tail).Malformed? then Some(Protocol) else None)
  {
    assert lines + [] == lines;
    FoldGoesOn(codec, lines, [], tail, broken);
    assert [tail][1..] == [];
    assert TextsOf(codec, lines) + [] == TextsOf(codec, lines);
  }

  ghost predicate AllFit(lines: seq<seq<byte>>) {
    forall i :: 0 <= i < |lines| ==> |lines[i]| <= 65536
  }

  /** Every line and the unterminated tail are within the cap. */
  ghost predicate Fits(bytes: seq<byte>) {
    && AllFit(Split(bytes, NEWLINE))
    && |Tail(bytes, NEWLINE)| <= 65536
  }

  // ----- the stream as it is read -----

  /** What the response still delivers: pieces of its body, and whether the
      connection breaks after them. */
  datatype Stream = Stream(pieces: seq<seq<byte>>, broken: bool, buffer: seq<byte>, finished: bool)

  function Rest(s: Stream): seq<byte> {
    s.buffer + Concat(s.pieces)
  }

  function Left(s: Stream): nat {
    |Rest(s)| + if s.finished then 0 else 1
  }

  /** What one call of `next_fragment` returns. */
  datatype Outcome = Fragment(text: string) | End | Failed(error: Error)

  function Taken(s: Stream): (t: Stream)
    requires s.pieces != []
    ensures Rest(t) == Rest(s)
  {
    assert s.buffer + (s.pieces[0] + Concat(s.pieces[1..])) == s.buffer + s.pieces[0] + Concat(s.pieces[1..]);
    s.(buffer := s.buffer + s.pieces[0], pieces := s.pieces[1..])
  }

  function Drained(s: Stream, pos: nat): (t: Stream)
    requires pos < |s.buffer|
    ensures Rest(t) == Rest(s)[pos + 1..]
  {
    assert (s.buffer + Concat(s.pieces))[pos + 1..] == s.buffer[pos + 1..] + Concat(s.pieces);
    s.(buffer := s.buffer[pos + 1..])
  }

  /** The next outcome and the stream it leaves behind. */
  function Next(codec: Codec, s: Stream): (r: (Outcome, Stream))
    ensures Left(r.1) <= Left(s)
    ensures r.0.Fragment? ==> Left(r.1) < Left(s)
    decreases |s.pieces|, |s.buffer|
  {
    var pos := Find(s.buffer, NEWLINE);
    if s.finished then (End, s)
    else if pos < |s.buffer| then
      if pos > MAX_SSE_FRAME then (Failed(Protocol), s.(finished := true))
      else
        match ParseLine(codec, s.buffer[..pos])
        case Malformed => (Failed(Protocol), Drained(s, pos))
        case Delta(text) => (Fragment(text), Drained(s, pos))
        case Done => (End, Drained(s, pos).(finished := true))
        case Skip => Next(codec, Drained(s, pos))
    else if s.pieces != [] then
      if |Tail(Taken(s).buffer, NEWLINE)| > MAX_SSE_FRAME then (Failed(Protocol), Taken(s).(finished := true))
      else Next(codec, Taken(s))
    else if s.broken then (Failed(Connection), s.(finished := true))
    else if s.buffer == [] then (End, s.(finished := true))
    else
      var t := s.(buffer := [], finished := true);
      match ParseLine(codec, s.buffer)
      case Malformed => (Failed(Protocol), t)
      case Delta(text) => (Fragment(text), t)
      case _ => (End, t)
  }

  lemma NextOfLine(codec: Codec, s: Stream, pos: nat)
    requires !s.finished && pos == Find(s.buffer, NEWLINE) < |s.buffer| && pos <= MAX_SSE_FRAME
    ensures Next(codec, s) ==
            match ParseLine(codec, s.buffer[..pos])
            case Malformed => (Failed(Protocol), Drained(s, pos))
            case Delta(text) => (Fragment(text), Drained(s, pos))
            case Done => (End, Drained(s, pos).(finished := true))
            case Skip => Next(codec, Drained(s, pos))
  {
  }

  /** Calling until the end or an error. */
  function Drain(codec: Codec, s: Stream): Transcript
    decreases Left(s)
  {
    var (outcome, t) := Next(codec, s);
    match outcome
    case Fragment(text) => Emit(text, Drain(codec, t))
    case End => Transcript([], None)
    case Failed(error) => Transcript([], Some(error))
  }

  lemma DrainReads(codec: Codec, s: Stream)
    requires !s.finished && Find(s.buffer, NEWLINE) == |s.buffer| && s.pieces != []
    requires |Tail(Taken(s).buffer, NEWLINE)| <= MAX_SSE_FRAME
    ensures Drain(codec, s) == Drain(codec, Taken(s))
  {
    assert Next(codec, s) == Next(codec, Taken(s));
  }

  // ----- independence of the cuts -----

  lemma AllFitSplits(line: seq<byte>, lines: seq<seq<byte>>)
    ensures AllFit([line] + lines) <==> |line| <= MAX_SSE_FRAME && AllFit(lines)
  {
    var all := [line] + lines;
    assert all[0] == line && forall i :: 0 <= i < |lines| ==> lines[i] == all[i + 1];
  }

  lemma FirstLineFits(bytes: seq<byte>, more: seq<byte>, pos: nat)
    requires pos == Find(bytes, NEWLINE) < |bytes| && Fits(bytes + more)
    ensures pos <= MAX_SSE_FRAME && Fits(bytes[pos + 1..] + more)
  {
    var lines := Split(bytes[pos + 1..] + more, NEWLINE);
    FirstLine(bytes, more, NEWLINE, pos, bytes[pos + 1..]);
    AllFitSplits(bytes[..pos], lines);
  }

  /** Whatever part of a fitting stream has arrived, its last segment fits. */
  lemma TailFits(bytes: seq<byte>, more: seq<byte>)
    requires Fits(bytes + more)
    ensures |Tail(bytes, NEWLINE)| <= MAX_SSE_FRAME
  {
    SplitAppend(bytes, more, NEWLINE);
    var tail := Tail(bytes, NEWLINE);
    TailHasNoNewline(bytes, NEWLINE);
    var n := Find(tail + more, NEWLINE);
    forall i | 0 <= i < |tail|
      ensures (tail + more)[i] != NEWLINE
    {
      assert (tail + more)[i] == tail[i];
    }
    if n < |tail + more| {
      var all := Split(bytes + more, NEWLINE);
      assert Split(tail + more, NEWLINE)[0] == (tail + more)[..n];
      assert all[|Split(bytes, NEWLINE)|] == (tail + more)[..n];
    } else {
      assert Tail(bytes + more, NEWLINE) == tail + more;
    }
  }

  /** What is left to read means the same before and after a step of the loop. */
  lemma {:induction false} DrainIsMeaning(codec: Codec, s: Stream)
    requires !s.finished && Fits(Rest(s))
    ensures Drain(codec, s) == Meaning(codec, Rest(s), s.broken)
    decreases Left(s), |s.pieces|, 1
  {
    var pos := Find(s.buffer, NEWLINE);
    if pos < |s.buffer| {
      LineIsMeaning(codec, s, pos);
    } else if s.pieces != [] {
      TailFits(Taken(s).buffer, Concat(Taken(s).pieces));
      DrainReads(codec, s);
      DrainIsMeaning(codec, Taken(s));
    } else {
      assert Rest(s) == s.buffer;
      EndIsMeaning(codec, s);
    }
  }

  lemma {:induction false} LineIsMeaning(codec: Codec, s: Stream, pos: nat)
    requires !s.finished && Fits(Rest(s)) && pos == Find(s.buffer, NEWLINE) < |s.buffer|
    ensures Drain(codec, s) == Meaning(codec, Rest(s), s.broken)
    decreases Left(s), |s.pieces|, 0
  {
    var t := Drained(s, pos);
    FirstLineFits(s.buffer, Concat(s.pieces), pos);
    DrainIsMeaning(codec, t);
    MeaningOfLine(codec, s, pos);
    NextOfLine(codec, s, pos);
  }

  lemma FoldCons(codec: Codec, line: seq<byte>, lines: seq<seq<byte>>, tail: seq<byte>, broken: bool)
    ensures Fold(codec, [line] + lines, tail, broken) ==
            match ParseLine(codec, line)
            case Malformed => Transcript([], Some(Protocol))
            case Done => Transcript([], None)
            case Skip => Fold(codec, lines, tail, broken)
            case Delta(text) => Emit(text, Fold(codec, lines, tail, broken))
  {
    assert ([line] + lines)[1..] == lines;
  }

  lemma MeaningOfLine(codec: Codec, s: Stream, pos: nat)
    requires pos == Find(s.buffer, NEWLINE) < |s.buffer|
    ensures Meaning(codec, Rest(s), s.broken) ==
            match ParseLine(codec, s.buffer[..pos])
            case Malformed => Transcript([], Some(Protocol))
            case Done => Transcript([], None)
            case Skip => Meaning(codec, Rest(Drained(s, pos)), s.broken)
            case Delta(text) => Emit(text, Meaning(codec, Rest(Drained(s, pos)), s.broken))
  {
    var rest := s.buffer[pos + 1..] + Concat(s.pieces);
    FirstLine(s.buffer, Concat(s.pieces), NEWLINE, pos, s.buffer[pos + 1..]);
    assert Rest(Drained(s, pos)) == rest;
    FoldCons(codec, s.buffer[..pos], Split(rest, NEWLINE), Tail(rest, NEWLINE), s.broken);
  }

  lemma EndIsMeaning(codec: Codec, s: Stream)
    requires !s.finished && s.pieces == [] && Find(s.buffer, NEWLINE) == |s.buffer|
    ensures Drain(codec, s) == Meaning(codec, s.buffer, s.broken)
  {
  }

  function Opened(pieces: seq<seq<byte>>, broken: bool): Stream {
    Stream(pieces, broken, [], false)
  }

  /** The transcript depends on the bytes alone, not on how they were cut. */
  lemma {:induction false} CutsDoNotMatter(codec: Codec, pieces: seq<seq<byte>>, broken: bool)
    requires Fits(Concat(pieces))
    ensures Drain(codec, Opened(pieces, broken)) == Meaning(codec, Concat(pieces), broken)
  {
    assert Rest(Opened(pieces, broken)) == Concat(pieces);
    DrainIsMeaning(codec, Opened(pieces, broken));
  }

  // ----- streams with an oversized line -----

  /** Nothing but skipped lines, or a malformed one, comes before an oversized line. */
  predicate Mute(codec: Codec, bytes: seq<byte>) {
    var n := Find(bytes, NEWLINE);
    n == |bytes| || n > MAX_SSE_FRAME ||
    match ParseLine(codec, bytes[..n])
    case Skip => Mute(codec, bytes[n + 1..])
    case Malformed => true
    case _ => false
  }

  lemma FirstFits(bytes: seq<byte>, n: nat, rest: seq<byte>)
    requires n == Find(bytes, NEWLINE) < |bytes| && rest == bytes[n + 1..]
    ensures Fits(bytes) <==> n <= MAX_SSE_FRAME && Fits(rest)
  {
    var line, lines := bytes[..n], Split(rest, NEWLINE);
    SplitFirst(bytes, NEWLINE, n, rest);
    AllFitSplits(line, lines);
    assert Fits(bytes) <==> AllFit([line] + lines) && |Tail(rest, NEWLINE)| <= MAX_SSE_FRAME;
  }

  /** A mute stream always ends in the same error. */
  lemma {:induction false} MuteFails(codec: Codec, s: Stream)
    requires !s.finished && |Tail(s.buffer, NEWLINE)| <= MAX_SSE_FRAME
    requires !Fits(Rest(s)) && Mute(codec, Rest(s))
    ensures Drain(codec, s) == Transcript([], Some(Protocol))
    decreases Left(s), |s.pieces|, 1
  {
    var pos := Find(s.buffer, NEWLINE);
    if pos < |s.buffer| {
      MuteLineFails(codec, s, pos);
    } else if s.pieces != [] {
      if |Tail(Taken(s).buffer, NEWLINE)| <= MAX_SSE_FRAME {
        DrainReads(codec, s);
        MuteFails(codec, Taken(s));
      }
    } else {
      LastSegmentFits(s);
    }
  }

  lemma LastSegmentFits(s: Stream)
    requires s.pieces == [] && Find(s.buffer, NEWLINE) == |s.buffer| && |Tail(s.buffer, NEWLINE)| <= MAX_SSE_FRAME
    ensures Fits(Rest(s))
  {
    assert Rest(s) == s.buffer;
  }

  lemma LineOfRest(s: Stream, pos: nat)
    requires pos == Find(s.buffer, NEWLINE) < |s.buffer|
    ensures Find(Rest(s), NEWLINE) == pos < |Rest(s)| && Rest(s)[..pos] == s.buffer[..pos]
  {
    assert Rest(s)[..pos] == s.buffer[..pos];
    FindIs(Rest(s), NEWLINE, pos);
  }

  lemma LongLineFails(codec: Codec, s: Stream, pos: nat)
    requires !s.finished && MAX_SSE_FRAME < pos == Find(s.buffer, NEWLINE) < |s.buffer|
    ensures Drain(codec, s) == Transcript([], Some(Protocol))
  {
  }

  lemma DrainOfLine(codec: Codec, s: Stream, pos: nat)
    requires !s.finished && pos == Find(s.buffer, NEWLINE) < |s.buffer| && pos <= MAX_SSE_FRAME
    ensures match ParseLine(codec, s.buffer[..pos])
            case Malformed => Drain(codec, s) == Transcript([], Some(Protocol))
            case Skip => Drain(codec, s) == Drain(codec, Drained(s, pos))
            case _ => true
  {
    NextOfLine(codec, s, pos);
  }

  lemma {:induction false} MuteLineFails(codec: Codec, s: Stream, pos: nat)
    requires !s.finished && |Tail(s.buffer, NEWLINE)| <= MAX_SSE_FRAME
    requires !Fits(Rest(s)) && Mute(codec, Rest(s)) && pos == Find(s.buffer, NEWLINE) < |s.buffer|
    ensures Drain(codec, s) == Transcript([], Some(Protocol))
    decreases Left(s), |s.pieces|, 0
  {
    if pos > MAX_SSE_FRAME {
      LongLineFails(codec, s, pos);
    } else {
      var rest := Rest(s)[pos + 1..];
      LineOfRest(s, pos);
      DrainOfLine(codec, s, pos);
      FirstFits(Rest(s), pos, rest);
      MuteOfLine(codec, Rest(s), pos, rest);
      if ParseLine(codec, s.buffer[..pos]).Skip? {
        MuteFails(codec, Drained(s, pos));
      }
    }
  }

  lemma LongHead(segment: seq<byte>)
    requires Find(segment, NEWLINE) > MAX_SSE_FRAME
    ensures |Tail(segment[..MAX_SSE_FRAME + 1], NEWLINE)| > MAX_SSE_FRAME
  {
    var n := Find(segment, NEWLINE);
    var head := segment[..MAX_SSE_FRAME + 1];
    assert forall i :: 0 <= i < |head| ==> head[i] == segment[..n][i];
    assert head[..|head|] == head;
    FindIs(head, NEWLINE, |head|);
  }

  lemma LongSegment(bytes: seq<byte>)
    requires !Fits(bytes) && Find(bytes, NEWLINE) == |bytes|
    ensures |bytes| > MAX_SSE_FRAME
  {
    assert Split(bytes, NEWLINE) == [] && Tail(bytes, NEWLINE) == bytes;
  }

  /** Complete lines, one of which is delivered or ends the stream. */
  predicate Loud(codec: Codec, head: seq<byte>) {
    var n := Find(head, NEWLINE);
    n < |head| && n <= MAX_SSE_FRAME &&
    match ParseLine(codec, head[..n])
    case Skip => Loud(codec, head[n + 1..])
    case Malformed => false
    case _ => true
  }

  lemma PrependLine(codec: Codec, line: seq<byte>, rest: seq<byte>, all: seq<byte>)
    requires NEWLINE !in line && |line| <= MAX_SSE_FRAME && all == line + [NEWLINE] + rest
    ensures Tail(all, NEWLINE) == Tail(rest, NEWLINE)
    ensures Loud(codec, all) <==>
            match ParseLine(codec, line) case Skip => Loud(codec, rest) case Malformed => false case _ => true
  {
    var n := |line|;
    assert all[..n] == line && all[n + 1..] == rest;
    FindIs(all, NEWLINE, n);
  }

  lemma LineBefore(line: seq<byte>, rest: seq<byte>, before: seq<byte>, segment: seq<byte>, head: seq<byte>)
    requires rest == before + segment && head == line + [NEWLINE] + before
    ensures line + [NEWLINE] + rest == head + segment
  {
  }

  lemma MuteUnlessLoud(codec: Codec, bytes: seq<byte>, n: nat, rest: seq<byte>, before: seq<byte>, head: seq<byte>)
    requires n == Find(bytes, NEWLINE) < |bytes| && n <= MAX_SSE_FRAME && rest == bytes[n + 1..]
    requires head == bytes[..n] + [NEWLINE] + before && (Mute(codec, rest) || Loud(codec, before))
    ensures Mute(codec, bytes) || Loud(codec, head)
  {
    PrependLine(codec, bytes[..n], before, head);
    MuteOfLine(codec, bytes, n, rest);
  }

  lemma MuteOfLine(codec: Codec, bytes: seq<byte>, n: nat, rest: seq<byte>)
    requires n == Find(bytes, NEWLINE) < |bytes| && n <= MAX_SSE_FRAME && rest == bytes[n + 1..]
    ensures Mute(codec, bytes) <==>
            match ParseLine(codec, bytes[..n]) case Skip => Mute(codec, rest) case Malformed => true case _ => false
  {
  }

  /** The complete lines before the first oversized one, and the rest. */
  lemma {:induction false} FirstOversized(codec: Codec, bytes: seq<byte>) returns (head: seq<byte>, segment: seq<byte>)
    requires !Fits(bytes)
    ensures bytes == head + segment && Tail(head, NEWLINE) == [] && Find(segment, NEWLINE) > MAX_SSE_FRAME
    ensures Mute(codec, bytes) || Loud(codec, head)
  {
    var n := Find(bytes, NEWLINE);
    if n == |bytes| || n > MAX_SSE_FRAME {
      head, segment := [], bytes;
      if n == |bytes| {
        LongSegment(bytes);
      }
    } else {
      var line, rest := bytes[..n], bytes[n + 1..];
      FirstFits(bytes, n, rest);
      var before;
      before, segment := FirstOversized(codec, rest);
      head := line + [NEWLINE] + before;
      CutAt(bytes, n, NEWLINE);
      LineBefore(line, rest, before, segment, head);
      PrependLine(codec, line, before, head);
      MuteUnlessLoud(codec, bytes, n, rest, before, head);
    }
  }

  lemma TailAfterNewline(s: seq<byte>, more: seq<byte>)
    requires Tail(s, NEWLINE) == []
    ensures Tail(s + more, NEWLINE) == Tail(more, NEWLINE)
  {
    SplitAppend(s, more, NEWLINE);
    assert [] + more == more;
  }

  /** If those lines arrive alone, they are heard. */
  lemma {:induction false} HeardFirst(codec: Codec, s: Stream)
    requires !s.finished && Loud(codec, s.buffer)
    ensures Drain(codec, s) != Transcript([], Some(Protocol))
    decreases |s.buffer|
  {
    var n := Find(s.buffer, NEWLINE);
    if !ParseLine(codec, s.buffer[..n]).Skip? {
    } else {
      HeardFirst(codec, Drained(s, n));
    }
  }

  /** Two ways of cutting a stream that is not mute, with different transcripts. */
  lemma SomeCutsDiffer(codec: Codec, bytes: seq<byte>, broken: bool)
      returns (early: seq<seq<byte>>, late: seq<seq<byte>>)
    requires !Fits(bytes) && !Mute(codec, bytes)
    ensures Concat(early) == Concat(late) == bytes
    ensures Drain(codec, Opened(early, broken)) != Drain(codec, Opened(late, broken))
  {
    var head, segment := FirstOversized(codec, bytes);
    early, late := CutsOf(codec, head, segment, broken);
  }

  lemma CutsOf(codec: Codec, head: seq<byte>, segment: seq<byte>, broken: bool)
      returns (early: seq<seq<byte>>, late: seq<seq<byte>>)
    requires Tail(head, NEWLINE) == [] && Find(segment, NEWLINE) > MAX_SSE_FRAME && Loud(codec, head)
    ensures Concat(early) == Concat(late) == head + segment
    ensures Drain(codec, Opened(early, broken)) != Drain(codec, Opened(late, broken))
  {
    var start, end := segment[..MAX_SSE_FRAME + 1], segment[MAX_SSE_FRAME + 1..];
    early, late := [head + start, end], [head, segment];
    TwoPieces(head + start, end);
    TwoPieces(head, segment);
    assert head + segment == head + start + end;
    LongHead(segment);
    TailAfterNewline(head, start);
    EarlyFails(codec, head + start, end, broken);
    LateReads(codec, head, segment, broken);
    HeardFirst(codec, Taken(Opened(late, broken)));
  }

  lemma EarlyFails(codec: Codec, first: seq<byte>, second: seq<byte>, broken: bool)
    requires |Tail(first, NEWLINE)| > MAX_SSE_FRAME
    ensures Drain(codec, Opened([first, second], broken)) == Transcript([], Some(Protocol))
  {
    var s := Opened([first, second], broken);
    assert Taken(s).buffer == first;
  }

  lemma LateReads(codec: Codec, first: seq<byte>, second: seq<byte>, broken: bool)
    requires |Tail(first, NEWLINE)| <= MAX_SSE_FRAME
    ensures var s := Opened([first, second], broken);
            && Taken(s).buffer == first
            && Drain(codec, s) == Drain(codec, Taken(s))
  {
    var s := Opened([first, second], broken);
    assert Taken(s).buffer == first;
    assert Next(codec, s) == Next(codec, Taken(s));
  }

  lemma TwoPieces(first: seq<byte>, second: seq<byte>)
    ensures Concat([first, second]) == first + second
  {
    var pieces := [first, second];
    assert pieces[1..] == [second] && pieces[1..][1..] == [];
    assert Concat(pieces[1..]) == second + [];
  }

  /** The transcript is the same for all ways of cutting the bytes exactly when all
      lines are within the cap, or nothing is delivered before the one that is not. */
  lemma {:induction false} CutsDoNotMatterIff(codec: Codec, bytes: seq<byte>, broken: bool)
    ensures (forall a, b :: Concat(a) == bytes && Concat(b) == bytes ==>
          Drain(codec, Opened(a, broken)) == Drain(codec, Opened(b, broken)))
            <==> Fits(bytes) || Mute(codec, bytes)
  {
    if Fits(bytes) || Mute(codec, bytes) {
      forall a | Concat(a) == bytes
        ensures Drain(codec, Opened(a, broken)) ==
                if Fits(bytes) then Meaning(codec, bytes, broken) else Transcript([], Some(Protocol))
      {
        if Fits(bytes) {
          CutsDoNotMatter(codec, a, broken);
        } else {
          assert Rest(Opened(a, broken)) == bytes;
          MuteFails(codec, Opened(a, broken));
        }
      }
    } else {
      var early, late := SomeCutsDiffer(codec, bytes, broken);
    }
  }

  /** One byte more than a segment may have. */
  function Oversized(): seq<byte> {
    seq(MAX_SSE_FRAME + 1, _ => 65)
  }

  lemma OversizedIsOneSegment()
    ensures Find(Oversized(), NEWLINE) > MAX_SSE_FRAME
  {
  }

  /** Whatever line delivers a text or ends the stream, and whatever oversized segment
      follows it: the line is heard or not as the bytes are cut. */
  lemma CutsMatterAfter(codec: Codec, line: seq<byte>, segment: seq<byte>, broken: bool)
      returns (early: seq<seq<byte>>, late: seq<seq<byte>>)
    requires NEWLINE !in line && |line| <= MAX_SSE_FRAME && Find(segment, NEWLINE) > MAX_SSE_FRAME
    requires ParseLine(codec, line).Delta? || ParseLine(codec, line).Done?
    ensures Concat(early) == Concat(late) == line + [NEWLINE] + segment
    ensures Drain(codec, Opened(early, broken)) != Drain(codec, Opened(late, broken))
    ensures !Fits(Concat(early)) && !Mute(codec, Concat(early))
  {
    var head := line + [NEWLINE];
    assert head == line + [NEWLINE] + [];
    PrependLine(codec, line, [], head);
    early, late := CutsOf(codec, head, segment, broken);
    DifferingCuts(codec, early, late, broken);
  }

  lemma DifferingCuts(codec: Codec, a: seq<seq<byte>>, b: seq<seq<byte>>, broken: bool)
    requires Concat(a) == Concat(b)
    requires Drain(codec, Opened(a, broken)) != Drain(codec, Opened(b, broken))
    ensures !Fits(Concat(a)) && !Mute(codec, Concat(a))
  {
    CutsDoNotMatterIff(codec, Concat(a), broken);
  }

  /** Bytes are characters, and the data of an event is its text. */
  const PLAIN := Codec(
    (bytes: seq<byte>) => seq(|bytes|, i requires 0 <= i < |bytes| => bytes[i] as char),
    (data: string) => Some(data))

  /** "data:x" */
  const DATA_X: seq<byte> := [100, 97, 116, 97, 58, 120]

  lemma DataXIsText()
    ensures ParseLine(PLAIN, DATA_X) == Delta("x")
  {
    assert PLAIN.text(DATA_X) == "data:x";
    assert "data:x"[5..] == "x";
    assert Trim("x") == "x";
  }

  /** So the cuts do matter: one text, then too long a line. */
  lemma CutsMatter(broken: bool) returns (early: seq<seq<byte>>, late: seq<seq<byte>>)
    ensures Concat(early) == Concat(late) == DATA_X + [NEWLINE] + Oversized()
    ensures Drain(PLAIN, Opened(early, broken)) != Drain(PLAIN, Opened(late, broken))
  {
    DataXIsText();
    OversizedIsOneSegment();
    early, late := CutsMatterAfter(PLAIN, DATA_X, Oversized(), broken);
  }

  // ----- the stream object -----

  class LlmStream {
    const codec: Codec
    var pieces: seq<seq<byte>>
    var broken: bool
    var buffer: seq<byte>
    var finished: bool

    constructor (codec: Codec, pieces: seq<seq<byte>>, broken: bool)
      ensures this.codec == codec && State() == Opened(pieces, broken) && Valid()
    {
      this.codec, this.pieces, this.broken, this.buffer, this.finished := codec, pieces, broken, [], false;
    }

    function State(): Stream
      reads this
    {
      Stream(pieces, broken, buffer, finished)
    }

    /** The unterminated segment in memory stays within the cap. */
    ghost predicate Valid()
      reads this
    {
      !finished ==> |Tail(buffer, NEWLINE)| <= MAX_SSE_FRAME
    }

    /** Start of the segment after the last newline. */
    method LastNewline() returns (start: nat)
      ensures start <= |buffer| && buffer[start..] == Tail(buffer, NEWLINE)
    {
      start := |buffer|;
      while start > 0 && buffer[start - 1] != NEWLINE
        invariant start <= |buffer| && NEWLINE !in buffer[start..]
      {
        assert buffer[start - 1..] == [buffer[start - 1]] + buffer[start..];
        start := start - 1;
      }
      TailIs(buffer, start);
    }

    /** Read one more piece, with no complete line and at most a capped one in memory. */
    method Read() returns (ok: bool)
      requires !finished && pieces != []
      requires NEWLINE !in buffer && |buffer| <= MAX_SSE_FRAME
      modifies this`pieces, this`buffer, this`finished
      ensures Valid() && ok == (|Tail(Taken(old(State())).buffer, NEWLINE)| <= MAX_SSE_FRAME)
      ensures State() == Taken(old(State())).(finished := !ok)
    {
      buffer, pieces := buffer + pieces[0], pieces[1..];
      var start := LastNewline();
      ok := |buffer[start..]| <= MAX_SSE_FRAME;
      finished := !ok;
    }

    method NextFragment() returns (outcome: Outcome)
      requires Valid()
      modifies this`pieces, this`buffer, this`finished
      ensures Valid() && (outcome, State()) == Next(codec, old(State()))
    {
      while true
        invariant Valid() && broken == old(broken)
        invariant Next(codec, State()) == Next(codec, old(State()))
        decreases |pieces|, |buffer|
      {
        if finished {
          return End;
        }
        var pos := Find(buffer, NEWLINE);
        if pos < |buffer| {
          if pos > MAX_SSE_FRAME {
            finished := true;
            return Failed(Protocol);
          }
          var skip;
          skip, outcome := TakeLine(pos);
          if !skip {
            return;
          }
        } else if pieces != [] {
          assert buffer[..pos] == buffer;
          var ok := Read();
          if !ok {
            return Failed(Protocol);
          }
        } else {
          outcome := LastSegment();
          return;
        }
      }
    }

    /** Consume a complete line. */
    method TakeLine(pos: nat) returns (skip: bool, outcome: Outcome)
      requires !finished && Valid() && pos == Find(buffer, NEWLINE) < |buffer| && pos <= MAX_SSE_FRAME
      modifies this`buffer, this`finished
      ensures Valid() && |buffer| < |old(buffer)|
      ensures skip ==> Next(codec, State()) == Next(codec, old(State()))
      ensures !skip ==> (outcome, State()) == Next(codec, old(State()))
    {
      var line := buffer[..pos];
      NextOfLine(codec, State(), pos);
      buffer := buffer[pos + 1..];
      assert State() == Drained(old(State()), pos);
      skip, outcome := false, End;
      match ParseLine(codec, line)
      case Malformed =>
        outcome := Failed(Protocol);
      case Delta(text) =>
        outcome := Fragment(text);
      case Done =>
        finished := true;
      case Skip =>
        skip := true;
    }

    /** The body has ended, or the connection broke. */
    method LastSegment() returns (outcome: Outcome)
      requires !finished && pieces == [] && Find(buffer, NEWLINE) == |buffer|
      modifies this`buffer, this`finished
      ensures (outcome, State()) == Next(codec, old(State()))
    {
      finished := true;
      if broken {
        return Failed(Connection);
      }
      if buffer == [] {
        return End;
      }
      var rest := buffer;
      buffer := [];
      match ParseLine(codec, rest)
      case Malformed =>
        return Failed(Protocol);
      case Delta(text) =>
        return Fragment(text);
      case _ =>
        return End;
    }

    /** A caller that takes fragments until the end or an error. */
    method TakeAll() returns (transcript: Transcript)
      requires Valid()
      modifies this`pieces, this`buffer, this`finished
      ensures transcript == Drain(codec, old(State()))
      ensures !old(finished) && Fits(Rest(old(State()))) ==>
          transcript == Meaning(codec, Rest(old(State())), old(broken))
    {
      var fragments := [];
      while true
        invariant Valid()
        invariant Drain(codec, old(State())) == Extended(fragments, Drain(codec, State()))
        decreases Left(State())
      {
        var outcome := NextFragment();
        match outcome
        case Fragment(text) =>
          assert fragments + ([text] + Drain(codec, State()).fragments) ==
              fragments + [text] + Drain(codec, State()).fragments;
          fragments := fragments + [text];
        case End =>
          transcript := Transcript(fragments, None);
          break;
        case Failed(error) =>
          transcript := Transcript(fragments, Some(error));
          break;
      }
      if !old(finished) && Fits(Rest(old(State()))) {
        DrainIsMeaning(codec, old(State()));
      }
    }
  }

  function Extended(fragments: seq<string>, t: Transcript): Transcript {
    t.(fragments := fragments + t.fragments)
  }

  lemma {:induction false} TailIs(bytes: seq<byte>, start: nat)
    requires start <= |bytes| && NEWLINE !in bytes[start..]
    requires start > 0 ==> bytes[start - 1] == NEWLINE
    ensures Tail(bytes, NEWLINE) == bytes[start..]
    decreases |bytes|
  {
    var n := Find(bytes, NEWLINE);
    if start == 0 {
      assert bytes[0..] == bytes;
      FindIs(bytes, NEWLINE, |bytes|);
    } else {
      forall i | 0 <= i < n
        ensures bytes[i] != NEWLINE
      {
        assert bytes[..n][i] == bytes[i];
      }
      var rest := bytes[n + 1..];
      assert rest[start - n - 1..] == bytes[start..];
      TailIs(rest, start - n - 1);
    }
  }
}

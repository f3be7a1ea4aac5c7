/** The event stream as section 9.2.6 of the WHATWG HTML Living Standard reads it,
    and when the client's parser agrees. */
module StandardEvents {
  import opened Options
  import opened Lines
  import opened ClientEvents

  // ----- lines -----

  predicate EndsLine(c: char) {
    c == '\n' || c == '\r'
  }

  /** Index of the first character that ends a line, or the length. */
  function FindEnd(text: string): (n: nat)
    ensures n <= |text| && forall i :: 0 <= i < n ==> !EndsLine(text[i])
    ensures n < |text| ==> EndsLine(text[n])
  {
    if text == "" || EndsLine(text[0]) then 0 else 1 + FindEnd(text[1..])
  }

  /** What follows the line end at `n`: one character, or a return and newline. */
  function After(text: string, n: nat): string
    requires n < |text|
  {
    if text[n] == '\r' && n + 1 < |text| && text[n + 1] == '\n' then text[n + 2..] else text[n + 1..]
  }

  /** The terminated lines of a text. */
  function LinesOf(text: string): seq<string>
    decreases |text|
  {
    var n := FindEnd(text);
    if n == |text| then [] else [text[..n]] + LinesOf(After(text, n))
  }

  function Rest(text: string): string
    decreases |text|
  {
    var n := FindEnd(text);
    if n == |text| then text else Rest(After(text, n))
  }

  // ----- events -----

  /** An event without data is dropped; an empty name counts as none. */
  function Emitted(p: Pending): seq<Event> {
    if p.data == [] then []
    else [Event(if p.name.Some? && p.name.value != "" then p.name.value else "message", JoinData(p.data))]
  }

  /** What is pending at the end is dropped. */
  function ReadStandard(p: Pending, lines: seq<string>): seq<Event>
    decreases |lines|
  {
    if lines == [] then []
    else if lines[0] == "" then Emitted(p) + ReadStandard(NOTHING, lines[1..])
    else ReadStandard(Noted(p, lines[0]), lines[1..])
  }

  function Interpreted(text: string): seq<Event> {
    ReadStandard(NOTHING, LinesOf(text))
  }

  // ----- when both read the same -----

  /** Nothing, or an event with data and without an empty name. */
  predicate Proper(p: Pending) {
    p == NOTHING || (p.data != [] && p.name != Some(""))
  }

  /** Every event is ended by a blank line, and is proper. */
  predicate Regular(p: Pending, lines: seq<string>)
    decreases |lines|
  {
    if lines == [] then p == NOTHING
    else if lines[0] == "" then Proper(p) && Regular(NOTHING, lines[1..])
    else Regular(Noted(p, lines[0]), lines[1..])
  }

  /** The client's events from lines already stripped. */
  function ReadClient(p: Pending, lines: seq<string>): seq<Event> {
    var (events, last) := ReadPlain(p, lines);
    events + Dispatched(last)
  }

  lemma ReadClientStep(p: Pending, lines: seq<string>)
    requires lines != []
    ensures ReadClient(p, lines) == if lines[0] == "" then Dispatched(p) + ReadClient(NOTHING, lines[1..])
                                    else ReadClient(Noted(p, lines[0]), lines[1..])
  {
    if lines[0] == "" {
      var (events, last) := ReadPlain(NOTHING, lines[1..]);
      assert Dispatched(p) + events + Dispatched(last) == Dispatched(p) + (events + Dispatched(last));
    }
  }

  lemma {:induction false} FewerEmitted(p: Pending, lines: seq<string>)
    ensures |ReadStandard(p, lines)| <= |ReadClient(p, lines)|
    decreases |lines|
  {
    if lines == [] {
    } else {
      ReadClientStep(p, lines);
      FewerEmitted(if lines[0] == "" then NOTHING else Noted(p, lines[0]), lines[1..]);
    }
  }

  lemma HeadsDecide(p: Pending, client: seq<Event>, standard: seq<Event>)
    requires |standard| <= |client|
    ensures Dispatched(p) + client == Emitted(p) + standard <==> Proper(p) && client == standard
  {
    if Proper(p) {
      assert Dispatched(p) == Emitted(p);
      var n := |Emitted(p)|;
      assert (Dispatched(p) + client)[n..] == client && (Emitted(p) + standard)[n..] == standard;
    } else if p.data != [] {
      assert (Dispatched(p) + client)[0] != (Emitted(p) + standard)[0];
    } else {
      assert |Dispatched(p) + client| > |Emitted(p) + standard|;
    }
  }

  lemma {:induction false} AgreeIffRegular(p: Pending, lines: seq<string>)
    ensures ReadClient(p, lines) == ReadStandard(p, lines) <==> Regular(p, lines)
    decreases |lines|
  {
    if lines == [] {
      assert ReadClient(p, lines) == [] + Dispatched(p) == Dispatched(p);
    } else {
      ReadClientStep(p, lines);
      if lines[0] == "" {
        AgreeIffRegular(NOTHING, lines[1..]);
        FewerEmitted(NOTHING, lines[1..]);
        HeadsDecide(p, ReadClient(NOTHING, lines[1..]), ReadStandard(NOTHING, lines[1..]));
      } else {
        AgreeIffRegular(Noted(p, lines[0]), lines[1..]);
      }
    }
  }

  // ----- texts -----

  /** Every carriage return is followed by a newline. */
  predicate NoLoneReturn(text: string) {
    forall i :: 0 <= i < |text| && text[i] == '\r' ==> i + 1 < |text| && text[i + 1] == '\n'
  }

  function Stripped(lines: seq<string>): seq<string> {
    if lines == [] then [] else [StripReturn(lines[0])] + Stripped(lines[1..])
  }

  /** Lines, with an unterminated last one unless it is empty. */
  function WithRest(lines: seq<string>, rest: string): seq<string> {
    lines + if rest == "" then [] else [rest]
  }

  lemma {:induction false} ReadStripped(p: Pending, lines: seq<string>)
    ensures Read(p, lines) == ReadPlain(p, Stripped(lines))
    decreases |lines|
  {
    if lines == [] {
    } else {
      var line := StripReturn(lines[0]);
      assert Stripped(lines)[1..] == Stripped(lines[1..]);
      ReadStripped(if line == "" then NOTHING else Noted(p, line), lines[1..]);
    }
  }

  lemma {:induction false} StrippedAppend(a: seq<string>, b: seq<string>)
    ensures Stripped(a + b) == Stripped(a) + Stripped(b)
  {
    if a == [] {
      assert a + b == b && Stripped(a) + Stripped(b) == Stripped(b);
    } else {
      assert (a + b)[1..] == a[1..] + b;
      StrippedAppend(a[1..], b);
    }
  }

  /** What is not ended is not read. */
  lemma {:induction false} RestIsIgnored(p: Pending, lines: seq<string>, rest: string)
    ensures ReadStandard(p, WithRest(lines, rest)) == ReadStandard(p, lines)
    decreases |lines|
  {
    if lines == [] {
      if rest != "" {
        assert [rest][1..] == [];
      }
    } else {
      assert WithRest(lines, rest)[1..] == WithRest(lines[1..], rest);
      RestIsIgnored(if lines[0] == "" then NOTHING else Noted(p, lines[0]), lines[1..], rest);
    }
  }

  /** The two readers agree on the lines of the standard exactly when these are regular. */
  lemma LinesAgreeIff(text: string)
    ensures var lines := WithRest(LinesOf(text), Rest(text));
            ReadClient(NOTHING, lines) == Interpreted(text) <==> Regular(NOTHING, lines)
  {
    RestIsIgnored(NOTHING, LinesOf(text), Rest(text));
    AgreeIffRegular(NOTHING, WithRest(LinesOf(text), Rest(text)));
  }

  lemma FirstEnd(text: string, n: nat)
    requires NoLoneReturn(text) && n == Find(text, '\n') < |text|
    ensures StripReturn(text[..n]) == text[..FindEnd(text)]
    ensures FindEnd(text) < |text| && After(text, FindEnd(text)) == text[n + 1..]
  {
    var m := FindEnd(text);
    if m < n {
      assert text[m] == '\r' && text[m + 1] == '\n';
      assert m + 1 == n;
      assert text[..n] == text[..m] + ['\r'];
    } else {
      assert m == n;
      if n > 0 {
        assert !EndsLine(text[n - 1]);
      }
    }
  }

  lemma NoReturnAt(text: string, i: nat)
    requires NoLoneReturn(text) && Find(text, '\n') == |text| && i < |text|
    ensures text[i] != '\r'
  {
    var next := if i + 1 < |text| then text[i + 1] else ' ';
    assert next != '\n';
  }

  lemma NoEnd(text: string)
    requires NoLoneReturn(text) && Find(text, '\n') == |text|
    ensures FindEnd(text) == |text|
  {
    forall i | 0 <= i < |text|
      ensures !EndsLine(text[i])
    {
      NoReturnAt(text, i);
    }
  }

  /** Without lone carriage returns both cut a text into the same lines. */
  lemma {:induction false} SameLines(text: string)
    requires NoLoneReturn(text)
    ensures Stripped(Split(text, '\n')) == LinesOf(text) && Tail(text, '\n') == Rest(text)
    ensures StripReturn(Rest(text)) == Rest(text)
    decreases |text|
  {
    var n := Find(text, '\n');
    if n == |text| {
      NoEnd(text);
      if text != "" {
        assert !EndsLine(text[|text| - 1]);
      }
    } else {
      FirstEnd(text, n);
      var rest := text[n + 1..];
      forall i | 0 <= i < |rest| && rest[i] == '\r'
        ensures i + 1 < |rest| && rest[i + 1] == '\n'
      {
        assert text[n + 1 + i] == '\r';
      }
      SameLines(rest);
      SplitFirst(text, '\n', n, rest);
      assert Split(text, '\n')[1..] == Split(rest, '\n');
    }
  }

  lemma ClientReads(text: string)
    requires NoLoneReturn(text)
    ensures Events(text) == ReadClient(NOTHING, WithRest(LinesOf(text), Rest(text)))
  {
    SameLines(text);
    var rest := Rest(text);
    var last := if rest == "" then [] else [rest];
    ReadStripped(NOTHING, AllLines(text));
    StrippedAppend(Split(text, '\n'), last);
    assert rest != "" ==> [rest][1..] == [];
    assert Stripped(last) == last;
  }

  /** On a text without lone carriage returns the client hears what the standard
      says exactly when every event is ended by a blank line and has data, and no
      name is empty. */
  lemma {:induction false} AgreesIff(text: string)
    requires NoLoneReturn(text)
    ensures Events(text) == Interpreted(text) <==> Regular(NOTHING, WithRest(LinesOf(text), Rest(text)))
  {
    ClientReads(text);
    LinesAgreeIff(text);
  }

  /** The same text with every line ended by a newline. */
  function Normalised(text: string): string {
    Join(LinesOf(text), Rest(text), '\n')
  }

  predicate Unbroken(line: string) {
    '\n' !in line && '\r' !in line
  }

  lemma {:induction false} LinesHaveNoEnds(text: string)
    ensures forall i :: 0 <= i < |LinesOf(text)| ==> Unbroken(LinesOf(text)[i])
    ensures Unbroken(Rest(text))
    decreases |text|
  {
    var n := FindEnd(text);
    assert Unbroken(text[..n]);
    if n == |text| {
      assert text[..n] == text;
    } else {
      LinesHaveNoEnds(After(text, n));
    }
  }

  lemma {:induction false} NothingToStrip(lines: seq<string>)
    requires forall i :: 0 <= i < |lines| ==> '\r' !in lines[i]
    ensures Stripped(lines) == lines
  {
    if lines == [] {
    } else {
      NothingToStrip(lines[1..]);
      assert lines == [lines[0]] + lines[1..];
    }
  }

  /** On any text: what the standard says is what the client hears of the text with
      its line ends normalised, exactly under the same condition. */
  lemma {:induction false} NormalisedAgreesIff(text: string)
    ensures Events(Normalised(text)) == Interpreted(text) <==> Regular(NOTHING, WithRest(LinesOf(text), Rest(text)))
  {
    var lines, rest := LinesOf(text), Rest(text);
    LinesHaveNoEnds(text);
    SplitJoin(lines, rest, '\n');
    var all := WithRest(lines, rest);
    ReadStripped(NOTHING, all);
    NothingToStrip(all);
    LinesAgreeIff(text);
  }

  // ----- where they differ -----

  lemma {:induction false} JoinHasNoReturn(lines: seq<string>)
    requires forall i :: 0 <= i < |lines| ==> Unbroken(lines[i])
    ensures '\r' !in Join(lines, "", '\n')
  {
    if lines == [] {
    } else {
      JoinHasNoReturn(lines[1..]);
    }
  }

  lemma OnLines(lines: seq<string>)
    requires forall i :: 0 <= i < |lines| ==> Unbroken(lines[i])
    ensures Events(Join(lines, "", '\n')) == ReadClient(NOTHING, lines)
    ensures Interpreted(Join(lines, "", '\n')) == ReadStandard(NOTHING, lines)
  {
    var text := Join(lines, "", '\n');
    JoinHasNoReturn(lines);
    SplitJoin(lines, "", '\n');
    NothingToStrip(lines);
    SameLines(text);
    ClientReads(text);
    assert WithRest(lines, "") == lines;
  }

  lemma FieldRead(p: Pending, line: string, rest: seq<string>)
    requires line != ""
    ensures ReadClient(p, [line] + rest) == ReadClient(Noted(p, line), rest)
    ensures ReadStandard(p, [line] + rest) == ReadStandard(Noted(p, line), rest)
  {
    assert ([line] + rest)[1..] == rest;
  }

  lemma BlankRead(p: Pending)
    ensures ReadClient(p, [""]) == Dispatched(p) && ReadStandard(p, [""]) == Emitted(p)
  {
    assert [""][1..] == [];
    ReadClientStep(p, [""]);
  }

  lemma OneData(name: Option<string>, data: string)
    ensures Noted(Pending(name, []), "data: " + data) == Pending(name, [data])
    ensures JoinData([data]) == data
  {
    NotedData(Pending(name, []), data);
    assert [] + [data] == [data];
    assert [data][..0] == [];
  }

  /** An event the stream does not finish is heard all the same. */
  lemma UnfinishedIsHeard(data: string)
    requires Unbroken(data)
    ensures var text := Join(["data: " + data], "", '\n');
            Events(text) == [Event("message", data)] && Interpreted(text) == []
  {
    var line := "data: " + data;
    OnLines([line]);
    OneData(None, data);
    assert [line] + [] == [line];
    FieldRead(NOTHING, line, []);
  }

  /** So is a name without data. */
  lemma NameAloneIsHeard(name: string)
    requires Unbroken(name)
    ensures var text := Join(["event: " + name] + [""], "", '\n');
            Events(text) == [Event(name, "")] && Interpreted(text) == []
  {
    var lines := ["event: " + name] + [""];
    NameAloneRead(name);
    assert lines[0] == "event: " + name && lines[1] == "";
    OnLines(lines);
  }

  lemma NameAloneRead(name: string)
    ensures ReadClient(NOTHING, ["event: " + name] + [""]) == [Event(name, "")]
    ensures ReadStandard(NOTHING, ["event: " + name] + [""]) == []
  {
    var p := Pending(Some(name), []);
    NotedEvent(NOTHING, name);
    FieldRead(NOTHING, "event: " + name, [""]);
    BlankRead(p);
    assert Dispatched(p) == [Event(name, "")] && Emitted(p) == [];
  }

  /** An empty name is passed on, and makes the event one of unknown type. */
  lemma EmptyNameIsKept(data: string)
    requires Unbroken(data)
    ensures var text := Join(["event: "] + (["data: " + data] + [""]), "", '\n');
            Events(text) == [Event("", data)] && Interpreted(text) == [Event("message", data)]
  {
    var line := "data: " + data;
    assert "event: " == "event: " + "";
    OnLines(["event: "] + ([line] + [""]));
    NotedEvent(NOTHING, "");
    FieldRead(NOTHING, "event: ", [line] + [""]);
    OneData(Some(""), data);
    FieldRead(Pending(Some(""), []), line, [""]);
    BlankRead(Pending(Some(""), [data]));
  }

  lemma LineEnds(line: string, c: char, more: string)
    requires Unbroken(line) && EndsLine(c) && (c == '\r' ==> more == "" || more[0] != '\n')
    ensures LinesOf(line + [c] + more) == [line] + LinesOf(more)
  {
    var text := line + [c] + more;
    var n := FindEnd(text);
    assert text[|line|] == c && forall i :: 0 <= i < |line| ==> text[i] == line[i];
    assert n == |line|;
    assert text[..n] == line && text[n + 1..] == more;
  }

  lemma BlankLine()
    ensures LinesOf("\n") == [""]
  {
    LineEnds("", '\n', "");
    assert "" + ['\n'] + "" == "\n";
  }

  lemma TwoDataRead(a: string, b: string)
    ensures ReadStandard(NOTHING, ["data: " + a] + (["data: " + b] + [""])) == [Event("message", a + ['\n'] + b)]
  {
    OneData(None, a);
    FieldRead(NOTHING, "data: " + a, ["data: " + b] + [""]);
    NotedData(Pending(None, [a]), b);
    FieldRead(Pending(None, [a]), "data: " + b, [""]);
    BlankRead(Pending(None, [a] + [b]));
    assert ([a] + [b])[..1] == [a] && [a][1..] == [];
    assert Join([a], b, '\n') == a + ['\n'] + b;
  }

  /** A lone carriage return ends a line of the standard, and none of the client. */
  lemma LoneReturnJoins(a: string, b: string)
    requires Unbroken(a) && Unbroken(b)
    ensures var first, second := "data: " + a, "data: " + b;
            var text := first + ['\r'] + (second + ['\n'] + "\n");
            && Events(text) == [Event("message", a + ['\r'] + second)]
            && Interpreted(text) == [Event("message", a + ['\n'] + b)]
  {
    var first, second := "data: " + a, "data: " + b;
    BlankLine();
    LineEnds(second, '\n', "\n");
    LineEnds(first, '\r', second + ['\n'] + "\n");
    TwoDataRead(a, b);
    ClientOfLoneReturn(a, second);
  }

  lemma ClientOfLoneReturn(a: string, second: string)
    requires Unbroken(a) && Unbroken(second) && second != ""
    ensures Events("data: " + a + ['\r'] + (second + ['\n'] + "\n")) == [Event("message", a + ['\r'] + second)]
  {
    var data := a + ['\r'] + second;
    assert '\n' !in data && data[|data| - 1] == second[|second| - 1];
    ClientOfOne(data);
    Regroup("data: ", a, ['\r'], second, ['\n'], "\n");
  }

  lemma Regroup(head: string, a: string, c: string, b: string, end: string, last: string)
    ensures head + a + c + (b + end + last) == head + (a + c + b) + end + last
  {
  }

  lemma ClientOfOne(data: string)
    requires '\n' !in data && data != "" && data[|data| - 1] != '\r'
    ensures Events("data: " + data + ['\n'] + "\n") == [Event("message", data)]
  {
    var line := "data: " + data;
    var lines := [line] + [""];
    JoinedTwo(line);
    SplitJoin(lines, "", '\n');
    assert lines + [] == lines;
    ReadStripped(NOTHING, lines);
    StrippedTwo(line);
    DataRead(data);
  }

  lemma DataRead(data: string)
    ensures ReadClient(NOTHING, ["data: " + data] + [""]) == [Event("message", data)]
  {
    OneData(None, data);
    FieldRead(NOTHING, "data: " + data, [""]);
    BlankRead(Pending(None, [data]));
  }

  lemma JoinedTwo(line: string)
    ensures Join([line] + [""], "", '\n') == line + ['\n'] + "\n"
  {
    JoinCons(line, [""], "", '\n');
    assert [""][1..] == [];
    assert Join([""], "", '\n') == "" + ['\n'] + "" == "\n";
  }

  lemma StrippedTwo(line: string)
    requires StripReturn(line) == line
    ensures Stripped([line] + [""]) == [line] + [""]
  {
    assert ([line] + [""])[1..] == [""] && [""][1..] == [];
  }
}

/** Markdown heading lines, with fenced code blocks taken into account.  Offsets
    count characters. */
module Headings {
  import opened Options

  /** `char::is_whitespace`: the Unicode White_Space property. */
  predicate IsSpace(c: char) {
    || '\t' <= c <= '\r' || c == ' ' || c == '\U{85}' || c == '\U{A0}' || c == '\U{1680}'
    || '\U{2000}' <= c <= '\U{200A}' || c == '\U{2028}' || c == '\U{2029}' || c == '\U{202F}' || c == '\U{205F}'
    || c == '\U{3000}'
  }

  function TrimStart(s: string): string {
    if s != "" && IsSpace(s[0]) then TrimStart(s[1..]) else s
  }

  function TrimEnd(s: string): string {
    if s != "" && IsSpace(s[|s| - 1]) then TrimEnd(s[..|s| - 1]) else s
  }

  function Trim(s: string): string {
    TrimEnd(TrimStart(s))
  }

  /** Indentation goes, whatever spaces it is made of, and what follows stays. */
  lemma {:induction false} TrimsIndentation(indent: string, rest: string)
    requires forall i :: 0 <= i < |indent| ==> IsSpace(indent[i])
    requires rest == "" || !IsSpace(rest[0])
    ensures TrimStart(indent + rest) == rest
  {
    if indent == "" {
      assert indent + rest == rest;
    } else {
      assert (indent + rest)[1..] == indent[1..] + rest;
      TrimsIndentation(indent[1..], rest);
    }
  }

  lemma {:induction false} TrimsEnd(text: string, spaces: string)
    requires forall i :: 0 <= i < |spaces| ==> IsSpace(spaces[i])
    requires text == "" || !IsSpace(text[|text| - 1])
    ensures TrimEnd(text + spaces) == text
    decreases |spaces|
  {
    if spaces == "" {
      assert text + spaces == text;
    } else {
      assert (text + spaces)[..|text + spaces| - 1] == text + spaces[..|spaces| - 1];
      TrimsEnd(text, spaces[..|spaces| - 1]);
    }
  }

  /** A text without spaces at its ends is what trimming leaves of it with any around it. */
  lemma {:induction false} TrimsAround(before: string, text: string, after: string)
    requires forall i :: 0 <= i < |before| ==> IsSpace(before[i])
    requires forall i :: 0 <= i < |after| ==> IsSpace(after[i])
    requires text != "" && !IsSpace(text[0]) && !IsSpace(text[|text| - 1])
    ensures Trim(before + text + after) == text
    ensures IsSpace(' ') && IsSpace('\t') && IsSpace('\r') && !IsSpace('#')
  {
    assert before + text + after == before + (text + after);
    TrimsIndentation(before, text + after);
    TrimsEnd(text, after);
  }

  /** Number of leading hashes. */
  function Hashes(line: string): (n: nat)
    ensures n <= |line|
    ensures forall i :: 0 <= i < n ==> line[i] == '#'
    ensures n < |line| ==> line[n] != '#'
  {
    if line == "" || line[0] != '#' then 0 else 1 + Hashes(line[1..])
  }

  /** One to six hashes and a space. */
  predicate IsHeading(line: string) {
    1 <= Hashes(line) <= 6 && Hashes(line) < |line| && line[Hashes(line)] == ' '
  }

  /** The scan looks at seven characters at most. */
  method IsHeadingLine(line: string) returns (r: bool)
    ensures r <==> IsHeading(line)
  {
    var hashes := 0;
    while hashes < 7 && hashes < |line| && line[hashes] == '#'
      invariant 0 <= hashes <= 7 && hashes <= |line| && forall i :: 0 <= i < hashes ==> line[i] == '#'
    {
      hashes := hashes + 1;
    }
    HashesAre(line, hashes);
    r := 1 <= hashes <= 6 && hashes < |line| && line[hashes] == ' ';
  }

  lemma HashesAre(line: string, n: nat)
    requires n <= |line| && forall i :: 0 <= i < n ==> line[i] == '#'
    ensures Hashes(line) >= n && (n == |line| || line[n] != '#' ==> Hashes(line) == n)
  {
  }

  /** n hashes, then a space. */
  predicate Marks(line: string, n: nat) {
    n < |line| && line[n] == ' ' && forall i :: 0 <= i < n ==> line[i] == '#'
  }

  /** A heading line is marked by one to six hashes and a space, and no other is. */
  lemma IsHeadingIff(line: string)
    ensures IsHeading(line) <==> exists n :: 1 <= n <= 6 && Marks(line, n)
  {
    if IsHeading(line) {
      assert Marks(line, Hashes(line));
    }
    if n :| 1 <= n <= 6 && Marks(line, n) {
      HashesAre(line, n);
    }
  }

  // ----- fences -----

  const BACKTICKS := "```"
  const TILDES := "~~~"

  /** The fence state after a line: a fence closes only on its own marker. */
  function NextFence(fence: Option<string>, trimmed: string): Option<string> {
    match fence
    case Some(open) => if open <= trimmed then None else fence
    case None => if BACKTICKS <= trimmed then Some(BACKTICKS) else if TILDES <= trimmed then Some(TILDES) else None
  }

  // ----- the line-by-line specification -----

  /** End of the line that starts at `p`: its newline, or the end of the text. */
  function LineEnd(text: string, p: nat): (e: nat)
    requires p <= |text|
    ensures p <= e <= |text| && (e < |text| ==> text[e] == '\n')
    ensures forall i :: p <= i < e ==> text[i] != '\n'
    decreases |text| - p
  {
    if p == |text| || text[p] == '\n' then p else LineEnd(text, p + 1)
  }

  function Line(text: string, p: nat): string
    requires p <= |text|
  {
    text[p..LineEnd(text, p)]
  }

  /** Headings of the text from the line start `p` on, given the fence state there. */
  function HeadingsFrom(text: string, p: nat, fence: Option<string>): seq<nat>
    decreases |text| - p
  {
    if p >= |text| then []
    else
      var trimmed := TrimStart(Line(text, p));
      (if fence.None? && IsHeading(trimmed) then [p] else [])
      + HeadingsFrom(text, LineEnd(text, p) + 1, NextFence(fence, trimmed))
  }

  function HeadingOffsets(text: string): seq<nat> {
    HeadingsFrom(text, 0, None)
  }

  lemma HeadingIsNoFence(trimmed: string)
    requires IsHeading(trimmed)
    ensures !(BACKTICKS <= trimmed) && !(TILDES <= trimmed)
  {
    assert trimmed[0] == '#';
    assert BACKTICKS[0] == '`' && TILDES[0] == '~';
  }

  /** What one complete line does: maybe a heading, maybe a fence. */
  method ScanLine(fence: Option<string>, trimmed: string) returns (heading: bool, next: Option<string>)
    ensures heading <==> fence.None? && IsHeading(trimmed)
    ensures next == NextFence(fence, trimmed)
  {
    heading, next := false, fence;
    NotBoth(trimmed);
    if fence.Some? {
      if fence.value <= trimmed {
        next := None;
      }
    } else if BACKTICKS <= trimmed {
      next := Some(BACKTICKS);
    } else if TILDES <= trimmed {
      next := Some(TILDES);
    } else {
      heading := IsHeadingLine(trimmed);
    }
  }

  /** The heading, if any, of the line at `p`. */
  function LineHeading(text: string, p: nat, fence: Option<string>): seq<nat>
    requires p <= |text|
  {
    if fence.None? && IsHeading(TrimStart(Line(text, p))) then [p] else []
  }

  lemma Reassociate<T>(a: seq<T>, b: seq<T>, c: seq<T>)
    ensures a + (b + c) == (a + b) + c
  {
  }

  lemma HeadingsUnfold(text: string, q: nat, fence: Option<string>)
    requires q < |text|
    ensures HeadingsFrom(text, q, fence)
         == LineHeading(text, q, fence)
            + HeadingsFrom(text, LineEnd(text, q) + 1, NextFence(fence, TrimStart(Line(text, q))))
  {
  }

  lemma LineStep(text: string, p: nat, e: nat, fence: Option<string>, before: seq<nat>)
    requires p < |text| && e == LineEnd(text, p)
    ensures before + HeadingsFrom(text, p, fence)
         == (before + LineHeading(text, p, fence)) + HeadingsFrom(text, e + 1, NextFence(fence, TrimStart(text[p..e])))
  {
    HeadingsUnfold(text, p, fence);
    Reassociate(before, LineHeading(text, p, fence),
                HeadingsFrom(text, e + 1, NextFence(fence, TrimStart(Line(text, p)))));
  }

  lemma LineEndsAt(text: string, p: nat, e: nat)
    requires p <= e <= |text| && e <= LineEnd(text, p) && (e == |text| || text[e] == '\n')
    ensures LineEnd(text, p) == e
  {
  }

  /** Read the complete line from `p` to its newline at `e`. */
  method ReadLine(text: string, p: nat, e: nat, fence: Option<string>, before: seq<nat>)
      returns (out: seq<nat>, next: Option<string>)
    requires p < |text| && p <= e < |text| && text[e] == '\n' && e <= LineEnd(text, p)
    ensures out + HeadingsFrom(text, e + 1, next) == before + HeadingsFrom(text, p, fence)
  {
    LineEndsAt(text, p, e);
    LineStep(text, p, e, fence, before);
    var heading;
    heading, next := ScanLine(fence, TrimStart(text[p..e]));
    out := before + if heading then [p] else [];
  }

  /** Read the last line, which has no newline. */
  method ReadRest(text: string, p: nat, fence: Option<string>, before: seq<nat>) returns (out: seq<nat>)
    requires p < |text| <= LineEnd(text, p)
    ensures out == before + HeadingsFrom(text, p, fence)
  {
    LineEndsAt(text, p, |text|);
    LineStep(text, p, |text|, fence, before);
    assert text[p..] == Line(text, p);
    var heading := LastLine(fence, TrimStart(text[p..]));
    out := before + if heading then [p] else [];
    assert out + [] == out;
  }

  lemma LineGoesOn(text: string, p: nat, i: nat)
    requires p <= i < |text| && LineEnd(text, p) >= i && text[i] != '\n'
    ensures LineEnd(text, p) >= i + 1
  {
  }

  /** The single pass over the characters computes the line-by-line specification. */
  method HeadingStarts(text: string) returns (out: seq<nat>)
    ensures out == HeadingOffsets(text)
  {
    out := [];
    var lineStart := 0;
    var fence: Option<string> := None;
    assert [] + HeadingOffsets(text) == HeadingOffsets(text);
    for i := 0 to |text|
      invariant 0 <= lineStart <= i
      invariant LineEnd(text, lineStart) >= i
      invariant out + HeadingsFrom(text, lineStart, fence) == HeadingOffsets(text)
    {
      if text[i] == '\n' {
        out, fence := ReadLine(text, lineStart, i, fence, out);
        lineStart := i + 1;
      } else {
        LineGoesOn(text, lineStart, i);
      }
    }
    if lineStart < |text| {
      out := ReadRest(text, lineStart, fence, out);
    } else {
      assert out + [] == out;
    }
  }

  /** A last line without newline. */
  method LastLine(fence: Option<string>, trimmed: string) returns (heading: bool)
    ensures heading <==> fence.None? && IsHeading(trimmed)
  {
    NotBoth(trimmed);
    heading := false;
    if !(BACKTICKS <= trimmed || TILDES <= trimmed) && fence.None? {
      heading := IsHeadingLine(trimmed);
    }
  }

  lemma NotBoth(trimmed: string)
    ensures BACKTICKS <= trimmed || TILDES <= trimmed ==> !IsHeading(trimmed)
  {
    if IsHeading(trimmed) {
      HeadingIsNoFence(trimmed);
    }
  }

  // ----- which offsets are found -----

  predicate Increasing(s: seq<nat>) {
    forall i, j :: 0 <= i < j < |s| ==> s[i] < s[j]
  }

  predicate AllWithin(s: seq<nat>, from: nat, to: nat) {
    forall i :: 0 <= i < |s| ==> from <= s[i] < to
  }

  lemma StillIncreasing(first: seq<nat>, rest: seq<nat>, p: nat, next: nat, end: nat)
    requires p < end && p < next && (first == [] || first == [p])
    requires Increasing(rest) && AllWithin(rest, next, end)
    ensures Increasing(first + rest) && AllWithin(first + rest, p, end)
  {
  }

  lemma {:induction false} HeadingsIncreasing(text: string, p: nat, fence: Option<string>)
    ensures Increasing(HeadingsFrom(text, p, fence))
    ensures AllWithin(HeadingsFrom(text, p, fence), p, |text|)
    decreases |text| - p
  {
    if p >= |text| {
    } else {
      var next, after := LineEnd(text, p) + 1, NextFence(fence, TrimStart(Line(text, p)));
      HeadingsIncreasing(text, next, after);
      HeadingsUnfold(text, p, fence);
      StillIncreasing(LineHeading(text, p, fence), HeadingsFrom(text, next, after), p, next, |text|);
    }
  }

  /** `p` begins a line. */
  predicate IsLineStart(text: string, p: nat) {
    p < |text| && (p == 0 || text[p - 1] == '\n')
  }

  /** The fence state at line start `p`, coming from line start `q` in state `fence`. */
  function FenceAt(text: string, q: nat, fence: Option<string>, p: nat): Option<string>
    decreases |text| - q
  {
    if q >= p || q >= |text| then fence
    else FenceAt(text, LineEnd(text, q) + 1, NextFence(fence, TrimStart(Line(text, q))), p)
  }

  /** An offset is found exactly when it begins a line that is a heading once its
      indentation is removed, outside every fence opened by an earlier line. */
  lemma {:induction false} HeadingFoundIff(text: string, p: nat)
    ensures p in HeadingOffsets(text) <==>
            IsLineStart(text, p) && FenceAt(text, 0, None, p) == None && IsHeading(TrimStart(Line(text, p)))
  {
    FoundFrom(text, 0, None, p);
  }

  predicate Found(text: string, q: nat, fence: Option<string>, p: nat) {
    q <= p && IsLineStart(text, p) && FenceAt(text, q, fence, p) == None && IsHeading(TrimStart(Line(text, p)))
  }

  lemma FoundStep(text: string, q: nat, fence: Option<string>, p: nat)
    requires q < |text|
    ensures var e := LineEnd(text, q);
            Found(text, q, fence, p) <==>
            (if p == q then IsLineStart(text, p) && p in LineHeading(text, q, fence)
             else Found(text, e + 1, NextFence(fence, TrimStart(Line(text, q))), p))
  {
    var e := LineEnd(text, q);
    if q < p <= e {
      assert text[p - 1] != '\n';
    }
  }

  lemma InConcat(a: seq<nat>, b: seq<nat>, c: seq<nat>, p: nat)
    requires c == a + b
    ensures p in c <==> p in a || p in b
  {
  }

  lemma NotFoundBefore(text: string, q: nat, fence: Option<string>, p: nat)
    requires p < q
    ensures p !in HeadingsFrom(text, q, fence)
  {
    HeadingsIncreasing(text, q, fence);
  }

  lemma MemberStep(text: string, q: nat, fence: Option<string>, p: nat, next: nat, after: Option<string>)
    requires q < |text| && next == LineEnd(text, q) + 1 && after == NextFence(fence, TrimStart(Line(text, q)))
    ensures p in HeadingsFrom(text, q, fence) <==>
            (if p == q then p in LineHeading(text, q, fence) else p in HeadingsFrom(text, next, after))
  {
    HeadingsUnfold(text, q, fence);
    InConcat(LineHeading(text, q, fence), HeadingsFrom(text, next, after), HeadingsFrom(text, q, fence), p);
    if p == q {
      NotFoundBefore(text, next, after, p);
    }
  }

  lemma {:induction false} FoundFrom(text: string, q: nat, fence: Option<string>, p: nat)
    requires q == 0 || q > |text| || text[q - 1] == '\n'
    ensures p in HeadingsFrom(text, q, fence) <==> Found(text, q, fence, p)
    decreases |text| - q
  {
    if q < |text| {
      var next, after := LineEnd(text, q) + 1, NextFence(fence, TrimStart(Line(text, q)));
      MemberStep(text, q, fence, p, next, after);
      FoundStep(text, q, fence, p);
      if p != q {
        FoundFrom(text, next, after, p);
      }
    } else {
      NothingAtEnd(text, q, fence, p);
    }
  }

  lemma NothingAtEnd(text: string, q: nat, fence: Option<string>, p: nat)
    requires q >= |text|
    ensures p !in HeadingsFrom(text, q, fence) && !Found(text, q, fence, p)
  {
  }

  // ----- the heading of a chunk -----

  /** `partition_point(|&h| h < bound)` of an increasing list. */
  function CountBelow(headings: seq<nat>, bound: nat): (n: nat)
    requires Increasing(headings)
    ensures n <= |headings|
    ensures forall i :: 0 <= i < |headings| ==> (headings[i] < bound <==> i < n)
  {
    if headings == [] || headings[0] >= bound then 0 else 1 + CountBelow(headings[1..], bound)
  }

  function TrimHashes(s: string): string {
    s[Hashes(s)..]
  }

  /** Text of the heading line at `start`, without its marker. */
  function HeadingText(text: string, start: nat): Option<string>
    requires start <= |text|
  {
    var trimmed := Trim(TrimHashes(TrimStart(Line(text, start))));
    if trimmed == "" then None else Some(trimmed)
  }

  /** `heading_at`: by partition point. */
  function HeadingAt(text: string, headings: seq<nat>, start: nat, end: nat): Option<string>
    requires Increasing(headings) && forall i :: 0 <= i < |headings| ==> headings[i] <= |text|
  {
    var first := CountBelow(headings, start);
    if first < |headings| && headings[first] < end then HeadingText(text, headings[first])
    else if first == 0 then None
    else HeadingText(text, headings[first - 1])
  }

  /** The heading that owns [start, end): the first one inside it, or else the
      nearest one before it. */
  lemma HeadingAtOwns(text: string, headings: seq<nat>, start: nat, end: nat, h: nat)
    requires Increasing(headings) && forall i :: 0 <= i < |headings| ==> headings[i] <= |text|
    requires h in headings
    requires (start <= h < end && forall g :: g in headings && start <= g < end ==> h <= g)
          || (h < start
              && (forall g :: g in headings ==> g < start || end <= g)
              && forall g :: g in headings && g < start ==> g <= h)
    ensures HeadingAt(text, headings, start, end) == HeadingText(text, h)
  {
    var first := CountBelow(headings, start);
    var k :| 0 <= k < |headings| && headings[k] == h;
    if first < |headings| {
      assert headings[first] in headings;
    }
    if first > 0 {
      assert headings[first - 1] in headings;
    }
  }

  /** A chunk has no heading exactly when none lies before its end. */
  lemma HeadingAtNone(text: string, headings: seq<nat>, start: nat, end: nat)
    requires Increasing(headings) && forall i :: 0 <= i < |headings| ==> headings[i] <= |text|
    requires forall g :: g in headings ==> start <= g && end <= g
    ensures HeadingAt(text, headings, start, end) == None
  {
    if headings != [] {
      assert headings[0] in headings;
    }
  }
}

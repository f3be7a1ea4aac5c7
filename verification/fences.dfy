/** Which lines a code fence covers, told by the first characters of the lines. */
module Fences {
  import opened Options
  import opened Headings

  /** The line at `p`, its indentation removed, begins with three of these characters. */
  predicate Fences(text: string, p: nat, mark: char) {
    p <= |text| &&
    var line := TrimStart(Line(text, p));
    |line| >= 3 && line[0] == line[1] == line[2] == mark
  }

  predicate AnyFence(text: string, p: nat) {
    Fences(text, p, '`') || Fences(text, p, '~')
  }

  /** A marker is one of the two. */
  function MarkerOf(mark: char): string {
    [mark, mark, mark]
  }

  predicate IsMark(mark: char) {
    mark == '`' || mark == '~'
  }

  lemma BeginsWith(line: string, mark: char)
    ensures MarkerOf(mark) <= line <==> |line| >= 3 && line[0] == line[1] == line[2] == mark
  {
    if |line| >= 3 && line[0] == line[1] == line[2] == mark {
      assert line[..3] == MarkerOf(mark);
    }
  }

  /** Outside a fence a line opens its own kind and any other line nothing; inside, only
      its own kind closes it. */
  lemma FenceRules(text: string, p: nat)
    requires p <= |text|
    ensures var line := TrimStart(Line(text, p));
            && NextFence(None, line) == (if Fences(text, p, '`') then Some("```")
                                         else if Fences(text, p, '~') then Some("~~~") else None)
            && NextFence(Some("```"), line) == (if Fences(text, p, '`') then None else Some("```"))
            && NextFence(Some("~~~"), line) == if Fences(text, p, '~') then None else Some("~~~")
  {
    BeginsWith(TrimStart(Line(text, p)), '`');
    BeginsWith(TrimStart(Line(text, p)), '~');
    assert MarkerOf('`') == "```" && MarkerOf('~') == "~~~";
  }

  /** No line from q on, before p, begins with three of one of the marks. */
  predicate NoneBetween(text: string, q: nat, p: nat, marks: set<char>) {
    forall r, mark :: q <= r < p && IsLineStart(text, r) && mark in marks ==> !Fences(text, r, mark)
  }

  /** q begins a line, or lies behind the text. */
  predicate AtStart(text: string, q: nat) {
    q == 0 || q > |text| || text[q - 1] == '\n'
  }

  /** A state stays for as long as no line changes it. */
  lemma {:induction false} FenceStays(text: string, q: nat, fence: Option<string>, p: nat, marks: set<char>)
    requires AtStart(text, q) && NoneBetween(text, q, p, marks)
    requires match fence
             case None => marks == {'`', '~'}
             case Some(open) => (open == "```" && marks == {'`'}) || (open == "~~~" && marks == {'~'})
    ensures FenceAt(text, q, fence, p) == fence
    decreases |text| - q
  {
    if q >= p || q >= |text| {
    } else {
      assert IsLineStart(text, q);
      FenceRules(text, q);
      assert forall mark :: mark in marks ==> !Fences(text, q, mark);
      assert NextFence(fence, TrimStart(Line(text, q))) == fence;
      FenceStays(text, LineEnd(text, q) + 1, fence, p, marks);
    }
  }

  /** The state at p is the state at an earlier line start r, carried on from there. */
  lemma {:induction false} FenceVia(text: string, q: nat, fence: Option<string>, r: nat, p: nat)
    requires AtStart(text, q) && IsLineStart(text, r) && q <= r <= p
    ensures FenceAt(text, q, fence, p) == FenceAt(text, r, FenceAt(text, q, fence, r), p)
    decreases |text| - q
  {
    if q == r {
    } else {
      var next, after := LineEnd(text, q) + 1, NextFence(fence, TrimStart(Line(text, q)));
      assert forall i :: q <= i < LineEnd(text, q) ==> text[i] != '\n';
      FenceVia(text, next, after, r, p);
    }
  }

  /** After a line r that opens a fence, the rest of the text starts inside it. */
  lemma OpenedFence(text: string, r: nat, p: nat, mark: char)
    requires IsMark(mark) && IsLineStart(text, r) && r < p && Fences(text, r, mark)
    ensures FenceAt(text, r, None, p) == FenceAt(text, LineEnd(text, r) + 1, Some(MarkerOf(mark)), p)
  {
    FenceRules(text, r);
    assert MarkerOf('`') == "```" && MarkerOf('~') == "~~~";
  }

  lemma ClosedFence(text: string, r: nat, p: nat, mark: char)
    requires IsMark(mark) && IsLineStart(text, r) && r < p && Fences(text, r, mark)
    ensures FenceAt(text, r, Some(MarkerOf(mark)), p) == FenceAt(text, LineEnd(text, r) + 1, None, p)
  {
    FenceRules(text, r);
    assert MarkerOf('`') == "```" && MarkerOf('~') == "~~~";
  }

  /** Without a fence line before it, a heading line is found. */
  lemma {:induction false} UnfencedIsFound(text: string, p: nat)
    requires IsLineStart(text, p) && NoneBetween(text, 0, p, {'`', '~'}) && IsHeading(TrimStart(Line(text, p)))
    ensures p in HeadingOffsets(text)
  {
    FenceStays(text, 0, None, p, {'`', '~'});
    HeadingFoundIff(text, p);
  }

  /** Line q is the first fence line of the text, and of this kind. */
  predicate FirstFence(text: string, q: nat, mark: char) {
    IsMark(mark) && IsLineStart(text, q) && NoneBetween(text, 0, q, {'`', '~'}) && Fences(text, q, mark)
  }

  /** Line r is the next one of the same kind; lines of the other kind do not count. */
  predicate NextOfKind(text: string, q: nat, r: nat, mark: char) {
    q < r && IsLineStart(text, r) && NoneBetween(text, q + 1, r, {mark}) && Fences(text, r, mark)
  }

  lemma InsideFirst(text: string, q: nat, p: nat, mark: char)
    requires FirstFence(text, q, mark) && q < p && IsLineStart(text, p) && NoneBetween(text, q + 1, p, {mark})
    ensures FenceAt(text, 0, None, p) == Some(MarkerOf(mark))
  {
    assert MarkerOf('`') == "```" && MarkerOf('~') == "~~~";
    FenceVia(text, 0, None, q, p);
    FenceStays(text, 0, None, q, {'`', '~'});
    OpenedFence(text, q, p, mark);
    FenceStays(text, LineEnd(text, q) + 1, Some(MarkerOf(mark)), p, {mark});
  }

  /** Between the first fence line and the next of its kind no heading is found. */
  lemma {:induction false} FencedIsNotFound(text: string, q: nat, p: nat, mark: char)
    requires FirstFence(text, q, mark) && q < p && NoneBetween(text, q + 1, p, {mark})
    ensures p !in HeadingOffsets(text)
  {
    HeadingFoundIff(text, p);
    if IsLineStart(text, p) {
      InsideFirst(text, q, p, mark);
    }
  }

  /** Behind the next line of its kind the fence is closed, and a heading is found again. */
  lemma {:induction false} FoundAfterFence(text: string, q: nat, r: nat, p: nat, mark: char)
    requires FirstFence(text, q, mark) && NextOfKind(text, q, r, mark)
    requires r < p && IsLineStart(text, p) && NoneBetween(text, r + 1, p, {'`', '~'})
    requires IsHeading(TrimStart(Line(text, p)))
    ensures p in HeadingOffsets(text)
  {
    InsideFirst(text, q, r, mark);
    FenceVia(text, 0, None, r, p);
    ClosedFence(text, r, p, mark);
    FenceStays(text, LineEnd(text, r) + 1, None, p, {'`', '~'});
    HeadingFoundIff(text, p);
  }
}

/** The heading hierarchy of a document as part-of edges between section entities
    that all documents share. */
module Sections {
  import opened Options
  import opened Headings

  datatype Section = Section(name: string, level: nat)

  /** A `related_to` row with relation 'part-of', between entity records. */
  datatype Edge = Edge(child: string, parent: string)

  // ----- record ids -----

  /** The id of an entity: its name without the characters that would break the
      quoted id. */
  function Clean(name: string): string {
    if name == "" then ""
    else if Breaking(name[0]) then Clean(name[1..])
    else [name[0]] + Clean(name[1..])
  }

  predicate Breaking(c: char) {
    c == '\U{27E8}' || c == '\U{27E9}' || c == '\\' || c == '\''
  }

  lemma {:induction false} CleanConcat(a: string, b: string)
    ensures Clean(a + b) == Clean(a) + Clean(b)
  {
    if a == "" {
      assert a + b == b;
    } else {
      assert (a + b)[1..] == a[1..] + b;
      CleanConcat(a[1..], b);
    }
  }

  /** Character by character: angle brackets, backslash and apostrophe go, all else stays. */
  lemma {:induction false} CleanDrops(before: string, c: char, after: string)
    ensures Clean(before + [c] + after)
         == Clean(before) + (if c in {'\U{27E8}', '\U{27E9}', '\\', '\''} then "" else [c]) + Clean(after)
  {
    CleanConcat(before + [c], after);
    CleanConcat(before, [c]);
    assert [c][1..] == "";
  }

  /** Fails on a name of which nothing is left. */
  function RecordId(name: string): Option<string> {
    var id := Clean(name);
    if id == "" then None else Some(id)
  }

  // ----- extraction -----

  /** The section a heading line opens; names of up to two characters do not count. */
  function SectionAt(text: string, offset: nat): Option<Section>
    requires offset <= |text|
  {
    var line := TrimStart(Line(text, offset));
    var name := Trim(line[Hashes(line)..]);
    if |name| > 2 then Some(Section(name, Hashes(line))) else None
  }

  function Opened(text: string, offset: nat): seq<Section>
    requires offset <= |text|
  {
    match SectionAt(text, offset) case None => [] case Some(section) => [section]
  }

  function SectionsFrom(text: string, offsets: seq<nat>): seq<Section>
    requires forall i :: 0 <= i < |offsets| ==> offsets[i] <= |text|
  {
    if offsets == [] then []
    else SectionsFrom(text, offsets[..|offsets| - 1]) + Opened(text, offsets[|offsets| - 1])
  }

  lemma OffsetsInText(text: string)
    ensures forall i :: 0 <= i < |HeadingOffsets(text)| ==> HeadingOffsets(text)[i] <= |text|
  {
    HeadingsIncreasing(text, 0, None);
  }

  /** The sections of a text, in order. */
  function SectionsOf(text: string): seq<Section> {
    OffsetsInText(text);
    SectionsFrom(text, HeadingOffsets(text))
  }

  method ExtractSections(text: string) returns (sections: seq<Section>)
    ensures sections == SectionsOf(text)
  {
    sections := [];
    var offsets := HeadingStarts(text);
    OffsetsInText(text);
    for i := 0 to |offsets|
      invariant sections == SectionsFrom(text, offsets[..i])
    {
      SectionsStep(text, offsets, i);
      var section := SectionAt(text, offsets[i]);
      if section.Some? {
        sections := sections + [section.value];
      }
    }
    assert offsets[..|offsets|] == offsets;
  }

  lemma SectionsStep(text: string, offsets: seq<nat>, i: nat)
    requires i < |offsets| && forall k :: 0 <= k < |offsets| ==> offsets[k] <= |text|
    ensures SectionsFrom(text, offsets[..i + 1]) == SectionsFrom(text, offsets[..i]) + Opened(text, offsets[i])
  {
    assert offsets[..i + 1][..i] == offsets[..i];
  }

  // ----- the specification of the hierarchy -----

  /** The nearest of the first `k` sections with a level below `level`. */
  function NearestBelow(sections: seq<Section>, k: nat, level: nat): (r: Option<nat>)
    requires k <= |sections|
    ensures r.Some? ==> r.value < k && sections[r.value].level < level
                        && forall j :: r.value < j < k ==> sections[j].level >= level
    ensures r.None? ==> forall j :: 0 <= j < k ==> sections[j].level >= level
  {
    if k == 0 then None
    else if sections[k - 1].level < level then Some(k - 1)
    else NearestBelow(sections, k - 1, level)
  }

  function Parent(sections: seq<Section>, i: nat): Option<nat>
    requires i < |sections|
  {
    NearestBelow(sections, i, sections[i].level)
  }

  function EdgesOf(edges: seq<Edge>, child: string): seq<Edge> {
    if edges == [] then []
    else (if edges[0].child == child then [edges[0]] else []) + EdgesOf(edges[1..], child)
  }

  function EdgesWithout(edges: seq<Edge>, child: string): seq<Edge> {
    if edges == [] then []
    else (if edges[0].child == child then [] else [edges[0]]) + EdgesWithout(edges[1..], child)
  }

  /** Delete every part-of edge of the child, then relate it to the parent. */
  function Relink(edges: seq<Edge>, child: string, parent: string): seq<Edge> {
    EdgesWithout(edges, child) + [Edge(child, parent)]
  }

  /** Link a section to its parent by record id; fails when either has none. */
  function Link(edges: seq<Edge>, child: string, parent: string): Option<seq<Edge>> {
    match RecordId(parent)
    case None => None
    case Some(above) =>
      match RecordId(child)
      case None => None
      case Some(id) => Some(Relink(edges, id, above))
  }

  function LinkToParent(sections: seq<Section>, edges: seq<Edge>, i: nat): Option<seq<Edge>>
    requires i < |sections|
  {
    match Parent(sections, i)
    case None => Some(edges)
    case Some(p) => Link(edges, sections[i].name, sections[p].name)
  }

  /** The edges after the first `k` sections have been linked to their parents, or
      nothing: a failed link fails the transaction. */
  function Linked(sections: seq<Section>, edges: seq<Edge>, k: nat): Option<seq<Edge>>
    requires k <= |sections|
  {
    if k == 0 then Some(edges)
    else
      match Linked(sections, edges, k - 1)
      case None => None
      case Some(before) => LinkToParent(sections, before, k - 1)
  }

  // ----- the stack -----

  /** Section j is closed by, or is itself, an open section of no higher level. */
  predicate ClosedBy(sections: seq<Section>, stack: seq<nat>, j: nat) {
    exists k :: 0 <= k < |stack| && j <= stack[k] < |sections| && j < |sections| &&
        sections[stack[k]].level <= sections[j].level
  }

  /** Positions of the open sections, innermost last: their levels increase
      strictly, and every earlier section is closed. */
  predicate StackOk(sections: seq<Section>, stack: seq<nat>, i: nat) {
    && i <= |sections|
    && (forall k :: 0 <= k < |stack| ==> stack[k] < i)
    && (forall k, l :: 0 <= k < l < |stack| ==>
        stack[k] < stack[l] && sections[stack[k]].level < sections[stack[l]].level)
    && forall j :: 0 <= j < i ==> ClosedBy(sections, stack, j)
  }

  /** `stack` is what remains of `whole` after popping for section i. */
  predicate Popped(sections: seq<Section>, whole: seq<nat>, stack: seq<nat>, i: nat)
    requires StackOk(sections, whole, i) && i < |sections|
  {
    && |stack| <= |whole| && stack == whole[..|stack|]
    && (forall k :: |stack| <= k < |whole| ==> sections[whole[k]].level >= sections[i].level)
    && (stack != [] ==> sections[stack[|stack| - 1]].level < sections[i].level)
  }

  lemma {:induction false} NearestIs(sections: seq<Section>, k: nat, level: nat, parent: Option<nat>)
    requires k <= |sections|
    requires parent.Some? ==> parent.value < k && sections[parent.value].level < level
    requires forall j :: (if parent.Some? then parent.value + 1 else 0) <= j < k ==> sections[j].level >= level
    ensures NearestBelow(sections, k, level) == parent
  {
    if k == 0 || parent == Some(k - 1) {
    } else {
      NearestIs(sections, k - 1, level, parent);
    }
  }

  lemma TopIsParent(sections: seq<Section>, whole: seq<nat>, stack: seq<nat>, i: nat)
    requires StackOk(sections, whole, i) && i < |sections| && Popped(sections, whole, stack, i)
    ensures Parent(sections, i) == if stack == [] then None else Some(stack[|stack| - 1])
  {
    var parent := if stack == [] then None else Some(stack[|stack| - 1]);
    assert forall k :: 0 <= k < |stack| ==> whole[k] == stack[k] <= stack[|stack| - 1];
    forall j | (if parent.Some? then parent.value + 1 else 0) <= j < i
      ensures sections[j].level >= sections[i].level
    {
      assert ClosedBy(sections, whole, j);
      var k :| 0 <= k < |whole| && j <= whole[k] && sections[whole[k]].level <= sections[j].level;
      assert k >= |stack|;
    }
    NearestIs(sections, i, sections[i].level, parent);
  }

  lemma PushKeepsStack(sections: seq<Section>, whole: seq<nat>, stack: seq<nat>, i: nat)
    requires StackOk(sections, whole, i) && i < |sections| && Popped(sections, whole, stack, i)
    ensures StackOk(sections, stack + [i], i + 1)
  {
    var pushed := stack + [i];
    forall j | 0 <= j < i + 1
      ensures ClosedBy(sections, pushed, j)
    {
      if j == i {
        assert pushed[|stack|] == i;
      } else {
        assert ClosedBy(sections, whole, j);
        var k :| 0 <= k < |whole| && j <= whole[k] && sections[whole[k]].level <= sections[j].level;
        if k < |stack| {
          assert pushed[k] == whole[k];
        } else {
          assert pushed[|stack|] == i;
        }
      }
    }
    forall k, l | 0 <= k < l < |pushed|
      ensures pushed[k] < pushed[l] && sections[pushed[k]].level < sections[pushed[l]].level
    {
      if l < |stack| {
        assert pushed[k] == whole[k] && pushed[l] == whole[l];
      } else if k < |stack| - 1 {
        assert whole[k] < whole[|stack| - 1];
      }
    }
  }

  /** The stack of `link_section_hierarchy` holds the sections themselves. */
  predicate Mirrors(stack: seq<Section>, positions: seq<nat>, sections: seq<Section>) {
    && |stack| == |positions|
    && forall k :: 0 <= k < |stack| ==> positions[k] < |sections| && stack[k] == sections[positions[k]]
  }

  /** Pop everything that cannot be an ancestor of section i. */
  method PopFor(sections: seq<Section>, i: nat, whole: seq<Section>, ghost positions: seq<nat>)
      returns (stack: seq<Section>, ghost left: seq<nat>)
    requires i < |sections| && StackOk(sections, positions, i) && Mirrors(whole, positions, sections)
    ensures Popped(sections, positions, left, i) && Mirrors(stack, left, sections)
  {
    stack, left := whole, positions;
    while stack != [] && stack[|stack| - 1].level >= sections[i].level
      invariant |left| <= |positions| && left == positions[..|left|] && Mirrors(stack, left, sections)
      invariant forall k :: |left| <= k < |positions| ==> sections[positions[k]].level >= sections[i].level
    {
      stack, left := stack[..|stack| - 1], left[..|left| - 1];
    }
  }

  lemma MirrorsPush(stack: seq<Section>, positions: seq<nat>, sections: seq<Section>, i: nat)
    requires Mirrors(stack, positions, sections) && i < |sections|
    ensures Mirrors(stack + [sections[i]], positions + [i], sections)
  {
  }

  /** One section: find its parent on the stack, link it, push it. */
  method LinkSection(sections: seq<Section>, i: nat, whole: seq<Section>, before: seq<Edge>, ghost positions: seq<nat>)
      returns (stack: seq<Section>, edges: Option<seq<Edge>>, ghost pushed: seq<nat>)
    requires i < |sections| && StackOk(sections, positions, i) && Mirrors(whole, positions, sections)
    ensures StackOk(sections, pushed, i + 1) && Mirrors(stack, pushed, sections)
    ensures edges == LinkToParent(sections, before, i)
  {
    ghost var left;
    stack, left := PopFor(sections, i, whole, positions);
    TopIsParent(sections, positions, left, i);
    PushKeepsStack(sections, positions, left, i);
    MirrorsPush(stack, left, sections, i);
    edges := if stack != [] then Link(before, sections[i].name, stack[|stack| - 1].name) else Some(before);
    stack, pushed := stack + [sections[i]], left + [i];
  }

  /** `link_section_hierarchy`: each section is linked to its parent, which the
      stack finds without looking back over the document. */
  method LinkSections(sections: seq<Section>, before: seq<Edge>) returns (edges: Option<seq<Edge>>)
    ensures edges == Linked(sections, before, |sections|)
  {
    edges := Some(before);
    var stack: seq<Section> := [];
    ghost var positions: seq<nat> := [];
    for i := 0 to |sections|
      invariant StackOk(sections, positions, i) && Mirrors(stack, positions, sections)
      invariant edges.Some? && edges == Linked(sections, before, i)
    {
      stack, edges, positions := LinkSection(sections, i, stack, edges.value, positions);
      if edges == None {
        FailureStays(sections, before, i + 1, |sections|);
        return;
      }
    }
  }

  lemma {:induction false} FailureStays(sections: seq<Section>, edges: seq<Edge>, i: nat, k: nat)
    requires i <= k <= |sections| && Linked(sections, edges, i) == None
    ensures Linked(sections, edges, k) == None
  {
    if i >= k {
    } else {
      FailureStays(sections, edges, i, k - 1);
    }
  }

  // ----- laws of the edges -----

  lemma {:induction false} EdgesOfConcat(a: seq<Edge>, b: seq<Edge>, child: string)
    ensures EdgesOf(a + b, child) == EdgesOf(a, child) + EdgesOf(b, child)
  {
    if a == [] {
      assert a + b == b;
    } else {
      var head := if a[0].child == child then [a[0]] else [];
      assert (a + b)[1..] == a[1..] + b;
      EdgesOfConcat(a[1..], b, child);
      assert EdgesOf(a + b, child) == head + (EdgesOf(a[1..], child) + EdgesOf(b, child));
    }
  }

  lemma {:induction false} EdgesOfWithout(edges: seq<Edge>, gone: string, child: string)
    ensures EdgesOf(EdgesWithout(edges, gone), child) == if child == gone then [] else EdgesOf(edges, child)
  {
    if edges == [] {
    } else {
      EdgesOfWithout(edges[1..], gone, child);
      EdgesOfConcat(if edges[0].child == gone then [] else [edges[0]], EdgesWithout(edges[1..], gone), child);
    }
  }

  /** A section with a parent, both of them with a record id. */
  predicate Linkable(sections: seq<Section>, i: nat)
    requires i < |sections|
  {
    Parent(sections, i).Some? ==>
      Clean(sections[i].name) != "" && Clean(sections[Parent(sections, i).value].name) != ""
  }

  lemma LinkToParentIff(sections: seq<Section>, edges: seq<Edge>, i: nat)
    requires i < |sections|
    ensures LinkToParent(sections, edges, i).Some? <==> Linkable(sections, i)
  {
  }

  /** Linking a document fails exactly when a nested heading, or the one it is
      nested in, consists of dropped characters only. */
  lemma {:induction false} LinkedIff(sections: seq<Section>, edges: seq<Edge>, k: nat)
    requires k <= |sections|
    ensures Linked(sections, edges, k).Some? <==> forall i :: 0 <= i < k ==> Linkable(sections, i)
  {
    if k == 0 {
    } else {
      LinkedIff(sections, edges, k - 1);
      if Linked(sections, edges, k - 1).Some? {
        LinkToParentIff(sections, Linked(sections, edges, k - 1).value, k - 1);
      }
    }
  }

  /** The sections of a text can be linked; the edges that are there make no difference. */
  predicate Links(text: string) {
    Linked(SectionsOf(text), [], |SectionsOf(text)|).Some?
  }

  lemma {:induction false} LinksIff(text: string, edges: seq<Edge>)
    ensures Links(text) <==> Linked(SectionsOf(text), edges, |SectionsOf(text)|).Some?
    ensures Links(text) <==> forall i :: 0 <= i < |SectionsOf(text)| ==> Linkable(SectionsOf(text), i)
  {
    LinkedIff(SectionsOf(text), [], |SectionsOf(text)|);
    LinkedIff(SectionsOf(text), edges, |SectionsOf(text)|);
  }

  /** The parent of the last section with this id that has one. */
  function LastParent(sections: seq<Section>, id: string, k: nat): Option<string>
    requires k <= |sections|
  {
    if k == 0 then None
    else if Clean(sections[k - 1].name) == id && Parent(sections, k - 1).Some?
    then Some(Clean(sections[Parent(sections, k - 1).value].name))
    else LastParent(sections, id, k - 1)
  }

  /** An entity that is a section with a parent ends up with exactly one edge, to the
      parent of the last such section; the edges of all other entities are left alone. */
  lemma {:induction false} EdgesAfterLinking(sections: seq<Section>, edges: seq<Edge>, k: nat, id: string)
    requires k <= |sections| && Linked(sections, edges, k).Some?
    ensures EdgesOf(Linked(sections, edges, k).value, id)
         == match LastParent(sections, id, k)
            case None => EdgesOf(edges, id)
            case Some(parent) => [Edge(id, parent)]
  {
    if k == 0 {
    } else {
      EdgesAfterLinking(sections, edges, k - 1, id);
      LinkedStep(sections, edges, k, id);
      if Parent(sections, k - 1).Some? {
        EdgesAfterRelink(Linked(sections, edges, k - 1).value, Clean(sections[k - 1].name),
                         Clean(sections[Parent(sections, k - 1).value].name), id);
      }
    }
  }

  lemma LinkedStep(sections: seq<Section>, edges: seq<Edge>, k: nat, id: string)
    requires 0 < k <= |sections| && Linked(sections, edges, k).Some?
    ensures Linked(sections, edges, k - 1).Some?
    ensures var before, after := Linked(sections, edges, k - 1).value, Linked(sections, edges, k).value;
            match Parent(sections, k - 1)
            case None =>
              after == before && LastParent(sections, id, k) == LastParent(sections, id, k - 1)
            case Some(p) =>
              var child, parent := Clean(sections[k - 1].name), Clean(sections[p].name);
              && after == Relink(before, child, parent)
              && LastParent(sections, id, k) == if child == id then Some(parent) else LastParent(sections, id, k - 1)
  {
    assert Linked(sections, edges, k) == LinkToParent(sections, Linked(sections, edges, k - 1).value, k - 1);
  }

  lemma EdgesAfterRelink(edges: seq<Edge>, name: string, parent: string, child: string)
    ensures EdgesOf(Relink(edges, name, parent), child) ==
            if child == name then [Edge(name, parent)] else EdgesOf(edges, child)
  {
    var edge := Edge(name, parent);
    EdgesOfConcat(EdgesWithout(edges, edge.child), [edge], child);
    EdgesOfWithout(edges, edge.child, child);
    assert [edge][1..] == [];
    assert [] + EdgesOf([edge], child) == EdgesOf([edge], child);
    assert EdgesOf(edges, child) + [] == EdgesOf(edges, child);
  }

  /** A document whose linking fails leaves the edges as they are. */
  function LinkOne(document: seq<Section>, edges: seq<Edge>): seq<Edge> {
    match Linked(document, edges, |document|)
    case None => edges
    case Some(after) => after
  }

  /** Linking any number of documents, in any order, one after the other. */
  function LinkAll(documents: seq<seq<Section>>, edges: seq<Edge>): seq<Edge> {
    if documents == [] then edges
    else LinkAll(documents[1..], LinkOne(documents[0], edges))
  }

  /** Across all documents an entity has at most one part-of edge. */
  lemma {:induction false} AtMostOneParent(documents: seq<seq<Section>>, edges: seq<Edge>, id: string)
    requires |EdgesOf(edges, id)| <= 1
    ensures |EdgesOf(LinkAll(documents, edges), id)| <= 1
  {
    if documents == [] {
    } else {
      if Linked(documents[0], edges, |documents[0]|).Some? {
        EdgesAfterLinking(documents[0], edges, |documents[0]|, id);
      }
      AtMostOneParent(documents[1..], LinkOne(documents[0], edges), id);
    }
  }

  /** Indexing the same text again succeeds, and leaves every entity's edges as they were. */
  lemma {:induction false} RelinkingIsIdempotent(sections: seq<Section>, edges: seq<Edge>, id: string)
    requires Linked(sections, edges, |sections|).Some?
    ensures var once := Linked(sections, edges, |sections|).value;
            var twice := Linked(sections, once, |sections|);
            twice.Some? && EdgesOf(twice.value, id) == EdgesOf(once, id)
  {
    var once := Linked(sections, edges, |sections|).value;
    LinkedIff(sections, edges, |sections|);
    LinkedIff(sections, once, |sections|);
    EdgesAfterLinking(sections, edges, |sections|, id);
    EdgesAfterLinking(sections, once, |sections|, id);
  }

  // ----- texts without headings -----

  lemma {:induction false} NoHashNoHeading(text: string, p: nat, fence: Option<string>)
    requires '#' !in text
    ensures HeadingsFrom(text, p, fence) == []
    decreases |text| - p
  {
    if p >= |text| {
    } else {
      var line := Line(text, p);
      TrimmedHas(line, '#');
      assert Hashes(TrimStart(line)) == 0;
      HeadingsUnfold(text, p, fence);
      NoHashNoHeading(text, LineEnd(text, p) + 1, NextFence(fence, TrimStart(line)));
    }
  }

  lemma {:induction false} TrimmedHas(line: string, c: char)
    ensures c in TrimStart(line) ==> c in line
    decreases |line|
  {
    if line != "" && IsSpace(line[0]) {
      TrimmedHas(line[1..], c);
    } else {
    }
  }

  lemma NoHashLinks(text: string)
    requires '#' !in text
    ensures Links(text)
  {
    NoHashNoHeading(text, 0, None);
  }

  // ----- texts made of headings -----

  /** A name and a level that fit on a heading line. */
  predicate Readable(s: Section) {
    1 <= s.level <= 6 && Trim(s.name) == s.name && '\n' !in s.name
  }

  /** A section that one heading line can open, and that reads back as it was. */
  predicate Writable(s: Section) {
    Readable(s) && |s.name| > 2
  }

  function HeadingLine(s: Section): string {
    seq(s.level, _ => '#') + " " + s.name
  }

  /** A text of heading lines only. */
  function Markdown(sections: seq<Section>): string {
    if sections == [] then "" else HeadingLine(sections[0]) + "\n" + Markdown(sections[1..])
  }

  lemma HeadingLineReads(s: Section)
    requires Readable(s)
    ensures var line := HeadingLine(s);
            && TrimStart(line) == line && Hashes(line) == s.level && IsHeading(line)
            && Trim(line[Hashes(line)..]) == s.name
  {
    var line := HeadingLine(s);
    assert line[s.level] == ' ';
    HashesAre(line, s.level);
    assert line[s.level..] == " " + s.name && (" " + s.name)[1..] == s.name;
  }

  lemma NoNewline(s: Section)
    requires Readable(s)
    ensures forall i :: 0 <= i < |HeadingLine(s)| ==> HeadingLine(s)[i] != '\n'
  {
    var line := HeadingLine(s);
    forall i | 0 <= i < |line|
      ensures line[i] != '\n'
    {
      if i > s.level {
        assert line[i] == s.name[i - s.level - 1];
      }
    }
  }

  lemma LineIs(text: string, p: nat, line: string, rest: string)
    requires p <= |text| && text[p..] == line + "\n" + rest
    requires forall i :: 0 <= i < |line| ==> line[i] != '\n'
    ensures Line(text, p) == line && LineEnd(text, p) == p + |line| < |text|
    ensures text[p + |line| + 1..] == rest
  {
    var e := p + |line|;
    LineSlices(text, p, line, rest);
    forall i | p <= i < e
      ensures text[i] != '\n'
    {
      assert text[p..e][i - p] == line[i - p];
    }
    LineEndsAt(text, p, e);
  }

  lemma LineSlices(text: string, p: nat, line: string, rest: string)
    requires p <= |text| && text[p..] == line + "\n" + rest
    ensures var e := p + |line|;
            e < |text| && text[e] == '\n' && text[p..e] == line && text[e + 1..] == rest
  {
    var tail := text[p..];
    var n := |line|;
    assert |tail| == n + 1 + |rest|;
    assert tail[n] == '\n' && tail[..n] == line && tail[n + 1..] == rest;
    assert text[p + n] == tail[n] && text[p..p + n] == tail[..n] && text[p + n + 1..] == tail[n + 1..];
  }

  lemma HeadingAtLine(text: string, p: nat, s: Section)
    requires Readable(s) && p < |text| && Line(text, p) == HeadingLine(s)
    ensures LineHeading(text, p, None) == [p] && SectionAt(text, p) == (if |s.name| > 2 then Some(s) else None)
    ensures NextFence(None, TrimStart(Line(text, p))) == None
  {
    HeadingLineReads(s);
    HeadingIsNoFence(HeadingLine(s));
  }

  lemma {:induction false} SectionsCons(text: string, p: nat, offsets: seq<nat>, all: seq<nat>)
    requires p <= |text| && forall i :: 0 <= i < |offsets| ==> offsets[i] <= |text|
    requires |all| == |offsets| + 1 && all[0] == p && forall i :: 0 <= i < |offsets| ==> all[i + 1] == offsets[i]
    ensures forall i :: 0 <= i < |all| ==> all[i] <= |text|
    ensures SectionsFrom(text, all) == Opened(text, p) + SectionsFrom(text, offsets)
  {
    forall i | 0 <= i < |all|
      ensures all[i] <= |text|
    {
      assert i > 0 ==> all[i] == offsets[i - 1];
    }
    var n := |offsets|;
    if n == 0 {
      assert all[..0] == [];
      assert SectionsFrom(text, []) + Opened(text, p) == Opened(text, p) + SectionsFrom(text, []);
    } else {
      SectionsCons(text, p, offsets[..n - 1], all[..n]);
      Reassociate(Opened(text, p), SectionsFrom(text, offsets[..n - 1]), Opened(text, offsets[n - 1]));
    }
  }

  lemma WrittenLine(text: string, p: nat, s: Section, rest: string) returns (next: nat)
    requires Readable(s) && p <= |text| && text[p..] == HeadingLine(s) + "\n" + rest
    ensures p < |text| && Line(text, p) == HeadingLine(s)
    ensures next == LineEnd(text, p) + 1 <= |text| && text[next..] == rest
  {
    var line := HeadingLine(s);
    NoNewline(s);
    LineIs(text, p, line, rest);
    next := p + |line| + 1;
  }

  lemma FoundAtLine(text: string, p: nat, s: Section, next: nat)
    requires Readable(s) && p < |text| && Line(text, p) == HeadingLine(s) && next == LineEnd(text, p) + 1
    ensures HeadingsFrom(text, p, None) == [p] + HeadingsFrom(text, next, None)
    ensures Opened(text, p) == Counted([s])
  {
    HeadingAtLine(text, p, s);
    HeadingsUnfold(text, p, None);
  }

  /** The offsets are in the text, and open these sections. */
  predicate Opens(text: string, offsets: seq<nat>, sections: seq<Section>) {
    (forall i :: 0 <= i < |offsets| ==> offsets[i] <= |text|) && SectionsFrom(text, offsets) == sections
  }

  lemma OpensCons(text: string, p: nat, offsets: seq<nat>, sections: seq<Section>)
    requires p <= |text| && Opens(text, offsets, sections)
    ensures Opens(text, [p] + offsets, Opened(text, p) + sections)
  {
    SectionsCons(text, p, offsets, [p] + offsets);
  }

  lemma MarkdownCons(sections: seq<Section>)
    requires sections != []
    ensures Markdown(sections) == HeadingLine(sections[0]) + "\n" + Markdown(sections[1..])
  {
  }

  /** The sections whose names are longer than two characters. */
  function Counted(sections: seq<Section>): seq<Section> {
    if sections == [] then [] else (if |sections[0].name| > 2 then [sections[0]] else []) + Counted(sections[1..])
  }

  lemma {:induction false} AllCounted(sections: seq<Section>)
    requires forall i :: 0 <= i < |sections| ==> |sections[i].name| > 2
    ensures Counted(sections) == sections
  {
    if sections == [] {
    } else {
      AllCounted(sections[1..]);
      assert sections == [sections[0]] + sections[1..];
    }
  }

  lemma CountedCons(sections: seq<Section>)
    requires sections != []
    ensures Counted(sections) == Counted([sections[0]]) + Counted(sections[1..])
  {
    assert [sections[0]][1..] == [];
  }

  lemma {:induction false} WrittenFrom(text: string, p: nat, sections: seq<Section>)
    requires forall i :: 0 <= i < |sections| ==> Readable(sections[i])
    requires p <= |text| && text[p..] == Markdown(sections)
    ensures Opens(text, HeadingsFrom(text, p, None), Counted(sections))
    decreases |sections|
  {
    if sections == [] {
      assert p == |text|;
    } else {
      var s, rest := sections[0], sections[1..];
      MarkdownCons(sections);
      var next := WrittenLine(text, p, s, Markdown(rest));
      FoundAtLine(text, p, s, next);
      WrittenFrom(text, next, rest);
      OpensCons(text, p, HeadingsFrom(text, next, None), Counted(rest));
      CountedCons(sections);
    }
  }

  /** Of what is written as heading lines, exactly the names longer than two characters
      are read back, in order and with their levels. */
  lemma {:induction false} WrittenHeadingsComeBack(sections: seq<Section>)
    requires forall i :: 0 <= i < |sections| ==> Readable(sections[i])
    ensures SectionsOf(Markdown(sections)) == Counted(sections)
  {
    assert Markdown(sections)[0..] == Markdown(sections);
    WrittenFrom(Markdown(sections), 0, sections);
  }

  /** What is written as heading lines is read back as the same sections. */
  lemma {:induction false} WrittenSectionsComeBack(sections: seq<Section>)
    requires forall i :: 0 <= i < |sections| ==> Writable(sections[i])
    ensures SectionsOf(Markdown(sections)) == sections
  {
    WrittenHeadingsComeBack(sections);
    AllCounted(sections);
  }

  /** The heading that a chunk is given is the name on the line, of any length. */
  lemma WrittenHeadingText(text: string, p: nat, s: Section)
    requires Readable(s) && p < |text| && Line(text, p) == HeadingLine(s)
    ensures HeadingText(text, p) == if s.name == "" then None else Some(s.name)
  {
    HeadingLineReads(s);
  }

  /** A text with a heading of dropped characters only below another one cannot be linked. */
  lemma {:induction false} NestedQuotesFail(title: string, quotes: string)
    requires Writable(Section(title, 1)) && Writable(Section(quotes, 2)) && Clean(quotes) == ""
    ensures !Links(Markdown([Section(title, 1), Section(quotes, 2)]))
  {
    var sections := [Section(title, 1), Section(quotes, 2)];
    WrittenSectionsComeBack(sections);
    NearestIs(sections, 1, 2, Some(0));
    assert !Linkable(sections, 1);
    LinksIff(Markdown(sections), []);
  }

  /** In particular: a title, and three quotation marks below it. */
  lemma QuotesFail()
    ensures !Links(Markdown([Section("AAA", 1), Section("\'\'\'", 2)]))
  {
    QuotesAreDropped();
    NestedQuotesFail("AAA", "\'\'\'");
  }

  lemma QuotesAreDropped()
    ensures Clean("\'\'\'") == ""
  {
    assert "\'\'\'"[1..] == "\'\'" && "\'\'"[1..] == "\'" && "\'"[1..] == "";
  }

  /** Two headings that differ only in dropped characters are one entity: the later
      one takes over the edge of the earlier one. */
  lemma {:induction false} SameIdTakesOver(top: string, first: string, next: string, second: string, edges: seq<Edge>)
    requires Writable(Section(top, 1)) && Writable(Section(first, 2))
    requires Writable(Section(next, 1)) && Writable(Section(second, 2))
    requires Clean(top) != "" && Clean(next) != "" && Clean(first) == Clean(second) != ""
    ensures var text := Markdown([Section(top, 1), Section(first, 2), Section(next, 1), Section(second, 2)]);
            var after := Linked(SectionsOf(text), edges, |SectionsOf(text)|);
            after.Some? && EdgesOf(after.value, Clean(first)) == [Edge(Clean(first), Clean(next))]
  {
    var sections := [Section(top, 1), Section(first, 2), Section(next, 1), Section(second, 2)];
    WrittenSectionsComeBack(sections);
    NearestIs(sections, 3, 2, Some(2));
    NearestIs(sections, 2, 1, None);
    NearestIs(sections, 1, 2, Some(0));
    assert forall i :: 0 <= i < 4 ==> Linkable(sections, i);
    LinkedIff(sections, edges, 4);
    EdgesAfterLinking(sections, edges, 4, Clean(first));
    assert LastParent(sections, Clean(first), 4) == Some(Clean(next));
  }

  lemma ApostropheIsDropped()
    ensures Clean("it\'s") == Clean("its") == "its"
  {
    assert "it\'s"[1..] == "t\'s" && "t\'s"[1..] == "\'s" && "\'s"[1..] == "s";
    CleanKeeps("its");
    assert "its"[1..] == "ts" && "ts"[1..] == "s";
    assert Clean("\'s") == Clean("s");
    assert Clean("t\'s") == "t" + Clean("s") == Clean("ts");
  }

  lemma ExampleIsWritable()
    ensures Writable(Section("AAA", 1)) && Writable(Section("it\'s", 2))
    ensures Writable(Section("BBB", 1)) && Writable(Section("its", 2))
  {
  }

  /** In particular: an apostrophe makes no difference. */
  lemma {:induction false} ApostropheTakesOver(edges: seq<Edge>)
    ensures var text := Markdown([Section("AAA", 1), Section("it\'s", 2), Section("BBB", 1), Section("its", 2)]);
            var after := Linked(SectionsOf(text), edges, |SectionsOf(text)|);
            after.Some? && EdgesOf(after.value, "its") == [Edge("its", "BBB")]
  {
    ApostropheIsDropped();
    CleanKeeps("AAA");
    CleanKeeps("BBB");
    ExampleIsWritable();
    SameIdTakesOver("AAA", "it\'s", "BBB", "its", edges);
  }

  /** A name without such characters is its own id. */
  lemma {:induction false} CleanKeeps(name: string)
    requires forall c :: c in name ==> !Breaking(c)
    ensures Clean(name) == name
  {
    if name == "" {
    } else {
      assert name == [name[0]] + name[1..];
      CleanKeeps(name[1..]);
    }
  }
}

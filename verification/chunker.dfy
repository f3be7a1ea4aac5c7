/** The token chunker: a sliding window over the tokens that prefers to break
    right before a heading.  A token is given by the offsets of its two ends. */
module Chunker {
  import opened Options
  import opened Headings

  datatype Token = Token(start: nat, end: nat)

  /** Tokens [start, end) of the document. */
  datatype Span = Span(start: nat, end: nat)

  datatype Chunk = Chunk(content: string, tokens: nat, idx: nat, heading: Option<string>)

  datatype Result<+T> = Ok(value: T) | MaxTokensIsZero

  /** What a tokenizer guarantees: offsets lie in the text and do not go back. */
  predicate TokensOf(tokens: seq<Token>, text: string) {
    && (forall i :: 0 <= i < |tokens| ==> tokens[i].start <= tokens[i].end <= |text|)
    && (forall i, j :: 0 <= i <= j < |tokens| ==> tokens[i].start <= tokens[j].start && tokens[i].end <= tokens[j].end)
  }

  // ----- one step of the window -----

  function WindowEnd(n: nat, start: nat, max: nat): nat {
    if start + max <= n then start + max else n
  }

  /** First token from `i` on, before `limit`, that ends after `offset`. */
  function FirstEndingAfter(tokens: seq<Token>, i: nat, limit: nat, offset: nat): (r: Option<nat>)
    requires limit <= |tokens|
    ensures r.Some? ==> i <= r.value < limit && tokens[r.value].end > offset
                        && forall k :: i <= k < r.value ==> tokens[k].end <= offset
    ensures r.None? ==> forall k :: i <= k < limit ==> tokens[k].end <= offset
    decreases limit - i
  {
    if i >= limit then None
    else if tokens[i].end > offset then Some(i)
    else FirstEndingAfter(tokens, i + 1, limit, offset)
  }

  /** Where the next heading would break the window that starts at `start`: a
      heading inside the first token is the chunk's own. */
  function HeadingBreak(tokens: seq<Token>, headings: seq<nat>, start: nat, windowEnd: nat): Option<nat>
    requires Increasing(headings) && start < |tokens| && windowEnd <= |tokens|
  {
    var first := CountBelow(headings, tokens[start].end + 1);
    if first < |headings| then FirstEndingAfter(tokens, start + 1, windowEnd, headings[first]) else None
  }

  /** End of the chunk at `start`; a heading break that does not get past the
      previous chunk is ignored. */
  function ChunkEnd(tokens: seq<Token>, headings: seq<nat>, max: nat, start: nat, prevEnd: nat): (end: nat)
    requires Increasing(headings) && start < |tokens| && max >= 1
    ensures start < end <= WindowEnd(|tokens|, start, max)
    ensures prevEnd < WindowEnd(|tokens|, start, max) ==> prevEnd < end
  {
    var windowEnd := WindowEnd(|tokens|, start, max);
    match HeadingBreak(tokens, headings, start, windowEnd)
    case Some(i) => if i <= prevEnd then windowEnd else i
    case None => windowEnd
  }

  function NextStart(start: nat, end: nat, overlap: nat): (next: nat)
    requires start < end
    ensures start < next <= end
  {
    if overlap >= end - start then end else end - overlap
  }

  /** All chunks from `start` on. */
  function Spans(tokens: seq<Token>, headings: seq<nat>, max: nat, overlap: nat, start: nat, prevEnd: nat): seq<Span>
    requires Increasing(headings) && start < |tokens| && max >= 1
    decreases |tokens| - start
  {
    var end := ChunkEnd(tokens, headings, max, start, prevEnd);
    [Span(start, end)] +
    (if end >= |tokens| then [] else Spans(tokens, headings, max, overlap, NextStart(start, end, overlap), end))
  }

  function ChunkOf(text: string, tokens: seq<Token>, headings: seq<nat>, s: Span, idx: nat): Chunk
    requires TokensOf(tokens, text) && Increasing(headings) && s.start < s.end <= |tokens|
    requires forall i :: 0 <= i < |headings| ==> headings[i] <= |text|
  {
    var from, to := tokens[s.start].start, tokens[s.end - 1].end;
    assert from <= tokens[s.start].end <= to;
    Chunk(text[from..to], s.end - s.start, idx, HeadingAt(text, headings, from, to))
  }

  /** The end of the next chunk, branch by branch.  The last branch, which would
      skip a range without emitting it, is never reached. */
  method NextEnd(tokens: seq<Token>, headings: seq<nat>, max: nat, start: nat, prevEnd: nat) returns (end: nat)
    requires Increasing(headings) && start < |tokens| && max >= 1 && prevEnd < WindowEnd(|tokens|, start, max)
    ensures end == ChunkEnd(tokens, headings, max, start, prevEnd)
  {
    var windowEnd := if start + max <= |tokens| then start + max else |tokens|;
    end := windowEnd;
    var first := CountBelow(headings, tokens[start].end + 1);
    if first < |headings| {
      var found := FirstEndingAfter(tokens, start + 1, windowEnd, headings[first]);
      if found.Some? {
        end := found.value;
      }
    }
    if end <= prevEnd {
      if windowEnd > prevEnd {
        end := windowEnd;
      } else {
        assert false;
      }
    }
  }

  lemma WindowAdvances(tokens: seq<Token>, headings: seq<nat>, max: nat, overlap: nat, start: nat, prevEnd: nat)
    requires Increasing(headings) && start < |tokens| && max >= 1 && prevEnd < WindowEnd(|tokens|, start, max)
    ensures var end := ChunkEnd(tokens, headings, max, start, prevEnd);
            && prevEnd < end && (end < |tokens| ==> end < WindowEnd(|tokens|, NextStart(start, end, overlap), max))
  {
  }

  predicate ChunksMatch(text: string, tokens: seq<Token>, headings: seq<nat>, spans: seq<Span>, chunks: seq<Chunk>)
    requires TokensOf(tokens, text) && Increasing(headings)
    requires forall i :: 0 <= i < |headings| ==> headings[i] <= |text|
  {
    && |chunks| == |spans|
    && forall k :: 0 <= k < |spans| ==>
         spans[k].start < spans[k].end <= |tokens| && chunks[k] == ChunkOf(text, tokens, headings, spans[k], k)
  }

  lemma MatchAppend(text: string, tokens: seq<Token>, headings: seq<nat>, spans: seq<Span>, chunks: seq<Chunk>,
                    s: Span, c: Chunk)
    requires TokensOf(tokens, text) && Increasing(headings)
    requires forall i :: 0 <= i < |headings| ==> headings[i] <= |text|
    requires ChunksMatch(text, tokens, headings, spans, chunks)
    requires s.start < s.end <= |tokens| && c == ChunkOf(text, tokens, headings, s, |chunks|)
    ensures ChunksMatch(text, tokens, headings, spans + [s], chunks + [c])
  {
  }

  // ----- what a chunk holds, character by character -----

  /** Token t has its text in the chunk, as far from the chunk's start as in the document. */
  predicate HasToken(text: string, tokens: seq<Token>, s: Span, content: string, t: nat)
    requires TokensOf(tokens, text) && s.start <= t < s.end <= |tokens|
  {
    var at := tokens[t].start - tokens[s.start].start;
    var size := tokens[t].end - tokens[t].start;
    0 <= at && at + size <= |content| && content[at..at + size] == text[tokens[t].start..tokens[t].end]
  }

  /** The k-th chunk: all tokens of its span with the text between them, their number,
      and its place. */
  predicate Holds(text: string, tokens: seq<Token>, s: Span, k: nat, c: Chunk)
    requires TokensOf(tokens, text) && s.start < s.end <= |tokens|
  {
    var from := tokens[s.start].start;
    && c.idx == k && c.tokens == s.end - s.start
    && from + |c.content| == tokens[s.end - 1].end
    && (forall i :: 0 <= i < |c.content| ==> c.content[i] == text[from + i])
    && forall t :: s.start <= t < s.end ==> HasToken(text, tokens, s, c.content, t)
  }

  lemma ChunkHolds(text: string, tokens: seq<Token>, headings: seq<nat>, s: Span, k: nat)
    requires TokensOf(tokens, text) && Increasing(headings) && s.start < s.end <= |tokens|
    requires forall i :: 0 <= i < |headings| ==> headings[i] <= |text|
    ensures Holds(text, tokens, s, k, ChunkOf(text, tokens, headings, s, k))
  {
    var content := ChunkOf(text, tokens, headings, s, k).content;
    var from, to := tokens[s.start].start, tokens[s.end - 1].end;
    assert content == text[from..to];
    forall t | s.start <= t < s.end
      ensures HasToken(text, tokens, s, content, t)
    {
      var at, size := tokens[t].start - from, tokens[t].end - tokens[t].start;
      assert text[from..to][at..at + size] == text[from + at..from + at + size];
    }
  }

  /** One chunk per span, each holding its span. */
  predicate AllHold(text: string, tokens: seq<Token>, spans: seq<Span>, chunks: seq<Chunk>)
    requires TokensOf(tokens, text)
  {
    && |chunks| == |spans|
    && forall k :: 0 <= k < |spans| ==>
         spans[k].start < spans[k].end <= |tokens| && Holds(text, tokens, spans[k], k, chunks[k])
  }

  /** Each chunk has the heading of its stretch of the document. */
  predicate HeadingsFit(text: string, tokens: seq<Token>, headings: seq<nat>, spans: seq<Span>, chunks: seq<Chunk>)
    requires TokensOf(tokens, text) && Increasing(headings) && AllHold(text, tokens, spans, chunks)
    requires forall i :: 0 <= i < |headings| ==> headings[i] <= |text|
  {
    forall k :: 0 <= k < |spans| ==>
      chunks[k].heading == HeadingAt(text, headings, tokens[spans[k].start].start, tokens[spans[k].end - 1].end)
  }

  lemma MatchedHold(text: string, tokens: seq<Token>, headings: seq<nat>, spans: seq<Span>, chunks: seq<Chunk>)
    requires TokensOf(tokens, text) && Increasing(headings)
    requires forall i :: 0 <= i < |headings| ==> headings[i] <= |text|
    requires ChunksMatch(text, tokens, headings, spans, chunks)
    ensures AllHold(text, tokens, spans, chunks) && HeadingsFit(text, tokens, headings, spans, chunks)
  {
    forall k | 0 <= k < |spans|
      ensures Holds(text, tokens, spans[k], k, chunks[k])
    {
      ChunkHolds(text, tokens, headings, spans[k], k);
    }
  }

  /** The chunks still to come; none once the window has reached the end. */
  function Rest(tokens: seq<Token>, headings: seq<nat>, max: nat, overlap: nat, start: nat, prevEnd: nat): seq<Span>
    requires Increasing(headings) && max >= 1
  {
    if start >= |tokens| then [] else Spans(tokens, headings, max, overlap, start, prevEnd)
  }

  lemma RestUnfold(tokens: seq<Token>, headings: seq<nat>, max: nat, overlap: nat, start: nat, prevEnd: nat,
                   before: seq<Span>)
    requires Increasing(headings) && start < |tokens| && max >= 1
    ensures var end := ChunkEnd(tokens, headings, max, start, prevEnd);
            before + Rest(tokens, headings, max, overlap, start, prevEnd)
            == (before + [Span(start, end)])
               + Rest(tokens, headings, max, overlap,
                      if end >= |tokens| then |tokens| else NextStart(start, end, overlap), end)
  {
  }

  /** `chunk`: one chunk per span, in order. */
  method Split(text: string, tokens: seq<Token>, max: nat, overlap: nat) returns (r: Result<seq<Chunk>>)
    requires TokensOf(tokens, text)
    ensures tokens == [] ==> r == Ok([])
    ensures tokens != [] ==> (r == MaxTokensIsZero <==> max == 0)
    ensures tokens != [] && max > 0 ==>
              && Increasing(HeadingOffsets(text))
              && (forall k :: 0 <= k < |HeadingOffsets(text)| ==> HeadingOffsets(text)[k] <= |text|)
              && ChunksMatch(text, tokens, HeadingOffsets(text),
                             Spans(tokens, HeadingOffsets(text), max, overlap, 0, 0), r.value)
    ensures tokens != [] && max > 0 ==>
              var spans := Spans(tokens, HeadingOffsets(text), max, overlap, 0, 0);
              && AllHold(text, tokens, spans, r.value)
              && HeadingsFit(text, tokens, HeadingOffsets(text), spans, r.value)
  {
    if |tokens| == 0 {
      return Ok([]);
    }
    if max == 0 {
      return MaxTokensIsZero;
    }
    var headings := HeadingStarts(text);
    HeadingsIncreasing(text, 0, None);
    ghost var all := Spans(tokens, headings, max, overlap, 0, 0);
    ghost var spans: seq<Span> := [];
    var chunks: seq<Chunk> := [];
    var start: nat, prevEnd: nat := 0, 0;
    while start < |tokens|
      invariant 0 <= start <= |tokens| && (start < |tokens| ==> prevEnd < WindowEnd(|tokens|, start, max))
      invariant ChunksMatch(text, tokens, headings, spans, chunks)
      invariant all == spans + Rest(tokens, headings, max, overlap, start, prevEnd)
      decreases |tokens| - start
    {
      var end := NextEnd(tokens, headings, max, start, prevEnd);
      WindowAdvances(tokens, headings, max, overlap, start, prevEnd);
      RestUnfold(tokens, headings, max, overlap, start, prevEnd, spans);
      var from, to := tokens[start].start, tokens[end - 1].end;
      var chunk := Chunk(text[from..to], end - start, |chunks|, HeadingAt(text, headings, from, to));
      MatchAppend(text, tokens, headings, spans, chunks, Span(start, end), chunk);
      chunks, spans := chunks + [chunk], spans + [Span(start, end)];
      prevEnd := end;
      start := if end >= |tokens| then |tokens| else NextStart(start, end, overlap);
    }
    assert all == spans;
    MatchedHold(text, tokens, headings, all, chunks);
    r := Ok(chunks);
  }
}

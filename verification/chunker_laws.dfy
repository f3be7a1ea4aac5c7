/** What the chunks of a document cover, how they overlap, and where headings
    fall in them. */
module ChunkerLaws {
  import opened Options
  import opened Headings
  import opened Chunker

  predicate Adjacent(a: Span, b: Span, overlap: nat) {
    && a.start < b.start && a.end < b.end
    && b.start == if overlap < a.end - a.start then a.end - overlap else a.end
  }

  /** Non-empty spans of at most `max` tokens from token `from` to token `n`, each
      starting where the one before ends, or exactly `overlap` tokens earlier. */
  predicate Covers(spans: seq<Span>, from: nat, n: nat, max: nat, overlap: nat) {
    && spans != [] && spans[0].start == from && spans[|spans| - 1].end == n
    && (forall k :: 0 <= k < |spans| ==> spans[k].start < spans[k].end <= n && spans[k].end - spans[k].start <= max)
    && forall k :: 0 <= k < |spans| - 1 ==> Adjacent(spans[k], spans[k + 1], overlap)
  }

  lemma {:induction false} CoversFrom(tokens: seq<Token>, headings: seq<nat>, max: nat, overlap: nat, start: nat,
                                      prevEnd: nat)
    requires Increasing(headings) && start < |tokens| && max >= 1 && prevEnd < WindowEnd(|tokens|, start, max)
    ensures Covers(Spans(tokens, headings, max, overlap, start, prevEnd), start, |tokens|, max, overlap)
    ensures Spans(tokens, headings, max, overlap, start, prevEnd)[0].end > prevEnd
    decreases |tokens| - start
  {
    var end := ChunkEnd(tokens, headings, max, start, prevEnd);
    WindowAdvances(tokens, headings, max, overlap, start, prevEnd);
    if end >= |tokens| {
    } else {
      var next := NextStart(start, end, overlap);
      CoversFrom(tokens, headings, max, overlap, next, end);
      var rest := Spans(tokens, headings, max, overlap, next, end);
      var all := Spans(tokens, headings, max, overlap, start, prevEnd);
      assert all == [Span(start, end)] + rest;
      forall k | 0 <= k < |all| - 1
        ensures Adjacent(all[k], all[k + 1], overlap)
      {
        if k > 0 {
          assert Adjacent(rest[k - 1], rest[k], overlap);
        }
      }
    }
  }

  /** For every document, window and overlap the chunks cover all tokens in order. */
  lemma {:induction false} ChunksCover(tokens: seq<Token>, headings: seq<nat>, max: nat, overlap: nat)
    requires Increasing(headings) && tokens != [] && max >= 1
    ensures Covers(Spans(tokens, headings, max, overlap, 0, 0), 0, |tokens|, max, overlap)
  {
    CoversFrom(tokens, headings, max, overlap, 0, 0);
  }

  /** No token is skipped: each lies in some chunk. */
  lemma {:induction false} EveryTokenCovered(spans: seq<Span>, from: nat, n: nat, max: nat, overlap: nat, t: nat)
    requires Covers(spans, from, n, max, overlap) && from <= t < n
    ensures exists k :: 0 <= k < |spans| && spans[k].start <= t < spans[k].end
    decreases |spans|
  {
    if t < spans[0].end {
    } else {
      assert Adjacent(spans[0], spans[1], overlap);
      var rest := spans[1..];
      forall k | 0 <= k < |rest| - 1
        ensures Adjacent(rest[k], rest[k + 1], overlap)
      {
        assert rest[k] == spans[k + 1] && rest[k + 1] == spans[k + 1 + 1];
      }
      EveryTokenCovered(rest, rest[0].start, n, max, overlap, t);
      var k :| 0 <= k < |rest| && rest[k].start <= t < rest[k].end;
      assert spans[k + 1].start <= t < spans[k + 1].end;
    }
  }

  // ----- headings inside chunks -----

  /** No heading lies strictly between the end of the first and of the last token. */
  predicate HeadingFree(tokens: seq<Token>, headings: seq<nat>, s: Span)
    requires s.start < s.end <= |tokens|
  {
    forall h :: h in headings ==> h <= tokens[s.start].end || tokens[s.end - 1].end <= h
  }

  predicate MonotoneEnds(tokens: seq<Token>) {
    forall i, j :: 0 <= i <= j < |tokens| ==> tokens[i].end <= tokens[j].end
  }

  /** A chunk has a heading inside exactly when the break at that heading lies in
      what the previous chunk has already covered. */
  lemma HeadingFreeIff(tokens: seq<Token>, headings: seq<nat>, max: nat, start: nat, prevEnd: nat)
    requires Increasing(headings) && MonotoneEnds(tokens)
    requires start < |tokens| && max >= 1 && prevEnd < WindowEnd(|tokens|, start, max)
    ensures HeadingFree(tokens, headings, Span(start, ChunkEnd(tokens, headings, max, start, prevEnd))) <==>
            var b := HeadingBreak(tokens, headings, start, WindowEnd(|tokens|, start, max));
            b.None? || b.value > prevEnd
  {
    var windowEnd := WindowEnd(|tokens|, start, max);
    var end := ChunkEnd(tokens, headings, max, start, prevEnd);
    var first := CountBelow(headings, tokens[start].end + 1);
    var b := HeadingBreak(tokens, headings, start, windowEnd);
    if first < |headings| {
      assert headings[first] in headings;
      if b.Some? && b.value <= prevEnd {
        assert tokens[b.value].end <= tokens[end - 1].end;
      }
      forall h | h in headings && h > tokens[start].end
        ensures headings[first] <= h
      {
        var k :| 0 <= k < |headings| && headings[k] == h;
      }
    }
  }

  /** Without overlap no chunk has a heading inside: sections stay intact. */
  lemma {:induction false} NoHeadingInside(tokens: seq<Token>, headings: seq<nat>, max: nat, start: nat, k: nat)
    requires Increasing(headings) && MonotoneEnds(tokens) && start < |tokens| && max >= 1
    requires k < |Spans(tokens, headings, max, 0, start, start)|
    ensures var s := Spans(tokens, headings, max, 0, start, start)[k];
            s.start < s.end <= |tokens| && HeadingFree(tokens, headings, s)
    decreases |tokens| - start
  {
    var end := ChunkEnd(tokens, headings, max, start, start);
    HeadingFreeIff(tokens, headings, max, start, start);
    if k == 0 {
    } else {
      NoHeadingInside(tokens, headings, max, end, k - 1);
    }
  }

  /** A heading where the chunk of these tokens may end: past its first token, not
      before the end of its last one, and before the end of the next. */
  predicate HeadingBetween(tokens: seq<Token>, headings: seq<nat>, s: Span)
    requires s.start < s.end < |tokens|
  {
    exists h :: h in headings && tokens[s.start].end < h && tokens[s.end - 1].end <= h < tokens[s.end].end
  }

  /** The chunk is a full window, or the rest of the document, or ends at a heading. */
  predicate FullOrAtHeading(tokens: seq<Token>, headings: seq<nat>, max: nat, s: Span)
    requires s.start < s.end <= |tokens|
  {
    s.end == s.start + max || s.end == |tokens| || HeadingBetween(tokens, headings, s)
  }

  lemma EndsAtHeading(tokens: seq<Token>, headings: seq<nat>, max: nat, start: nat, prevEnd: nat)
    requires Increasing(headings) && start < |tokens| && max >= 1
    ensures FullOrAtHeading(tokens, headings, max, Span(start, ChunkEnd(tokens, headings, max, start, prevEnd)))
  {
    var end := ChunkEnd(tokens, headings, max, start, prevEnd);
    if end < WindowEnd(|tokens|, start, max) {
      var h := headings[CountBelow(headings, tokens[start].end + 1)];
      assert h in headings && tokens[start].end < h;
    }
  }

  /** No chunk is cut short without a heading to cut at. */
  lemma {:induction false} CutsOnlyAtHeadings(tokens: seq<Token>, headings: seq<nat>, max: nat, overlap: nat,
                                              start: nat, prevEnd: nat, k: nat)
    requires Increasing(headings) && start < |tokens| && max >= 1
    requires k < |Spans(tokens, headings, max, overlap, start, prevEnd)|
    ensures var s := Spans(tokens, headings, max, overlap, start, prevEnd)[k];
            s.start < s.end <= |tokens| && FullOrAtHeading(tokens, headings, max, s)
    decreases |tokens| - start
  {
    var end := ChunkEnd(tokens, headings, max, start, prevEnd);
    if k == 0 {
      EndsAtHeading(tokens, headings, max, start, prevEnd);
    } else {
      CutsOnlyAtHeadings(tokens, headings, max, overlap, NextStart(start, end, overlap), end, k - 1);
    }
  }

  // ----- closed form -----

  function CeilDiv(a: nat, b: nat): nat
    requires b > 0
  {
    (a + b - 1) / b
  }

  /** Number of chunks of n tokens without headings. */
  function ChunkCount(n: nat, max: nat, overlap: nat): nat
    requires overlap < max
  {
    if n <= max then 1 else 1 + CeilDiv(n - max, max - overlap)
  }

  lemma MulBounds(d: int, b: int)
    requires b > 0
    ensures (d >= 1 ==> d * b >= b) && (d <= -1 ==> d * b <= -b)
  {
  }

  lemma DivUnique(x: int, b: int, q: int)
    requires b > 0 && q * b <= x < q * b + b
    ensures x / b == q
  {
    var p := x / b;
    assert p * b <= x < p * b + b;
    assert (p - q) * b == p * b - q * b;
    MulBounds(p - q, b);
  }

  lemma CeilDivStep(a: nat, b: nat)
    requires b > 0 && a > 0
    ensures a <= b ==> CeilDiv(a, b) == 1
    ensures a > b ==> CeilDiv(a, b) == 1 + CeilDiv(a - b, b)
  {
    if a <= b {
      DivUnique(a + b - 1, b, 1);
    } else {
      var q := (a - 1) / b;
      assert (q + 1) * b == q * b + b;
      DivUnique(a + b - 1, b, q + 1);
    }
  }

  lemma CountStep(n: nat, max: nat, overlap: nat)
    requires overlap < max < n
    ensures ChunkCount(n, max, overlap) == 1 + ChunkCount(n - (max - overlap), max, overlap)
  {
    CeilDivStep(n - max, max - overlap);
  }

  /** Without headings every window is full, until the last. */
  lemma PlainStep(tokens: seq<Token>, max: nat, overlap: nat, start: nat, prevEnd: nat)
    requires overlap < max && start < |tokens| && prevEnd < WindowEnd(|tokens|, start, max)
    ensures var first := [Span(start, WindowEnd(|tokens|, start, max))];
            && Spans(tokens, [], max, overlap, start, prevEnd) == first +
                 (if start + max >= |tokens| then []
                  else Spans(tokens, [], max, overlap, start + (max - overlap), start + max))
            && (start + max < |tokens| ==> start + max < WindowEnd(|tokens|, start + (max - overlap), max))
  {
  }

  /** The windows of `n` tokens from `start` on, when there are no headings. */
  function Plain(n: nat, max: nat, overlap: nat, start: nat): seq<Span>
    requires overlap < max
    decreases n - start
  {
    if start >= n then []
    else if start + max >= n then [Span(start, n)]
    else [Span(start, start + max)] + Plain(n, max, overlap, start + (max - overlap))
  }

  lemma {:induction false} SpansArePlain(tokens: seq<Token>, max: nat, overlap: nat, start: nat, prevEnd: nat)
    requires overlap < max && start < |tokens| && prevEnd < WindowEnd(|tokens|, start, max)
    ensures Spans(tokens, [], max, overlap, start, prevEnd) == Plain(|tokens|, max, overlap, start)
    decreases |tokens| - start
  {
    PlainStep(tokens, max, overlap, start, prevEnd);
    var next := start + (max - overlap);
    if start + max >= |tokens| {
    } else {
      SpansArePlain(tokens, max, overlap, next, start + max);
      assert Spans(tokens, [], max, overlap, start, prevEnd)
          == [Span(start, start + max)] + Plain(|tokens|, max, overlap, next);
    }
  }

  lemma {:induction false} PlainCount(n: nat, max: nat, overlap: nat, start: nat)
    requires overlap < max && start < n
    ensures |Plain(n, max, overlap, start)| == ChunkCount(n - start, max, overlap)
    decreases n - start
  {
    if start + max >= n {
    } else {
      CountStep(n - start, max, overlap);
      PlainCount(n, max, overlap, start + (max - overlap));
    }
  }

  /** Chunk k starts at token `at`. */
  lemma {:induction false} PlainSpan(n: nat, max: nat, overlap: nat, start: nat, k: nat, at: nat)
    requires overlap < max && k < |Plain(n, max, overlap, start)| && at == start + k * (max - overlap)
    ensures Plain(n, max, overlap, start)[k] == Span(at, WindowEnd(n, at, max))
    decreases n - start
  {
    if k == 0 {
    } else {
      OneMoreStep(max - overlap, k);
      PlainSpan(n, max, overlap, start + (max - overlap), k - 1, at);
    }
  }

  lemma OneMoreStep(step: nat, k: nat)
    ensures (k - 1) * step + step == k * step
  {
  }

  lemma Product(k: nat, step: nat) returns (at: nat)
    ensures at == k * step
  {
    at := k * step;
  }

  /** Without headings, chunk k is the window at k * (max - overlap), and there are
      1 + ceil((n - max) / (max - overlap)) chunks when n exceeds max. */
  lemma {:induction false} ClosedForm(tokens: seq<Token>, max: nat, overlap: nat, k: nat)
    requires overlap < max && tokens != []
    ensures |Spans(tokens, [], max, overlap, 0, 0)| == ChunkCount(|tokens|, max, overlap)
    ensures k < ChunkCount(|tokens|, max, overlap) ==>
              Spans(tokens, [], max, overlap, 0, 0)[k]
              == Span(k * (max - overlap), WindowEnd(|tokens|, k * (max - overlap), max))
  {
    SpansArePlain(tokens, max, overlap, 0, 0);
    PlainCount(|tokens|, max, overlap, 0);
    var at := Product(k, max - overlap);
    if k < ChunkCount(|tokens|, max, overlap) {
      PlainSpan(|tokens|, max, overlap, 0, k, at);
    }
  }

  function TokenSum(spans: seq<Span>): int {
    if spans == [] then 0 else spans[0].end - spans[0].start + TokenSum(spans[1..])
  }

  lemma {:induction false} PlainSum(n: nat, max: nat, overlap: nat, start: nat)
    requires overlap < max && start < n
    ensures TokenSum(Plain(n, max, overlap, start)) == n - start + overlap * (|Plain(n, max, overlap, start)| - 1)
    decreases n - start
  {
    if start + max >= n {
    } else {
      var rest := Plain(n, max, overlap, start + (max - overlap));
      PlainSum(n, max, overlap, start + (max - overlap));
      SumCons(Span(start, start + max), rest);
      OneMoreSeam(n, start, max, overlap, TokenSum(rest), |rest|);
    }
  }

  lemma SumCons(span: Span, rest: seq<Span>)
    ensures TokenSum([span] + rest) == span.end - span.start + TokenSum(rest)
  {
    assert ([span] + rest)[1..] == rest;
  }

  lemma OneMoreSeam(n: int, start: int, max: int, overlap: int, sum: int, seams: int)
    requires sum == n - (start + (max - overlap)) + overlap * (seams - 1)
    ensures max + sum == n - start + overlap * ((seams + 1) - 1)
  {
  }

  /** Token counts add up to the document plus one overlap per seam. */
  lemma {:induction false} TokensAddUp(tokens: seq<Token>, max: nat, overlap: nat)
    requires overlap < max && tokens != []
    ensures var spans := Spans(tokens, [], max, overlap, 0, 0);
            TokenSum(spans) == |tokens| + overlap * (|spans| - 1)
  {
    SpansArePlain(tokens, max, overlap, 0, 0);
    PlainSum(|tokens|, max, overlap, 0);
  }

  /** Sum of the chunks' own token counts. */
  function CountSum(chunks: seq<Chunk>): int {
    if chunks == [] then 0 else chunks[0].tokens + CountSum(chunks[1..])
  }

  lemma {:induction false} CountsAreSizes(spans: seq<Span>, chunks: seq<Chunk>)
    requires |chunks| == |spans| && forall k :: 0 <= k < |spans| ==> chunks[k].tokens == spans[k].end - spans[k].start
    ensures CountSum(chunks) == TokenSum(spans)
  {
    if spans == [] {
    } else {
      CountsAreSizes(spans[1..], chunks[1..]);
    }
  }

  /** The counts that the chunks themselves carry add up in the same way. */
  lemma {:induction false} ChunkCountsAddUp(text: string, tokens: seq<Token>, max: nat, overlap: nat,
                                            chunks: seq<Chunk>)
    requires TokensOf(tokens, text) && overlap < max && tokens != [] && HeadingOffsets(text) == []
    requires AllHold(text, tokens, Spans(tokens, HeadingOffsets(text), max, overlap, 0, 0), chunks)
    ensures CountSum(chunks) == |tokens| + overlap * (|chunks| - 1)
  {
    TokensAddUp(tokens, max, overlap);
    CountsAreSizes(Spans(tokens, [], max, overlap, 0, 0), chunks);
  }

  /** No token is lost: each has its text in some chunk. */
  lemma EveryTokenHeld(text: string, tokens: seq<Token>, max: nat, overlap: nat, chunks: seq<Chunk>, t: nat)
      returns (k: nat)
    requires TokensOf(tokens, text) && max >= 1 && t < |tokens| && Increasing(HeadingOffsets(text))
    requires AllHold(text, tokens, Spans(tokens, HeadingOffsets(text), max, overlap, 0, 0), chunks)
    ensures var spans := Spans(tokens, HeadingOffsets(text), max, overlap, 0, 0);
            && k < |chunks| == |spans| && spans[k].start <= t < spans[k].end <= |tokens|
            && HasToken(text, tokens, spans[k], chunks[k].content, t)
  {
    var spans := Spans(tokens, HeadingOffsets(text), max, overlap, 0, 0);
    ChunksCover(tokens, HeadingOffsets(text), max, overlap);
    EveryTokenCovered(spans, 0, |tokens|, max, overlap, t);
    k :| 0 <= k < |spans| && spans[k].start <= t < spans[k].end;
    assert Holds(text, tokens, spans[k], k, chunks[k]);
  }
}

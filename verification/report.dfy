/** The figures a reindex reports, computed from the documents alone. */
module Report {
  import opened Options
  import opened Tables
  import opened KnowledgeStore
  import opened Commits
  import opened Reindex
  import opened Recovery

  datatype Report = Report(documents: nat, chunks: nat, tokens: nat, entities: nat)

  /** A report under construction: names are collected before they are counted. */
  datatype Tally = Tally(documents: nat, chunks: nat, tokens: nat, names: set<string>)

  function Tokens(pieces: seq<Piece>): nat {
    if pieces == [] then 0 else pieces[0].tokens + Tokens(pieces[1..])
  }

  /** Entity names extracted from the chunks, each chunk on its own. */
  function Names(env: Env, pieces: seq<Piece>): set<string> {
    set i, n | 0 <= i < |pieces| && n in env.entities(pieces[i].content) :: n
  }

  lemma NamesStep(env: Env, pieces: seq<Piece>, i: nat)
    requires i < |pieces|
    ensures var names := env.entities(pieces[i].content);
            Names(env, pieces[..i + 1]) == Names(env, pieces[..i]) + (set k | 0 <= k < |names| :: names[k])
  {
    var names := env.entities(pieces[i].content);
    var before, after := pieces[..i], pieces[..i + 1];
    forall n | n in Names(env, before)
      ensures n in Names(env, after)
    {
      var k :| 0 <= k < |before| && n in env.entities(before[k].content);
      assert after[k] == before[k];
    }
    forall n | n in Names(env, after)
      ensures n in Names(env, before) || n in names
    {
      var k :| 0 <= k < |after| && n in env.entities(after[k].content);
      assert k < i ==> after[k] == before[k];
    }
    forall n | n in names
      ensures n in Names(env, after) && n in (set k | 0 <= k < |names| :: names[k])
    {
      assert after[i] == pieces[i];
      var k :| 0 <= k < |names| && names[k] == n;
    }
  }

  function AddDocument(env: Env, c: Config, t: Tally, doc: Document): Tally {
    if Skipped(env, c, doc) || env.split(c, doc.content).None? then t
    else
      var pieces := env.split(c, doc.content).value;
      Tally(t.documents + 1, t.chunks + |pieces|, t.tokens + Tokens(pieces), t.names + Names(env, pieces))
  }

  function TallyOf(env: Env, c: Config, docs: seq<Document>): Tally {
    if docs == [] then Tally(0, 0, 0, {})
    else AddDocument(env, c, TallyOf(env, c, docs[..|docs| - 1]), docs[|docs| - 1])
  }

  function ReportOf(env: Env, c: Config, docs: seq<Document>): Report {
    var t := TallyOf(env, c, docs);
    Report(t.documents, t.chunks, t.tokens, |t.names|)
  }

  lemma TallyStep(env: Env, c: Config, docs: seq<Document>, i: nat)
    requires i < |docs|
    ensures TallyOf(env, c, docs[..i + 1]) == AddDocument(env, c, TallyOf(env, c, docs[..i]), docs[i])
  {
    assert docs[..i + 1][..i] == docs[..i];
  }

  lemma {:induction false} RebuildsStep(env: Env, c: Config, docs: seq<Document>, i: nat)
    requires i < |docs|
    ensures Rebuilds(env, c, docs[..i + 1])
         == Rebuilds(env, c, docs[..i]) + (if Skipped(env, c, docs[i]) then [] else [RebuildDocument(c, docs[i])])
  {
    if i == 0 {
      assert docs[..1][1..] == [] && docs[..0] == [];
    } else {
      assert docs[..i + 1][1..] == docs[1..][..i] && docs[..i][1..] == docs[1..][..i - 1];
      RebuildsStep(env, c, docs[1..], i - 1);
    }
  }

  // ----- what the figures mean -----

  /** The pieces of a document, if it has content and the tokenizer accepts it. */
  function PiecesIn(env: Env, c: Config, doc: Document): seq<Piece> {
    if doc.content != "" && env.split(c, doc.content).Some? then env.split(c, doc.content).value else []
  }

  /** The pieces of all documents, in order. */
  function AllPieces(env: Env, c: Config, docs: seq<Document>): seq<Piece> {
    if docs == [] then []
    else AllPieces(env, c, docs[..|docs| - 1]) + PiecesIn(env, c, docs[|docs| - 1])
  }

  /** Documents that have any piece. */
  function WithPieces(env: Env, c: Config, docs: seq<Document>): set<nat> {
    set k: nat | k < |docs| && PiecesIn(env, c, docs[k]) != []
  }

  lemma {:induction false} TokensConcat(a: seq<Piece>, b: seq<Piece>)
    ensures Tokens(a + b) == Tokens(a) + Tokens(b)
  {
    if a == [] {
      assert a + b == b;
    } else {
      assert (a + b)[1..] == a[1..] + b;
      TokensConcat(a[1..], b);
    }
  }

  lemma NamesConcat(env: Env, a: seq<Piece>, b: seq<Piece>)
    ensures Names(env, a + b) == Names(env, a) + Names(env, b)
  {
    forall n | n in Names(env, a)
      ensures n in Names(env, a + b)
    {
      var i :| 0 <= i < |a| && n in env.entities(a[i].content);
      assert (a + b)[i] == a[i];
    }
    forall n | n in Names(env, b)
      ensures n in Names(env, a + b)
    {
      var i :| 0 <= i < |b| && n in env.entities(b[i].content);
      assert (a + b)[|a| + i] == b[i];
    }
  }

  lemma OneMoreDocument(env: Env, c: Config, docs: seq<Document>)
    requires docs != []
    ensures var n := |docs| - 1;
            WithPieces(env, c, docs)
            == WithPieces(env, c, docs[..n]) + if PiecesIn(env, c, docs[n]) != [] then {n} else {}
  {
  }

  /** The four figures, by what they count: documents with any piece, pieces, their
      tokens, and different entity names extracted from them. */
  lemma {:induction false} ReportCountsPieces(env: Env, c: Config, docs: seq<Document>)
    ensures var pieces := AllPieces(env, c, docs);
            TallyOf(env, c, docs) == Tally(|WithPieces(env, c, docs)|, |pieces|, Tokens(pieces), Names(env, pieces))
    decreases |docs|
  {
    if docs == [] {
    } else {
      var n := |docs| - 1;
      ReportCountsPieces(env, c, docs[..n]);
      OneMoreDocument(env, c, docs);
      TokensConcat(AllPieces(env, c, docs[..n]), PiecesIn(env, c, docs[n]));
      NamesConcat(env, AllPieces(env, c, docs[..n]), PiecesIn(env, c, docs[n]));
    }
  }

  // ----- the report against the rows that exist afterwards -----

  /** The pieces that rows hold. */
  function RowPieces(rows: seq<ChunkRow>): seq<Piece> {
    seq(|rows|, i requires 0 <= i < |rows| => rows[i].piece)
  }

  lemma {:induction false} RowsWithoutNothing(rows: seq<ChunkRow>, d: nat)
    requires RowsOf(rows, d) == []
    ensures RowsWithout(rows, d) == rows
  {
    if rows == [] {
    } else {
      RowsWithoutNothing(rows[1..], d);
    }
  }

  lemma PiecesConcat(a: seq<ChunkRow>, b: seq<ChunkRow>)
    ensures RowPieces(a + b) == RowPieces(a) + RowPieces(b)
  {
  }

  lemma NewRowsHold(env: Env, c: Config, d: nat, pieces: seq<Piece>, next: nat)
    ensures RowPieces(NewRows(env, c, d, pieces, next)) == pieces
    ensures forall e :: RowsOf(NewRows(env, c, d, pieces, next), e) ==
                        if e == d then NewRows(env, c, d, pieces, next) else []
  {
    var rows := NewRows(env, c, d, pieces, next);
    forall e: nat
      ensures RowsOf(rows, e) == if e == d then rows else []
    {
      RowsOfUniform(rows, d, e);
    }
  }

  lemma RebuildRows(env: Env, s: Store, c: Config, doc: Document)
    requires Rebuild(env, s, c, doc).Some? && RowsOf(s.chunks, doc.id) == []
    ensures Rebuild(env, s, c, doc).value.chunks
         == s.chunks + NewRows(env, c, doc.id, env.split(c, doc.content).value, s.next)
  {
    RowsWithoutNothing(s.chunks, doc.id);
  }

  lemma RebuildAddsRows(env: Env, s: Store, c: Config, doc: Document, e: nat)
    requires Rebuild(env, s, c, doc).Some? && RowsOf(s.chunks, doc.id) == []
    ensures var t := Rebuild(env, s, c, doc).value;
            && RowPieces(t.chunks) == RowPieces(s.chunks) + env.split(c, doc.content).value
            && (e != doc.id ==> RowsOf(t.chunks, e) == RowsOf(s.chunks, e))
  {
    var pieces := env.split(c, doc.content).value;
    var rows := NewRows(env, c, doc.id, pieces, s.next);
    RebuildRows(env, s, c, doc);
    NewRowsHold(env, c, doc.id, pieces, s.next);
    PiecesConcat(s.chunks, rows);
    RowsOfConcat(s.chunks, rows, e);
    assert RowsOf(s.chunks, e) + [] == RowsOf(s.chunks, e);
  }

  lemma RebuildAddsRowsAll(env: Env, s: Store, c: Config, docs: seq<Document>, i: nat)
    requires i < |docs| && DistinctDocs(docs) && Rebuild(env, s, c, docs[i]).Some?
    requires forall k :: i <= k < |docs| ==> RowsOf(s.chunks, docs[k].id) == []
    ensures var t := Rebuild(env, s, c, docs[i]).value;
            && RowPieces(t.chunks) == RowPieces(s.chunks) + env.split(c, docs[i].content).value
            && forall k :: i < k < |docs| ==> RowsOf(t.chunks, docs[k].id) == []
  {
    RebuildAddsRows(env, s, c, docs[i], docs[i].id);
    forall k | i < k < |docs|
      ensures RowsOf(Rebuild(env, s, c, docs[i]).value.chunks, docs[k].id) == []
    {
      RebuildAddsRows(env, s, c, docs[i], docs[k].id);
    }
  }

  /** The rows so far are those of the first i documents. */
  predicate StoredUpTo(env: Env, s: Store, c: Config, docs: seq<Document>, i: nat)
    requires i <= |docs|
  {
    && RowPieces(s.chunks) == AllPieces(env, c, docs[..i])
    && forall k :: i <= k < |docs| ==> RowsOf(s.chunks, docs[k].id) == []
  }

  lemma OneMoreStored(env: Env, s: Store, c: Config, docs: seq<Document>, i: nat)
    requires i < |docs| && DistinctDocs(docs) && StoredUpTo(env, s, c, docs, i)
    requires !Skipped(env, c, docs[i]) && Apply(env, s, RebuildDocument(c, docs[i])).Some?
    ensures StoredUpTo(env, Apply(env, s, RebuildDocument(c, docs[i])).value, c, docs, i + 1)
  {
    assert docs[..i + 1][..i] == docs[..i];
    RebuildAddsRowsAll(env, s, c, docs, i);
  }

  lemma NoneMoreStored(env: Env, s: Store, c: Config, docs: seq<Document>, i: nat)
    requires i < |docs| && StoredUpTo(env, s, c, docs, i) && Skipped(env, c, docs[i])
    ensures StoredUpTo(env, s, c, docs, i + 1)
  {
    assert docs[..i + 1][..i] == docs[..i];
    assert AllPieces(env, c, docs[..i]) + [] == AllPieces(env, c, docs[..i]);
  }

  lemma {:induction false} RebuildsStorePieces(env: Env, s: Store, c: Config, docs: seq<Document>, i: nat)
    requires i <= |docs| && DistinctDocs(docs) && s.chunks == []
    requires Exec(env, s, Rebuilds(env, c, docs[..i])).Some?
    ensures StoredUpTo(env, Exec(env, s, Rebuilds(env, c, docs[..i])).value, c, docs, i)
    decreases i, 0
  {
    if i == 0 {
      assert docs[..0] == [];
    } else {
      var plan := Rebuilds(env, c, docs[..i - 1]);
      RebuildsStep(env, c, docs, i - 1);
      if Skipped(env, c, docs[i - 1]) {
        assert plan + [] == plan;
        RebuildsStorePieces(env, s, c, docs, i - 1);
        NoneMoreStored(env, Exec(env, s, plan).value, c, docs, i - 1);
      } else {
        RebuildsStoreOneMore(env, s, c, docs, i - 1);
      }
    }
  }

  lemma RebuildsStoreOneMore(env: Env, s: Store, c: Config, docs: seq<Document>, i: nat)
    requires i < |docs| && DistinctDocs(docs) && s.chunks == [] && !Skipped(env, c, docs[i])
    requires Exec(env, s, Rebuilds(env, c, docs[..i]) + [RebuildDocument(c, docs[i])]).Some?
    ensures var plan := Rebuilds(env, c, docs[..i]) + [RebuildDocument(c, docs[i])];
            StoredUpTo(env, Exec(env, s, plan).value, c, docs, i + 1)
    decreases i, 1
  {
    var plan := Rebuilds(env, c, docs[..i]);
    ExecSnoc(env, s, plan, RebuildDocument(c, docs[i]));
    RebuildsStorePieces(env, s, c, docs, i);
    OneMoreStored(env, Exec(env, s, plan).value, c, docs, i);
  }

  /** A completed reindex that redefined the field leaves exactly the pieces of all
      documents, in order, and its report counts them. */
  lemma {:induction false} ReportCountsRows(env: Env, s: Store, c: Config)
    requires WellFormed(s) && DimensionChanged(s, c) && Exec(env, s, ReindexPlan(env, s, c)).Some?
    ensures var stored := RowPieces(Exec(env, s, ReindexPlan(env, s, c)).value.chunks);
            && stored == AllPieces(env, c, s.docs)
            && ReportOf(env, c, s.docs)
               == Report(|WithPieces(env, c, s.docs)|, |stored|, Tokens(stored), |Names(env, stored)|)
  {
    var rebuilds := Rebuilds(env, c, s.docs);
    var h := Prepared(s, true, c);
    DimensionPlanRuns(env, s, c);
    assert s.docs[..|s.docs|] == s.docs;
    RebuildsStorePieces(env, h, c, s.docs, |s.docs|);
    EpilogueResult(env, Exec(env, h, rebuilds).value, true, c);
    ReportCountsPieces(env, c, s.docs);
  }

  /** A reindex that redefines the field is its prologue, its rebuilds and its epilogue. */
  lemma DimensionPlanRuns(env: Env, s: Store, c: Config)
    requires WellFormed(s) && DimensionChanged(s, c) && Exec(env, s, ReindexPlan(env, s, c)).Some?
    ensures var t := Exec(env, Prepared(s, true, c), Rebuilds(env, c, s.docs));
            && t.Some? && t.value.indexDim == None && Indexable(t.value, c.dimension)
            && Exec(env, s, ReindexPlan(env, s, c)) == Exec(env, t.value, Refresh(true, c) + [ClearMarker])
  {
    var rebuilds := Rebuilds(env, c, s.docs);
    var epilogue := Refresh(true, c) + [ClearMarker];
    assert ReindexPlan(env, s, c) == (Prologue(true, c) + rebuilds) + epilogue;
    ExecConcat(env, s, Prologue(true, c) + rebuilds, epilogue);
    ExecConcat(env, s, Prologue(true, c), rebuilds);
    PrologueResult(env, s, true, c);
    RebuildsKeepIndex(env, Prepared(s, true, c), c, s.docs);
    RebuildsKeepIndexable(env, Prepared(s, true, c), c, s.docs);
  }
}

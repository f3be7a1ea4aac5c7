/** Reindexing as a sequence of commits: which stores an interrupted run can
    leave behind, and what a completed run leaves. */
module Reindex {
  import opened Options
  import opened Tables
  import opened KnowledgeStore
  import opened Commits

  /** The embedding field and index must be redefined: the stored dimension
      differs, or an earlier redefinition was interrupted. */
  predicate DimensionChanged(s: Store, c: Config) {
    || (s.metas.dimension.Some? && s.metas.dimension.value != c.dimension)
    || s.metas.marker == Some(Dim)
  }

  /** Documents for which `rebuild_all` commits nothing. */
  predicate Skipped(env: Env, c: Config, doc: Document) {
    doc.content == "" || env.split(c, doc.content) == Some([])
  }

  function Rebuilds(env: Env, c: Config, docs: seq<Document>): seq<Commit> {
    if docs == [] then []
    else (if Skipped(env, c, docs[0]) then [] else [RebuildDocument(c, docs[0])]) + Rebuilds(env, c, docs[1..])
  }

  function Prologue(changed: bool, c: Config): seq<Commit> {
    if changed
    then [SetMarker(Dim), Transition(c.dimension), SetDimension(c.dimension), SetModel(c.model)]
    else [SetMarker(Meta)]
  }

  /** Everything before the final commit of the epilogue. */
  function Refresh(changed: bool, c: Config): seq<Commit> {
    (if changed then [DefineIndex(c.dimension)] else []) + [UpdateMetas(c)]
  }

  /** All commits of one run, in order; a run that stops early commits a prefix. */
  function ReindexPlan(env: Env, s: Store, c: Config): seq<Commit> {
    var changed := DimensionChanged(s, c);
    Prologue(changed, c) + Rebuilds(env, c, s.docs) + Refresh(changed, c) + [ClearMarker]
  }

  // ----- when a store may be used -----

  predicate Carries(r: ChunkRow, c: Config) {
    r.model == c.model && r.fingerprint == c.fingerprint
  }

  predicate AllCarry(s: Store, c: Config) {
    forall i :: 0 <= i < |s.chunks| ==> Carries(s.chunks[i], c)
  }

  predicate MetasMatch(m: Metas, c: Config) {
    m.model == Some(c.model) && m.dimension == Some(c.dimension) && m.fingerprint == Some(c.fingerprint)
  }

  /** Searching this store under `c` compares like with like: every vector was
      produced by c's model after c's tokenizer cut the text, and field and
      index have c's dimension. */
  predicate Serves(s: Store, c: Config) {
    && s.created && MetasMatch(s.metas, c) && AllCarry(s, c)
    && s.fieldDim == c.dimension && s.indexDim == Some(c.dimension)
  }

  /** What the metadata says about the data, for each value of the marker. */
  predicate Coherent(s: Store) {
    && (s.metas.model.Some? <==> s.metas.dimension.Some?)
    && (s.metas.model.None? ==> s.docs == [] && s.chunks == [] && s.metas.marker != Some(Dim))
    && (!s.created ==> s == EMPTY_STORE)
    && (s.created && s.metas.marker != Some(Dim) ==>
          s.indexDim == Some(s.fieldDim) && (s.metas.dimension.Some? ==> s.metas.dimension == Some(s.fieldDim)))
    && (s.metas.marker == None ==>
          forall i :: 0 <= i < |s.chunks| ==>
            s.metas.model == Some(s.chunks[i].model) && s.metas.fingerprint == Some(s.chunks[i].fingerprint))
  }

  // ----- the store between the first and the last commit -----

  /** The marker names the path for as long as the run is unfinished. */
  ghost predicate Underway(s: Store, changed: bool, c: Config) {
    && WellFormed(s) && Coherent(s) && s.created
    && s.metas.marker == Some(if changed then Dim else Meta)
    && (!changed ==> s.fieldDim == c.dimension)
  }

  /** The commits a run makes between setting and clearing its marker. */
  predicate Inner(a: Commit, changed: bool, c: Config, docs: seq<Document>) {
    match a
    case Transition(d) => changed && d == c.dimension
    case SetDimension(d) => changed && d == c.dimension
    case SetModel(m) => changed && m == c.model
    case DefineIndex(d) => changed && d == c.dimension
    case RebuildDocument(c', doc) => c' == c && doc in docs
    case UpdateMetas(c') => c' == c
    case _ => false
  }

  predicate AllInner(plan: seq<Commit>, changed: bool, c: Config, docs: seq<Document>) {
    forall i :: 0 <= i < |plan| ==> Inner(plan[i], changed, c, docs)
  }

  lemma InnerStep(env: Env, s: Store, changed: bool, c: Config, a: Commit)
    requires Underway(s, changed, c) && Inner(a, changed, c, s.docs) && Apply(env, s, a).Some?
    ensures Underway(Apply(env, s, a).value, changed, c)
    ensures Apply(env, s, a).value.docs == s.docs
  {
    if a.RebuildDocument? {
      var k :| 0 <= k < |s.docs| && s.docs[k] == a.doc;
      assert HasDocument(s.docs, a.doc.id);
    }
    ApplyKeepsWellFormed(env, s, a);
  }

  lemma {:induction false} InnerRun(env: Env, s: Store, changed: bool, c: Config, plan: seq<Commit>)
    requires Underway(s, changed, c) && AllInner(plan, changed, c, s.docs) && Exec(env, s, plan).Some?
    ensures Underway(Exec(env, s, plan).value, changed, c)
    ensures Exec(env, s, plan).value.docs == s.docs
    decreases |plan|
  {
    if plan == [] {
    } else {
      InnerStep(env, s, changed, c, plan[0]);
      InnerRun(env, Apply(env, s, plan[0]).value, changed, c, plan[1..]);
    }
  }

  lemma {:induction false} RebuildsInner(env: Env, changed: bool, c: Config, docs: seq<Document>, all: seq<Document>)
    requires forall i :: 0 <= i < |docs| ==> docs[i] in all
    ensures AllInner(Rebuilds(env, c, docs), changed, c, all)
  {
    if docs == [] {
    } else {
      RebuildsInner(env, changed, c, docs[1..], all);
    }
  }

  lemma PlanMiddle(plan: seq<Commit>, prologue: seq<Commit>, rebuilds: seq<Commit>, refresh: seq<Commit>)
    requires prologue != [] && plan == prologue + rebuilds + refresh + [ClearMarker]
    ensures plan[1..|plan| - 1] == prologue[1..] + rebuilds + refresh
  {
  }

  lemma PlanShape(env: Env, s: Store, c: Config)
    ensures var plan := ReindexPlan(env, s, c);
            var changed := DimensionChanged(s, c);
            && |plan| >= 3
            && plan[0] == SetMarker(if changed then Dim else Meta)
            && plan[|plan| - 1] == ClearMarker
            && AllInner(plan[1..|plan| - 1], changed, c, s.docs)
  {
    var plan := ReindexPlan(env, s, c);
    var changed := DimensionChanged(s, c);
    RebuildsInner(env, changed, c, s.docs, s.docs);
    var prologue, rebuilds, refresh := Prologue(changed, c), Rebuilds(env, c, s.docs), Refresh(changed, c);
    PlanMiddle(plan, prologue, rebuilds, refresh);
    var middle := plan[1..|plan| - 1];
    forall i | 0 <= i < |middle|
      ensures Inner(middle[i], changed, c, s.docs)
    {
      assert middle[i] in prologue[1..] || middle[i] in rebuilds || middle[i] in refresh;
    }
  }

  /** Condition under which a reindex repairs the embedding field. */
  predicate FieldFixed(s: Store, c: Config) {
    DimensionChanged(s, c) || s.fieldDim == c.dimension
  }

  /** Wherever a run is cut, the marker still names its path and the data it has
      touched is described correctly; a "dim" marker is never weakened. */
  lemma {:induction false} InterruptedRun(env: Env, s: Store, c: Config, k: nat)
    requires WellFormed(s) && Coherent(s) && s.created && FieldFixed(s, c)
    requires 1 <= k < |ReindexPlan(env, s, c)| && Exec(env, s, ReindexPlan(env, s, c)[..k]).Some?
    ensures Underway(Exec(env, s, ReindexPlan(env, s, c)[..k]).value, DimensionChanged(s, c), c)
    ensures Exec(env, s, ReindexPlan(env, s, c)[..k]).value.docs == s.docs
  {
    PlanShape(env, s, c);
    var plan := ReindexPlan(env, s, c);
    var changed := DimensionChanged(s, c);
    assert plan[..k] == [plan[0]] + plan[1..k];
    assert plan[..k][1..] == plan[1..k];
    var t := Apply(env, s, plan[0]).value;
    ApplyKeepsWellFormed(env, s, plan[0]);
    assert AllInner(plan[1..k], changed, c, s.docs) by {
      forall i | 0 <= i < k - 1
        ensures Inner(plan[1..k][i], changed, c, s.docs)
      {
        assert plan[1..k][i] == plan[1..|plan| - 1][i];
      }
    }
    InnerRun(env, t, changed, c, plan[1..k]);
  }

  // ----- the store after a completed run -----

  predicate SameOutsideRows(s: Store, t: Store) {
    t == s.(chunks := t.chunks, mentions := t.mentions, next := t.next)
  }

  /** The pieces that `rebuild_all` stores for document `d`, if it rebuilds `d`. */
  function PiecesOf(env: Env, c: Config, docs: seq<Document>, d: nat): Option<seq<Piece>> {
    if docs == [] then None
    else if docs[0].id == d && !Skipped(env, c, docs[0]) then env.split(c, docs[0].content)
    else PiecesOf(env, c, docs[1..], d)
  }

  lemma {:induction false} PiecesOfAbsent(env: Env, c: Config, docs: seq<Document>, d: nat)
    requires forall i :: 0 <= i < |docs| ==> docs[i].id != d
    ensures PiecesOf(env, c, docs, d) == None
  {
    if docs == [] {
    } else {
      PiecesOfAbsent(env, c, docs[1..], d);
    }
  }

  lemma {:induction false} PiecesOfDocument(env: Env, c: Config, docs: seq<Document>, k: nat)
    requires DistinctDocs(docs) && k < |docs|
    ensures PiecesOf(env, c, docs, docs[k].id)
         == if Skipped(env, c, docs[k]) then None else env.split(c, docs[k].content)
  {
    assert DistinctDocs(docs[1..]);
    if k == 0 {
      PiecesOfAbsent(env, c, docs[1..], docs[0].id);
    } else {
      PiecesOfDocument(env, c, docs[1..], k - 1);
    }
  }

  /** Rebuilding leaves the rebuilt documents freshly indexed and the rest alone. */
  lemma {:induction false} RebuildsResult(env: Env, s: Store, c: Config, docs: seq<Document>, d: nat)
    requires WellFormed(s) && DistinctDocs(docs)
    requires forall i :: 0 <= i < |docs| ==> docs[i] in s.docs
    requires Exec(env, s, Rebuilds(env, c, docs)).Some?
    ensures var t := Exec(env, s, Rebuilds(env, c, docs)).value;
            && WellFormed(t) && SameOutsideRows(s, t)
            && Contents(t, d) == match PiecesOf(env, c, docs, d)
                                 case None => Contents(s, d)
                                 case Some(pieces) => IndexedView(env, c, pieces)
    decreases |docs|
  {
    if docs == [] {
    } else {
      assert DistinctDocs(docs[1..]);
      if Skipped(env, c, docs[0]) {
        assert Rebuilds(env, c, docs) == Rebuilds(env, c, docs[1..]);
        RebuildsResult(env, s, c, docs[1..], d);
      } else {
        RebuildsResultFirst(env, s, c, docs, d);
        RebuildsResult(env, Rebuild(env, s, c, docs[0]).value, c, docs[1..], d);
        FirstOrLater(env, c, docs, d);
      }
    }
  }

  /** A document is rebuilt once. */
  lemma FirstOrLater(env: Env, c: Config, docs: seq<Document>, d: nat)
    requires docs != [] && DistinctDocs(docs) && !Skipped(env, c, docs[0])
    ensures PiecesOf(env, c, docs, d) ==
            if docs[0].id == d then env.split(c, docs[0].content) else PiecesOf(env, c, docs[1..], d)
    ensures docs[0].id == d ==> PiecesOf(env, c, docs[1..], d) == None
  {
    if docs[0].id == d {
      PiecesOfAbsent(env, c, docs[1..], d);
    }
  }

  lemma RebuildsResultFirst(env: Env, s: Store, c: Config, docs: seq<Document>, d: nat)
    requires WellFormed(s) && docs != [] && docs[0] in s.docs && !Skipped(env, c, docs[0])
    requires Exec(env, s, Rebuilds(env, c, docs)).Some?
    ensures Rebuild(env, s, c, docs[0]).Some?
    ensures var u := Rebuild(env, s, c, docs[0]).value;
            && WellFormed(u) && SameOutsideRows(s, u)
            && Exec(env, s, Rebuilds(env, c, docs)) == Exec(env, u, Rebuilds(env, c, docs[1..]))
            && Contents(u, d) == if docs[0].id == d then IndexedView(env, c, env.split(c, docs[0].content).value)
                                 else Contents(s, d)
  {
    var plan := Rebuilds(env, c, docs);
    assert plan == [RebuildDocument(c, docs[0])] + Rebuilds(env, c, docs[1..]);
    assert plan[1..] == Rebuilds(env, c, docs[1..]);
    var k :| 0 <= k < |s.docs| && s.docs[k] == docs[0];
    assert HasDocument(s.docs, docs[0].id);
    RebuildKeepsWellFormed(env, s, c, docs[0]);
    var cleared := ClearDocument(s, docs[0].id);
    ClearKeepsWellFormed(s, docs[0].id);
    ClearContents(s, docs[0].id, d);
    FillContents(env, cleared, c, docs[0].id, env.split(c, docs[0].content).value, d);
  }
}

/** What a completed reindex leaves, whatever state it started from. */
module Recovery {
  import opened Options
  import opened Tables
  import opened KnowledgeStore
  import opened Commits
  import opened Reindex
  import opened Versions
  import Sections

  /** The store when the rebuild of the documents starts. */
  function Prepared(s: Store, changed: bool, c: Config): Store {
    if changed
    then s.(metas := s.metas.(marker := Some(Dim), dimension := Some(c.dimension), model := Some(c.model)),
            chunks := [], mentions := [], fieldDim := c.dimension, indexDim := None)
    else s.(metas := s.metas.(marker := Some(Meta)))
  }

  lemma PrologueResult(env: Env, s: Store, changed: bool, c: Config)
    ensures Exec(env, s, Prologue(changed, c)) == Some(Prepared(s, changed, c))
  {
    if changed {
      var p2, p3, p4 := [SetModel(c.model)], [SetDimension(c.dimension), SetModel(c.model)],
        [Transition(c.dimension), SetDimension(c.dimension), SetModel(c.model)];
      var s1 := Apply(env, s, SetMarker(Dim)).value;
      var s2 := Apply(env, s1, Transition(c.dimension)).value;
      var s3 := Apply(env, s2, SetDimension(c.dimension)).value;
      ExecCons(env, s, SetMarker(Dim), p4);
      assert Prologue(true, c) == [SetMarker(Dim)] + p4;
      ExecCons(env, s1, Transition(c.dimension), p3);
      assert p4 == [Transition(c.dimension)] + p3;
      ExecCons(env, s2, SetDimension(c.dimension), p2);
      assert p3 == [SetDimension(c.dimension)] + p2;
      ExecCons(env, s3, SetModel(c.model), []);
      assert p2 == [SetModel(c.model)] + [];
    } else {
      ExecCons(env, s, SetMarker(Meta), []);
      assert Prologue(false, c) == [SetMarker(Meta)] + [];
    }
  }

  lemma EpilogueResult(env: Env, s: Store, changed: bool, c: Config)
    requires changed ==> s.indexDim == None && Indexable(s, c.dimension)
    ensures Exec(env, s, Refresh(changed, c) + [ClearMarker])
         == Some(s.(indexDim := if changed then Some(c.dimension) else s.indexDim,
                    metas := TokenizerMetas(ModelMetas(s.metas, c), c).(marker := None)))
  {
    var u := if changed then s.(indexDim := Some(c.dimension)) else s;
    var last := [UpdateMetas(c), ClearMarker];
    assert Exec(env, u, last) == Some(u.(metas := TokenizerMetas(ModelMetas(u.metas, c), c).(marker := None))) by {
      ExecCons(env, u, UpdateMetas(c), [ClearMarker]);
      assert last == [UpdateMetas(c)] + [ClearMarker];
      ExecCons(env, Apply(env, u, UpdateMetas(c)).value, ClearMarker, []);
      assert [ClearMarker] == [ClearMarker] + [];
    }
    if changed {
      ExecCons(env, s, DefineIndex(c.dimension), last);
      assert Refresh(true, c) + [ClearMarker] == [DefineIndex(c.dimension)] + last;
    } else {
      assert Refresh(false, c) + [ClearMarker] == last;
    }
  }

  /** Metadata after `update_metas` and the deletion of the marker: nothing of
      the old model, dimension or tokenizer is left. */
  function FinalMetas(c: Config, dupChecked: bool): Metas {
    TokenizerMetas(ModelMetas(NO_METAS.(dupChecked := dupChecked), c), c)
  }

  lemma PreparedWellFormed(s: Store, changed: bool, c: Config, d: nat)
    requires WellFormed(s)
    ensures WellFormed(Prepared(s, changed, c))
    ensures Contents(Prepared(s, changed, c), d) == if changed then [] else Contents(s, d)
  {
  }

  /** The exact store a completed reindex leaves, document by document. */
  lemma {:induction false} CompletedRun(env: Env, s: Store, c: Config, d: nat)
    requires WellFormed(s) && s.created && Exec(env, s, ReindexPlan(env, s, c)).Some?
    ensures var t := Exec(env, s, ReindexPlan(env, s, c)).value;
            var changed := DimensionChanged(s, c);
            && WellFormed(t) && t.created && t.docs == s.docs
            && t.metas == FinalMetas(c, s.metas.dupChecked)
            && t.fieldDim == (if changed then c.dimension else s.fieldDim)
            && t.indexDim == (if changed then Some(c.dimension) else s.indexDim)
            && Contents(t, d) == (match PiecesOf(env, c, s.docs, d)
                                  case None => if changed then [] else Contents(s, d)
                                  case Some(pieces) => IndexedView(env, c, pieces))
  {
    var changed := DimensionChanged(s, c);
    RebuiltStore(env, s, c, d);
    EpilogueResult(env, Exec(env, Prepared(s, changed, c), Rebuilds(env, c, s.docs)).value, changed, c);
  }

  /** The store before the epilogue, and that only the epilogue is left. */
  lemma RebuiltStore(env: Env, s: Store, c: Config, d: nat)
    requires WellFormed(s) && s.created && Exec(env, s, ReindexPlan(env, s, c)).Some?
    ensures var changed := DimensionChanged(s, c);
            var h := Prepared(s, changed, c);
            var u := Exec(env, h, Rebuilds(env, c, s.docs));
            && u.Some? && WellFormed(u.value) && SameOutsideRows(h, u.value)
            && Contents(u.value, d) == (match PiecesOf(env, c, s.docs, d)
                                        case None => if changed then [] else Contents(s, d)
                                        case Some(pieces) => IndexedView(env, c, pieces))
            && Exec(env, s, ReindexPlan(env, s, c)) == Exec(env, u.value, Refresh(changed, c) + [ClearMarker])
  {
    var changed := DimensionChanged(s, c);
    var rebuilds := Rebuilds(env, c, s.docs);
    var epilogue := Refresh(changed, c) + [ClearMarker];
    assert ReindexPlan(env, s, c) == (Prologue(changed, c) + rebuilds) + epilogue;
    ExecConcat(env, s, Prologue(changed, c) + rebuilds, epilogue);
    ExecConcat(env, s, Prologue(changed, c), rebuilds);
    PrologueResult(env, s, changed, c);
    PreparedWellFormed(s, changed, c, d);
    RebuildsResult(env, Prepared(s, changed, c), c, s.docs, d);
  }

  /** Every key of the metadata describes the new configuration; the marker is gone. */
  lemma {:induction false} MetasAfter(env: Env, s: Store, c: Config)
    requires WellFormed(s) && s.created && Exec(env, s, ReindexPlan(env, s, c)).Some?
    ensures var m := Exec(env, s, ReindexPlan(env, s, c)).value.metas;
            && m.model == Some(c.model) && m.dimension == Some(c.dimension) && m.maxInput == Some(c.maxInput)
            && m.schemaVersion == Some("1") && m.fingerprint == Some(c.fingerprint) && m.marker == None
            && m.info == map[Tokenizer := c.tokenizer, TokenizerSource := c.source, TokenizerAlgorithm := c.algorithm,
                             TokenizerVersion := TOKENIZER_CRATE_VERSION,
                             FingerprintSchema := TOKENIZER_FINGERPRINT_SCHEMA]
            && m.dupChecked == s.metas.dupChecked
  {
    CompletedRun(env, s, c, 0);
  }

  // ----- a run cut after its prologue -----

  /** The stored dimension and model are those of the schema and of every row. */
  predicate Transitioned(s: Store, c: Config) {
    && s.metas.marker == Some(Dim) && s.metas.dimension == Some(c.dimension) && s.metas.model == Some(c.model)
    && s.fieldDim == c.dimension && AllCarry(s, c)
  }

  /** Commits between the prologue and the removal of the marker. */
  predicate Late(a: Commit, c: Config) {
    match a
    case RebuildDocument(c', _) => c' == c
    case DefineIndex(_) => true
    case UpdateMetas(c') => c' == c
    case _ => false
  }

  lemma LateStep(env: Env, s: Store, c: Config, a: Commit)
    requires Transitioned(s, c) && Late(a, c) && Apply(env, s, a).Some?
    ensures Transitioned(Apply(env, s, a).value, c)
  {
    if a.RebuildDocument? {
      var cleared := ClearDocument(s, a.doc.id);
      forall i | 0 <= i < |cleared.chunks|
        ensures Carries(cleared.chunks[i], c)
      {
        RowsWithoutMember(s.chunks, a.doc.id, cleared.chunks[i]);
        assert cleared.chunks[i] in s.chunks;
      }
    }
  }

  lemma {:induction false} LateRun(env: Env, s: Store, c: Config, plan: seq<Commit>)
    requires Transitioned(s, c) && Exec(env, s, plan).Some? && forall i :: 0 <= i < |plan| ==> Late(plan[i], c)
    ensures Transitioned(Exec(env, s, plan).value, c)
    decreases |plan|
  {
    if plan == [] {
    } else {
      LateStep(env, s, c, plan[0]);
      LateRun(env, Apply(env, s, plan[0]).value, c, plan[1..]);
    }
  }

  lemma {:induction false} RebuildsLate(env: Env, c: Config, docs: seq<Document>)
    ensures forall i :: 0 <= i < |Rebuilds(env, c, docs)| ==> Late(Rebuilds(env, c, docs)[i], c)
  {
    if docs == [] {
    } else {
      RebuildsLate(env, c, docs[1..]);
    }
  }

  /** From the end of the prologue on, wherever a run that changes the dimension is cut:
      stored dimension and model match the schema and every row there is, and the
      marker says that the run has to be finished. */
  lemma {:induction false} CutAfterPrologue(env: Env, s: Store, c: Config, k: nat)
    requires DimensionChanged(s, c) && 4 <= k < |ReindexPlan(env, s, c)|
    requires Exec(env, s, ReindexPlan(env, s, c)[..k]).Some?
    ensures Transitioned(Exec(env, s, ReindexPlan(env, s, c)[..k]).value, c)
  {
    var plan, prologue := ReindexPlan(env, s, c), Prologue(true, c);
    var late := Rebuilds(env, c, s.docs) + Refresh(true, c);
    assert plan == prologue + late + [ClearMarker];
    assert plan[..k] == prologue + late[..k - 4];
    RebuildsLate(env, c, s.docs);
    ExecConcat(env, s, prologue, late[..k - 4]);
    PrologueResult(env, s, true, c);
    LateRun(env, Prepared(s, true, c), c, late[..k - 4]);
  }

  // ----- exactly when a completed reindex makes the store serve -----

  /** Every row of the document carries c's model and tokenizer. */
  predicate DocumentCarries(s: Store, d: nat, c: Config) {
    forall i :: 0 <= i < |RowsOf(s.chunks, d)| ==> Carries(RowsOf(s.chunks, d)[i], c)
  }

  lemma AllCarryByDocument(s: Store, c: Config)
    requires WellFormed(s)
    ensures AllCarry(s, c) <==> forall k :: 0 <= k < |s.docs| ==> DocumentCarries(s, s.docs[k].id, c)
  {
    if AllCarry(s, c) {
      forall k, i | 0 <= k < |s.docs| && 0 <= i < |RowsOf(s.chunks, s.docs[k].id)|
        ensures Carries(RowsOf(s.chunks, s.docs[k].id)[i], c)
      {
        RowsOfMember(s.chunks, s.docs[k].id, RowsOf(s.chunks, s.docs[k].id)[i]);
      }
    }
    if forall k :: 0 <= k < |s.docs| ==> DocumentCarries(s, s.docs[k].id, c) {
      forall i | 0 <= i < |s.chunks|
        ensures Carries(s.chunks[i], c)
      {
        var d := s.chunks[i].document;
        var k :| 0 <= k < |s.docs| && s.docs[k].id == d;
        RowsOfMember(s.chunks, d, s.chunks[i]);
        assert s.chunks[i] in RowsOf(s.chunks, d);
      }
    }
  }

  lemma CarriesFromContents(s: Store, d: nat, t: Store, c: Config)
    requires Contents(s, d) == Contents(t, d)
    ensures DocumentCarries(s, d, c) <==> DocumentCarries(t, d, c)
  {
    var a, b := RowsOf(s.chunks, d), RowsOf(t.chunks, d);
    assert |a| == |Contents(s, d)| == |b|;
    forall i | 0 <= i < |a|
      ensures Carries(a[i], c) <==> Carries(b[i], c)
    {
      assert Contents(s, d)[i] == Contents(t, d)[i];
    }
  }

  lemma CarriesWhenIndexed(env: Env, s: Store, d: nat, c: Config, pieces: seq<Piece>)
    requires Contents(s, d) == IndexedView(env, c, pieces)
    ensures DocumentCarries(s, d, c)
  {
    forall i | 0 <= i < |RowsOf(s.chunks, d)|
      ensures Carries(RowsOf(s.chunks, d)[i], c)
    {
      assert Contents(s, d)[i] == IndexedView(env, c, pieces)[i];
    }
  }

  /** No document that the run would skip still has rows of another model. */
  predicate NoStaleSkip(env: Env, s: Store, c: Config) {
    DimensionChanged(s, c)
    || forall k :: 0 <= k < |s.docs| && Skipped(env, c, s.docs[k]) ==> DocumentCarries(s, s.docs[k].id, c)
  }

  /** A completed reindex makes the store serve `c` exactly when it either
      redefined the field or found it right, and left no stale rows behind. */
  lemma {:induction false} CompletedRunServesIff(env: Env, s: Store, c: Config)
    requires WellFormed(s) && Coherent(s) && s.created && Exec(env, s, ReindexPlan(env, s, c)).Some?
    ensures Serves(Exec(env, s, ReindexPlan(env, s, c)).value, c) <==> FieldFixed(s, c) && NoStaleSkip(env, s, c)
  {
    var t := Exec(env, s, ReindexPlan(env, s, c)).value;
    CompletedRun(env, s, c, 0);
    AllCarryByDocument(t, c);
    forall k | 0 <= k < |s.docs|
      ensures DocumentCarries(t, s.docs[k].id, c) <==>
              DimensionChanged(s, c) || !Skipped(env, c, s.docs[k]) || DocumentCarries(s, s.docs[k].id, c)
    {
      var d := s.docs[k].id;
      CompletedRun(env, s, c, d);
      PiecesOfDocument(env, c, s.docs, k);
      match PiecesOf(env, c, s.docs, d)
      case Some(pieces) => CarriesWhenIndexed(env, t, d, c, pieces);
      case None =>
        if Skipped(env, c, s.docs[k]) {
          if !DimensionChanged(s, c) {
            CarriesFromContents(s, d, t, c);
          }
        } else {
          CompletesIff(env, s, c);
        }
    }
  }

  // ----- exactly when a run can complete -----

  /** The tokenizer accepts the document, every piece is embedded with length `dim`,
      and all entities and nested sections of the document have record ids. */
  predicate Processable(env: Env, c: Config, doc: Document, dim: nat) {
    Skipped(env, c, doc) ||
    match env.split(c, doc.content)
    case None => false
    case Some(pieces) =>
      Embeddable(env, c, pieces, dim) && EntitiesNamed(env, pieces) && Sections.Links(doc.content)
  }

  predicate AllProcessable(env: Env, c: Config, docs: seq<Document>, dim: nat) {
    forall k :: 0 <= k < |docs| ==> Processable(env, c, docs[k], dim)
  }

  lemma AllProcessableCons(env: Env, c: Config, docs: seq<Document>, dim: nat)
    requires docs != []
    ensures AllProcessable(env, c, docs, dim) <==>
            Processable(env, c, docs[0], dim) && AllProcessable(env, c, docs[1..], dim)
  {
    if AllProcessable(env, c, docs[1..], dim) && Processable(env, c, docs[0], dim) {
      forall k | 0 <= k < |docs|
        ensures Processable(env, c, docs[k], dim)
      {
        assert k > 0 ==> docs[k] == docs[1..][k - 1];
      }
    }
  }

  lemma {:induction false} RebuildsCompleteIff(env: Env, s: Store, c: Config, docs: seq<Document>)
    ensures Exec(env, s, Rebuilds(env, c, docs)).Some? <==> AllProcessable(env, c, docs, s.fieldDim)
    decreases |docs|
  {
    if docs == [] {
    } else {
      var rest := Rebuilds(env, c, docs[1..]);
      AllProcessableCons(env, c, docs, s.fieldDim);
      if Skipped(env, c, docs[0]) {
        assert Rebuilds(env, c, docs) == rest;
        RebuildsCompleteIff(env, s, c, docs[1..]);
      } else {
        assert Rebuilds(env, c, docs) == [RebuildDocument(c, docs[0])] + rest;
        ExecCons(env, s, RebuildDocument(c, docs[0]), rest);
        if Rebuild(env, s, c, docs[0]).Some? {
          RebuildsCompleteIff(env, Rebuild(env, s, c, docs[0]).value, c, docs[1..]);
        }
      }
    }
  }

  /** A run that is not interrupted completes exactly when every document can be
      tokenized, embedded for the field it will write to, and linked to its
      entities; where it started and what earlier runs did has no influence. */
  lemma {:induction false} CompletesIff(env: Env, s: Store, c: Config)
    ensures Exec(env, s, ReindexPlan(env, s, c)).Some? <==>
            AllProcessable(env, c, s.docs, if DimensionChanged(s, c) then c.dimension else s.fieldDim)
  {
    var changed := DimensionChanged(s, c);
    var rebuilds := Rebuilds(env, c, s.docs);
    var epilogue := Refresh(changed, c) + [ClearMarker];
    assert ReindexPlan(env, s, c) == (Prologue(changed, c) + rebuilds) + epilogue;
    ExecConcat(env, s, Prologue(changed, c) + rebuilds, epilogue);
    ExecConcat(env, s, Prologue(changed, c), rebuilds);
    PrologueResult(env, s, changed, c);
    var h := Prepared(s, changed, c);
    RebuildsCompleteIff(env, h, c, s.docs);
    if Exec(env, h, rebuilds).Some? {
      RebuildsKeepIndex(env, h, c, s.docs);
      if changed {
        RebuildsKeepIndexable(env, h, c, s.docs);
      }
      EpilogueResult(env, Exec(env, h, rebuilds).value, changed, c);
    }
  }

  lemma {:induction false} RebuildsKeepIndex(env: Env, s: Store, c: Config, docs: seq<Document>)
    requires Exec(env, s, Rebuilds(env, c, docs)).Some?
    ensures SameOutsideRows(s, Exec(env, s, Rebuilds(env, c, docs)).value)
    decreases |docs|
  {
    if docs == [] {
    } else {
      var rest := Rebuilds(env, c, docs[1..]);
      if Skipped(env, c, docs[0]) {
        assert Rebuilds(env, c, docs) == rest;
        RebuildsKeepIndex(env, s, c, docs[1..]);
      } else {
        assert Rebuilds(env, c, docs) == [RebuildDocument(c, docs[0])] + rest;
        ExecCons(env, s, RebuildDocument(c, docs[0]), rest);
        RebuildsKeepIndex(env, Rebuild(env, s, c, docs[0]).value, c, docs[1..]);
      }
    }
  }

  /** Rebuilding only stores vectors of the field's length. */
  lemma {:induction false} RebuildsKeepIndexable(env: Env, s: Store, c: Config, docs: seq<Document>)
    requires Indexable(s, s.fieldDim) && Exec(env, s, Rebuilds(env, c, docs)).Some?
    ensures Indexable(Exec(env, s, Rebuilds(env, c, docs)).value, s.fieldDim)
    decreases |docs|
  {
    if docs == [] {
    } else if Skipped(env, c, docs[0]) {
      assert Rebuilds(env, c, docs) == Rebuilds(env, c, docs[1..]);
      RebuildsKeepIndexable(env, s, c, docs[1..]);
    } else {
      assert Rebuilds(env, c, docs) == [RebuildDocument(c, docs[0])] + Rebuilds(env, c, docs[1..]);
      ExecCons(env, s, RebuildDocument(c, docs[0]), Rebuilds(env, c, docs[1..]));
      RebuildKeepsIndexable(env, s, c, docs[0]);
      RebuildsKeepIndexable(env, Rebuild(env, s, c, docs[0]).value, c, docs[1..]);
    }
  }

  lemma RebuildKeepsIndexable(env: Env, s: Store, c: Config, doc: Document)
    requires Indexable(s, s.fieldDim) && Rebuild(env, s, c, doc).Some?
    ensures var t := Rebuild(env, s, c, doc).value; t.fieldDim == s.fieldDim && Indexable(t, s.fieldDim)
  {
    var cleared := ClearDocument(s, doc.id);
    forall i | 0 <= i < |cleared.chunks|
      ensures cleared.chunks[i].vector == s.fieldDim
    {
      RowsWithoutMember(s.chunks, doc.id, cleared.chunks[i]);
      assert cleared.chunks[i] in s.chunks;
    }
  }

  /** The definition of the index at the end of a reindex is never refused: a run
      that gets as far as that commit makes it, whatever store it started from. */
  lemma {:induction false} ReindexDefinesItsIndex(env: Env, s: Store, c: Config)
    requires DimensionChanged(s, c) && Exec(env, s, Prologue(true, c) + Rebuilds(env, c, s.docs)).Some?
    ensures var u := Exec(env, s, Prologue(true, c) + Rebuilds(env, c, s.docs)).value;
            Apply(env, u, DefineIndex(c.dimension)) == Some(u.(indexDim := Some(c.dimension)))
  {
    var h := Prepared(s, true, c);
    ExecConcat(env, s, Prologue(true, c), Rebuilds(env, c, s.docs));
    PrologueResult(env, s, true, c);
    RebuildsKeepIndex(env, h, c, s.docs);
    RebuildsKeepIndexable(env, h, c, s.docs);
    IndexIsDefined(env, Exec(env, h, Rebuilds(env, c, s.docs)).value, c.dimension);
  }

  lemma IndexIsDefined(env: Env, s: Store, d: nat)
    requires s.indexDim == None && Indexable(s, d)
    ensures Apply(env, s, DefineIndex(d)) == Some(s.(indexDim := Some(d)))
  {
  }

  // ----- convergence -----

  predicate NothingSkipped(env: Env, c: Config, docs: seq<Document>) {
    forall k :: 0 <= k < |docs| ==> !Skipped(env, c, docs[k])
  }

  /** The two stores hold the same, up to record ids and the one-time check flag. */
  ghost predicate SameUpToIds(s: Store, t: Store) {
    && s.created == t.created && s.docs == t.docs
    && s.metas.(dupChecked := false) == t.metas.(dupChecked := false)
    && s.fieldDim == t.fieldDim && s.indexDim == t.indexDim
    && forall d: nat :: Contents(s, d) == Contents(t, d)
  }

  lemma StrayContentsEmpty(s: Store, d: nat)
    requires WellFormed(s) && !HasDocument(s.docs, d)
    ensures Contents(s, d) == []
  {
    NoRows(s.chunks, d);
  }

  /** The rows that a completed reindex leaves to a document it skips. */
  function KeptRows(s: Store, c: Config, d: nat): seq<RowView> {
    if DimensionChanged(s, c) then [] else Contents(s, d)
  }

  /** Every document that the run would skip keeps the same rows from either store. */
  predicate SkippedAgree(env: Env, s: Store, u: Store, c: Config) {
    forall k :: 0 <= k < |s.docs| && Skipped(env, c, s.docs[k]) ==>
      KeptRows(s, c, s.docs[k].id) == KeptRows(u, c, s.docs[k].id)
  }

  lemma ContentsAfter(env: Env, s: Store, c: Config, k: nat)
    requires WellFormed(s) && s.created && k < |s.docs| && Exec(env, s, ReindexPlan(env, s, c)).Some?
    ensures Skipped(env, c, s.docs[k]) || env.split(c, s.docs[k].content).Some?
    ensures Contents(Exec(env, s, ReindexPlan(env, s, c)).value, s.docs[k].id) ==
            if Skipped(env, c, s.docs[k]) then KeptRows(s, c, s.docs[k].id)
            else IndexedView(env, c, env.split(c, s.docs[k].content).value)
  {
    CompletesIff(env, s, c);
    assert Processable(env, c, s.docs[k], if DimensionChanged(s, c) then c.dimension else s.fieldDim);
    CompletedRun(env, s, c, s.docs[k].id);
    PiecesOfDocument(env, c, s.docs, k);
  }

  /** After a completed reindex every document that the tokenizer cuts into any pieces at
      all is freshly indexed, piece by piece.  Documents without content or pieces have
      nothing if the field was redefined, and otherwise the rows they had. */
  lemma {:induction false} ReindexedDocument(env: Env, s: Store, c: Config, k: nat)
    requires WellFormed(s) && s.created && k < |s.docs| && Exec(env, s, ReindexPlan(env, s, c)).Some?
    ensures s.docs[k].content != "" ==> env.split(c, s.docs[k].content).Some?
    ensures var doc := s.docs[k];
            var rows := Contents(Exec(env, s, ReindexPlan(env, s, c)).value, doc.id);
            if doc.content != "" && env.split(c, doc.content).value != []
            then FreshRows(env, c, rows, env.split(c, doc.content).value)
            else if s.metas.marker == Some(Dim)
                    || (s.metas.dimension != None && s.metas.dimension != Some(c.dimension)) then rows == []
            else rows == Contents(s, doc.id)
  {
    var doc := s.docs[k];
    var dim := if DimensionChanged(s, c) then c.dimension else s.fieldDim;
    ContentsAfter(env, s, c, k);
    CompletesIff(env, s, c);
    assert Processable(env, c, doc, dim);
    if doc.content != "" && env.split(c, doc.content).value != [] {
      IndexedIsFresh(env, c, env.split(c, doc.content).value, dim);
    }
  }

  /** Two completed runs give each document the same contents if its kept rows agree. */
  lemma SameContents(env: Env, s: Store, u: Store, c: Config, d: nat)
    requires WellFormed(s) && s.created && Exec(env, s, ReindexPlan(env, s, c)).Some?
    requires WellFormed(u) && u.created && Exec(env, u, ReindexPlan(env, u, c)).Some?
    requires s.docs == u.docs && SkippedAgree(env, s, u, c)
    ensures Contents(Exec(env, s, ReindexPlan(env, s, c)).value, d) ==
            Contents(Exec(env, u, ReindexPlan(env, u, c)).value, d)
  {
    if k :| 0 <= k < |s.docs| && s.docs[k].id == d {
      ContentsAfter(env, s, c, k);
      ContentsAfter(env, u, c, k);
    } else {
      CompletedRun(env, s, c, d);
      CompletedRun(env, u, c, d);
      StrayContentsEmpty(Exec(env, s, ReindexPlan(env, s, c)).value, d);
      StrayContentsEmpty(Exec(env, u, ReindexPlan(env, u, c)).value, d);
    }
  }

  lemma SameOutsideContents(env: Env, s: Store, u: Store, c: Config)
    requires WellFormed(s) && Coherent(s) && s.created && FieldFixed(s, c)
    requires WellFormed(u) && Coherent(u) && u.created && FieldFixed(u, c) && s.docs == u.docs
    requires Exec(env, s, ReindexPlan(env, s, c)).Some? && Exec(env, u, ReindexPlan(env, u, c)).Some?
    ensures var t, v := Exec(env, s, ReindexPlan(env, s, c)).value, Exec(env, u, ReindexPlan(env, u, c)).value;
            && t.created == v.created && t.docs == v.docs
            && t.metas.(dupChecked := false) == v.metas.(dupChecked := false)
            && t.fieldDim == v.fieldDim && t.indexDim == v.indexDim
  {
    CompletedRun(env, s, c, 0);
    CompletedRun(env, u, c, 0);
  }

  /** A run completes from both of two stores with the same documents or from neither,
      and ends in the same store exactly when the documents it skips keep the same
      rows: nothing else of the earlier history survives. */
  lemma {:induction false} CompletedRunsAgreeIff(env: Env, s: Store, u: Store, c: Config)
    requires WellFormed(s) && Coherent(s) && s.created && FieldFixed(s, c)
    requires WellFormed(u) && Coherent(u) && u.created && FieldFixed(u, c) && s.docs == u.docs
    ensures Exec(env, s, ReindexPlan(env, s, c)).Some? <==> Exec(env, u, ReindexPlan(env, u, c)).Some?
    ensures Exec(env, s, ReindexPlan(env, s, c)).Some? ==>
              (SameUpToIds(Exec(env, s, ReindexPlan(env, s, c)).value, Exec(env, u, ReindexPlan(env, u, c)).value)
               <==> SkippedAgree(env, s, u, c))
  {
    CompletesIff(env, s, c);
    CompletesIff(env, u, c);
    if Exec(env, s, ReindexPlan(env, s, c)).Some? {
      SameOutsideContents(env, s, u, c);
      AgreeIffKept(env, s, u, c);
    }
  }

  lemma AgreeIffKept(env: Env, s: Store, u: Store, c: Config)
    requires WellFormed(s) && s.created && Exec(env, s, ReindexPlan(env, s, c)).Some?
    requires WellFormed(u) && u.created && Exec(env, u, ReindexPlan(env, u, c)).Some? && s.docs == u.docs
    ensures var t, v := Exec(env, s, ReindexPlan(env, s, c)).value, Exec(env, u, ReindexPlan(env, u, c)).value;
            (forall d: nat :: Contents(t, d) == Contents(v, d)) <==> SkippedAgree(env, s, u, c)
  {
    var t, v := Exec(env, s, ReindexPlan(env, s, c)).value, Exec(env, u, ReindexPlan(env, u, c)).value;
    if SkippedAgree(env, s, u, c) {
      forall d: nat
        ensures Contents(t, d) == Contents(v, d)
      {
        SameContents(env, s, u, c, d);
      }
    }
    if forall d: nat :: Contents(t, d) == Contents(v, d) {
      forall k | 0 <= k < |s.docs| && Skipped(env, c, s.docs[k])
        ensures KeptRows(s, c, s.docs[k].id) == KeptRows(u, c, s.docs[k].id)
      {
        ContentsAfter(env, s, c, k);
        ContentsAfter(env, u, c, k);
      }
    }
  }

  // ----- documents that a run skips -----

  /** The commit does not rebuild document `d`. */
  predicate Spares(a: Commit, d: nat) {
    a.RebuildDocument? ==> a.doc.id != d
  }

  lemma {:induction false} RebuildsSpare(env: Env, c: Config, docs: seq<Document>, d: nat)
    requires forall i :: 0 <= i < |docs| && docs[i].id == d ==> Skipped(env, c, docs[i])
    ensures forall i :: 0 <= i < |Rebuilds(env, c, docs)| ==> Spares(Rebuilds(env, c, docs)[i], d)
  {
    if docs == [] {
    } else {
      RebuildsSpare(env, c, docs[1..], d);
    }
  }

  lemma SparingStep(env: Env, s: Store, c: Config, a: Commit, d: nat)
    requires Underway(s, false, c) && Inner(a, false, c, s.docs) && Spares(a, d) && Apply(env, s, a).Some?
    ensures Contents(Apply(env, s, a).value, d) == Contents(s, d)
  {
    if a.RebuildDocument? {
      ClearContents(s, a.doc.id, d);
      ClearKeepsWellFormed(s, a.doc.id);
      ClearContents(s, a.doc.id, a.doc.id);
      FillContents(env, ClearDocument(s, a.doc.id), c, a.doc.id, env.split(c, a.doc.content).value, d);
    }
  }

  lemma {:induction false} SparingRun(env: Env, s: Store, c: Config, plan: seq<Commit>, d: nat)
    requires Underway(s, false, c) && AllInner(plan, false, c, s.docs) && Exec(env, s, plan).Some?
    requires forall i :: 0 <= i < |plan| ==> Spares(plan[i], d)
    ensures Contents(Exec(env, s, plan).value, d) == Contents(s, d)
    decreases |plan|
  {
    if plan == [] {
    } else {
      SparingStep(env, s, c, plan[0], d);
      InnerStep(env, s, false, c, plan[0]);
      SparingRun(env, Apply(env, s, plan[0]).value, c, plan[1..], d);
    }
  }

  lemma PlanSpares(env: Env, s: Store, c: Config, d: nat)
    requires forall i :: 0 <= i < |s.docs| && s.docs[i].id == d ==> Skipped(env, c, s.docs[i])
    ensures forall i :: 0 <= i < |ReindexPlan(env, s, c)| ==> Spares(ReindexPlan(env, s, c)[i], d)
  {
    var plan := ReindexPlan(env, s, c);
    var changed := DimensionChanged(s, c);
    RebuildsSpare(env, c, s.docs, d);
    forall i | 0 <= i < |plan|
      ensures Spares(plan[i], d)
    {
      assert plan[i] in Prologue(changed, c) || plan[i] in Rebuilds(env, c, s.docs)
        || plan[i] in Refresh(changed, c) || plan[i] == ClearMarker;
    }
  }

  /** An interrupted reindex that leaves the dimension alone leaves the documents it
      would skip alone too. */
  lemma {:induction false} SkippedUntouched(env: Env, s: Store, c: Config, k: nat, d: nat)
    requires WellFormed(s) && Coherent(s) && s.created && FieldFixed(s, c) && !DimensionChanged(s, c)
    requires forall i :: 0 <= i < |s.docs| && s.docs[i].id == d ==> Skipped(env, c, s.docs[i])
    requires 1 <= k < |ReindexPlan(env, s, c)| && Exec(env, s, ReindexPlan(env, s, c)[..k]).Some?
    ensures Contents(Exec(env, s, ReindexPlan(env, s, c)[..k]).value, d) == Contents(s, d)
  {
    var plan := ReindexPlan(env, s, c);
    PlanShape(env, s, c);
    PlanSpares(env, s, c, d);
    assert plan[..k] == [plan[0]] + plan[1..k];
    ExecCons(env, s, plan[0], plan[1..k]);
    var t := Apply(env, s, plan[0]).value;
    ApplyKeepsWellFormed(env, s, plan[0]);
    assert AllInner(plan[1..k], false, c, s.docs) by {
      forall i | 0 <= i < k - 1
        ensures Inner(plan[1..k][i], false, c, s.docs)
      {
        assert plan[1..k][i] == plan[1..|plan| - 1][i];
      }
    }
    SparingRun(env, t, c, plan[1..k], d);
  }
}

/** Histories in which the conditions of crash safety are not met, and what the
    code then does. */
module Limits {
  import opened Options
  import opened Tables
  import opened KnowledgeStore
  import opened Commits
  import opened Reindex
  import opened Recovery
  import opened Runs
  import Opening
  import RecoveryRuns
  import Sections
  import opened Versions

  function ConfigOf(model: string, dimension: nat, maxTokens: nat): Config {
    Config(model, dimension, 8192, "auto", model, "BPE", model, maxTokens, 0)
  }

  /** A tokenizer that keeps a text whole, or drops it when maxTokens is 1. */
  const ENV := Env(
    (c: Config, text: string) => if c.maxTokens == 1 then Some([]) else Some([Piece(text, 1)]),
    (c: Config, text: string) => Some(c.dimension),
    (text: string) => [],
    (text: string) => text)

  /** The store of a process that died between the schema and the first metadata. */
  const HALF_INITIALISED := EMPTY_STORE.(created := true, fieldDim := 8, indexDim := Some(8))

  /** A first open that dies before its metadata is committed leaves a store that
      a reindex under another dimension completes without repairing the field. */
  lemma HalfInitialisedStoreIsNotRepaired()
    ensures var c := ConfigOf("b", 16, 4);
            && Next(ENV, FRESH, Open(ConfigOf("a", 8, 4), false, 1)) == Some(World(HALF_INITIALISED, None))
            && !FieldFixed(HALF_INITIALISED, c)
            && Exec(ENV, HALF_INITIALISED, ReindexPlan(ENV, HALF_INITIALISED, c)).Some?
            && var t := Exec(ENV, HALF_INITIALISED, ReindexPlan(ENV, HALF_INITIALISED, c)).value;
               Opening.Plan(t, c, false).verdict.Opened? && t.fieldDim != c.dimension
  {
    var a, c := ConfigOf("a", 8, 4), ConfigOf("b", 16, 4);
    var plan := Opening.Plan(EMPTY_STORE, a, false).commits;
    ExecCons(ENV, EMPTY_STORE, ApplySchema(8), []);
    assert plan[..1] == [ApplySchema(8)] + [];
    CompletesIff(ENV, HALF_INITIALISED, c);
    CompletedRun(ENV, HALF_INITIALISED, c, 0);
    var t := Exec(ENV, HALF_INITIALISED, ReindexPlan(ENV, HALF_INITIALISED, c)).value;
    Opening.NoDuplicates(t);
  }

  const A := ConfigOf("a", 8, 4)

  /** The store after a first normal open under `A`. */
  const OPENED := Opening.Initialised(A).(metas := TokenizerMetas(Opening.Initialised(A).metas, A))

  /** The same store after uploading the text "x". */
  const UPLOADED := OPENED.(docs := [Document(0, "", "x", "x")],
                            chunks := [ChunkRow(1, 0, 0, Piece("x", 1), 8, "a", "a")], next := 2)

  lemma PlainIndexes(s: Store, c: Config, text: string)
    requires s.fieldDim == c.dimension && Sections.Links(text)
    ensures Indexes(ENV, s, c, text, [Piece(text, 1)])
  {
    EntitiesNamedIff(ENV, [Piece(text, 1)]);
  }

  /** One upload through a matching or mismatching handle, as a store. */
  lemma NothingMentioned(text: string, next: nat)
    ensures NewMentions(ENV, [Piece(text, 1)], next) == []
  {
    var pieces := [Piece(text, 1)];
    assert Relate(next, []) == [] && pieces[1..] == [];
    assert NewMentions(ENV, pieces[1..], next + 1) == [];
  }

  lemma UploadResult(s: Store, c: Config, text: string)
    requires c.maxTokens != 1 && s.fieldDim == c.dimension && !ShaStored(s.docs, text) && Sections.Links(text)
    ensures UploadTo(ENV, s, c, "", text, false)
         == s.(docs := s.docs + [Document(s.next, "", text, text)],
               chunks := s.chunks +
                 [ChunkRow(s.next + 1, s.next, 0, Piece(text, 1), c.dimension, c.model, c.fingerprint)],
               next := s.next + 2)
  {
    var pieces := [Piece(text, 1)];
    PlainIndexes(s, c, text);
    NewDocumentSaved(ENV, s, c, text, pieces);
    UploadsAsSaved(ENV, s, c, text, pieces);
    SaveResult(ENV, s, c, "", text, false);
    assert FindSha(s.docs, text) == None;
    assert NewRows(ENV, c, s.next, pieces, s.next + 1)
        == [ChunkRow(s.next + 1, s.next, 0, pieces[0], c.dimension, c.model, c.fingerprint)];
    NothingMentioned(text, s.next + 1);
    assert s.mentions + [] == s.mentions;
  }

  lemma UploadedStore()
    ensures UploadTo(ENV, OPENED, A, "", "x", false) == UPLOADED
    ensures WellFormed(UPLOADED) && Coherent(UPLOADED) && RowsOf(UPLOADED.chunks, 0) == UPLOADED.chunks
  {
    UploadResult(OPENED, A, "x");
    assert OPENED.chunks + [UPLOADED.chunks[0]] == UPLOADED.chunks;
    assert OPENED.docs + [UPLOADED.docs[0]] == UPLOADED.docs;
    UploadedIsWellFormed();
  }

  lemma UploadedIsWellFormed()
    ensures WellFormed(UPLOADED) && Coherent(UPLOADED) && RowsOf(UPLOADED.chunks, 0) == UPLOADED.chunks
  {
    RowsOfUniform(UPLOADED.chunks, 0, 0);
    forall d: nat
      ensures Numbered(RowsOf(UPLOADED.chunks, d))
    {
      RowsOfUniform(UPLOADED.chunks, 0, d);
    }
    assert UPLOADED.docs[0].id == 0;
  }

  /** A document that the new tokenizer cuts into no chunk keeps its rows of the
      old model through a completed reindex, and the store then opens. */
  lemma ChunklessDocumentKeepsStaleRows()
    ensures var c := ConfigOf("b", 8, 1);
            && WellFormed(UPLOADED) && Coherent(UPLOADED) && !NoStaleSkip(ENV, UPLOADED, c)
            && Exec(ENV, UPLOADED, ReindexPlan(ENV, UPLOADED, c)).Some?
            && var t := Exec(ENV, UPLOADED, ReindexPlan(ENV, UPLOADED, c)).value;
               Opening.Plan(t, c, false).verdict.Opened? && !Serves(t, c)
  {
    var c := ConfigOf("b", 8, 1);
    UploadedStore();
    assert !DocumentCarries(UPLOADED, 0, c) by {
      assert !Carries(RowsOf(UPLOADED.chunks, 0)[0], c);
    }
    assert Skipped(ENV, c, UPLOADED.docs[0]);
    CompletesIff(ENV, UPLOADED, c);
    CompletedRun(ENV, UPLOADED, c, 0);
    CompletedRunServesIff(ENV, UPLOADED, c);
    Opening.NoDuplicates(Exec(ENV, UPLOADED, ReindexPlan(ENV, UPLOADED, c)).value);
  }

  /** An upload through a handle opened for a reindex that never ran mixes two
      models in a store that still opens normally. */
  lemma UploadThroughMismatchedHandleMixesModels()
    ensures var c := ConfigOf("b", 8, 4);
            var t := UploadTo(ENV, UPLOADED, c, "", "y", false);
            && UploadTo(ENV, OPENED, A, "", "x", false) == UPLOADED
            && Coherent(UPLOADED) && !MetasMatch(UPLOADED.metas, c)
            && Opening.Plan(t, A, false).verdict.Opened? && !AllCarry(t, A)
  {
    var c := ConfigOf("b", 8, 4);
    UploadedStore();
    UploadResult(UPLOADED, c, "y");
    var t := UploadTo(ENV, UPLOADED, c, "", "y", false);
    assert !Carries(t.chunks[1], A);
  }

  // ----- an entity that only a larger window sees -----

  /** A Markdown link whose text is a quotation mark. */
  const QUOTED := "[\'](u)"

  /** A tokenizer that cuts such a link in two unless its windows are larger than
      four tokens; a link in one piece names an entity. */
  const LINKS_ENV := ENV.(
    split := (c: Config, text: string) =>
      if text == QUOTED && c.maxTokens <= 4 then Some([Piece("[\'", 2), Piece("](u)", 4)])
      else Some([Piece(text, 6)]),
    entities := (text: string) => if text == QUOTED then ["\'"] else [])

  lemma QuotedPieces()
    ensures EntitiesNamed(LINKS_ENV, [Piece("[\'", 2), Piece("](u)", 4)])
    ensures !EntitiesNamed(LINKS_ENV, [Piece(QUOTED, 6)])
  {
    assert |"[\'"| != |QUOTED| && |"](u)"| != |QUOTED|;
    assert "\'"[1..] == "";
    EntitiesNamedIff(LINKS_ENV, [Piece("[\'", 2), Piece("](u)", 4)]);
    EntitiesNamedIff(LINKS_ENV, [Piece(QUOTED, 6)]);
    NameableIff(["\'"]);
    assert [Piece(QUOTED, 6)][0].content == QUOTED && Sections.Clean(["\'"][0]) == "";
  }

  const QUOTED_DOCUMENT := Document(0, "", LINKS_ENV.sha(QUOTED), QUOTED)

  /** The document table after the upload of a new text. */
  lemma NewDocument(env: Env, s: Store, c: Config, text: string, pieces: seq<Piece>)
    requires env.split(c, text) == Some(pieces) && pieces != [] && Indexes(env, s, c, text, pieces)
    requires !ShaStored(s.docs, env.sha(text))
    ensures UploadTo(env, s, c, "", text, false).docs == s.docs + [Document(s.next, "", env.sha(text), text)]
  {
    NewDocumentSaved(env, s, c, text, pieces);
    UploadsAsSaved(env, s, c, text, pieces);
  }

  lemma UploadsAsSaved(env: Env, s: Store, c: Config, text: string, pieces: seq<Piece>)
    requires env.split(c, text) == Some(pieces) && pieces != [] && !ShaStored(s.docs, env.sha(text))
    requires Save(env, s, c, "", text, false).Some?
    ensures UploadTo(env, s, c, "", text, false) == Save(env, s, c, "", text, false).value
  {
  }

  lemma NewDocumentSaved(env: Env, s: Store, c: Config, text: string, pieces: seq<Piece>)
    requires env.split(c, text) == Some(pieces) && Indexes(env, s, c, text, pieces)
    requires !ShaStored(s.docs, env.sha(text))
    ensures Save(env, s, c, "", text, false).Some?
    ensures Save(env, s, c, "", text, false).value.docs == s.docs + [Document(s.next, "", env.sha(text), text)]
  {
    assert FindSha(s.docs, env.sha(text)) == None;
  }

  lemma QuotedIsStored()
    ensures UploadTo(LINKS_ENV, OPENED, A, "", QUOTED, false).docs == [QUOTED_DOCUMENT]
  {
    var pieces := [Piece("[\'", 2), Piece("](u)", 4)];
    QuotedIndexes(pieces);
    NewDocument(LINKS_ENV, OPENED, A, QUOTED, pieces);
    assert OPENED.docs + [QUOTED_DOCUMENT] == [QUOTED_DOCUMENT];
  }

  lemma QuotedIndexes(pieces: seq<Piece>)
    requires pieces == [Piece("[\'", 2), Piece("](u)", 4)]
    ensures LINKS_ENV.split(A, QUOTED) == Some(pieces) && Indexes(LINKS_ENV, OPENED, A, QUOTED, pieces)
  {
    QuotedPieces();
    Sections.NoHashLinks(QUOTED);
  }

  lemma QuotedIsNotProcessable(c: Config, dim: nat)
    requires c.maxTokens > 4
    ensures !Processable(LINKS_ENV, c, QUOTED_DOCUMENT, dim)
  {
    QuotedPieces();
    assert LINKS_ENV.split(c, QUOTED) == Some([Piece(QUOTED, 6)]);
  }

  /** The link is stored under small windows; under larger ones its text is an entity
      without a record id, and no reindex of a store that holds it ever completes. */
  lemma {:induction false} LargerWindowsNeverComplete(s: Store, c: Config)
    requires s.docs == UploadTo(LINKS_ENV, OPENED, A, "", QUOTED, false).docs
    ensures |s.docs| == 1 && s.docs[0].content == QUOTED
    ensures c.maxTokens > 4 ==> Exec(LINKS_ENV, s, ReindexPlan(LINKS_ENV, s, c)).None?
  {
    QuotedIsStored();
    if c.maxTokens > 4 {
      var dim := if DimensionChanged(s, c) then c.dimension else s.fieldDim;
      QuotedIsNotProcessable(c, dim);
      assert !AllProcessable(LINKS_ENV, c, s.docs, dim) by {
        assert s.docs[0] == QUOTED_DOCUMENT;
      }
      CompletesIff(LINKS_ENV, s, c);
    }
  }

  // ----- a dimension change interrupted and resumed under another dimension -----

  const B16 := ConfigOf("b", 16, 4)

  lemma RunCons(env: Env, w: World, e: Event, rest: seq<Event>, v: World)
    requires Next(env, w, e) == Some(v)
    ensures Run(env, w, [e] + rest) == Run(env, v, rest)
    ensures DisciplinedRun(env, w, [e] + rest) <==> Disciplined(env, w, e) && DisciplinedRun(env, v, rest)
  {
    assert ([e] + rest)[1..] == rest;
  }

  function WithInfo(s: Store, key: InfoKey, value: string): Store {
    s.(metas := s.metas.(info := s.metas.info[key := value]))
  }

  lemma InfoStep(s: Store, key: InfoKey, value: string, rest: seq<Commit>)
    ensures Exec(ENV, s, [SetInfo(key, value)] + rest) == Exec(ENV, WithInfo(s, key, value), rest)
  {
    ExecCons(ENV, s, SetInfo(key, value), rest);
  }

  /** The last commits of `sync_tokenizer_meta`. */
  lemma SyncEnds(s: Store, c: Config)
    ensures var last := [SetFingerprint(c.fingerprint)];
            Exec(ENV, s, [SetInfo(TokenizerVersion, TOKENIZER_CRATE_VERSION)] +
                         ([SetInfo(FingerprintSchema, TOKENIZER_FINGERPRINT_SCHEMA)] + last)) ==
            Some(WithInfo(WithInfo(s, TokenizerVersion, TOKENIZER_CRATE_VERSION),
                          FingerprintSchema, TOKENIZER_FINGERPRINT_SCHEMA)
                 .(metas := WithInfo(WithInfo(s, TokenizerVersion, TOKENIZER_CRATE_VERSION),
                                     FingerprintSchema, TOKENIZER_FINGERPRINT_SCHEMA).metas
                            .(fingerprint := Some(c.fingerprint))))
  {
    var last := [SetFingerprint(c.fingerprint)];
    var s4 := WithInfo(s, TokenizerVersion, TOKENIZER_CRATE_VERSION);
    var s5 := WithInfo(s4, FingerprintSchema, TOKENIZER_FINGERPRINT_SCHEMA);
    InfoStep(s, TokenizerVersion, TOKENIZER_CRATE_VERSION,
             [SetInfo(FingerprintSchema, TOKENIZER_FINGERPRINT_SCHEMA)] + last);
    InfoStep(s4, FingerprintSchema, TOKENIZER_FINGERPRINT_SCHEMA, last);
    assert last == [last[0]] + [];
    ExecCons(ENV, s5, last[0], []);
  }

  /** The commits of `sync_tokenizer_meta` on a store without tokenizer metadata. */
  lemma SyncResult(s: Store, c: Config)
    requires s.metas.info == map[] && s.metas.fingerprint == None
    ensures Exec(ENV, s, Opening.SyncTokenizer(s, c).commits) == Some(s.(metas := TokenizerMetas(s.metas, c)))
  {
    var p4 := [SetInfo(TokenizerVersion, TOKENIZER_CRATE_VERSION)] +
              ([SetInfo(FingerprintSchema, TOKENIZER_FINGERPRINT_SCHEMA)] + [SetFingerprint(c.fingerprint)]);
    var p3 := [SetInfo(TokenizerAlgorithm, c.algorithm)] + p4;
    var p2 := [SetInfo(TokenizerSource, c.source)] + p3;
    var p1 := [SetInfo(Tokenizer, c.tokenizer)] + p2;
    assert Opening.SyncTokenizer(s, c).commits == p1;
    InfoStep(s, Tokenizer, c.tokenizer, p2);
    var s1 := WithInfo(s, Tokenizer, c.tokenizer);
    InfoStep(s1, TokenizerSource, c.source, p3);
    var s2 := WithInfo(s1, TokenizerSource, c.source);
    InfoStep(s2, TokenizerAlgorithm, c.algorithm, p4);
    SyncEnds(WithInfo(s2, TokenizerAlgorithm, c.algorithm), c);
  }

  lemma FirstOpenGivesHandle()
    ensures Next(ENV, FRESH, Open(A, false, 9)) == Some(World(OPENED, Some(Handle(A, true))))
  {
    var plan := Opening.Plan(EMPTY_STORE, A, false);
    var sync := Opening.SyncTokenizer(EMPTY_STORE, A).commits;
    Opening.FirstOpenBegins(ENV, A, sync);
    SyncResult(Opening.Initialised(A), A);
    assert plan.commits == [ApplySchema(8), MarkDupChecked, InitMetas(A)] + sync;
    assert plan.commits[..9] == plan.commits;
  }

  lemma ManagementOpenChangesNothing()
    ensures Next(ENV, World(UPLOADED, None), Open(B16, true, 1)) == Some(World(UPLOADED, Some(Handle(B16, false))))
  {
    var plan := Opening.Plan(UPLOADED, B16, true).commits;
    assert plan == [ApplySchema(16)] + [];
    assert plan[..1] == plan;
    ExecCons(ENV, UPLOADED, ApplySchema(16), []);
  }

  /** Open, upload, and a change of dimension that stops after `k` commits. */
  function CutShort(k: nat): seq<Event> {
    [Open(A, false, 9)] + ([Upload("", "x", false)] +
        ([Crash] + ([Open(B16, true, 1)] + ([ReindexStops(k)] + ([Crash] + [])))))
  }

  lemma CutShortRuns(k: nat, s: Store)
    requires k <= |ReindexPlan(ENV, UPLOADED, B16)| &&
        Exec(ENV, UPLOADED, ReindexPlan(ENV, UPLOADED, B16)[..k]) == Some(s)
    ensures DisciplinedRun(ENV, FRESH, CutShort(k)) && Run(ENV, FRESH, CutShort(k)) == Some(World(s, None))
  {
    var r5 := [Crash] + [];
    var r4 := [ReindexStops(k)] + r5;
    var r3 := [Open(B16, true, 1)] + r4;
    var r2 := [Crash] + r3;
    var r1 := [Upload("", "x", false)] + r2;
    FirstOpenGivesHandle();
    UploadedStore();
    ManagementOpenChangesNothing();
    var h, m := Some(Handle(A, true)), Some(Handle(B16, false));
    RunCons(ENV, FRESH, Open(A, false, 9), r1, World(OPENED, h));
    RunCons(ENV, World(OPENED, h), Upload("", "x", false), r2, World(UPLOADED, h));
    RunCons(ENV, World(UPLOADED, h), Crash, r3, World(UPLOADED, None));
    RunCons(ENV, World(UPLOADED, None), Open(B16, true, 1), r4, World(UPLOADED, m));
    RunCons(ENV, World(UPLOADED, m), ReindexStops(k), r5, World(s, m));
    RunCons(ENV, World(s, m), Crash, [], World(s, None));
  }

  /** The store when the rebuild has not begun. */
  const WIPED := Prepared(UPLOADED, true, B16)

  /** The store when the only document has been rebuilt. */
  const REBUILT := WIPED.(chunks := [ChunkRow(2, 0, 0, Piece("x", 1), 16, "b", "b")], next := 3)

  lemma WipedAfterFour()
    ensures Exec(ENV, UPLOADED, ReindexPlan(ENV, UPLOADED, B16)[..4]) == Some(WIPED)
  {
    PrologueResult(ENV, UPLOADED, true, B16);
    assert ReindexPlan(ENV, UPLOADED, B16)[..4] == Prologue(true, B16);
  }

  lemma RebuiltStore()
    ensures Apply(ENV, WIPED, RebuildDocument(B16, UPLOADED.docs[0])) == Some(REBUILT)
  {
    var pieces := [Piece("x", 1)];
    assert ClearDocument(WIPED, 0) == WIPED;
    PlainIndexes(WIPED, B16, "x");
    assert NewRows(ENV, B16, 0, pieces, 2) == REBUILT.chunks;
    NothingMentioned("x", 2);
    assert WIPED.chunks + REBUILT.chunks == REBUILT.chunks && WIPED.mentions + [] == WIPED.mentions;
  }

  lemma RebuiltAfterFive()
    ensures |ReindexPlan(ENV, UPLOADED, B16)| >= 5
    ensures Exec(ENV, UPLOADED, ReindexPlan(ENV, UPLOADED, B16)[..5]) == Some(REBUILT)
  {
    var doc := UPLOADED.docs[0];
    assert Rebuilds(ENV, B16, UPLOADED.docs) == [RebuildDocument(B16, doc)] + Rebuilds(ENV, B16, UPLOADED.docs[1..]);
    assert ReindexPlan(ENV, UPLOADED, B16)[..5] == Prologue(true, B16) + [RebuildDocument(B16, doc)];
    PrologueResult(ENV, UPLOADED, true, B16);
    ExecSnoc(ENV, UPLOADED, Prologue(true, B16), RebuildDocument(B16, doc));
    RebuiltStore();
  }

  /** A history after which applying the schema is not a no-op: a change to
      dimension 16 died before its rebuild, and opening for a reindex at dimension 8
      gives the index that dimension. */
  lemma SchemaRedefinesIndex()
    ensures DisciplinedRun(ENV, FRESH, CutShort(4)) && Run(ENV, FRESH, CutShort(4)) == Some(World(WIPED, None))
    ensures Apply(ENV, WIPED, ApplySchema(8)) == Some(WIPED.(indexDim := Some(8))) && WIPED.fieldDim == 16
  {
    WipedAfterFour();
    CutShortRuns(4, WIPED);
  }

  /** A history that closes the management path for the old dimension: the change
      died after a rebuild, and only a configuration of the new dimension opens. */
  lemma OldDimensionIsLockedOut()
    ensures DisciplinedRun(ENV, FRESH, CutShort(5)) && Run(ENV, FRESH, CutShort(5)) == Some(World(REBUILT, None))
    ensures !RecoveryRuns.OpensForReindex(ENV, REBUILT, A) && RecoveryRuns.OpensForReindex(ENV, REBUILT, B16)
  {
    RebuiltAfterFive();
    CutShortRuns(5, REBUILT);
    ReachedIsCoherent(CutShort(5), REBUILT);
    OpensOnlyForNewDimension();
  }

  lemma ReachedIsCoherent(events: seq<Event>, s: Store)
    requires DisciplinedRun(ENV, FRESH, events) && Run(ENV, FRESH, events) == Some(World(s, None))
    ensures WellFormed(s) && Coherent(s)
  {
    InvariantHolds(ENV, FRESH, events);
  }

  lemma OpensOnlyForNewDimension()
    requires WellFormed(REBUILT) && Coherent(REBUILT)
    ensures !RecoveryRuns.OpensForReindex(ENV, REBUILT, A) && RecoveryRuns.OpensForReindex(ENV, REBUILT, B16)
  {
    RecoveryRuns.ManagementPathOpensIff(ENV, REBUILT, A);
    RecoveryRuns.ManagementPathOpensIff(ENV, REBUILT, B16);
    assert REBUILT.chunks[0].vector == 16;
  }
}

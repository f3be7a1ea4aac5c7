/** `open_inner`: the checks that gate a normal open, and the commits that
    opening makes. */
module Opening {
  import opened Options
  import opened Tables
  import opened KnowledgeStore
  import opened Commits
  import opened Reindex
  import opened Versions

  datatype Verdict = Opened | ModelMismatch | DuplicateChunks

  /** What opening commits, in order, and how it ends if nothing fails. */
  datatype OpenPlan = OpenPlan(commits: seq<Commit>, verdict: Verdict) {
    function Then(next: OpenPlan): OpenPlan {
      if verdict.Opened? then OpenPlan(commits + next.commits, next.verdict) else this
    }
  }

  const NOTHING := OpenPlan([], Opened)

  predicate HasDuplicates(rows: seq<ChunkRow>) {
    exists i, j :: 0 <= i < j < |rows| && rows[i].document == rows[j].document && rows[i].idx == rows[j].idx
  }

  /** Checks of an existing store before a normal open. */
  function Gate(s: Store, c: Config): OpenPlan {
    var m := s.metas;
    if m.marker.Some? then OpenPlan([], ModelMismatch)
    else if m.model != Some(c.model) then OpenPlan([], ModelMismatch)
    else if m.dimension.Some? && m.dimension != Some(c.dimension) then OpenPlan([], ModelMismatch)
    else
      var backfillDimension := if m.dimension.None? then [SetDimension(c.dimension)] else [];
      if m.maxInput.Some? && m.maxInput != Some(c.maxInput) then OpenPlan(backfillDimension, ModelMismatch)
      else OpenPlan(backfillDimension + if m.maxInput.None? then [SetMaxInput(c.maxInput)] else [], Opened)
  }

  /** `migrate` on an existing store. */
  function Migrate(s: Store, c: Config): OpenPlan {
    if s.metas.dupChecked then OpenPlan([ApplySchema(c.dimension)], Opened)
    else if HasDuplicates(s.chunks) then OpenPlan([ApplySchema(c.dimension)], DuplicateChunks)
    else OpenPlan([ApplySchema(c.dimension), MarkDupChecked], Opened)
  }

  /** `sync_tokenizer_meta`: the fingerprint is written last. */
  function SyncTokenizer(s: Store, c: Config): OpenPlan {
    if s.metas.fingerprint.Some? && s.metas.fingerprint != Some(c.fingerprint) then OpenPlan([], ModelMismatch)
    else OpenPlan([SetInfo(Tokenizer, c.tokenizer), SetInfo(TokenizerSource, c.source),
                   SetInfo(TokenizerAlgorithm, c.algorithm), SetInfo(TokenizerVersion, TOKENIZER_CRATE_VERSION),
                   SetInfo(FingerprintSchema, TOKENIZER_FINGERPRINT_SCHEMA), SetFingerprint(c.fingerprint)], Opened)
  }

  /** Opening with configuration `c`; `allowMismatch` is `open_for_reindex`. */
  function Plan(s: Store, c: Config, allowMismatch: bool): OpenPlan {
    var sync := if allowMismatch then NOTHING else SyncTokenizer(s, c);
    if !s.created
    then OpenPlan([ApplySchema(c.dimension), MarkDupChecked, InitMetas(c)], Opened).Then(sync)
    else (if allowMismatch then NOTHING else Gate(s, c)).Then(Migrate(s, c)).Then(sync)
  }

  // ----- commits of an open on an existing store -----

  /** The schema of `c` can be applied: the index is there, or can be built. */
  predicate SchemaApplies(s: Store, c: Config) {
    s.indexDim.Some? || Indexable(s, c.dimension)
  }

  /** Commits that change no data and nothing the gate has compared. */
  predicate Quiet(s: Store, a: Commit, c: Config) {
    match a
    case ApplySchema(d) => d == c.dimension && SchemaApplies(s, c)
    case MarkDupChecked => true
    case SetMaxInput(n) => n == c.maxInput
    case SetInfo(k, v) => true
    case SetFingerprint(f) => f == c.fingerprint && (s.metas.fingerprint.None? || s.metas.fingerprint == Some(f))
    case _ => false
  }

  predicate AllQuiet(s: Store, plan: seq<Commit>, c: Config) {
    forall i :: 0 <= i < |plan| ==> Quiet(s, plan[i], c)
  }

  /** Two stores that differ at most in what quiet commits write. */
  predicate SameData(s: Store, t: Store) {
    t == s.(metas := s.metas.(maxInput := t.metas.maxInput, info := t.metas.info, fingerprint := t.metas.fingerprint,
                              dupChecked := t.metas.dupChecked), indexDim := t.indexDim)
  }

  /** What quiet commits make of a store. */
  ghost predicate Quietly(s: Store, t: Store, c: Config) {
    && WellFormed(t) && Coherent(t) && t.created && SameData(s, t)
    && (s.indexDim.Some? ==> t.indexDim == s.indexDim)
    && (t.metas.fingerprint == s.metas.fingerprint || t.metas.fingerprint == Some(c.fingerprint))
  }

  lemma QuietStep(env: Env, s: Store, c: Config, a: Commit)
    requires WellFormed(s) && Coherent(s) && s.created && Quiet(s, a, c)
    ensures Apply(env, s, a).Some? && Quietly(s, Apply(env, s, a).value, c)
    ensures a.SetFingerprint? ==> Apply(env, s, a).value.metas.fingerprint == Some(c.fingerprint)
  {
    ApplyKeepsWellFormed(env, s, a);
  }

  lemma QuietTwice(s: Store, t: Store, u: Store, c: Config)
    requires Quietly(s, t, c) && Quietly(t, u, c)
    ensures Quietly(s, u, c)
  {
  }

  lemma QuietStill(s: Store, t: Store, c: Config, plan: seq<Commit>)
    requires plan != [] && AllQuiet(s, plan, c)
    requires t.metas.fingerprint == s.metas.fingerprint || t.metas.fingerprint == Some(c.fingerprint)
    requires t.chunks == s.chunks && (s.indexDim.Some? ==> t.indexDim.Some?)
    ensures AllQuiet(t, plan[1..], c)
  {
    forall i | 0 <= i < |plan| - 1
      ensures Quiet(t, plan[1..][i], c)
    {
      assert Quiet(s, plan[i + 1], c);
    }
  }

  lemma {:induction false} QuietRun(env: Env, s: Store, c: Config, plan: seq<Commit>)
    requires WellFormed(s) && Coherent(s) && s.created && AllQuiet(s, plan, c)
    ensures Exec(env, s, plan).Some? && Quietly(s, Exec(env, s, plan).value, c)
    ensures plan != [] && plan[|plan| - 1].SetFingerprint? ==>
        Exec(env, s, plan).value.metas.fingerprint == Some(c.fingerprint)
    decreases |plan|
  {
    if plan == [] {
    } else {
      assert Quiet(s, plan[0], c);
      QuietStep(env, s, c, plan[0]);
      var t := Apply(env, s, plan[0]).value;
      QuietStill(s, t, c, plan);
      QuietRun(env, t, c, plan[1..]);
      QuietTwice(s, t, Exec(env, t, plan[1..]).value, c);
    }
  }

  lemma NoDuplicates(s: Store)
    requires WellFormed(s)
    ensures !HasDuplicates(s.chunks)
  {
    forall i, j | 0 <= i < j < |s.chunks| && s.chunks[i].document == s.chunks[j].document
      ensures s.chunks[i].idx != s.chunks[j].idx
    {
      var d := s.chunks[i].document;
      var rows := RowsOf(s.chunks, d);
      assert Numbered(rows);
      RowsOfMember(s.chunks, d, s.chunks[i]);
      RowsOfMember(s.chunks, d, s.chunks[j]);
      var a :| 0 <= a < |rows| && rows[a] == s.chunks[i];
      var b :| 0 <= b < |rows| && rows[b] == s.chunks[j];
      assert a != b;
    }
  }

  /** On a well-formed store the one-time duplicate check never blocks opening. */
  lemma NeverBlockedByDuplicates(s: Store, c: Config, allowMismatch: bool)
    requires WellFormed(s)
    ensures !Plan(s, c, allowMismatch).verdict.DuplicateChunks?
  {
    NoDuplicates(s);
  }

  /** After the gate, applying the schema changes nothing at all. */
  lemma SchemaIsNoOpAfterGate(env: Env, s: Store, c: Config)
    requires Coherent(s) && s.created && Gate(s, c).verdict.Opened?
    ensures Apply(env, s, ApplySchema(c.dimension)) == Some(s)
  {
  }

  /** On any existing store, applying the schema changes nothing exactly when the
      index is there. */
  lemma SchemaIsNoOpIff(env: Env, s: Store, d: nat)
    requires s.created
    ensures Apply(env, s, ApplySchema(d)) == Some(s) <==> s.indexDim.Some?
  {
  }

  lemma ExistingPlanQuiet(s: Store, c: Config, allowMismatch: bool)
    requires Coherent(s) && s.created && (allowMismatch ==> SchemaApplies(s, c))
    ensures AllQuiet(s, Plan(s, c, allowMismatch).commits, c)
  {
  }

  // ----- commits of the first open -----

  /** The store after the schema and the initial metadata are committed. */
  function Initialised(c: Config): Store {
    EMPTY_STORE.(created := true, fieldDim := c.dimension, indexDim := Some(c.dimension),
                 metas := ModelMetas(NO_METAS.(dupChecked := true), c))
  }

  lemma FirstOpenBegins(env: Env, c: Config, rest: seq<Commit>)
    ensures Exec(env, EMPTY_STORE, [ApplySchema(c.dimension), MarkDupChecked, InitMetas(c)] + rest)
         == Exec(env, Initialised(c), rest)
  {
    var s1 := Apply(env, EMPTY_STORE, ApplySchema(c.dimension)).value;
    var s2 := Apply(env, s1, MarkDupChecked).value;
    ExecCons(env, s2, InitMetas(c), rest);
    ExecCons(env, s1, MarkDupChecked, [InitMetas(c)] + rest);
    ExecCons(env, EMPTY_STORE, ApplySchema(c.dimension), [MarkDupChecked] + ([InitMetas(c)] + rest));
    assert [ApplySchema(c.dimension), MarkDupChecked, InitMetas(c)] + rest
        == [ApplySchema(c.dimension)] + ([MarkDupChecked] + ([InitMetas(c)] + rest));
  }

  /** A first open that dies before the initial metadata is committed. */
  lemma FirstOpenCutShort(env: Env, c: Config, k: nat)
    requires k < 3
    ensures var t := Exec(env, EMPTY_STORE, [ApplySchema(c.dimension), MarkDupChecked, InitMetas(c)][..k]);
            && t.Some? && WellFormed(t.value) && Coherent(t.value)
            && t.value.docs == [] && t.value.metas.marker == None
  {
    var begin := [ApplySchema(c.dimension), MarkDupChecked, InitMetas(c)];
    var s1 := Apply(env, EMPTY_STORE, ApplySchema(c.dimension)).value;
    if k == 0 {
      assert begin[..0] == [];
    } else if k == 1 {
      ExecCons(env, EMPTY_STORE, ApplySchema(c.dimension), []);
      assert begin[..1] == [ApplySchema(c.dimension)] + [];
    } else {
      ExecCons(env, s1, MarkDupChecked, []);
      ExecCons(env, EMPTY_STORE, ApplySchema(c.dimension), [MarkDupChecked] + []);
      assert begin[..2] == [ApplySchema(c.dimension)] + ([MarkDupChecked] + []);
    }
  }

  lemma {:induction false} FirstOpen(env: Env, c: Config, allowMismatch: bool, k: nat)
    requires k <= |Plan(EMPTY_STORE, c, allowMismatch).commits|
    ensures Exec(env, EMPTY_STORE, Plan(EMPTY_STORE, c, allowMismatch).commits[..k]).Some?
    ensures var t := Exec(env, EMPTY_STORE, Plan(EMPTY_STORE, c, allowMismatch).commits[..k]).value;
            && WellFormed(t) && Coherent(t) && t.docs == [] && t.metas.marker == None
            && (k >= 3 ==> SameData(Initialised(c), t) && t.indexDim == Some(c.dimension))
            && (!allowMismatch && k == |Plan(EMPTY_STORE, c, allowMismatch).commits| ==>
                  t.metas.fingerprint == Some(c.fingerprint))
  {
    var plan := Plan(EMPTY_STORE, c, allowMismatch).commits;
    var begin := [ApplySchema(c.dimension), MarkDupChecked, InitMetas(c)];
    var sync := if allowMismatch then [] else SyncTokenizer(EMPTY_STORE, c).commits;
    FirstPlan(c, allowMismatch, begin, sync);
    if k < 3 {
      assert plan[..k] == begin[..k];
      FirstOpenCutShort(env, c, k);
    } else {
      assert plan[..k] == begin + sync[..k - 3];
      FirstOpenBegins(env, c, sync[..k - 3]);
      QuietRun(env, Initialised(c), c, sync[..k - 3]);
    }
  }

  lemma FirstPlan(c: Config, allowMismatch: bool, begin: seq<Commit>, sync: seq<Commit>)
    requires begin == [ApplySchema(c.dimension), MarkDupChecked, InitMetas(c)]
    requires sync == if allowMismatch then [] else SyncTokenizer(EMPTY_STORE, c).commits
    ensures Plan(EMPTY_STORE, c, allowMismatch).commits == begin + sync
    ensures AllQuiet(Initialised(c), sync, c)
    ensures !allowMismatch ==> sync != [] && sync[|sync| - 1] == SetFingerprint(c.fingerprint)
  {
    assert begin + [] == begin;
  }

  // ----- what opening keeps and what it establishes -----

  /** The only commit of an opening that the database can refuse is the schema, and
      only when a reindex is being resumed over rows its index does not fit.  Whatever
      commit opening stops after, the store stays coherent, its data is untouched and
      the marker is unchanged. */
  lemma {:induction false} OpenKeeps(env: Env, s: Store, c: Config, allowMismatch: bool, k: nat)
    requires WellFormed(s) && Coherent(s) && k <= |Plan(s, c, allowMismatch).commits|
    ensures Exec(env, s, Plan(s, c, allowMismatch).commits[..k]).Some? <==>
        (allowMismatch && k > 0 ==> SchemaApplies(s, c))
    ensures Exec(env, s, Plan(s, c, allowMismatch).commits[..k]).Some? ==>
              var t := Exec(env, s, Plan(s, c, allowMismatch).commits[..k]).value;
              && WellFormed(t) && Coherent(t) && t.docs == s.docs && t.metas.marker == s.metas.marker
              && (s.created ==> SameData(s, t))
  {
    var plan := Plan(s, c, allowMismatch).commits;
    if !s.created {
      FirstOpen(env, c, allowMismatch, k);
    } else if allowMismatch && !SchemaApplies(s, c) {
      if k > 0 {
        assert plan[..k][0] == ApplySchema(c.dimension);
      }
    } else {
      ExistingPlanQuiet(s, c, allowMismatch);
      assert AllQuiet(s, plan[..k], c);
      QuietRun(env, s, c, plan[..k]);
    }
  }

  /** The gate is sound: a normal open that succeeds hands out a store whose
      every vector, the field and the index belong to the configuration. */
  lemma {:induction false} NormalOpenServes(env: Env, s: Store, c: Config)
    requires WellFormed(s) && Coherent(s) && Plan(s, c, false).verdict.Opened?
    ensures Exec(env, s, Plan(s, c, false).commits).Some?
    ensures Serves(Exec(env, s, Plan(s, c, false).commits).value, c)
    ensures Exec(env, s, Plan(s, c, false).commits).value.metas.marker == None
  {
    var plan := Plan(s, c, false).commits;
    assert plan[..|plan|] == plan;
    if s.created {
      ExistingPlanQuiet(s, c, false);
      assert plan[|plan| - 1] == SetFingerprint(c.fingerprint);
      QuietRun(env, s, c, plan);
      assert Exec(env, s, plan).value.chunks == s.chunks;
    } else {
      FirstOpen(env, c, false, |plan|);
    }
  }

  /** Exactly when a normal open goes through: on a new directory, and on a store whose
      metadata, as far as it is there, is that of the configuration, with the model
      recorded and no reindex unfinished. */
  lemma OpensIff(s: Store, c: Config)
    requires WellFormed(s) && Coherent(s)
    ensures Plan(s, c, false).verdict.Opened? <==>
            || !s.created
            || (&& s.metas.marker == None && s.metas.model == Some(c.model)
                && (s.metas.dimension == None || s.metas.dimension == Some(c.dimension))
                && (s.metas.maxInput == None || s.metas.maxInput == Some(c.maxInput))
                && (s.metas.fingerprint == None || s.metas.fingerprint == Some(c.fingerprint)))
  {
    NoDuplicates(s);
  }

  /** An open for a reindex always goes through, whatever the metadata says. */
  lemma OpensForReindex(s: Store, c: Config)
    requires WellFormed(s)
    ensures Plan(s, c, true).verdict.Opened?
  {
    NoDuplicates(s);
  }

  /** Commits that write nothing to the token limit or the tokenizer's keys but c's. */
  predicate WritesOnly(a: Commit, c: Config) {
    match a
    case SetMaxInput(n) => n == c.maxInput
    case SetInfo(k, v) => v == InfoOf(c, k)
    case InitMetas(c') => c' == c
    case UpdateMetas(_) => false
    case RebuildDocument(_, _) => false
    case SaveDocument(_, _, _, _) => false
    case RemoveDocument(_) => false
    case Transition(_) => false
    case _ => true
  }

  /** What is recorded about the tokenizer of `c`. */
  function InfoOf(c: Config, k: InfoKey): string {
    match k
    case Tokenizer => c.tokenizer
    case TokenizerSource => c.source
    case TokenizerAlgorithm => c.algorithm
    case TokenizerVersion => TOKENIZER_CRATE_VERSION
    case FingerprintSchema => TOKENIZER_FINGERPRINT_SCHEMA
  }

  predicate HasInfo(m: Metas, c: Config, k: InfoKey) {
    k in m.info && m.info[k] == InfoOf(c, k)
  }

  predicate HasMaxInput(m: Metas, c: Config) {
    m.maxInput == Some(c.maxInput)
  }

  /** The plan writes the token limit at some point. */
  predicate Limits(plan: seq<Commit>, c: Config) {
    SetMaxInput(c.maxInput) in plan || InitMetas(c) in plan
  }

  lemma {:induction false} WrittenStays(env: Env, s: Store, c: Config, plan: seq<Commit>, k: InfoKey)
    requires Exec(env, s, plan).Some? && forall i :: 0 <= i < |plan| ==> WritesOnly(plan[i], c)
    ensures HasInfo(s.metas, c, k) || SetInfo(k, InfoOf(c, k)) in plan ==> HasInfo(Exec(env, s, plan).value.metas, c, k)
    ensures HasMaxInput(s.metas, c) || Limits(plan, c) ==> HasMaxInput(Exec(env, s, plan).value.metas, c)
    decreases |plan|
  {
    if plan == [] {
    } else {
      assert plan == [plan[0]] + plan[1..];
      WriteStep(env, s, c, plan[0], k);
      WrittenStays(env, Apply(env, s, plan[0]).value, c, plan[1..], k);
    }
  }

  lemma WriteStep(env: Env, s: Store, c: Config, a: Commit, k: InfoKey)
    requires WritesOnly(a, c) && Apply(env, s, a).Some?
    ensures HasInfo(s.metas, c, k) || a == SetInfo(k, InfoOf(c, k)) ==> HasInfo(Apply(env, s, a).value.metas, c, k)
    ensures HasMaxInput(s.metas, c) || Limits([a], c) ==> HasMaxInput(Apply(env, s, a).value.metas, c)
  {
  }

  /** A normal open records the token limit and everything about the tokenizer. */
  lemma {:induction false} NormalOpenRecords(env: Env, s: Store, c: Config, k: InfoKey)
    requires WellFormed(s) && Coherent(s) && Plan(s, c, false).verdict.Opened?
    ensures Exec(env, s, Plan(s, c, false).commits).Some?
    ensures var m := Exec(env, s, Plan(s, c, false).commits).value.metas;
            m.maxInput == Some(c.maxInput) && k in m.info && m.info[k] == InfoOf(c, k)
  {
    NormalOpenServes(env, s, c);
    PlanWrites(s, c, k);
    WrittenStays(env, s, c, Plan(s, c, false).commits, k);
  }

  /** What a normal open commits before the tokenizer's keys. */
  function BeforeSync(s: Store, c: Config): seq<Commit> {
    if !s.created then [ApplySchema(c.dimension), MarkDupChecked, InitMetas(c)]
    else Gate(s, c).commits + Migrate(s, c).commits
  }

  lemma OpenedPlan(s: Store, c: Config)
    requires Plan(s, c, false).verdict.Opened?
    ensures Plan(s, c, false).commits == BeforeSync(s, c) + SyncTokenizer(s, c).commits
    ensures SyncTokenizer(s, c).verdict.Opened? && (s.created ==> Gate(s, c).verdict.Opened?)
  {
  }

  lemma BeforeSyncWrites(s: Store, c: Config)
    requires s.created ==> Gate(s, c).verdict.Opened?
    ensures forall i :: 0 <= i < |BeforeSync(s, c)| ==> WritesOnly(BeforeSync(s, c)[i], c)
    ensures HasMaxInput(s.metas, c) || Limits(BeforeSync(s, c), c)
  {
    var plan := BeforeSync(s, c);
    if !s.created {
      assert plan[2] == InitMetas(c);
    } else if s.metas.maxInput.None? {
      var gate := Gate(s, c).commits;
      assert plan[|gate| - 1] == SetMaxInput(c.maxInput);
    }
  }

  lemma SyncWrites(s: Store, c: Config, k: InfoKey)
    requires SyncTokenizer(s, c).verdict.Opened?
    ensures var sync := SyncTokenizer(s, c).commits;
            (forall i :: 0 <= i < |sync| ==> WritesOnly(sync[i], c)) && SetInfo(k, InfoOf(c, k)) in sync
  {
    var sync := SyncTokenizer(s, c).commits;
    match k
    case Tokenizer => assert sync[0] == SetInfo(k, InfoOf(c, k));
    case TokenizerSource => assert sync[1] == SetInfo(k, InfoOf(c, k));
    case TokenizerAlgorithm => assert sync[2] == SetInfo(k, InfoOf(c, k));
    case TokenizerVersion => assert sync[3] == SetInfo(k, InfoOf(c, k));
    case FingerprintSchema => assert sync[4] == SetInfo(k, InfoOf(c, k));
  }

  lemma PlanWrites(s: Store, c: Config, k: InfoKey)
    requires Plan(s, c, false).verdict.Opened?
    ensures var plan := Plan(s, c, false).commits;
            && (forall i :: 0 <= i < |plan| ==> WritesOnly(plan[i], c))
            && SetInfo(k, InfoOf(c, k)) in plan
            && (HasMaxInput(s.metas, c) || Limits(plan, c))
  {
    OpenedPlan(s, c);
    BeforeSyncWrites(s, c);
    SyncWrites(s, c, k);
    JoinedWrites(BeforeSync(s, c), SyncTokenizer(s, c).commits, c);
  }

  lemma JoinedWrites(p: seq<Commit>, q: seq<Commit>, c: Config)
    requires forall i :: 0 <= i < |p| ==> WritesOnly(p[i], c)
    requires forall i :: 0 <= i < |q| ==> WritesOnly(q[i], c)
    ensures forall i :: 0 <= i < |p + q| ==> WritesOnly((p + q)[i], c)
    ensures Limits(p, c) ==> Limits(p + q, c)
  {
  }

  /** Commits that leave the fingerprint alone. */
  predicate SparesFingerprint(a: Commit) {
    match a
    case SetFingerprint(_) => false
    case UpdateMetas(_) => false
    case _ => true
  }

  lemma {:induction false} FingerprintStays(env: Env, s: Store, plan: seq<Commit>)
    requires Exec(env, s, plan).Some? && forall i :: 0 <= i < |plan| ==> SparesFingerprint(plan[i])
    ensures Exec(env, s, plan).value.metas.fingerprint == s.metas.fingerprint
    decreases |plan|
  {
    if plan == [] {
    } else {
      FingerprintStays(env, Apply(env, s, plan[0]).value, plan[1..]);
    }
  }

  /** The fingerprint is what an opening writes last: cut anywhere before its end, it has
      not vouched for a tokenizer whose description is not all there yet. */
  lemma {:induction false} FingerprintLast(env: Env, s: Store, c: Config, k: nat)
    requires Plan(s, c, false).verdict.Opened? && k < |Plan(s, c, false).commits|
    requires Exec(env, s, Plan(s, c, false).commits[..k]).Some?
    ensures Exec(env, s, Plan(s, c, false).commits[..k]).value.metas.fingerprint == s.metas.fingerprint
  {
    var plan, before, sync := Plan(s, c, false).commits, BeforeSync(s, c), SyncTokenizer(s, c).commits;
    OpenedPlan(s, c);
    BeforeSyncSpares(s, c);
    forall i | 0 <= i < k
      ensures SparesFingerprint(plan[..k][i])
    {
      assert plan[i] == if i < |before| then before[i] else sync[i - |before|];
    }
    FingerprintStays(env, s, plan[..k]);
  }

  lemma BeforeSyncSpares(s: Store, c: Config)
    requires s.created ==> Gate(s, c).verdict.Opened?
    ensures forall i :: 0 <= i < |BeforeSync(s, c)| ==> SparesFingerprint(BeforeSync(s, c)[i])
  {
  }

  /** The gate is complete: a store that already serves the configuration and
      has no unfinished reindex opens, and opening does not disturb it. */
  lemma ServingStoreOpens(s: Store, c: Config)
    requires WellFormed(s) && Serves(s, c) && s.metas.marker == None
    requires s.metas.maxInput.None? || s.metas.maxInput == Some(c.maxInput)
    ensures Plan(s, c, false).verdict.Opened?
  {
    NoDuplicates(s);
  }
}

/** Whole histories of one data directory: opens, reindexes cut at any commit,
    uploads, deletes and crashes in any order, by one process at a time. */
module Runs {
  import opened Options
  import opened Tables
  import opened KnowledgeStore
  import opened Commits
  import opened Reindex
  import opened Recovery
  import Opening

  /** `normal` tells a handle from `open` from one of `open_for_reindex`. */
  datatype Handle = Handle(config: Config, normal: bool)

  datatype World = World(store: Store, handle: Option<Handle>)

  /** `commits` says after how many commits the operation stopped. */
  datatype Event =
    | Open(config: Config, allowMismatch: bool, commits: nat)
    | ReindexStops(commits: nat)
    | Upload(title: string, content: string, force: bool)
    | Delete(id: nat)
    | Crash

  const FRESH := World(EMPTY_STORE, None)

  /** `ingest::upload`: skipped, empty and failing uploads leave the store alone. */
  function UploadTo(env: Env, s: Store, c: Config, title: string, content: string, force: bool): Store {
    var existed := ShaStored(s.docs, env.sha(content));
    if existed && !force then s
    else match env.split(c, content)
      case None => s
      case Some(pieces) =>
        if pieces == [] then s
        else match Apply(env, s, SaveDocument(c, title, content, force && existed))
          case None => s
          case Some(t) => t
  }

  function DeleteFrom(env: Env, s: Store, id: nat): Store {
    match Apply(env, s, RemoveDocument(id))
    case None => s
    case Some(t) => t
  }

  /** The world after an event; `None` if the event cannot happen there. */
  function Next(env: Env, w: World, e: Event): Option<World> {
    match e
    case Open(c, allow, k) =>
      var plan := Opening.Plan(w.store, c, allow);
      if w.handle.Some? || k > |plan.commits| || Exec(env, w.store, plan.commits[..k]).None? then None
      else
        var done := k == |plan.commits| && plan.verdict.Opened?;
        Some(World(Exec(env, w.store, plan.commits[..k]).value, if done then Some(Handle(c, !allow)) else None))
    case ReindexStops(k) =>
      if w.handle.None? then None
      else
        var plan := ReindexPlan(env, w.store, w.handle.value.config);
        if k > |plan| || Exec(env, w.store, plan[..k]).None? then None
        else Some(w.(store := Exec(env, w.store, plan[..k]).value))
    case Upload(title, content, force) =>
      if w.handle.None? then None
      else Some(w.(store := UploadTo(env, w.store, w.handle.value.config, title, content, force)))
    case Delete(id) => if w.handle.None? then None else Some(w.(store := DeleteFrom(env, w.store, id)))
    case Crash => Some(w.(handle := None))
  }

  function Run(env: Env, w: World, events: seq<Event>): Option<World>
    decreases |events|
  {
    if events == [] then Some(w)
    else match Next(env, w, events[0])
      case None => None
      case Some(v) => Run(env, v, events[1..])
  }

  // ----- what callers must respect -----

  /** Uploads go through a handle whose configuration is the recorded one; a reindex
      is only started where it repairs the field, and only completed where it leaves
      no stale rows. */
  predicate Disciplined(env: Env, w: World, e: Event) {
    match e
    case Upload(_, _, _) => w.handle.Some? && MetasMatch(w.store.metas, w.handle.value.config)
    case ReindexStops(k) => w.handle.Some? && Repairs(env, w.store, w.handle.value.config, k)
    case _ => true
  }

  /** A reindex that stops after `k` commits is harmless. */
  predicate Repairs(env: Env, s: Store, c: Config, k: nat) {
    && (k > 0 ==> FieldFixed(s, c))
    && (k == |ReindexPlan(env, s, c)| ==> NoStaleSkip(env, s, c))
  }

  predicate DisciplinedRun(env: Env, w: World, events: seq<Event>)
    decreases |events|
  {
    events == [] ||
    (&& Disciplined(env, w, events[0])
     && match Next(env, w, events[0])
        case None => true
        case Some(v) => DisciplinedRun(env, v, events[1..]))
  }

  // ----- the invariant of all histories -----

  /** A live normal handle always serves its configuration. */
  ghost predicate Invariant(w: World) {
    && WellFormed(w.store) && Coherent(w.store)
    && (w.handle.Some? ==> w.store.created)
    && (w.handle.Some? && w.handle.value.normal ==>
          Serves(w.store, w.handle.value.config) && w.store.metas.marker != Some(Dim))
  }

  // ----- opening -----

  lemma OpenStep(env: Env, w: World, c: Config, allow: bool, k: nat)
    requires Invariant(w) && Next(env, w, Open(c, allow, k)).Some?
    ensures Invariant(Next(env, w, Open(c, allow, k)).value)
  {
    var plan := Opening.Plan(w.store, c, allow);
    Opening.OpenKeeps(env, w.store, c, allow, k);
    if k == |plan.commits| && plan.verdict.Opened? {
      assert plan.commits[..k] == plan.commits;
      OpenCreates(env, w.store, c, allow);
      if !allow {
        Opening.NormalOpenServes(env, w.store, c);
      }
    }
  }

  lemma OpenCreates(env: Env, s: Store, c: Config, allow: bool)
    requires WellFormed(s) && Coherent(s) && Exec(env, s, Opening.Plan(s, c, allow).commits).Some?
    ensures Opening.Plan(s, c, allow).verdict.Opened? ==> Exec(env, s, Opening.Plan(s, c, allow).commits).value.created
  {
    var plan := Opening.Plan(s, c, allow).commits;
    assert plan[..|plan|] == plan;
    Opening.OpenKeeps(env, s, c, allow, |plan|);
    if !s.created {
      Opening.FirstOpen(env, c, allow, |plan|);
    }
  }

  // ----- uploads and deletes -----

  lemma SaveKeepsCarry(env: Env, s: Store, c: Config, title: string, content: string, replace: bool)
    requires Save(env, s, c, title, content, replace).Some? && AllCarry(s, c)
    ensures AllCarry(Save(env, s, c, title, content, replace).value, c)
  {
    if FindSha(s.docs, env.sha(content)).Some? {
      ClearKeepsCarry(s, s.docs[FindSha(s.docs, env.sha(content)).value].id, c);
    }
  }

  lemma ClearKeepsCarry(s: Store, d: nat, c: Config)
    requires AllCarry(s, c)
    ensures AllCarry(ClearDocument(s, d), c)
  {
    forall i | 0 <= i < |ClearDocument(s, d).chunks|
      ensures Carries(ClearDocument(s, d).chunks[i], c)
    {
      RowsWithoutMember(s.chunks, d, ClearDocument(s, d).chunks[i]);
      assert ClearDocument(s, d).chunks[i] in s.chunks;
    }
  }

  /** The config that the metadata of a coherent idle store describes. */
  lemma CarryFromMetas(s: Store, c: Config)
    requires Coherent(s) && s.metas.marker == None && MetasMatch(s.metas, c)
    ensures AllCarry(s, c)
  {
  }

  lemma SaveStep(env: Env, w: World, title: string, content: string, replace: bool)
    requires Invariant(w) && w.handle.Some? && MetasMatch(w.store.metas, w.handle.value.config)
    requires Save(env, w.store, w.handle.value.config, title, content, replace).Some?
    ensures Invariant(w.(store := Save(env, w.store, w.handle.value.config, title, content, replace).value))
  {
    var c := w.handle.value.config;
    SaveKeepsWellFormed(env, w.store, c, title, content, replace);
    if AllCarry(w.store, c) {
      SaveKeepsCarry(env, w.store, c, title, content, replace);
    }
    if w.store.metas.marker == None {
      CarryFromMetas(w.store, c);
    }
  }

  lemma DeleteStep(env: Env, w: World, id: nat)
    requires Invariant(w) && w.handle.Some?
    ensures Invariant(w.(store := DeleteFrom(env, w.store, id)))
  {
    if HasDocument(w.store.docs, id) {
      RemoveKeepsWellFormed(w.store, id);
      var t := ClearDocument(w.store, id);
      forall i | 0 <= i < |t.chunks|
        ensures t.chunks[i] in w.store.chunks
      {
        RowsWithoutMember(w.store.chunks, id, t.chunks[i]);
      }
      DocsWithoutEmpty(w.store.docs, id);
    }
  }

  lemma DocsWithoutEmpty(docs: seq<Document>, id: nat)
    ensures docs == [] ==> DocsWithout(docs, id) == []
  {
  }

  // ----- reindexing -----

  /** Reindexing under the configuration the store already serves keeps it serving. */
  lemma ServingStep(env: Env, s: Store, c: Config, a: Commit)
    requires Serves(s, c) && Apply(env, s, a).Some?
    requires a == SetMarker(Meta) || a == ClearMarker || Inner(a, false, c, s.docs)
    ensures Serves(Apply(env, s, a).value, c)
    ensures a != ClearMarker && s.metas.marker != Some(Dim) ==> Apply(env, s, a).value.metas.marker != Some(Dim)
    ensures Apply(env, s, a).value.docs == s.docs
  {
    if a.RebuildDocument? {
      ClearKeepsCarry(s, a.doc.id, c);
    }
  }

  lemma {:induction false} ServingRun(env: Env, s: Store, c: Config, plan: seq<Commit>)
    requires Serves(s, c) && Exec(env, s, plan).Some?
    requires forall i :: 0 <= i < |plan| ==>
               plan[i] == SetMarker(Meta) || plan[i] == ClearMarker || Inner(plan[i], false, c, s.docs)
    ensures Serves(Exec(env, s, plan).value, c)
    decreases |plan|
  {
    if plan == [] {
    } else {
      ServingStep(env, s, c, plan[0]);
      ServingRun(env, Apply(env, s, plan[0]).value, c, plan[1..]);
    }
  }

  lemma CompletedRunCoherent(env: Env, s: Store, c: Config)
    requires WellFormed(s) && Coherent(s) && s.created
    requires FieldFixed(s, c) && NoStaleSkip(env, s, c) && Exec(env, s, ReindexPlan(env, s, c)).Some?
    ensures var t := Exec(env, s, ReindexPlan(env, s, c)).value;
            WellFormed(t) && Coherent(t) && t.created && t.metas.marker == None && Serves(t, c) && t.docs == s.docs
  {
    CompletedRunServesIff(env, s, c);
    CompletedRun(env, s, c, 0);
  }

  lemma {:induction false} AnyPrefixCoherent(env: Env, s: Store, c: Config, k: nat)
    requires WellFormed(s) && Coherent(s) && s.created && Repairs(env, s, c, k)
    requires k <= |ReindexPlan(env, s, c)| && Exec(env, s, ReindexPlan(env, s, c)[..k]).Some?
    ensures var t := Exec(env, s, ReindexPlan(env, s, c)[..k]).value;
            && WellFormed(t) && Coherent(t) && t.created
            && (!DimensionChanged(s, c) ==> t.metas.marker != Some(Dim))
  {
    var plan := ReindexPlan(env, s, c);
    if k == 0 {
      assert plan[..0] == [];
    } else if k < |plan| {
      InterruptedRun(env, s, c, k);
    } else {
      assert plan[..k] == plan;
      CompletedRunCoherent(env, s, c);
    }
  }

  lemma ReindexStep(env: Env, w: World, k: nat)
    requires Invariant(w) && Disciplined(env, w, ReindexStops(k)) && Next(env, w, ReindexStops(k)).Some?
    ensures Invariant(Next(env, w, ReindexStops(k)).value)
  {
    var c := w.handle.value.config;
    var plan := ReindexPlan(env, w.store, c);
    AnyPrefixCoherent(env, w.store, c, k);
    if w.handle.value.normal {
      PlanShape(env, w.store, c);
      forall i | 0 <= i < k
        ensures plan[..k][i] == SetMarker(Meta) || plan[..k][i] == ClearMarker ||
                Inner(plan[..k][i], false, c, w.store.docs)
      {
        if 0 < i < |plan| - 1 {
          assert plan[i] == plan[1..|plan| - 1][i - 1];
        }
      }
      ServingRun(env, w.store, c, plan[..k]);
    }
  }

  // ----- the theorem -----

  lemma Step(env: Env, w: World, e: Event)
    requires Invariant(w) && Disciplined(env, w, e) && Next(env, w, e).Some?
    ensures Invariant(Next(env, w, e).value)
  {
    match e
    case Open(c, allow, k) => OpenStep(env, w, c, allow, k);
    case ReindexStops(k) => ReindexStep(env, w, k);
    case Upload(title, content, force) =>
      var existed := ShaStored(w.store.docs, env.sha(content));
      if Save(env, w.store, w.handle.value.config, title, content, force && existed).Some? {
        SaveStep(env, w, title, content, force && existed);
      }
    case Delete(id) => DeleteStep(env, w, id);
    case Crash =>
  }

  lemma {:induction false} InvariantHolds(env: Env, w: World, events: seq<Event>)
    requires Invariant(w) && DisciplinedRun(env, w, events) && Run(env, w, events).Some?
    ensures Invariant(Run(env, w, events).value)
    decreases |events|
  {
    if events == [] {
    } else {
      Step(env, w, events[0]);
      InvariantHolds(env, Next(env, w, events[0]).value, events[1..]);
    }
  }

  /** Crash safety.  From an empty data directory, after any history of opens,
      reindexes stopped anywhere, uploads, deletes and crashes: the tables are
      well formed, and whoever holds a normal handle holds a store in which every
      chunk, the embedding field and the index belong to its configuration. */
  lemma {:induction false} CrashSafety(env: Env, events: seq<Event>)
    requires DisciplinedRun(env, FRESH, events) && Run(env, FRESH, events).Some?
    ensures var w := Run(env, FRESH, events).value;
            WellFormed(w.store) &&
            (w.handle.Some? && w.handle.value.normal ==> Serves(w.store, w.handle.value.config))
  {
    InvariantHolds(env, FRESH, events);
  }

  // ----- the tables, whatever callers do -----

  /** The half of the invariant that needs no discipline. */
  ghost predicate TablesHold(w: World) {
    && WellFormed(w.store)
    && (!w.store.created ==> w.store.docs == [] && w.store.chunks == [])
    && (w.handle.Some? ==> w.store.created)
  }

  /** Commits of openings and reindexes: they save and remove no document. */
  predicate KeepsDocuments(a: Commit, docs: seq<Document>) {
    match a
    case RebuildDocument(_, doc) => doc in docs
    case SaveDocument(_, _, _, _) => false
    case RemoveDocument(_) => false
    case _ => true
  }

  lemma CommitKeepsTables(env: Env, s: Store, a: Commit)
    requires WellFormed(s) && (!s.created ==> s.docs == [] && s.chunks == [])
    requires KeepsDocuments(a, s.docs) && Apply(env, s, a).Some?
    ensures var t := Apply(env, s, a).value;
            && WellFormed(t) && t.docs == s.docs && (s.created || a.ApplySchema? ==> t.created)
            && (!t.created ==> t.docs == [] && t.chunks == [])
  {
    if a.RebuildDocument? {
      var k :| 0 <= k < |s.docs| && s.docs[k] == a.doc;
      assert HasDocument(s.docs, a.doc.id);
    }
    ApplyKeepsWellFormed(env, s, a);
  }

  lemma {:induction false} CommitsKeepTables(env: Env, s: Store, plan: seq<Commit>)
    requires WellFormed(s) && (!s.created ==> s.docs == [] && s.chunks == [])
    requires (forall i :: 0 <= i < |plan| ==> KeepsDocuments(plan[i], s.docs)) && Exec(env, s, plan).Some?
    ensures var t := Exec(env, s, plan).value;
            && WellFormed(t) && (s.created || (plan != [] && plan[0].ApplySchema?) ==> t.created)
            && (!t.created ==> t.docs == [] && t.chunks == [])
    decreases |plan|
  {
    if plan == [] {
    } else {
      CommitKeepsTables(env, s, plan[0]);
      CommitsKeepTables(env, Apply(env, s, plan[0]).value, plan[1..]);
    }
  }

  lemma OpeningKeepsDocuments(s: Store, c: Config, allow: bool)
    ensures var plan := Opening.Plan(s, c, allow).commits;
            && (forall i :: 0 <= i < |plan| ==> KeepsDocuments(plan[i], s.docs))
            && (!s.created ==> plan != [] && plan[0].ApplySchema?)
  {
  }

  lemma OpenKeepsTables(env: Env, w: World, c: Config, allow: bool, k: nat)
    requires TablesHold(w) && Next(env, w, Open(c, allow, k)).Some?
    ensures TablesHold(Next(env, w, Open(c, allow, k)).value)
  {
    var plan := Opening.Plan(w.store, c, allow).commits;
    OpeningKeepsDocuments(w.store, c, allow);
    CommitsKeepTables(env, w.store, plan[..k]);
  }

  lemma ReindexKeepsDocuments(env: Env, s: Store, c: Config, k: nat)
    requires k <= |ReindexPlan(env, s, c)|
    ensures forall i :: 0 <= i < k ==> KeepsDocuments(ReindexPlan(env, s, c)[i], s.docs)
  {
    var plan := ReindexPlan(env, s, c);
    PlanShape(env, s, c);
    forall i | 0 <= i < k
      ensures KeepsDocuments(plan[i], s.docs)
    {
      if 0 < i < |plan| - 1 {
        assert plan[i] == plan[1..|plan| - 1][i - 1];
      }
    }
  }

  lemma ReindexKeepsTables(env: Env, w: World, k: nat)
    requires TablesHold(w) && Next(env, w, ReindexStops(k)).Some?
    ensures TablesHold(Next(env, w, ReindexStops(k)).value)
  {
    var plan := ReindexPlan(env, w.store, w.handle.value.config);
    ReindexKeepsDocuments(env, w.store, w.handle.value.config, k);
    CommitsKeepTables(env, w.store, plan[..k]);
  }

  lemma UploadKeepsTables(env: Env, w: World, title: string, content: string, force: bool)
    requires TablesHold(w) && w.handle.Some?
    ensures TablesHold(w.(store := UploadTo(env, w.store, w.handle.value.config, title, content, force)))
  {
    var c := w.handle.value.config;
    var replace := force && ShaStored(w.store.docs, env.sha(content));
    if Save(env, w.store, c, title, content, replace).Some? {
      SaveKeepsWellFormed(env, w.store, c, title, content, replace);
      SaveResult(env, w.store, c, title, content, replace);
    }
  }

  lemma DeleteKeepsTables(env: Env, w: World, id: nat)
    requires TablesHold(w) && w.handle.Some?
    ensures TablesHold(w.(store := DeleteFrom(env, w.store, id)))
  {
    if HasDocument(w.store.docs, id) {
      RemoveKeepsWellFormed(w.store, id);
    }
  }

  lemma StepKeepsTables(env: Env, w: World, e: Event)
    requires TablesHold(w) && Next(env, w, e).Some?
    ensures TablesHold(Next(env, w, e).value)
  {
    match e
    case Open(c, allow, k) => OpenKeepsTables(env, w, c, allow, k);
    case ReindexStops(k) => ReindexKeepsTables(env, w, k);
    case Upload(title, content, force) => UploadKeepsTables(env, w, title, content, force);
    case Delete(id) => DeleteKeepsTables(env, w, id);
    case Crash =>
  }

  lemma {:induction false} TablesHoldThroughout(env: Env, w: World, events: seq<Event>)
    requires TablesHold(w) && Run(env, w, events).Some?
    ensures TablesHold(Run(env, w, events).value)
    decreases |events|
  {
    if events == [] {
    } else {
      StepKeepsTables(env, w, events[0]);
      TablesHoldThroughout(env, Next(env, w, events[0]).value, events[1..]);
    }
  }

  /** In every history whatever from an empty data directory, with any handle used in
      any way: each document's chunks are numbered from 0 without a gap, every chunk
      has its document and every mention its chunk, every vector has the length of the
      field, and no two documents have the same hash. */
  lemma {:induction false} TablesAlwaysHold(env: Env, events: seq<Event>)
    requires Run(env, FRESH, events).Some?
    ensures WellFormed(Run(env, FRESH, events).value.store)
  {
    TablesHoldThroughout(env, FRESH, events);
  }
}

/** Recovery over whole histories, and the exact limits of crash safety. */
module RecoveryRuns {
  import opened Options
  import opened Tables
  import opened KnowledgeStore
  import opened Commits
  import opened Reindex
  import opened Recovery
  import opened Runs
  import Opening

  // ----- discipline that callers get for free -----

  /** Once the initial metadata is committed, every reindex repairs the field. */
  lemma FieldFixedOnceInitialised(s: Store, c: Config)
    requires Coherent(s) && s.created && s.metas.model.Some?
    ensures FieldFixed(s, c)
  {
  }

  /** A handle from a normal open can be used without any condition. */
  lemma NormalHandleIsDisciplined(env: Env, w: World, e: Event)
    requires Invariant(w) && w.handle.Some? && w.handle.value.normal
    ensures Disciplined(env, w, e)
  {
    var c := w.handle.value.config;
    forall k | 0 <= k < |w.store.docs|
      ensures DocumentCarries(w.store, w.store.docs[k].id, c)
    {
      AllCarryByDocument(w.store, c);
    }
  }

  // ----- interrupted histories -----

  /** Only opens, crashes and reindexes that stop before their last commit. */
  predicate Interruptions(env: Env, w: World, events: seq<Event>)
    decreases |events|
  {
    events == [] ||
    (&& (match events[0]
         case Open(_, _, _) => true
         case Crash => true
         case ReindexStops(k) => w.handle.Some? && k < |ReindexPlan(env, w.store, w.handle.value.config)|
         case _ => false)
     && match Next(env, w, events[0])
        case None => true
        case Some(v) => Interruptions(env, v, events[1..]))
  }

  lemma {:induction false} ExecKeepsModel(env: Env, s: Store, plan: seq<Commit>)
    requires s.created && s.metas.model.Some? && Exec(env, s, plan).Some?
    ensures Exec(env, s, plan).value.created && Exec(env, s, plan).value.metas.model.Some?
    decreases |plan|
  {
    if plan == [] {
    } else {
      ExecKeepsModel(env, Apply(env, s, plan[0]).value, plan[1..]);
    }
  }

  /** An interruption loses no document and never weakens a "dim" marker. */
  lemma InterruptionStep(env: Env, w: World, e: Event)
    requires Invariant(w) && w.store.created && w.store.metas.model.Some?
    requires Interruptions(env, w, [e]) && Next(env, w, e).Some?
    ensures var v := Next(env, w, e).value;
            && Invariant(v) && v.store.created && v.store.metas.model.Some? && v.store.docs == w.store.docs
            && (w.store.metas.marker == Some(Dim) ==> v.store.metas.marker == Some(Dim))
  {
    match e
    case Open(c, allow, k) =>
      OpenStep(env, w, c, allow, k);
      Opening.OpenKeeps(env, w.store, c, allow, k);
    case Crash =>
    case ReindexStops(k) =>
      var c := w.handle.value.config;
      var plan := ReindexPlan(env, w.store, c);
      FieldFixedOnceInitialised(w.store, c);
      if k == 0 {
        assert plan[..0] == [];
      } else {
        InterruptedRun(env, w.store, c, k);
        ExecKeepsModel(env, w.store, plan[..k]);
        if w.handle.value.normal {
          NormalHandleIsDisciplined(env, w, e);
          ReindexStep(env, w, k);
        }
      }
  }

  lemma {:induction false} InterruptedHistory(env: Env, w: World, events: seq<Event>)
    requires Invariant(w) && w.store.created && w.store.metas.model.Some?
    requires Interruptions(env, w, events) && Run(env, w, events).Some?
    ensures var v := Run(env, w, events).value;
            && Invariant(v) && v.store.created && v.store.metas.model.Some? && v.store.docs == w.store.docs
            && (w.store.metas.marker == Some(Dim) ==> v.store.metas.marker == Some(Dim))
    decreases |events|
  {
    if events == [] {
    } else {
      assert [events[0]][1..] == [];
      InterruptionStep(env, w, events[0]);
      InterruptedHistory(env, Next(env, w, events[0]).value, events[1..]);
    }
  }

  /** A live handle for a reindex under `c` can be had from an idle process. */
  ghost predicate OpensForReindex(env: Env, s: Store, c: Config) {
    var n := |Opening.Plan(s, c, true).commits|;
    Next(env, World(s, None), Open(c, true, n)).Some? &&
        Next(env, World(s, None), Open(c, true, n)).value.handle == Some(Handle(c, false))
  }

  /** The management path opens exactly when the index is there or every stored
      vector has the dimension it would be built with: a dimension change that was
      interrupted while rebuilding must be resumed under its own dimension. */
  lemma ManagementPathOpensIff(env: Env, s: Store, c: Config)
    requires WellFormed(s) && Coherent(s)
    ensures OpensForReindex(env, s, c) <==> s.indexDim.Some? || Indexable(s, c.dimension)
    ensures s.created && s.metas.marker != Some(Dim) ==> OpensForReindex(env, s, c)
    ensures c.dimension == s.fieldDim ==> OpensForReindex(env, s, c)
  {
    var plan := Opening.Plan(s, c, true);
    Opening.NoDuplicates(s);
    Opening.OpenKeeps(env, s, c, true, |plan.commits|);
    assert plan.commits[..|plan.commits|] == plan.commits;
  }

  /** Recovery converges.  However many reindexes, under whatever configurations,
      were interrupted, a completed reindex is possible exactly when it was before.  It
      ends in the store that a single uninterrupted reindex would have left exactly
      when the documents it skips kept their rows, and in a store that serves the
      configuration, and opens, exactly when these rows are not stale. */
  lemma {:induction false} RecoveryConvergesIff(env: Env, w: World, events: seq<Event>, c: Config)
    requires Invariant(w) && w.store.created && w.store.metas.model.Some?
    requires Interruptions(env, w, events) && Run(env, w, events).Some?
    ensures var s := Run(env, w, events).value.store;
            Exec(env, w.store, ReindexPlan(env, w.store, c)).Some? <==> Exec(env, s, ReindexPlan(env, s, c)).Some?
    ensures var s := Run(env, w, events).value.store;
            Exec(env, s, ReindexPlan(env, s, c)).Some? ==>
              var t := Exec(env, s, ReindexPlan(env, s, c)).value;
              && (SameUpToIds(Exec(env, w.store, ReindexPlan(env, w.store, c)).value, t)
                  <==> SkippedAgree(env, w.store, s, c))
              && (Serves(t, c) <==> NoStaleSkip(env, s, c))
              && (Serves(t, c) ==> Opening.Plan(t, c, false).verdict.Opened?)
  {
    InterruptedHistory(env, w, events);
    var s := Run(env, w, events).value.store;
    FieldFixedOnceInitialised(w.store, c);
    FieldFixedOnceInitialised(s, c);
    CompletedRunsAgreeIff(env, w.store, s, c);
    if Exec(env, s, ReindexPlan(env, s, c)).Some? {
      CompletedRunServesIff(env, s, c);
      CompletedRun(env, s, c, 0);
      if Serves(Exec(env, s, ReindexPlan(env, s, c)).value, c) {
        Opening.ServingStoreOpens(Exec(env, s, ReindexPlan(env, s, c)).value, c);
      }
    }
  }

  /** In particular it converges when no document is skipped, and when the dimension
      has to change anyway. */
  lemma {:induction false} RecoveryConverges(env: Env, w: World, events: seq<Event>, c: Config)
    requires Invariant(w) && w.store.created && w.store.metas.model.Some?
    requires Interruptions(env, w, events) && Run(env, w, events).Some?
    requires NothingSkipped(env, c, w.store.docs) || DimensionChanged(w.store, c)
    requires Exec(env, w.store, ReindexPlan(env, w.store, c)).Some?
    ensures var s := Run(env, w, events).value.store;
            && Exec(env, s, ReindexPlan(env, s, c)).Some?
            && SameUpToIds(Exec(env, w.store, ReindexPlan(env, w.store, c)).value,
                           Exec(env, s, ReindexPlan(env, s, c)).value)
            && Serves(Exec(env, s, ReindexPlan(env, s, c)).value, c)
            && Opening.Plan(Exec(env, s, ReindexPlan(env, s, c)).value, c, false).verdict.Opened?
  {
    InterruptedHistory(env, w, events);
    RecoveryConvergesIff(env, w, events, c);
    if DimensionChanged(w.store, c) {
      DimensionStaysChanged(env, w, events, c);
    }
  }

  // ----- what interruptions cannot undo -----

  /** A dimension that has to change still has to after any interruption. */
  lemma ChangeStays(env: Env, w: World, e: Event, c: Config)
    requires Invariant(w) && w.store.created && w.store.metas.model.Some?
    requires Interruptions(env, w, [e]) && Next(env, w, e).Some? && DimensionChanged(w.store, c)
    ensures DimensionChanged(Next(env, w, e).value.store, c)
  {
    InterruptionStep(env, w, e);
    match e
    case Open(d, allow, k) => Opening.OpenKeeps(env, w.store, d, allow, k);
    case Crash =>
    case ReindexStops(k) =>
      var d := w.handle.value.config;
      if k == 0 {
        assert ReindexPlan(env, w.store, d)[..0] == [];
      } else {
        FieldFixedOnceInitialised(w.store, d);
        InterruptedRun(env, w.store, d, k);
      }
  }

  lemma {:induction false} DimensionStaysChanged(env: Env, w: World, events: seq<Event>, c: Config)
    requires Invariant(w) && w.store.created && w.store.metas.model.Some?
    requires Interruptions(env, w, events) && Run(env, w, events).Some? && DimensionChanged(w.store, c)
    ensures DimensionChanged(Run(env, w, events).value.store, c)
    decreases |events|
  {
    if events == [] {
    } else {
      assert [events[0]][1..] == [];
      InterruptionStep(env, w, events[0]);
      ChangeStays(env, w, events[0], c);
      DimensionStaysChanged(env, Next(env, w, events[0]).value, events[1..], c);
    }
  }

  /** Every handle is opened under `c`. */
  predicate Only(w: World, events: seq<Event>, c: Config) {
    && (w.handle.Some? ==> w.handle.value.config == c)
    && forall i :: 0 <= i < |events| && events[i].Open? ==> events[i].config == c
  }

  /** All documents with this id are skipped under `c`. */
  predicate SkipsDocument(env: Env, docs: seq<Document>, c: Config, d: nat) {
    forall i :: 0 <= i < |docs| && docs[i].id == d ==> Skipped(env, c, docs[i])
  }

  lemma RetryKeepsRows(env: Env, w: World, k: nat, d: nat)
    requires Invariant(w) && w.store.created && w.store.metas.model.Some? && w.handle.Some?
    requires Interruptions(env, w, [ReindexStops(k)]) && Next(env, w, ReindexStops(k)).Some?
    requires SkipsDocument(env, w.store.docs, w.handle.value.config, d)
    ensures var c := w.handle.value.config;
            KeptRows(Next(env, w, ReindexStops(k)).value.store, c, d) == KeptRows(w.store, c, d)
  {
    var c := w.handle.value.config;
    if DimensionChanged(w.store, c) {
      ChangeStays(env, w, ReindexStops(k), c);
    } else if k == 0 {
      assert ReindexPlan(env, w.store, c)[..0] == [];
    } else {
      FieldFixedOnceInitialised(w.store, c);
      InterruptedRun(env, w.store, c, k);
      SkippedUntouched(env, w.store, c, k, d);
    }
  }

  lemma InterruptionKeepsRows(env: Env, w: World, e: Event, c: Config, d: nat)
    requires Invariant(w) && w.store.created && w.store.metas.model.Some?
    requires Interruptions(env, w, [e]) && Next(env, w, e).Some? && Only(w, [e], c)
    requires SkipsDocument(env, w.store.docs, c, d)
    ensures var v := Next(env, w, e).value;
            KeptRows(v.store, c, d) == KeptRows(w.store, c, d) && (v.handle.Some? ==> v.handle.value.config == c)
  {
    match e
    case Open(c', allow, k) =>
      assert [e][0] == e;
      Opening.OpenKeeps(env, w.store, c', allow, k);
    case Crash =>
    case ReindexStops(k) => RetryKeepsRows(env, w, k, d);
  }

  lemma {:induction false} RetriesKeepRows(env: Env, w: World, events: seq<Event>, c: Config, d: nat)
    requires Invariant(w) && w.store.created && w.store.metas.model.Some?
    requires Interruptions(env, w, events) && Run(env, w, events).Some? && Only(w, events, c)
    requires SkipsDocument(env, w.store.docs, c, d)
    ensures KeptRows(Run(env, w, events).value.store, c, d) == KeptRows(w.store, c, d)
    decreases |events|
  {
    if events == [] {
    } else {
      assert [events[0]][1..] == [];
      InterruptionStep(env, w, events[0]);
      InterruptionKeepsRows(env, w, events[0], c, d);
      RetriesKeepRows(env, Next(env, w, events[0]).value, events[1..], c, d);
    }
  }

  /** Trying again under one configuration, however often it was interrupted, ends
      where a single uninterrupted run would have, whatever documents it skips. */
  lemma {:induction false} RetryingConverges(env: Env, w: World, events: seq<Event>, c: Config)
    requires Invariant(w) && w.store.created && w.store.metas.model.Some?
    requires Interruptions(env, w, events) && Run(env, w, events).Some? && Only(w, events, c)
    requires Exec(env, w.store, ReindexPlan(env, w.store, c)).Some?
    ensures var s := Run(env, w, events).value.store;
            && Exec(env, s, ReindexPlan(env, s, c)).Some?
            && SameUpToIds(Exec(env, w.store, ReindexPlan(env, w.store, c)).value,
                           Exec(env, s, ReindexPlan(env, s, c)).value)
  {
    RecoveryConvergesIff(env, w, events, c);
    RetriesAgree(env, w, events, c);
  }

  lemma RetriesAgree(env: Env, w: World, events: seq<Event>, c: Config)
    requires Invariant(w) && w.store.created && w.store.metas.model.Some?
    requires Interruptions(env, w, events) && Run(env, w, events).Some? && Only(w, events, c)
    ensures SkippedAgree(env, w.store, Run(env, w, events).value.store, c)
  {
    InterruptedHistory(env, w, events);
    var s := Run(env, w, events).value.store;
    forall k | 0 <= k < |w.store.docs| && Skipped(env, c, w.store.docs[k])
      ensures KeptRows(w.store, c, w.store.docs[k].id) == KeptRows(s, c, w.store.docs[k].id)
    {
      RetriesKeepRows(env, w, events, c, w.store.docs[k].id);
    }
  }

  // ----- uploads -----

  /** After any upload of a content, uploading it again unforced changes nothing. */
  lemma UploadTwice(env: Env, s: Store, c: Config, title: string, content: string, force: bool, again: string)
    ensures var t := UploadTo(env, s, c, title, content, force);
            UploadTo(env, t, c, again, content, false) == t
  {
    UploadStoresSha(env, s, c, title, content, force);
  }

  lemma UploadStoresSha(env: Env, s: Store, c: Config, title: string, content: string, force: bool)
    ensures var t := UploadTo(env, s, c, title, content, force);
            t == s || ShaStored(t.docs, env.sha(content))
  {
    var sha := env.sha(content);
    var t := UploadTo(env, s, c, title, content, force);
    if t != s {
      match FindSha(s.docs, sha)
      case Some(i) => assert t.docs[i].sha == sha;
      case None => assert t.docs[|s.docs|].sha == sha;
    }
  }

  /** An upload that creates a document on an idle store keeps the metadata true
      of every chunk exactly when the handle's model and tokenizer are the
      recorded ones. */
  lemma UploadCoherentIff(env: Env, s: Store, c: Config, title: string, content: string)
    requires WellFormed(s) && Coherent(s) && s.created && s.metas.marker == None
    requires UploadTo(env, s, c, title, content, false) != s
    ensures Coherent(UploadTo(env, s, c, title, content, false)) <==>
            s.metas.model == Some(c.model) && s.metas.fingerprint == Some(c.fingerprint)
  {
    var t := UploadTo(env, s, c, title, content, false);
    var pieces := env.split(c, content).value;
    assert FindSha(s.docs, env.sha(content)) == None;
    assert t.chunks == s.chunks + NewRows(env, c, s.next, pieces, s.next + 1);
    assert t.chunks[|s.chunks|].model == c.model && t.chunks[|s.chunks|].fingerprint == c.fingerprint;
  }
}

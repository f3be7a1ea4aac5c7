/** The operations themselves, step by step, on a database whose every commit
    may be refused, conflict, or be the last one before the process dies.
    `log` records what was committed; each operation is proved to commit a
    prefix of its plan and to report success only after the whole of it. */
module Database {
  import opened Options
  import opened Tables
  import opened KnowledgeStore
  import opened Commits
  import opened Reindex
  import opened Recovery
  import opened Report
  import Opening
  import Runs
  import Sections
  import opened Versions

  /** How the database answers one commit. */
  datatype Fate = Committed | Conflict | Failed

  datatype Error = ModelMismatch | Duplicates | DbError | TokenizeError | EmbedError | DocumentNotFound

  datatype Result<+T> = Ok(value: T) | Err(error: Error)

  datatype UploadStatus = SkippedUpload | EmptyUpload | Created | Updated

  const ATTEMPTS := 8

  lemma {:induction false} NewMentionsStep(env: Env, pieces: seq<Piece>, next: nat, i: nat)
    requires i < |pieces|
    ensures NewMentions(env, pieces[..i + 1], next)
         == NewMentions(env, pieces[..i], next) + Relate(next + i, EntityIds(env, pieces[i].content))
  {
    if i == 0 {
      assert pieces[..1][1..] == [] && pieces[..0] == [];
    } else {
      assert pieces[..i + 1][1..] == pieces[1..][..i] && pieces[..i][1..] == pieces[1..][..i - 1];
      NewMentionsStep(env, pieces[1..], next + 1, i - 1);
    }
  }

  /** Where `RebuildDocument(docs[i])` stands in the plan. */
  lemma {:induction false} RebuildsPosition(env: Env, c: Config, docs: seq<Document>, i: nat)
    requires i < |docs| && !Skipped(env, c, docs[i])
    ensures var done := Rebuilds(env, c, docs[..i]); var all := Rebuilds(env, c, docs);
            |done| < |all| && all[..|done|] == done && all[|done|] == RebuildDocument(c, docs[i])
    decreases i
  {
    if i == 0 {
      assert docs[..0] == [];
    } else {
      assert docs[..i][1..] == docs[1..][..i - 1];
      RebuildsPosition(env, c, docs[1..], i - 1);
    }
  }

  class Db {
    const env: Env
    const fate: nat -> Fate
    var store: Store
    var attempts: nat
    ghost const origin: Store
    ghost var log: seq<Commit>

    ghost predicate Valid()
      reads this
    {
      Exec(env, origin, log) == Some(store)
    }

    constructor (env: Env, fate: nat -> Fate, store: Store)
      ensures Valid() && this.env == env && this.fate == fate && this.store == store && log == [] && attempts == 0
    {
      this.env, this.fate, this.store, this.attempts := env, fate, store, 0;
      origin, log := store, [];
    }

    // ----- transactions -----

    /** Commit a prepared transaction: `next` is `None` if a statement failed. */
    method CommitPrepared(next: Option<Store>, ghost a: Commit) returns (answer: Fate)
      requires Valid() && next == Apply(env, store, a)
      modifies this
      ensures Valid() && attempts == old(attempts) + 1
      ensures answer == if next.None? then Failed else fate(old(attempts))
      ensures answer == Committed ==> log == old(log) + [a] && Some(store) == next
      ensures answer != Committed ==> log == old(log) && store == old(store)
    {
      answer := if next.None? then Failed else fate(attempts);
      attempts := attempts + 1;
      if answer == Committed {
        ExecSnoc(env, origin, log, a);
        store, log := next.value, log + [a];
      }
    }

    method Commit(a: Commit) returns (ok: bool)
      requires Valid()
      modifies this
      ensures Valid() && attempts == old(attempts) + 1
      ensures ok <==> Apply(env, old(store), a).Some? && fate(old(attempts)) == Committed
      ensures ok ==> log == old(log) + [a] && Some(store) == Apply(env, old(store), a)
      ensures !ok ==> log == old(log) && store == old(store)
    {
      var answer := CommitPrepared(Apply(env, store, a), a);
      ok := answer == Committed;
    }

    // ----- indexing one document inside a transaction -----

    /** Create the chunk rows, then the mentions of each chunk.  `t` is the
        transaction's own view of the store. */
    method InsertRows(t: Store, c: Config, d: nat, pieces: seq<Piece>) returns (r: Option<Store>, names: set<string>)
      ensures r == if VectorsFit(env, t, c, pieces) && EntitiesNamed(env, pieces)
                   then Some(FillDocument(env, t, c, d, pieces)) else None
      ensures r.Some? ==> names == Names(env, pieces)
    {
      var created, ids := InsertChunks(t, c, d, pieces);
      if created.None? {
        return None, {};
      }
      r, names := InsertMentions(created.value, pieces, t.next, ids);
    }

    /** Rows and mentions, then the links between the document's sections.  Whether
        these can be made does not depend on the links there are. */
    method InsertDocument(t: Store, c: Config, d: nat, content: string, pieces: seq<Piece>)
        returns (r: Option<Store>, names: set<string>)
      ensures r == if Indexes(env, t, c, content, pieces) then Some(FillDocument(env, t, c, d, pieces)) else None
      ensures r.Some? ==> names == Names(env, pieces)
    {
      r, names := InsertRows(t, c, d, pieces);
      if r.None? {
        return;
      }
      var sections := Sections.ExtractSections(content);
      var linked := Sections.LinkSections(sections, []);
      if linked.None? {
        return None, {};
      }
    }

    method InsertChunks(t: Store, c: Config, d: nat, pieces: seq<Piece>) returns (r: Option<Store>, ids: seq<nat>)
      ensures r.Some? <==> VectorsFit(env, t, c, pieces)
      ensures r.Some? ==>
                r.value == t.(chunks := t.chunks + NewRows(env, c, d, pieces, t.next), next := t.next + |pieces|)
      ensures r.Some? ==> |ids| == |pieces| && forall k :: 0 <= k < |ids| ==> ids[k] == t.next + k
    {
      var u := t;
      ids := [];
      for i := 0 to |pieces|
        invariant |ids| == i && forall k :: 0 <= k < i ==> ids[k] == t.next + k
        invariant VectorsFit(env, t, c, pieces[..i])
        invariant u == t.(chunks := t.chunks + NewRows(env, c, d, pieces[..i], t.next), next := t.next + i)
      {
        var vector := env.embed(c, pieces[i].content);
        if vector != Some(t.fieldDim) {
          return None, [];
        }
        var row := ChunkRow(u.next, d, i, pieces[i], vector.value, c.model, c.fingerprint);
        assert NewRows(env, c, d, pieces[..i + 1], t.next) == NewRows(env, c, d, pieces[..i], t.next) + [row];
        ids := ids + [u.next];
        u := u.(chunks := u.chunks + [row], next := u.next + 1);
      }
      assert pieces[..|pieces|] == pieces;
      r := Some(u);
    }

    lemma MentionsOfPiece(pieces: seq<Piece>, next: nat, i: nat)
      requires i < |pieces|
      ensures var names := env.entities(pieces[i].content);
              && (EntitiesNamed(env, pieces[..i + 1]) <==> EntitiesNamed(env, pieces[..i]) && Nameable(names))
              && (EntitiesNamed(env, pieces) ==> EntitiesNamed(env, pieces[..i + 1]))
              && (forall before :: before + NewMentions(env, pieces[..i + 1], next) ==
                                   (before + NewMentions(env, pieces[..i], next)) + Relate(next + i, Ids(names)))
              && Names(env, pieces[..i + 1]) == Names(env, pieces[..i]) + (set k | 0 <= k < |names| :: names[k])
    {
      EntitiesNamedUpTo(env, pieces, i);
      NewMentionsStep(env, pieces, next, i);
      NamesStep(env, pieces, i);
    }

    /** The entities of each chunk; fails on the first name without a record id. */
    method InsertMentions(t: Store, pieces: seq<Piece>, ghost next: nat, ids: seq<nat>)
        returns (r: Option<Store>, names: set<string>)
      requires |ids| == |pieces| && forall k :: 0 <= k < |ids| ==> ids[k] == next + k
      ensures r == if EntitiesNamed(env, pieces) then Some(t.(mentions := t.mentions + NewMentions(env, pieces, next)))
                   else None
      ensures r.Some? ==> names == Names(env, pieces)
    {
      var u := t;
      names := {};
      for i := 0 to |pieces|
        invariant EntitiesNamed(env, pieces[..i])
        invariant u == t.(mentions := t.mentions + NewMentions(env, pieces[..i], next))
        invariant names == Names(env, pieces[..i])
      {
        MentionsOfPiece(pieces, next, i);
        var entities := env.entities(pieces[i].content);
        var related := RelateAll(u, ids[i], entities);
        if related.None? {
          return None, {};
        }
        u := related.value;
        names := names + set k | 0 <= k < |entities| :: entities[k];
      }
      assert pieces[..|pieces|] == pieces;
      r := Some(u);
    }

    /** The entities of one chunk. */
    method RelateAll(t: Store, chunk: nat, entities: seq<string>) returns (r: Option<Store>)
      ensures r == if Nameable(entities) then Some(t.(mentions := t.mentions + Relate(chunk, Ids(entities)))) else None
    {
      var u := t;
      for j := 0 to |entities|
        invariant Nameable(entities[..j])
        invariant u == t.(mentions := t.mentions + Relate(chunk, Ids(entities[..j])))
      {
        NamedUpTo(entities, j);
        var id := Sections.RecordId(entities[j]);
        if id.None? {
          return None;
        }
        u := u.(mentions := u.mentions + [Mention(chunk, id.value)]);
      }
      assert entities[..|entities|] == entities;
      r := Some(u);
    }

    /** `rebuild_document`: delete mentions, delete chunks, insert anew, link the sections. */
    method RebuildInTransaction(c: Config, doc: Document, pieces: seq<Piece>)
        returns (r: Option<Store>, names: set<string>)
      requires env.split(c, doc.content) == Some(pieces)
      ensures r == Apply(env, store, RebuildDocument(c, doc))
      ensures r.Some? ==> names == Names(env, pieces)
    {
      var t := store.(mentions := MentionsWithout(store.mentions, store.chunks, doc.id));
      t := t.(chunks := RowsWithout(t.chunks, doc.id));
      r, names := InsertDocument(t, c, doc.id, doc.content, pieces);
    }

    /** One attempt: begin, rebuild and commit. */
    method AttemptRebuild(c: Config, doc: Document, pieces: seq<Piece>) returns (answer: Fate, names: set<string>)
      requires Valid() && env.split(c, doc.content) == Some(pieces)
      modifies this
      ensures Valid() && attempts == old(attempts) + 1
      ensures answer == Failed ==> RebuildFails(c, doc)
      ensures answer == Conflict ==> fate(old(attempts)) == Conflict
      ensures answer == Committed ==> log == old(log) + [RebuildDocument(c, doc)] && names == Names(env, pieces)
      ensures answer != Committed ==> log == old(log) && store == old(store)
    {
      var built;
      built, names := RebuildInTransaction(c, doc, pieces);
      answer := CommitPrepared(built, RebuildDocument(c, doc));
    }

    /** The database answered these attempts with a write conflict. */
    ghost predicate Conflicts(first: nat, next: nat) {
      forall n :: first <= n < next ==> fate(n) == Conflict
    }

    /** The rebuild of this document cannot be prepared, or its commit failed. */
    ghost predicate RebuildFails(c: Config, doc: Document)
      reads this
    {
      Apply(env, store, RebuildDocument(c, doc)).None? || (attempts > 0 && fate(attempts - 1) == Failed)
    }

    /** Begin, rebuild and commit, again from the start on a write conflict. */
    method RebuildDocumentRetrying(c: Config, doc: Document, pieces: seq<Piece>) returns (r: Result<set<string>>)
      requires Valid() && env.split(c, doc.content) == Some(pieces)
      modifies this
      ensures Valid() && old(attempts) < attempts <= old(attempts) + 8
      ensures r.Ok? ==> r.value == Names(env, pieces) && log == old(log) + [RebuildDocument(c, doc)]
      ensures r.Err? ==> log == old(log) && store == old(store)
      ensures r.Err? ==> RebuildFails(c, doc) || Conflicts(old(attempts), old(attempts) + 8)
    {
      for attempt := 0 to ATTEMPTS
        invariant Valid() && attempts == old(attempts) + attempt && log == old(log) && store == old(store)
        invariant Conflicts(old(attempts), attempts)
      {
        var answer, names := AttemptRebuild(c, doc, pieces);
        if answer == Committed {
          return Ok(names);
        }
        if answer == Failed {
          return Err(DbError);
        }
      }
      return Err(DbError);
    }

    // ----- reindex -----

    /** Why a run stopped before the commit `a`. */
    ghost predicate StoppedBefore(a: Commit)
      reads this
    {
      Apply(env, store, a).None? || (attempts > 0 && fate(attempts - 1) != Committed)
    }

    /** Since `before`, a proper prefix of `plan` was committed and then it stopped. */
    ghost predicate StoppedIn(before: seq<Commit>, plan: seq<Commit>)
      reads this
    {
      exists k :: 0 <= k < |plan| && log == before + plan[..k] && StoppedBefore(plan[k])
    }

    lemma StoppedInPrefix(before: seq<Commit>, p: seq<Commit>, q: seq<Commit>)
      requires StoppedIn(before, p)
      ensures StoppedIn(before, p + q)
    {
      var k :| 0 <= k < |p| && log == before + p[..k] && StoppedBefore(p[k]);
      assert (p + q)[k] == p[k] && (p + q)[..k] == p[..k];
    }

    lemma StoppedInSuffix(before: seq<Commit>, p: seq<Commit>, q: seq<Commit>)
      requires StoppedIn(before + p, q)
      ensures StoppedIn(before, p + q)
    {
      var k :| 0 <= k < |q| && log == before + p + q[..k] && StoppedBefore(q[k]);
      assert (p + q)[|p| + k] == q[k] && (p + q)[..|p| + k] == p + q[..k];
      assert log == before + (p + q)[..|p| + k];
    }

    lemma StoppedAtDocument(before: seq<Commit>, c: Config, docs: seq<Document>, i: nat)
      requires i < |docs| && !Skipped(env, c, docs[i])
      requires log == before + Rebuilds(env, c, docs[..i]) && StoppedBefore(RebuildDocument(c, docs[i]))
      ensures StoppedIn(before, Rebuilds(env, c, docs))
    {
      RebuildsPosition(env, c, docs, i);
      var k := |Rebuilds(env, c, docs[..i])|;
      assert log == before + Rebuilds(env, c, docs)[..k];
    }

    lemma RebuiltDocument(c: Config, docs: seq<Document>, i: nat, pieces: seq<Piece>)
      requires i < |docs| && !Skipped(env, c, docs[i]) && env.split(c, docs[i].content) == Some(pieces)
      ensures Rebuilds(env, c, docs[..i + 1]) == Rebuilds(env, c, docs[..i]) + [RebuildDocument(c, docs[i])]
      ensures var t := TallyOf(env, c, docs[..i]);
              TallyOf(env, c, docs[..i + 1]) ==
                  Tally(t.documents + 1, t.chunks + |pieces|, t.tokens + Tokens(pieces), t.names + Names(env, pieces))
    {
      TallyStep(env, c, docs, i);
      RebuildsStep(env, c, docs, i);
    }

    lemma SkippedDocument(c: Config, docs: seq<Document>, i: nat)
      requires i < |docs| && Skipped(env, c, docs[i])
      ensures Rebuilds(env, c, docs[..i + 1]) == Rebuilds(env, c, docs[..i])
      ensures TallyOf(env, c, docs[..i + 1]) == TallyOf(env, c, docs[..i])
    {
      TallyStep(env, c, docs, i);
      RebuildsStep(env, c, docs, i);
    }

    /** All texts are embedded before the transaction begins. */
    predicate Embeds(c: Config, pieces: seq<Piece>) {
      forall i :: 0 <= i < |pieces| ==> env.embed(c, pieces[i].content).Some?
    }

    /** One document of the loop: skipped, rebuilt, or the end of the run. */
    method RebuildNext(c: Config, doc: Document) returns (r: Result<Option<(seq<Piece>, set<string>)>>)
      requires Valid()
      modifies this
      ensures Valid()
      ensures doc.content == "" || env.split(c, doc.content) == Some([]) ==> r == Ok(None) && log == old(log)
      ensures r.Ok? && r.value.None? ==> doc.content == "" || env.split(c, doc.content) == Some([])
      ensures r.Ok? && r.value.Some? ==>
                && log == old(log) + [RebuildDocument(c, doc)]
                && env.split(c, doc.content) == Some(r.value.value.0)
                && r.value.value.1 == Names(env, r.value.value.0)
      ensures r.Err? ==> log == old(log) && StoppedBefore(RebuildDocument(c, doc))
    {
      if doc.content == "" {
        return Ok(None);
      }
      var split := env.split(c, doc.content);
      if split.None? {
        return Err(TokenizeError);
      }
      var pieces := split.value;
      if |pieces| == 0 {
        return Ok(None);
      }
      if !Embeds(c, pieces) {
        return Err(EmbedError);
      }
      var rebuilt := RebuildDocumentRetrying(c, doc, pieces);
      if rebuilt.Err? {
        return Err(rebuilt.error);
      }
      return Ok(Some((pieces, rebuilt.value)));
    }

    method RebuildAll(c: Config, docs: seq<Document>) returns (r: Result<Report>)
      requires Valid()
      modifies this
      ensures Valid()
      ensures r.Ok? ==> log == old(log) + Rebuilds(env, c, docs) && r.value == ReportOf(env, c, docs)
      ensures r.Err? ==> StoppedIn(old(log), Rebuilds(env, c, docs))
    {
      var documents: nat, chunks: nat, tokens: nat := 0, 0, 0;
      var names: set<string> := {};
      assert docs[..0] == [];
      for i := 0 to |docs|
        invariant Valid() && log == old(log) + Rebuilds(env, c, docs[..i])
        invariant TallyOf(env, c, docs[..i]) == Tally(documents, chunks, tokens, names)
      {
        var next := RebuildNext(c, docs[i]);
        if next.Err? {
          StoppedAtDocument(old(log), c, docs, i);
          return Err(next.error);
        }
        if next.value.None? {
          SkippedDocument(c, docs, i);
        } else {
          var (pieces, found) := next.value.value;
          RebuiltDocument(c, docs, i, pieces);
          names := names + found;
          documents, chunks, tokens := documents + 1, chunks + |pieces|, tokens + Tokens(pieces);
        }
      }
      assert docs[..|docs|] == docs;
      return Ok(Report(documents, chunks, tokens, |names|));
    }

    /** Entity names extracted from the pieces, without writing them. */
    method NamesIn(pieces: seq<Piece>) returns (names: set<string>)
      ensures names == Names(env, pieces)
    {
      names := {};
      for j := 0 to |pieces|
        invariant names == Names(env, pieces[..j])
      {
        var entities := env.entities(pieces[j].content);
        names := names + (set k | 0 <= k < |entities| :: entities[k]);
        NamesStep(env, pieces, j);
      }
      assert pieces[..|pieces|] == pieces;
    }

    /** What a reindex would report, without a single write; it fails exactly when the
        tokenizer refuses a document that has content. */
    method DryRun(c: Config) returns (r: Result<Report>)
      ensures r.Ok? <==> forall k :: 0 <= k < |store.docs| && store.docs[k].content != "" ==>
                            env.split(c, store.docs[k].content).Some?
      ensures r.Ok? ==> r.value == ReportOf(env, c, store.docs)
    {
      var docs := store.docs;
      var documents: nat, chunks: nat, tokens: nat := 0, 0, 0;
      var names: set<string> := {};
      assert docs[..0] == [];
      for i := 0 to |docs|
        invariant TallyOf(env, c, docs[..i]) == Tally(documents, chunks, tokens, names)
        invariant forall k :: 0 <= k < i && docs[k].content != "" ==> env.split(c, docs[k].content).Some?
      {
        TallyStep(env, c, docs, i);
        if docs[i].content == "" {
          continue;
        }
        var split := env.split(c, docs[i].content);
        if split.None? {
          return Err(TokenizeError);
        }
        var pieces := split.value;
        if |pieces| == 0 {
          continue;
        }
        var found := NamesIn(pieces);
        names := names + found;
        documents, chunks, tokens := documents + 1, chunks + |pieces|, tokens + Tokens(pieces);
      }
      assert docs[..|docs|] == docs;
      return Ok(Report(documents, chunks, tokens, |names|));
    }

    /** Set the marker and, if the dimension changed, redefine the field. */
    method Begin(c: Config, changed: bool) returns (ok: bool)
      requires Valid()
      modifies this
      ensures Valid()
      ensures ok ==> log == old(log) + Prologue(changed, c) && store == Prepared(old(store), changed, c)
      ensures !ok ==> StoppedIn(old(log), Prologue(changed, c))
    {
      ghost var plan := Prologue(changed, c);
      ok := Commit(SetMarker(if changed then Dim else Meta));
      if !ok {
        assert log == old(log) + plan[..0];
        return;
      }
      assert log == old(log) + plan[..1];
      if changed {
        ok := Commit(Transition(c.dimension));
        if !ok {
          return;
        }
        assert log == old(log) + plan[..2];
        ok := Commit(SetDimension(c.dimension));
        if !ok {
          return;
        }
        assert log == old(log) + plan[..3];
        ok := Commit(SetModel(c.model));
        if !ok {
          return;
        }
      }
      assert plan[..|plan|] == plan;
      assert log == old(log) + plan;
    }

    /** Define the index if it was removed, refresh the metadata, clear the marker. */
    method Finish(c: Config, changed: bool) returns (ok: bool)
      requires Valid()
      modifies this
      ensures Valid()
      ensures ok ==> log == old(log) + (Refresh(changed, c) + [ClearMarker])
      ensures !ok ==> StoppedIn(old(log), Refresh(changed, c) + [ClearMarker])
    {
      ghost var plan := Refresh(changed, c) + [ClearMarker];
      ghost var k := 0;
      assert log == old(log) + plan[..0];
      if changed {
        ok := Commit(DefineIndex(c.dimension));
        if !ok {
          return;
        }
        k := 1;
        assert log == old(log) + plan[..1];
      }
      ok := Commit(UpdateMetas(c));
      if !ok {
        return;
      }
      assert log == old(log) + plan[..k + 1];
      ok := Commit(ClearMarker);
      assert plan[k + 1] == ClearMarker;
      assert plan == plan[..k + 1] + [ClearMarker];
    }

    /** `reindex`: mark, redefine the field if needed, rebuild every document,
        refresh index and metadata, unmark.  It succeeds only after its whole plan;
        it stops early only because the database refuses or fails a commit. */
    method Reindex(c: Config) returns (r: Result<Report>)
      requires Valid()
      modifies this
      ensures Valid()
      ensures r.Ok? ==>
                log == old(log) + ReindexPlan(env, old(store), c) &&
                r.value == ReportOf(env, c, old(store.docs))
      ensures r.Ok? ==> Exec(env, old(store), ReindexPlan(env, old(store), c)) == Some(store)
      ensures r.Err? ==> StoppedIn(old(log), ReindexPlan(env, old(store), c))
      ensures WellFormed(old(store)) && Coherent(old(store)) && old(store.created)
              && FieldFixed(old(store), c) && (r.Ok? ==> NoStaleSkip(env, old(store), c)) ==>
                WellFormed(store) && Coherent(store)
    {
      var result := ReindexSteps(c);
      ghost var before, plan := old(store), ReindexPlan(env, old(store), c);
      ExecConcat(env, origin, old(log), plan);
      assert plan[..|plan|] == plan;
      ghost var k := |plan|;
      if result.Err? {
        k :| 0 <= k < |plan| && log == old(log) + plan[..k] && StoppedBefore(plan[k]);
        ExecConcat(env, origin, old(log), plan[..k]);
      }
      if WellFormed(before) && Coherent(before) && before.created && FieldFixed(before, c) &&
          (result.Ok? ==> NoStaleSkip(env, before, c)) {
        Runs.AnyPrefixCoherent(env, before, c, k);
      }
      return result;
    }

    method ReindexSteps(c: Config) returns (r: Result<Report>)
      requires Valid()
      modifies this
      ensures Valid()
      ensures r.Ok? ==>
                log == old(log) + ReindexPlan(env, old(store), c) &&
                r.value == ReportOf(env, c, old(store.docs))
      ensures r.Err? ==> StoppedIn(old(log), ReindexPlan(env, old(store), c))
    {
      var changed := DimensionChanged(store, c);
      var docs := store.docs;
      PlanParts(env, store, c);
      var ok := Begin(c, changed);
      if !ok {
        StoppedInPrefix(old(log), Prologue(changed, c), AfterPrologue(changed, c, docs));
        return Err(DbError);
      }
      r := RebuildAndFinish(c, changed, docs);
      LogJoins(old(log), Prologue(changed, c), AfterPrologue(changed, c, docs));
      if r.Err? {
        StoppedInSuffix(old(log), Prologue(changed, c), AfterPrologue(changed, c, docs));
      }
    }

    static lemma LogJoins(before: seq<Commit>, p: seq<Commit>, q: seq<Commit>)
      ensures before + p + q == before + (p + q)
    {
    }

    ghost function AfterPrologue(changed: bool, c: Config, docs: seq<Document>): seq<Commit> {
      Rebuilds(env, c, docs) + (Refresh(changed, c) + [ClearMarker])
    }

    method RebuildAndFinish(c: Config, changed: bool, docs: seq<Document>) returns (r: Result<Report>)
      requires Valid()
      modifies this
      ensures Valid()
      ensures r.Ok? ==> log == old(log) + AfterPrologue(changed, c, docs) && r.value == ReportOf(env, c, docs)
      ensures r.Err? ==> StoppedIn(old(log), AfterPrologue(changed, c, docs))
    {
      r := RebuildAll(c, docs);
      if r.Err? {
        StoppedInPrefix(old(log), Rebuilds(env, c, docs), Refresh(changed, c) + [ClearMarker]);
        return;
      }
      var ok := Finish(c, changed);
      if !ok {
        StoppedInSuffix(old(log), Rebuilds(env, c, docs), Refresh(changed, c) + [ClearMarker]);
        return Err(DbError);
      }
    }

    // ----- opening -----

    /** Since `before`, all of `plan` was committed. */
    ghost predicate Finished(before: seq<Commit>, plan: Opening.OpenPlan)
      reads this
    {
      log == before + plan.commits && plan.verdict.Opened?
    }

    /** Opening ended early: a commit failed, or a check came out against it. */
    ghost predicate Refused(before: seq<Commit>, plan: Opening.OpenPlan)
      reads this
    {
      || StoppedIn(before, plan.commits)
      || (log == before + plan.commits && !plan.verdict.Opened?)
    }

    lemma RefusedThen(before: seq<Commit>, p: Opening.OpenPlan, q: Opening.OpenPlan)
      requires Refused(before, p) || (p.verdict.Opened? && Refused(before + p.commits, q))
      ensures Refused(before, p.Then(q))
    {
      if Refused(before, p) {
        if StoppedIn(before, p.commits) && p.verdict.Opened? {
          StoppedInPrefix(before, p.commits, q.commits);
        }
      } else if StoppedIn(before + p.commits, q.commits) {
        StoppedInSuffix(before, p.commits, q.commits);
      }
    }

    method CheckStored(c: Config) returns (r: Result<()>)
      requires Valid()
      modifies this
      ensures Valid()
      ensures r.Ok? ==> Finished(old(log), Opening.Gate(old(store), c))
      ensures r.Err? ==> Refused(old(log), Opening.Gate(old(store), c))
      ensures store == old(store).(metas := store.metas)
              && store.metas.fingerprint == old(store.metas.fingerprint)
              && store.metas.dupChecked == old(store.metas.dupChecked)
    {
      ghost var plan := Opening.Gate(store, c);
      if store.metas.marker.Some? {
        return Err(ModelMismatch);
      }
      if store.metas.model != Some(c.model) {
        return Err(ModelMismatch);
      }
      match store.metas.dimension {
        case Some(d) =>
          if d != c.dimension {
            return Err(ModelMismatch);
          }
        case None =>
          var ok := Commit(SetDimension(c.dimension));
          if !ok {
            assert log == old(log) + plan.commits[..0];
            return Err(DbError);
          }
      }
      ghost var k := |log| - |old(log)|;
      assert log == old(log) + plan.commits[..k];
      match store.metas.maxInput {
        case Some(n) =>
          if n != c.maxInput {
            return Err(ModelMismatch);
          }
        case None =>
          var ok := Commit(SetMaxInput(c.maxInput));
          if !ok {
            assert plan.commits[k] == SetMaxInput(c.maxInput);
            return Err(DbError);
          }
      }
      assert log == old(log) + plan.commits;
      return Ok(());
    }

    method Migrate(c: Config) returns (r: Result<()>)
      requires Valid()
      modifies this
      ensures Valid()
      ensures r.Ok? ==> Finished(old(log), Opening.Migrate(old(store), c))
      ensures r.Err? ==> Refused(old(log), Opening.Migrate(old(store), c))
      ensures store.metas.fingerprint == old(store.metas.fingerprint)
    {
      ghost var plan := Opening.Migrate(store, c);
      var ok := Commit(ApplySchema(c.dimension));
      if !ok {
        assert log == old(log) + plan.commits[..0];
        return Err(DbError);
      }
      assert log == old(log) + plan.commits[..1];
      if !store.metas.dupChecked {
        if Opening.HasDuplicates(store.chunks) {
          return Err(Duplicates);
        }
        ok := Commit(MarkDupChecked);
        if !ok {
          return Err(DbError);
        }
      }
      assert log == old(log) + plan.commits;
      return Ok(());
    }

    method SyncTokenizer(c: Config) returns (r: Result<()>)
      requires Valid()
      modifies this
      ensures Valid()
      ensures r.Ok? ==> Finished(old(log), Opening.SyncTokenizer(old(store), c))
      ensures r.Err? ==> Refused(old(log), Opening.SyncTokenizer(old(store), c))
    {
      ghost var plan := Opening.SyncTokenizer(store, c);
      if store.metas.fingerprint.Some? && store.metas.fingerprint != Some(c.fingerprint) {
        return Err(ModelMismatch);
      }
      var writes := [SetInfo(Tokenizer, c.tokenizer), SetInfo(TokenizerSource, c.source),
                     SetInfo(TokenizerAlgorithm, c.algorithm), SetInfo(TokenizerVersion, TOKENIZER_CRATE_VERSION),
                     SetInfo(FingerprintSchema, TOKENIZER_FINGERPRINT_SCHEMA), SetFingerprint(c.fingerprint)];
      for i := 0 to |writes|
        invariant Valid() && log == old(log) + writes[..i]
      {
        var ok := Commit(writes[i]);
        if !ok {
          return Err(DbError);
        }
      }
      assert writes[..|writes|] == plan.commits;
      return Ok(());
    }

    /** `open_inner`: gate, schema, initial metadata, tokenizer fingerprint.  A
        directory without tables holds no rows. */
    method Open(c: Config, allowMismatch: bool) returns (r: Result<()>)
      requires Valid() && (!store.created ==> store == EMPTY_STORE)
      modifies this
      ensures Valid()
      ensures r.Ok? ==> Finished(old(log), Opening.Plan(old(store), c, allowMismatch))
      ensures r.Err? ==> Refused(old(log), Opening.Plan(old(store), c, allowMismatch))
      ensures WellFormed(old(store)) && Coherent(old(store)) ==> WellFormed(store) && Coherent(store)
      ensures WellFormed(old(store)) && Coherent(old(store)) && r.Ok? && !allowMismatch ==> Serves(store, c)
    {
      r := OpenSteps(c, allowMismatch);
      ghost var before, plan := old(store), Opening.Plan(old(store), c, allowMismatch);
      ghost var k := |plan.commits|;
      if StoppedIn(old(log), plan.commits) {
        k :| 0 <= k < |plan.commits| && log == old(log) + plan.commits[..k] && StoppedBefore(plan.commits[k]);
      }
      assert plan.commits[..|plan.commits|] == plan.commits;
      assert log == old(log) + plan.commits[..k];
      ExecConcat(env, origin, old(log), plan.commits[..k]);
      if WellFormed(before) && Coherent(before) {
        Opening.OpenKeeps(env, before, c, allowMismatch, k);
        if r.Ok? && !allowMismatch {
          Opening.NormalOpenServes(env, before, c);
        }
      }
    }

    /** Checks and schema of an existing store. */
    method OpenExisting(c: Config, allowMismatch: bool) returns (r: Result<()>)
      requires Valid() && store.created
      modifies this
      ensures Valid() && store.metas.fingerprint == old(store.metas.fingerprint)
      ensures var gate := if allowMismatch then Opening.NOTHING else Opening.Gate(old(store), c);
              var plan := gate.Then(Opening.Migrate(old(store), c));
              (r.Ok? ==> Finished(old(log), plan)) && (r.Err? ==> Refused(old(log), plan))
    {
      ghost var gate := if allowMismatch then Opening.NOTHING else Opening.Gate(store, c);
      ghost var migrate := Opening.Migrate(store, c);
      assert old(log) + [] == old(log);
      if !allowMismatch {
        r := CheckStored(c);
        if r.Err? {
          RefusedThen(old(log), gate, migrate);
          return;
        }
      }
      r := Migrate(c);
      if r.Err? {
        RefusedThen(old(log), gate, migrate);
      }
    }

    /** Schema and initial metadata of a new store. */
    method OpenFresh(c: Config) returns (r: Result<()>)
      requires Valid() && store == EMPTY_STORE
      modifies this
      ensures Valid() && (r.Ok? ==> store.metas.fingerprint == None)
      ensures var plan := Opening.OpenPlan([ApplySchema(c.dimension), MarkDupChecked, InitMetas(c)], Opening.Opened);
              (r.Ok? ==> Finished(old(log), plan)) && (r.Err? ==> Refused(old(log), plan))
    {
      ghost var schema := Opening.Migrate(EMPTY_STORE, c);
      ghost var init := Opening.OpenPlan([InitMetas(c)], Opening.Opened);
      assert schema.Then(init) == Opening.OpenPlan([ApplySchema(c.dimension), MarkDupChecked, InitMetas(c)],
          Opening.Opened);
      r := Migrate(c);
      if r.Err? {
        RefusedThen(old(log), schema, init);
        return;
      }
      ghost var before := log;
      var ok := Commit(InitMetas(c));
      if !ok {
        assert log == before + init.commits[..0];
        RefusedThen(old(log), schema, init);
        return Err(DbError);
      }
    }

    method OpenSteps(c: Config, allowMismatch: bool) returns (r: Result<()>)
      requires Valid() && (!store.created ==> store == EMPTY_STORE)
      modifies this
      ensures Valid()
      ensures r.Ok? ==> Finished(old(log), Opening.Plan(old(store), c, allowMismatch))
      ensures r.Err? ==> Refused(old(log), Opening.Plan(old(store), c, allowMismatch))
    {
      ghost var sync := if allowMismatch then Opening.NOTHING else Opening.SyncTokenizer(store, c);
      ghost var done := OpeningBegins(store, c, allowMismatch);
      if store.created {
        r := OpenExisting(c, allowMismatch);
      } else {
        r := OpenFresh(c);
      }
      if r.Err? {
        RefusedThen(old(log), done, sync);
        return;
      }
      assert done.commits + [] == done.commits;
      if !allowMismatch {
        assert sync == Opening.SyncTokenizer(store, c);
        r := SyncTokenizer(c);
        if r.Err? {
          RefusedThen(old(log), done, sync);
        }
      }
    }

    /** The part of an opening before the tokenizer's metadata. */
    static ghost function OpeningBegins(s: Store, c: Config, allowMismatch: bool): (p: Opening.OpenPlan)
      ensures Opening.Plan(s, c, allowMismatch) ==
          p.Then(if allowMismatch then Opening.NOTHING else Opening.SyncTokenizer(s, c))
    {
      if !s.created then Opening.OpenPlan([ApplySchema(c.dimension), MarkDupChecked, InitMetas(c)], Opening.Opened)
      else (if allowMismatch then Opening.NOTHING else Opening.Gate(s, c)).Then(Opening.Migrate(s, c))
    }

    // ----- uploads and deletes -----

    /** `store_and_index`: create the document, or update the one with the same
        hash in place after dropping its mentions and chunks. */
    method StoreAndIndex(c: Config, title: string, content: string, pieces: seq<Piece>, replace: bool)
        returns (r: Option<Store>)
      requires env.split(c, content) == Some(pieces)
      ensures r == Apply(env, store, SaveDocument(c, title, content, replace))
    {
      var sha := env.sha(content);
      var t := store;
      var id: nat;
      var found := FindSha(t.docs, sha);
      if replace {
        if found.None? {
          return None;
        }
        id := t.docs[found.value].id;
        t := t.(docs := t.docs[found.value := t.docs[found.value].(title := title, content := content)]);
        t := t.(mentions := MentionsWithout(t.mentions, t.chunks, id));
        t := t.(chunks := RowsWithout(t.chunks, id));
      } else {
        if found.Some? {
          return None;
        }
        id := t.next;
        t := t.(docs := t.docs + [Document(id, title, sha, content)], next := id + 1);
      }
      var names;
      r, names := InsertDocument(t, c, id, content, pieces);
    }

    /** `upload`: one transaction, or nothing. */
    method Upload(c: Config, title: string, content: string, force: bool) returns (r: Result<UploadStatus>)
      requires Valid()
      modifies this
      ensures Valid()
      ensures r.Ok? ==> store == Runs.UploadTo(env, old(store), c, title, content, force)
      ensures r.Err? ==> store == old(store)
      ensures r == Ok(EmptyUpload) <==>
                env.split(c, content) == Some([]) &&
                (force || !ShaStored(old(store.docs), env.sha(content)))
      ensures r == Ok(SkippedUpload) <==> ShaStored(old(store.docs), env.sha(content)) && !force
      ensures r == Ok(Created) || r == Ok(Updated) ==>
                ShaStored(store.docs, env.sha(content)) &&
                (r == Ok(Updated) <==> ShaStored(old(store.docs), env.sha(content)))
    {
      var existed := ShaStored(store.docs, env.sha(content));
      if !force && existed {
        return Ok(SkippedUpload);
      }
      var split := env.split(c, content);
      if split.None? {
        return Err(TokenizeError);
      }
      if |split.value| == 0 {
        return Ok(EmptyUpload);
      }
      if !Embeds(c, split.value) {
        return Err(EmbedError);
      }
      var built := StoreAndIndex(c, title, content, split.value, force && existed);
      var answer := CommitPrepared(built, SaveDocument(c, title, content, force && existed));
      if answer != Committed {
        return Err(DbError);
      }
      ghost var i := FindSha(old(store.docs), env.sha(content));
      assert store.docs[if i.Some? then i.value else |old(store.docs)|].sha == env.sha(content);
      return Ok(if existed then Updated else Created);
    }

    /** `delete_document`: one transaction; reports how many chunks went. */
    method Delete(id: nat) returns (r: Result<nat>)
      requires Valid()
      modifies this
      ensures Valid()
      ensures r.Ok? ==> HasDocument(old(store.docs), id) && store == Runs.DeleteFrom(env, old(store), id)
                        && r.value == |RowsOf(old(store.chunks), id)|
      ensures r.Err? ==> store == old(store)
      ensures r == Err(DocumentNotFound) <==> !HasDocument(old(store.docs), id)
    {
      if !HasDocument(store.docs, id) {
        return Err(DocumentNotFound);
      }
      var count := |RowsOf(store.chunks, id)|;
      var ok := Commit(RemoveDocument(id));
      return if ok then Ok(count) else Err(DbError);
    }
  }

  lemma PlanParts(env: Env, s: Store, c: Config)
    ensures var changed := DimensionChanged(s, c);
            ReindexPlan(env, s, c)
            == Prologue(changed, c) + (Rebuilds(env, c, s.docs) + (Refresh(changed, c) + [ClearMarker]))
  {
  }
}

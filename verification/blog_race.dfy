/** Replacing a blog post's document while other PUTs on the same document run.
    A PUT is a sequence of separate database operations without an enclosing
    transaction; any number of PUTs interleave, and any operation may fail. */
module BlogRace {
  import opened Options

  type DocId = nat

  datatype Post = Post(author: string, published: bool)

  datatype Failure = NotFound | Forbidden | DatabaseError | Duplicate | Conflict

  datatype Response = Ok(document: DocId) | Err(failure: Failure)

  /** Where a PUT is.  `sawPost` is what it read from the registry. */
  datatype Pc =
    | Start
    | Found
    | Authorised(sawPost: bool)
    | Uploading(sawPost: bool)
    | Uploaded(copy: DocId)
    | LostRace(copy: DocId, cause: Failure)
    | Replacing(sawPost: bool, copy: DocId)
    | Done(response: Response)

  /** One PUT: the hash of its content, whether its session owns the post, whether
      the content yields any chunk, and what it has done so far. */
  datatype Put = Put(
    content: string, owner: bool, chunked: bool, pc: Pc,
    replacement: Option<DocId>, sawPost: bool, migrated: bool, cleanupFailed: bool, deleteFailed: bool)

  /** Documents by id with their content hash, registry rows by document
      (`blog_post.document` is unique), and the PUTs on document `old`. */
  datatype World = World(docs: map<DocId, string>, registry: map<DocId, Post>, next: DocId, original: DocId,
                         puts: seq<Put>)

  function NewPut(content: string, owner: bool, chunked: bool): Put {
    Put(content, owner, chunked, Start, None, false, false, false, false)
  }

  /** The two PUTs carry the same request. */
  predicate SameInput(p: Put, q: Put) {
    p.content == q.content && p.owner == q.owner && p.chunked == q.chunked
  }

  /** `UPDATE blog_post SET document = new WHERE document = old`. */
  function MigrateRow(registry: map<DocId, Post>, o: DocId, n: DocId): map<DocId, Post>
    requires o in registry
  {
    (registry - {o})[n := registry[o]]
  }

  /** The row is at its new document with its author and state, and other rows stay. */
  lemma RowMoves(registry: map<DocId, Post>, o: DocId, n: DocId)
    requires o in registry
    ensures var after := MigrateRow(registry, o, n);
            && n in after && after[n] == registry[o] && (o != n ==> o !in after)
            && forall d :: d != o && d != n ==>
                 (d in after <==> d in registry) && (d in after ==> after[d] == registry[d])
  {
  }

  /** The next operation of a PUT; `fault` makes that operation fail. */
  function StepPut(w: World, p: Put, fault: bool): (World, Put) {
    match p.pc
    case Start =>
      if fault then (w, p.(pc := Done(Err(DatabaseError))))
      else if w.original !in w.docs then (w, p.(pc := Done(Err(NotFound))))
      else (w, p.(pc := Found))
    case Found =>
      if fault then (w, p.(pc := Done(Err(DatabaseError))))
      else
        var sawPost := w.original in w.registry;
        if sawPost && !p.owner then (w, p.(pc := Done(Err(Forbidden)), sawPost := true))
        else (w, p.(pc := Authorised(sawPost), sawPost := sawPost))
    case Authorised(sawPost) =>
      if fault then (w, p.(pc := Done(Err(DatabaseError))))
      else if p.content in w.docs.Values || !p.chunked then (w, p.(pc := Done(Ok(w.original))))  // "skipped" or "empty"
      else (w, p.(pc := Uploading(sawPost)))
    case Uploading(sawPost) =>
      if fault then (w, p.(pc := Done(Err(DatabaseError))))
      else if p.content in w.docs.Values then (w, p.(pc := Done(Err(Duplicate))))  // UNIQUE index on sha256
      else (w.(docs := w.docs[w.next := p.content], next := w.next + 1),
            p.(pc := if sawPost then Uploaded(w.next) else Replacing(false, w.next), replacement := Some(w.next)))
    case Uploaded(n) =>
      if fault then (w, p.(pc := LostRace(n, DatabaseError)))
      else if w.original !in w.registry then (w, p.(pc := LostRace(n, Conflict)))
      else (w.(registry := MigrateRow(w.registry, w.original, n)), p.(pc := Replacing(true, n), migrated := true))
    case LostRace(n, cause) =>
      if fault then (w, p.(pc := Done(Err(cause)), cleanupFailed := true))
      else (w.(docs := w.docs - {n}), p.(pc := Done(Err(cause))))
    case Replacing(_, n) =>
      if fault || w.original !in w.docs then (w, p.(pc := Done(Ok(n)), deleteFailed := fault))
      else (w.(docs := w.docs - {w.original}), p.(pc := Done(Ok(n))))
    case Done(_) => (w, p)
  }

  function Step(w: World, i: nat, fault: bool): (u: World)
    requires i < |w.puts|
    ensures |u.puts| == |w.puts|
  {
    var (v, p) := StepPut(w, w.puts[i], fault);
    v.(puts := v.puts[i := p])
  }

  /** One scheduling decision: which PUT moves, and whether its operation fails. */
  datatype Turn = Turn(put: nat, fault: bool)

  function Run(w: World, turns: seq<Turn>): World
    requires forall k :: 0 <= k < |turns| ==> turns[k].put < |w.puts|
    ensures |Run(w, turns).puts| == |w.puts|
    decreases |turns|
  {
    if turns == [] then w else Run(Step(w, turns[0].put, turns[0].fault), turns[1..])
  }

  // ----- the invariant of every interleaving -----

  /** Before any PUT has started; `original` is a published or draft post. */
  predicate Initial(w: World) {
    && w.original in w.docs && w.original in w.registry
    && (forall d :: d in w.docs ==> d < w.next)
    && (forall d :: d in w.registry ==> d in w.docs)
    && forall i :: 0 <= i < |w.puts| ==>
         w.puts[i] == NewPut(w.puts[i].content, w.puts[i].owner, w.puts[i].chunked)
  }

  /** What one PUT has on record, in the world it is in. */
  predicate PutOk(w: World, w0: World, p: Put) {
    && (p.replacement.Some? ==> w0.next <= p.replacement.value < w.next)
    && (p.cleanupFailed ==> p.pc.Done?)
    && (p.replacement.Some? && !(p.pc.Done? && p.pc.response.Err?) ==> p.replacement.value in w.docs)
    && match p.pc
       case Authorised(s) => p.replacement == None && !p.migrated && s == p.sawPost
       case Uploading(s) => p.replacement == None && !p.migrated && s == p.sawPost
       case Uploaded(n) => p.replacement == Some(n) && !p.migrated && p.sawPost
       case LostRace(n, _) => p.replacement == Some(n) && !p.migrated && p.sawPost
       case Replacing(s, n) => p.replacement == Some(n) && s == p.sawPost == p.migrated
       case Done(Ok(d)) =>
         if p.replacement.Some? then d == p.replacement.value && p.sawPost == p.migrated
         else d == w.original && !p.migrated
       case Done(Err(_)) =>
         !p.migrated && (p.replacement.Some? ==> p.sawPost && (p.replacement.value in w.docs <==> p.cleanupFailed))
       case _ => p.replacement == None && !p.migrated
  }

  /** A PUT that has read the registry and found no row. */
  predicate ReadTooLate(p: Put) {
    !p.sawPost && (p.pc.Authorised? || p.pc.Uploading? || p.pc.Replacing? || p.replacement.Some?)
  }

  /** Replacements of different PUTs are different documents. */
  predicate Separate(w: World) {
    forall i, j :: 0 <= i < j < |w.puts| && w.puts[i].replacement.Some? ==>
      w.puts[i].replacement != w.puts[j].replacement
  }

  predicate AtMostOneMigrated(w: World) {
    forall i, j :: 0 <= i < j < |w.puts| ==> !(w.puts[i].migrated && w.puts[j].migrated)
  }

  /** Nobody has migrated and the row is where it was ... */
  predicate Unmoved(w: World, w0: World) {
    && w.registry == w0.registry && w.original in w.docs
    && forall i :: 0 <= i < |w.puts| ==> !w.puts[i].migrated && !ReadTooLate(w.puts[i])
  }

  /** ... or PUT i has, and the row, otherwise untouched, points at its replacement. */
  predicate MovedBy(w: World, w0: World, i: nat)
    requires w0.original in w0.registry
  {
    && i < |w.puts| && w.puts[i].migrated && w.puts[i].replacement.Some?
    && w.registry == MigrateRow(w0.registry, w0.original, w.puts[i].replacement.value)
  }

  /** Documents other than the original and the replacements are left alone. */
  predicate DocsTracked(w: World, w0: World) {
    && (forall d :: d in w.docs ==> d < w.next)
    && (forall d :: d in w0.docs && d != w0.original ==> d in w.docs && w.docs[d] == w0.docs[d])
    && (forall d :: d in w.docs ==> d in w0.docs || exists i :: 0 <= i < |w.puts| && w.puts[i].replacement == Some(d))
  }

  predicate AllPutsOk(w: World, w0: World) {
    forall i :: 0 <= i < |w.puts| ==> PutOk(w, w0, w.puts[i])
  }

  ghost predicate RowOk(w: World, w0: World)
    requires w0.original in w0.registry
  {
    Unmoved(w, w0) || exists i :: MovedBy(w, w0, i)
  }

  ghost predicate Invariant(w: World, w0: World)
    requires w0.original in w0.registry
  {
    && w.original == w0.original && w0.next <= w.next && |w.puts| == |w0.puts|
    && AllPutsOk(w, w0) && Separate(w) && AtMostOneMigrated(w) && DocsTracked(w, w0) && RowOk(w, w0)
  }

  lemma InitialInvariant(w: World)
    requires Initial(w)
    ensures Invariant(w, w)
  {
  }

  /** The row leaves the original document with the first migration, for good. */
  lemma RegisteredIffUnmoved(w: World, w0: World)
    requires Initial(w0) && Invariant(w, w0)
    ensures w.original in w.registry <==> Unmoved(w, w0)
  {
    forall m: nat | MovedBy(w, w0, m)
      ensures w.original !in w.registry
    {
      assert PutOk(w, w0, w.puts[m]);
    }
  }

  // ----- one step -----

  /** PUT i's record may only gain the replacement it has just created. */
  predicate RecordGrows(w: World, i: nat, p: Put)
    requires i < |w.puts|
  {
    p.replacement == w.puts[i].replacement
    || (w.puts[i].replacement == None && p.replacement == Some(w.next))
  }

  lemma SeparateKept(w: World, w0: World, i: nat, p: Put)
    requires AllPutsOk(w, w0) && Separate(w) && i < |w.puts| && RecordGrows(w, i, p)
    ensures Separate(w.(puts := w.puts[i := p]))
  {
    var u := w.(puts := w.puts[i := p]);
    forall a, b | 0 <= a < b < |u.puts| && u.puts[a].replacement.Some?
      ensures u.puts[a].replacement != u.puts[b].replacement
    {
      assert PutOk(w, w0, w.puts[a]) && PutOk(w, w0, w.puts[b]);
    }
  }

  lemma DocsTrackedKept(w: World, w0: World, v: World, i: nat, p: Put)
    requires DocsTracked(w, w0) && i < |w.puts| && RecordGrows(w, i, p)
    requires forall d :: d in v.docs ==> d < v.next && (d in w.docs || p.replacement == Some(d))
    requires forall d :: d in w0.docs && d != w0.original ==> d in v.docs && v.docs[d] == w0.docs[d]
    ensures DocsTracked(v.(puts := w.puts[i := p]), w0)
  {
    var u := v.(puts := w.puts[i := p]);
    forall d | d in u.docs && d !in w0.docs
      ensures exists k :: 0 <= k < |u.puts| && u.puts[k].replacement == Some(d)
    {
      if d in w.docs {
        var k :| 0 <= k < |w.puts| && w.puts[k].replacement == Some(d);
        assert u.puts[k].replacement == Some(d);
      } else {
        assert u.puts[i].replacement == Some(d);
      }
    }
  }

  lemma RowKept(w: World, w0: World, v: World, i: nat, p: Put)
    requires Initial(w0) && Invariant(w, w0) && i < |w.puts| && RecordGrows(w, i, p)
    requires v.registry == w.registry && v.original == w.original && p.migrated == w.puts[i].migrated
    requires w.original in w.registry ==> v.original in v.docs && !ReadTooLate(p)
    ensures RowOk(v.(puts := w.puts[i := p]), w0)
  {
    var u := v.(puts := w.puts[i := p]);
    RegisteredIffUnmoved(w, w0);
    if Unmoved(w, w0) {
      assert Unmoved(u, w0);
    } else {
      var m: nat :| MovedBy(w, w0, m);
      assert MovedBy(u, w0, m);
    }
  }

  /** A step that changes only documents and PUT i's record keeps the invariant. */
  lemma RecordChange(w: World, w0: World, v: World, i: nat, p: Put)
    requires Initial(w0) && Invariant(w, w0) && i < |w.puts| && RecordGrows(w, i, p)
    requires v.puts == w.puts && v.registry == w.registry && v.original == w.original && w.next <= v.next
    requires p.migrated == w.puts[i].migrated
    requires w.original in w.registry ==> v.original in v.docs && !ReadTooLate(p)
    requires forall d :: d in v.docs ==> d < v.next && (d in w.docs || p.replacement == Some(d))
    requires forall d :: d in w0.docs && d != w0.original ==> d in v.docs && v.docs[d] == w0.docs[d]
    requires PutOk(v, w0, p) && forall k :: 0 <= k < |w.puts| && k != i ==> PutOk(v, w0, w.puts[k])
    ensures Invariant(v.(puts := w.puts[i := p]), w0)
  {
    var u := v.(puts := w.puts[i := p]);
    SeparateKept(w, w0, i, p);
    DocsTrackedKept(w, w0, v, i, p);
    RowKept(w, w0, v, i, p);
    PutsStayOk(v, w0, w.puts, i, p);
    OneMigratedKept(w, u, i);
  }

  lemma PutsStayOk(v: World, w0: World, puts: seq<Put>, i: nat, p: Put)
    requires i < |puts| && PutOk(v, w0, p) && forall k :: 0 <= k < |puts| && k != i ==> PutOk(v, w0, puts[k])
    ensures AllPutsOk(v.(puts := puts[i := p]), w0)
  {
    var u := v.(puts := puts[i := p]);
    forall k | 0 <= k < |u.puts|
      ensures PutOk(u, w0, u.puts[k])
    {
      assert PutOk(v, w0, if k == i then p else puts[k]);
    }
  }

  lemma OneMigratedKept(w: World, u: World, i: nat)
    requires AtMostOneMigrated(w) && i < |w.puts| && |u.puts| == |w.puts|
    requires u.puts[i].migrated == w.puts[i].migrated
    requires forall k :: 0 <= k < |w.puts| && k != i ==> u.puts[k] == w.puts[k]
    ensures AtMostOneMigrated(u)
  {
    assert forall k :: 0 <= k < |u.puts| ==> u.puts[k].migrated == w.puts[k].migrated;
  }

  /** Steps that touch neither documents nor registry. */
  lemma QuietStep(w: World, w0: World, i: nat, p: Put)
    requires Initial(w0) && Invariant(w, w0) && i < |w.puts|
    requires PutOk(w, w0, p) && p.migrated == w.puts[i].migrated && p.replacement == w.puts[i].replacement
    requires w.original in w.registry ==> !ReadTooLate(p)
    ensures Invariant(w.(puts := w.puts[i := p]), w0)
  {
    RegisteredIffUnmoved(w, w0);
    RecordChange(w, w0, w, i, p);
  }

  /** Other PUTs are not affected by what happens to documents they did not create. */
  lemma OthersOk(w: World, w0: World, v: World, i: nat)
    requires AllPutsOk(w, w0) && i < |w.puts| && v.original == w.original && w.next <= v.next
    requires forall k :: 0 <= k < |w.puts| && k != i && w.puts[k].replacement.Some? ==>
               (w.puts[k].replacement.value in v.docs <==> w.puts[k].replacement.value in w.docs)
    ensures forall k :: 0 <= k < |w.puts| && k != i ==> PutOk(v, w0, w.puts[k])
  {
    forall k | 0 <= k < |w.puts| && k != i
      ensures PutOk(v, w0, w.puts[k])
    {
      assert PutOk(w, w0, w.puts[k]);
    }
  }

  lemma ReplacementsBelowNext(w: World, w0: World)
    requires AllPutsOk(w, w0)
    ensures forall k :: 0 <= k < |w.puts| && w.puts[k].replacement.Some? ==>
              w0.next <= w.puts[k].replacement.value < w.next
  {
    forall k | 0 <= k < |w.puts| && w.puts[k].replacement.Some?
      ensures w0.next <= w.puts[k].replacement.value < w.next
    {
      assert PutOk(w, w0, w.puts[k]);
    }
  }

  lemma UploadStep(w: World, w0: World, i: nat)
    requires Initial(w0) && Invariant(w, w0) && i < |w.puts| && w.puts[i].pc.Uploading?
    requires w.puts[i].content !in w.docs.Values
    ensures Invariant(Step(w, i, false), w0)
  {
    var p := w.puts[i];
    assert PutOk(w, w0, p);
    var v := w.(docs := w.docs[w.next := p.content], next := w.next + 1);
    var q := p.(pc := if p.pc.sawPost then Uploaded(w.next) else Replacing(false, w.next), replacement := Some(w.next));
    ReplacementsBelowNext(w, w0);
    OthersOk(w, w0, v, i);
    RegisteredIffUnmoved(w, w0);
    assert PutOk(v, w0, q);
    RecordChange(w, w0, v, i, q);
    assert Step(w, i, false) == v.(puts := v.puts[i := q]);
  }

  lemma MigrateStep(w: World, w0: World, i: nat)
    requires Initial(w0) && Invariant(w, w0) && i < |w.puts| && w.puts[i].pc.Uploaded?
    requires w.original in w.registry
    ensures Invariant(Step(w, i, false), w0) && MovedBy(Step(w, i, false), w0, i)
  {
    var p := w.puts[i];
    assert PutOk(w, w0, p);
    RegisteredIffUnmoved(w, w0);
    var q := p.(pc := Replacing(true, p.pc.copy), migrated := true);
    var u := Step(w, i, false);
    SeparateKept(w, w0, i, q);
    DocsTrackedKept(w, w0, w, i, q);
    forall k | 0 <= k < |u.puts|
      ensures PutOk(u, w0, u.puts[k])
    {
      assert PutOk(w, w0, w.puts[k]);
    }
    assert MovedBy(u, w0, i);
  }

  /** A losing PUT drops its own replacement and nothing else. */
  lemma CompensateStep(w: World, w0: World, i: nat)
    requires Initial(w0) && Invariant(w, w0) && i < |w.puts| && w.puts[i].pc.LostRace?
    ensures Invariant(Step(w, i, false), w0)
  {
    var p := w.puts[i];
    var n := p.pc.copy;
    assert PutOk(w, w0, p);
    var v := w.(docs := w.docs - {n});
    var q := p.(pc := Done(Err(p.pc.cause)));
    ReplacementsBelowNext(w, w0);
    OthersOk(w, w0, v, i);
    RegisteredIffUnmoved(w, w0);
    RecordChange(w, w0, v, i, q);
  }

  lemma ReplaceStep(w: World, w0: World, i: nat)
    requires Initial(w0) && Invariant(w, w0) && i < |w.puts| && w.puts[i].pc.Replacing? && w.original in w.docs
    ensures Invariant(Step(w, i, false), w0)
  {
    var p := w.puts[i];
    assert PutOk(w, w0, p);
    RegisteredIffUnmoved(w, w0);
    var v := w.(docs := w.docs - {w.original});
    var q := p.(pc := Done(Ok(p.pc.copy)));
    ReplacementsBelowNext(w, w0);
    OthersOk(w, w0, v, i);
    RecordChange(w, w0, v, i, q);
  }

  /** What a PUT records when it changes nothing else. */
  lemma OtherRecord(w: World, w0: World, i: nat, fault: bool)
    requires i < |w.puts| && PutOk(w, w0, w.puts[i]) && StepPut(w, w.puts[i], fault).0 == w
    requires !(w.puts[i].pc.Uploaded? && !fault && w.original in w.registry)
    ensures var q := StepPut(w, w.puts[i], fault).1;
            && PutOk(w, w0, q) && q.migrated == w.puts[i].migrated && q.replacement == w.puts[i].replacement
            && (w.original in w.registry && !ReadTooLate(w.puts[i]) ==> !ReadTooLate(q))
  {
  }

  lemma OtherStep(w: World, w0: World, i: nat, fault: bool)
    requires Initial(w0) && Invariant(w, w0) && i < |w.puts|
    requires StepPut(w, w.puts[i], fault).0 == w
    requires !(w.puts[i].pc.Uploaded? && !fault && w.original in w.registry)
    ensures Invariant(Step(w, i, fault), w0)
  {
    assert PutOk(w, w0, w.puts[i]);
    RegisteredIffUnmoved(w, w0);
    OtherRecord(w, w0, i, fault);
    QuietStep(w, w0, i, StepPut(w, w.puts[i], fault).1);
  }

  lemma StepInvariant(w: World, w0: World, i: nat, fault: bool)
    requires Initial(w0) && Invariant(w, w0) && i < |w.puts|
    ensures Invariant(Step(w, i, fault), w0)
  {
    var p := w.puts[i];
    assert PutOk(w, w0, p);
    if !fault && p.pc.Uploading? && p.content !in w.docs.Values {
      UploadStep(w, w0, i);
    } else if !fault && p.pc.Uploaded? && w.original in w.registry {
      MigrateStep(w, w0, i);
    } else if !fault && p.pc.LostRace? {
      CompensateStep(w, w0, i);
    } else if !fault && p.pc.Replacing? && w.original in w.docs {
      ReplaceStep(w, w0, i);
    } else {
      OtherStep(w, w0, i, fault);
    }
  }

  lemma {:induction false} RunInvariant(w: World, w0: World, turns: seq<Turn>)
    requires Initial(w0) && Invariant(w, w0)
    requires forall k :: 0 <= k < |turns| ==> turns[k].put < |w.puts|
    ensures Invariant(Run(w, turns), w0)
    decreases |turns|
  {
    if turns == [] {
    } else {
      StepInvariant(w, w0, turns[0].put, turns[0].fault);
      RunInvariant(Step(w, turns[0].put, turns[0].fault), w0, turns[1..]);
    }
  }
}

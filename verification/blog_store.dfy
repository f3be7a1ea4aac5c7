/** The blog operations of one request that runs alone: create, replace and
    delete, with the compensation each runs when a later operation fails. */
module BlogStore {
  import opened Options
  import opened BlogRace
  import opened BlogAlone

  /** No registry row points at a document that is gone. */
  predicate RowsLive(docs: map<DocId, string>, registry: map<DocId, Post>) {
    forall d :: d in registry ==> d in docs
  }

  class Server {
    var docs: map<DocId, string>
    var registry: map<DocId, Post>
    var next: DocId
    /** Database operations so far; `fault(n)` makes operation n fail. */
    var clock: nat
    const fault: nat -> bool

    constructor (docs: map<DocId, string>, registry: map<DocId, Post>, next: DocId, fault: nat -> bool)
      ensures this.docs == docs && this.registry == registry && this.next == next && clock == 0 && this.fault == fault
    {
      this.docs, this.registry, this.next, this.clock, this.fault := docs, registry, next, 0, fault;
    }

    predicate Valid()
      reads this
    {
      RowsLive(docs, registry) && forall d :: d in docs ==> d < next
    }

    method Operation() returns (fails: bool)
      modifies this`clock
      ensures clock == old(clock) + 1 && fails == fault(old(clock))
    {
      fails := fault(clock);
      clock := clock + 1;
    }

    // ----- replacing a document -----

    /** `kb.upload` for a PUT, after its hash check: one transaction. */
    method CommitUpload(content: string) returns (r: Result<DocId>)
      modifies this`docs, this`next, this`clock
      ensures clock == old(clock) + 1
      ensures r.Success? <==> !fault(old(clock)) && content !in old(docs).Values
      ensures r.Success? ==> r.value == old(next) && docs == old(docs)[old(next) := content] && next == old(next) + 1
      ensures r.Failure? ==> docs == old(docs) && next == old(next)
                             && r.failure == if fault(old(clock)) then DatabaseError else Duplicate
    {
      var fails := Operation();
      if fails {
        return Failure(DatabaseError);
      }
      if content in docs.Values {
        return Failure(Duplicate);
      }
      docs, next := docs[next := content], next + 1;
      return Success(next - 1);
    }

    /** `migrate_blog_post`: an update of no row is a conflict. */
    method MigrateBlogPost(original: DocId, copy: DocId) returns (r: Result<()>)
      modifies this`registry, this`clock
      ensures clock == old(clock) + 1
      ensures r.Success? <==> !fault(old(clock)) && original in old(registry)
      ensures registry == if r.Success? then MigrateRow(old(registry), original, copy) else old(registry)
      ensures r.Failure? ==> r.failure == if fault(old(clock)) then DatabaseError else Conflict
    {
      var fails := Operation();
      if fails {
        return Failure(DatabaseError);
      }
      if original !in registry {
        return Failure(Conflict);
      }
      registry := MigrateRow(registry, original, copy);
      return Success(());
    }

    /** `kb.delete_document`. */
    method DeleteStored(id: DocId) returns (r: Result<()>)
      modifies this`docs, this`clock
      ensures clock == old(clock) + 1
      ensures r.Success? <==> !fault(old(clock)) && id in old(docs)
      ensures docs == if r.Success? then old(docs) - {id} else old(docs)
      ensures r.Failure? ==> r.failure == if fault(old(clock)) then DatabaseError else NotFound
    {
      var fails := Operation();
      if fails {
        return Failure(DatabaseError);
      }
      if id !in docs {
        return Failure(NotFound);
      }
      docs := docs - {id};
      return Success(());
    }

    /** Some operation since `first` has failed. */
    predicate Faulted(first: nat)
      reads this
    {
      exists n :: first <= n < clock && fault(n)
    }

    /** The end of `update_document`, once a replacement has been uploaded. */
    method SwitchOver(original: DocId, copy: DocId, sawPost: bool)
      returns (r: Response, ghost cleanupFailed: bool, ghost deleteFailed: bool)
      requires copy in docs && original in docs && (sawPost <==> original in registry)
      modifies this`docs, this`registry, this`clock
      ensures old(clock) < clock
      ensures r == Ok(copy) || r == Err(DatabaseError)
      ensures r.Ok? ==> !cleanupFailed && docs == old(docs) - (if deleteFailed then {} else {original})
      ensures r.Ok? && sawPost ==> registry == MigrateRow(old(registry), original, copy)
      ensures r.Ok? && !sawPost ==> registry == old(registry)
      ensures r.Err? ==>
                && sawPost && registry == old(registry) && !deleteFailed
                && docs == if cleanupFailed then old(docs) else old(docs) - {copy}
      ensures cleanupFailed || deleteFailed ==> fault(clock - 1)
      ensures r.Err? ==> old(clock) + 2 <= clock && fault(clock - 2)
    {
      cleanupFailed, deleteFailed := false, false;
      if sawPost {
        var migrated := MigrateBlogPost(original, copy);
        if migrated.Failure? {
          var dropped := DeleteStored(copy);
          return Err(migrated.failure), dropped.Failure?, false;
        }
      }
      var deleted := DeleteStored(original);
      return Ok(copy), false, deleted.Failure?;
    }

    /** `update_document`.  `owner` says whether the session belongs to the post's author. */
    method UpdateDocument(original: DocId, content: string, owner: bool, chunked: bool)
      returns (r: Response, ghost cleanupFailed: bool, ghost deleteFailed: bool)
      requires Valid()
      modifies this
      ensures Valid()
      ensures Outcome(old(docs), old(registry), old(next), original, NewPut(content, owner, chunked),
                      docs, registry, r, cleanupFailed, deleteFailed)
      ensures cleanupFailed || deleteFailed || r == Err(DatabaseError) ==> Faulted(old(clock))
    {
      cleanupFailed, deleteFailed := false, false;
      var fails := Operation();
      if fails || original !in docs {
        return Err(if fails then DatabaseError else NotFound), false, false;
      }
      fails := Operation();
      var sawPost := original in registry;
      if fails || (sawPost && !owner) {
        return Err(if fails then DatabaseError else Forbidden), false, false;
      }
      fails := Operation();
      if fails {
        return Err(DatabaseError), false, false;
      }
      if content in docs.Values || !chunked {
        return Ok(original), false, false;
      }
      var uploaded := CommitUpload(content);
      if uploaded.Failure? {
        return Err(uploaded.failure), false, false;
      }
      assert old(docs)[old(next) := content] - {old(next)} == old(docs);
      r, cleanupFailed, deleteFailed := SwitchOver(original, uploaded.value, sawPost);
    }

    // ----- creating and deleting -----

    /** `create_blog_post`: the author is looked up first, then the row is created. */
    method CreateBlogPost(document: DocId, post: Post) returns (r: Result<()>)
      modifies this`registry, this`clock
      ensures old(clock) < clock <= old(clock) + 2
      ensures r.Success? <==> !fault(old(clock)) && !fault(old(clock) + 1) && document !in old(registry)
      ensures r.Failure? && document !in old(registry) ==> fault(clock - 1)
      ensures registry == if r.Success? then old(registry)[document := post] else old(registry)
    {
      var fails := Operation();
      if fails {
        return Failure(DatabaseError);
      }
      fails := Operation();
      if fails || document in registry {
        return Failure(DatabaseError);
      }
      registry := registry[document := post];
      return Success(());
    }

    /** `create_document` for a blog upload of new content: document and row, or,
        unless the roll-back itself fails, neither. */
    method CreateDocument(content: string, author: string) returns (r: Result<DocId>, ghost rollbackFailed: bool)
      requires Valid()
      modifies this
      ensures Valid()
      ensures r.Success? ==> r.value == old(next) && docs == old(docs)[old(next) := content]
                             && registry == old(registry)[old(next) := Post(author, false)]
      ensures r.Failure? ==> registry == old(registry)
      ensures r.Failure? && !rollbackFailed ==> docs == old(docs)
      ensures !Faulted(old(clock)) ==> (r.Success? <==> content !in old(docs).Values)
      ensures rollbackFailed ==> r.Failure? && docs == old(docs)[old(next) := content]
                                 && clock > 0 && fault(clock - 1)
    {
      rollbackFailed := false;
      var uploaded := CommitUpload(content);
      if uploaded.Failure? {
        return Failure(uploaded.failure), false;
      }
      var id := uploaded.value;
      var posted := CreateBlogPost(id, Post(author, false));
      if posted.Failure? {
        var dropped := DeleteStored(id);
        rollbackFailed := dropped.Failure?;
        assert old(docs)[id := content] - {id} == old(docs);
        return Failure(posted.failure), rollbackFailed;
      }
      return Success(id), false;
    }

    /** `delete_document`: the row goes first, so that no listed post ever points at
        a missing document; if the document then stays, its row is put back with
        the same author and state. */
    method DeleteDocument(id: DocId, owner: bool) returns (r: Result<()>, ghost restoreFailed: bool)
      requires Valid()
      modifies this
      ensures Valid()
      ensures r.Success? ==> id in old(docs) && docs == old(docs) - {id} && registry == old(registry) - {id}
      ensures r.Failure? ==> docs == old(docs)
      ensures r.Failure? && !restoreFailed ==> registry == old(registry)
      ensures restoreFailed ==> r.Failure? && id in old(registry) && registry == old(registry) - {id}
                                && clock > 0 && fault(clock - 1)
      ensures id in old(registry) && !owner ==> r.Failure?
      ensures !Faulted(old(clock)) ==> (r.Success? <==> id in old(docs) && (id in old(registry) ==> owner))
    {
      restoreFailed := false;
      var fails := Operation();
      if fails {
        return Failure(DatabaseError), false;
      }
      var post := if id in registry then Some(registry[id]) else None;
      if post.Some? && !owner {
        return Failure(Forbidden), false;
      }
      fails := Operation();
      if fails {
        return Failure(DatabaseError), false;
      }
      registry := registry - {id};
      var deleted := DeleteStored(id);
      if deleted.Failure? {
        if post.Some? {
          var restored := CreateBlogPost(id, post.value);
          restoreFailed := restored.Failure?;
          assert (old(registry) - {id})[id := post.value] == old(registry);
        } else {
          assert old(registry) - {id} == old(registry);
        }
        return Failure(deleted.failure), restoreFailed;
      }
      return Success(()), false;
    }
  }

  datatype Result<+T> = Success(value: T) | Failure(failure: BlogRace.Failure)
}

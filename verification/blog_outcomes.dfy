/** What comes out of a race of PUTs on one blog post. */
module BlogOutcomes {
  import opened BlogRace
  import opened Options

  // ----- what holds for every number of PUTs and every interleaving -----

  /** The post's row with its author and state, moved to document `d`. */
  predicate RowAt(w: World, w0: World, d: DocId)
    requires w0.original in w0.registry
  {
    w.registry == MigrateRow(w0.registry, w0.original, d)
  }

  predicate LiveRowAt(w: World, w0: World, d: DocId)
    requires w0.original in w0.registry
  {
    RowAt(w, w0, d) && d in w.docs
  }

  /** There is always exactly one row for the post, it is unchanged but for the
      document it points at, and that document is live, as is every other row's. */
  lemma {:induction false} RowAlwaysLive(w0: World, turns: seq<Turn>)
    requires Initial(w0) && forall k :: 0 <= k < |turns| ==> turns[k].put < |w0.puts|
    ensures exists d :: LiveRowAt(Run(w0, turns), w0, d)
    ensures forall d :: d in Run(w0, turns).registry ==> d in Run(w0, turns).docs
    ensures AtMostOneMigrated(Run(w0, turns))
  {
    var w := Run(w0, turns);
    InitialInvariant(w0);
    RunInvariant(w0, w0, turns);
    if Unmoved(w, w0) {
      assert MigrateRow(w0.registry, w0.original, w0.original) == w0.registry;
      assert LiveRowAt(w, w0, w0.original);
    } else {
      var m: nat :| MovedBy(w, w0, m);
      assert PutOk(w, w0, w.puts[m]);
      assert LiveRowAt(w, w0, w.puts[m].replacement.value);
    }
  }

  /** The post's row is at `d` with its author and published flag, and nowhere else; no
      other row has changed. */
  ghost predicate IntactAt(w: World, w0: World, d: DocId)
    requires w0.original in w0.registry
  {
    && d in w.registry && w.registry[d] == w0.registry[w0.original]
    && (w0.original in w.registry ==> d == w0.original)
    && forall e :: e != w0.original && e != d ==>
         (e in w.registry <==> e in w0.registry) && (e in w.registry ==> w.registry[e] == w0.registry[e])
  }

  /** Author and published flag survive every race, in one row. */
  lemma {:induction false} RowStaysIntact(w0: World, turns: seq<Turn>)
    requires Initial(w0) && forall k :: 0 <= k < |turns| ==> turns[k].put < |w0.puts|
    ensures exists d :: IntactAt(Run(w0, turns), w0, d)
  {
    RowAlwaysLive(w0, turns);
    var w := Run(w0, turns);
    var d :| LiveRowAt(w, w0, d);
    RowMoves(w0.registry, w0.original, d);
    assert IntactAt(w, w0, d);
  }

  /** No two documents hold the same content. */
  predicate OnePerContent(w: World) {
    forall d, e :: d in w.docs && e in w.docs && w.docs[d] == w.docs[e] ==> d == e
  }

  /** The unique hash holds in every race, with any contents and any faults. */
  lemma {:induction false} ContentsStayUnique(w: World, turns: seq<Turn>)
    requires OnePerContent(w) && forall k :: 0 <= k < |turns| ==> turns[k].put < |w.puts|
    ensures OnePerContent(Run(w, turns))
    decreases |turns|
  {
    if turns == [] {
    } else {
      UniqueStep(w, w.puts[turns[0].put], turns[0].fault);
      ContentsStayUnique(Step(w, turns[0].put, turns[0].fault), turns[1..]);
    }
  }

  lemma UniqueStep(w: World, p: Put, fault: bool)
    requires OnePerContent(w)
    ensures OnePerContent(StepPut(w, p, fault).0)
  {
    if p.pc.Uploading? && !fault && p.content !in w.docs.Values {
      forall d | d in w.docs
        ensures w.docs[d] != p.content
      {
        assert w.docs[d] in w.docs.Values;
      }
    }
  }

  /** Every PUT that ends in an error has removed its own replacement, unless that
      very removal failed. */
  lemma {:induction false} LosersCleanUp(w0: World, turns: seq<Turn>, i: nat)
    requires Initial(w0) && forall k :: 0 <= k < |turns| ==> turns[k].put < |w0.puts|
    requires i < |w0.puts|
    ensures var w := Run(w0, turns); var p := w.puts[i];
            p.pc.Done? && p.pc.response.Err? && p.replacement.Some? ==>
              (p.replacement.value in w.docs <==> p.cleanupFailed)
  {
    InitialInvariant(w0);
    RunInvariant(w0, w0, turns);
    assert PutOk(Run(w0, turns), w0, Run(w0, turns).puts[i]);
  }

  // ----- complete races without faults -----

  /** All PUTs carry contents that are new and different from each other. */
  predicate FreshContents(w0: World) {
    && (forall i :: 0 <= i < |w0.puts| ==> w0.puts[i].chunked && w0.puts[i].content !in w0.docs.Values)
    && forall i, j :: 0 <= i < j < |w0.puts| ==> w0.puts[i].content != w0.puts[j].content
  }

  predicate CleanPuts(w: World, w0: World) {
    && |w.puts| == |w0.puts|
    && forall i :: 0 <= i < |w.puts| ==>
         SameInput(w.puts[i], w0.puts[i]) && !w.puts[i].cleanupFailed && !w.puts[i].deleteFailed
  }

  /** Every new document holds the content of the PUT that created it. */
  predicate CleanDocs(w: World, w0: World) {
    && (forall d :: d in w.docs && d in w0.docs ==> w.docs[d] == w0.docs[d])
    && (forall d :: d in w.docs && d !in w0.docs ==>
          exists i :: 0 <= i < |w.puts| && w.puts[i].replacement == Some(d) && w.docs[d] == w.puts[i].content)
  }

  predicate Succeeded(p: Put) {
    p.pc.Done? && p.pc.response.Ok?
  }

  /** A success has created a replacement and the original is gone. */
  predicate CleanSuccess(w: World) {
    forall i :: 0 <= i < |w.puts| && Succeeded(w.puts[i]) ==> w.puts[i].replacement.Some? && w.original !in w.docs
  }

  /** Bookkeeping of a fault-free race with fresh contents. */
  predicate Clean(w: World, w0: World) {
    CleanPuts(w, w0) && CleanDocs(w, w0) && CleanSuccess(w)
  }

  /** A PUT that has not uploaded yet finds its content new. */
  lemma ContentStillNew(w: World, w0: World, i: nat)
    requires FreshContents(w0) && CleanPuts(w, w0) && CleanDocs(w, w0)
    requires i < |w.puts| && w.puts[i].replacement == None
    ensures w.puts[i].content !in w.docs.Values
  {
    assert SameInput(w.puts[i], w0.puts[i]);
    forall d | d in w.docs
      ensures w.docs[d] != w.puts[i].content
    {
      if d !in w0.docs {
        var k :| 0 <= k < |w.puts| && w.puts[k].replacement == Some(d) && w.docs[d] == w.puts[k].content;
        assert SameInput(w.puts[k], w0.puts[k]);
      }
    }
  }

  /** How one fault-free operation changes the documents and the PUT's record. */
  lemma StepPutEffect(w: World, w0: World, p: Put)
    requires w0.original == w.original && PutOk(w, w0, p)
    requires p.replacement == None ==> p.content !in w.docs.Values && p.chunked
    ensures var (v, q) := StepPut(w, p, false);
            && SameInput(p, q) && q.cleanupFailed == p.cleanupFailed && (q.deleteFailed ==> p.deleteFailed)
            && (p.replacement.Some? ==> q.replacement == p.replacement)
            && v.original == w.original && v.puts == w.puts
            && (forall d :: d in v.docs ==>
                  (d in w.docs && v.docs[d] == w.docs[d]) || (q.replacement == Some(d) && v.docs[d] == q.content))
            && (v.original in v.docs ==> v.original in w.docs || w.next == w.original)
            && (Succeeded(q) && !Succeeded(p) ==> q.replacement.Some? && v.original !in v.docs)
  {
  }

  /** Replacing one record, with its effect on the documents, keeps the bookkeeping. */
  lemma CleanFrame(w: World, w0: World, i: nat, v: World, q: Put)
    requires Clean(w, w0) && i < |w.puts| && w.original < w.next
    requires v.puts == w.puts && v.original == w.original && SameInput(w.puts[i], q)
    requires !q.cleanupFailed && !q.deleteFailed
    requires w.puts[i].replacement.Some? ==> q.replacement == w.puts[i].replacement
    requires forall d :: d in v.docs ==>
               (d in w.docs && v.docs[d] == w.docs[d]) ||
               (q.replacement == Some(d) && d !in w0.docs && v.docs[d] == q.content)
    requires v.original in v.docs ==> v.original in w.docs
    requires Succeeded(q) && !Succeeded(w.puts[i]) ==> q.replacement.Some? && v.original !in v.docs
    ensures Clean(v.(puts := v.puts[i := q]), w0)
  {
    var u := v.(puts := v.puts[i := q]);
    forall d | d in u.docs && d !in w0.docs
      ensures exists k :: 0 <= k < |u.puts| && u.puts[k].replacement == Some(d) && u.docs[d] == u.puts[k].content
    {
      if d in w.docs && v.docs[d] == w.docs[d] {
        var k :| 0 <= k < |w.puts| && w.puts[k].replacement == Some(d) && w.docs[d] == w.puts[k].content;
        assert u.puts[k].replacement == Some(d) && u.docs[d] == u.puts[k].content;
      } else {
        assert u.puts[i].replacement == Some(d);
      }
    }
  }

  lemma CleanStep(w: World, w0: World, i: nat)
    requires Initial(w0) && FreshContents(w0) && Invariant(w, w0) && Clean(w, w0) && i < |w.puts|
    ensures Clean(Step(w, i, false), w0)
  {
    var p := w.puts[i];
    assert PutOk(w, w0, p) && SameInput(p, w0.puts[i]);
    if p.replacement == None {
      ContentStillNew(w, w0, i);
    }
    StepPutEffect(w, w0, p);
    StepInvariant(w, w0, i, false);
    assert PutOk(Step(w, i, false), w0, Step(w, i, false).puts[i]);
    var r := StepPut(w, p, false);
    CleanFrame(w, w0, i, r.0, r.1);
  }

  predicate NoFaults(turns: seq<Turn>) {
    forall k :: 0 <= k < |turns| ==> !turns[k].fault
  }

  lemma {:induction false} CleanRun(w: World, w0: World, turns: seq<Turn>)
    requires Initial(w0) && FreshContents(w0) && Invariant(w, w0) && Clean(w, w0) && NoFaults(turns)
    requires forall k :: 0 <= k < |turns| ==> turns[k].put < |w.puts|
    ensures Clean(Run(w, turns), w0)
    decreases |turns|
  {
    if turns == [] {
    } else {
      StepInvariant(w, w0, turns[0].put, false);
      CleanStep(w, w0, turns[0].put);
      CleanRun(Step(w, turns[0].put, false), w0, turns[1..]);
    }
  }

  predicate AllDone(w: World) {
    forall i :: 0 <= i < |w.puts| ==> w.puts[i].pc.Done?
  }

  /** In a complete race of fresh contents, every success names the document the
      row points at exactly when every success had read the registry before the
      row moved; a PUT that read too late succeeds with an orphan. */
  lemma {:induction false} SuccessNamesRowIff(w0: World, turns: seq<Turn>)
    requires Initial(w0) && FreshContents(w0) && NoFaults(turns)
    requires forall k :: 0 <= k < |turns| ==> turns[k].put < |w0.puts|
    requires AllDone(Run(w0, turns))
    ensures var w := Run(w0, turns);
            (forall i :: 0 <= i < |w.puts| && Succeeded(w.puts[i]) ==> RowAt(w, w0, w.puts[i].pc.response.document))
            <==> (forall i :: 0 <= i < |w.puts| && Succeeded(w.puts[i]) ==> w.puts[i].sawPost)
  {
    var w := Run(w0, turns);
    InitialInvariant(w0);
    RunInvariant(w0, w0, turns);
    CleanRun(w0, w0, turns);
    forall i | 0 <= i < |w.puts| && Succeeded(w.puts[i])
      ensures RowAt(w, w0, w.puts[i].pc.response.document) <==> w.puts[i].sawPost
    {
      SuccessHasRowIff(w, w0, i);
    }
  }

  lemma SuccessHasRowIff(w: World, w0: World, i: nat)
    requires Initial(w0) && FreshContents(w0) && Invariant(w, w0) && Clean(w, w0)
    requires i < |w.puts| && Succeeded(w.puts[i])
    ensures RowAt(w, w0, w.puts[i].pc.response.document) <==> w.puts[i].sawPost
  {
    assert PutOk(w, w0, w.puts[i]);
    if w.puts[i].migrated {
      WinnerHasRow(w, w0, i);
    } else {
      LateReaderHasNot(w, w0, i);
    }
  }

  lemma WinnerHasRow(w: World, w0: World, i: nat)
    requires Initial(w0) && Invariant(w, w0) && i < |w.puts| && w.puts[i].migrated
    ensures MovedBy(w, w0, i)
  {
    assert !Unmoved(w, w0);
    var m: nat :| MovedBy(w, w0, m);
    assert m == i;
  }

  lemma LateReaderHasNot(w: World, w0: World, i: nat)
    requires Initial(w0) && Invariant(w, w0) && i < |w.puts|
    requires !w.puts[i].migrated && w.puts[i].replacement.Some?
    ensures !RowAt(w, w0, w.puts[i].replacement.value)
  {
    var n := w.puts[i].replacement.value;
    assert PutOk(w, w0, w.puts[i]);
    assert n in MigrateRow(w0.registry, w0.original, n) && n !in w0.registry;
    if !Unmoved(w, w0) {
      var m: nat :| MovedBy(w, w0, m);
      assert PutOk(w, w0, w.puts[m]);
      assert w.puts[m].replacement.value != n;
      assert n !in w.registry;
    }
  }

  /** The documents after a race in which only PUT i succeeded. */
  lemma DocsAfterRace(w: World, w0: World, i: nat)
    requires Initial(w0) && Invariant(w, w0) && Clean(w, w0) && AllDone(w)
    requires i < |w.puts| && Succeeded(w.puts[i]) && forall k :: 0 <= k < |w.puts| && Succeeded(w.puts[k]) ==> k == i
    ensures w.docs == (w0.docs - {w0.original})[w.puts[i].replacement.value := w0.puts[i].content]
  {
    assert PutOk(w, w0, w.puts[i]) && SameInput(w.puts[i], w0.puts[i]);
    var n := w.puts[i].replacement.value;
    var expected := (w0.docs - {w0.original})[n := w0.puts[i].content];
    forall d | d in w.docs && d !in w0.docs
      ensures d == n && w.docs[d] == w0.puts[i].content
    {
      var k :| 0 <= k < |w.puts| && w.puts[k].replacement == Some(d) && w.docs[d] == w.puts[k].content;
      assert PutOk(w, w0, w.puts[k]) && SameInput(w.puts[k], w0.puts[k]);
    }
    assert forall d :: d in w.docs <==> d in expected;
    assert w.docs == expected;
  }

  lemma OneSuccess(w: World, w0: World, i: nat)
    requires Initial(w0) && Invariant(w, w0) && Clean(w, w0) && i < |w.puts| && Succeeded(w.puts[i])
    requires forall k :: 0 <= k < |w.puts| && Succeeded(w.puts[k]) ==> w.puts[k].sawPost
    ensures forall k :: 0 <= k < |w.puts| && Succeeded(w.puts[k]) ==> k == i
  {
    assert PutOk(w, w0, w.puts[i]);
    forall k | 0 <= k < |w.puts| && Succeeded(w.puts[k])
      ensures k == i
    {
      assert PutOk(w, w0, w.puts[k]);
    }
  }

  /** If every success read the registry in time, the race has at most one; the
      documents are the ones from before with the winner's in place of the original. */
  lemma {:induction false} OneSurvivor(w0: World, turns: seq<Turn>, i: nat)
    requires Initial(w0) && FreshContents(w0) && NoFaults(turns)
    requires forall k :: 0 <= k < |turns| ==> turns[k].put < |w0.puts|
    requires AllDone(Run(w0, turns)) && i < |w0.puts| && Succeeded(Run(w0, turns).puts[i])
    requires forall k :: 0 <= k < |w0.puts| && Succeeded(Run(w0, turns).puts[k]) ==> Run(w0, turns).puts[k].sawPost
    ensures var w := Run(w0, turns); var n := w.puts[i].pc.response.document;
            && RowAt(w, w0, n)
            && w.docs == (w0.docs - {w0.original})[n := w0.puts[i].content]
            && forall k :: 0 <= k < |w.puts| && Succeeded(w.puts[k]) ==> k == i
  {
    var w := Run(w0, turns);
    InitialInvariant(w0);
    RunInvariant(w0, w0, turns);
    CleanRun(w0, w0, turns);
    SuccessNamesRowIff(w0, turns);
    assert PutOk(w, w0, w.puts[i]);
    OneSuccess(w, w0, i);
    DocsAfterRace(w, w0, i);
  }

  // ----- a race has a winner -----

  predicate AllOwners(w: World) {
    forall i :: 0 <= i < |w.puts| ==> w.puts[i].owner
  }

  predicate Failing(p: Put) {
    p.pc.LostRace? || (p.pc.Done? && p.pc.response.Err?)
  }

  /** Nobody fails before somebody has moved the row. */
  predicate FailsOnlyAfterMove(w: World) {
    forall i :: 0 <= i < |w.puts| && Failing(w.puts[i]) ==> w.original !in w.registry
  }

  /** An owner's operation on a registered post does not fail without a fault. */
  lemma OwnerDoesNotFail(w: World, p: Put)
    requires w.original in w.registry && w.original in w.docs && p.owner && !Failing(p)
    requires p.replacement == None ==> p.content !in w.docs.Values
    requires p.pc.Uploading? ==> p.replacement == None
    ensures !Failing(StepPut(w, p, false).1)
  {
  }

  lemma MovedStaysMoved(w: World, w0: World, i: nat)
    requires Initial(w0) && Invariant(w, w0) && i < |w.puts| && w.original !in w.registry
    ensures w.original !in Step(w, i, false).registry
  {
  }

  lemma MoverDoesNotFail(w: World, w0: World, i: nat)
    requires Initial(w0) && FreshContents(w0) && AllOwners(w0) && Invariant(w, w0) && Clean(w, w0)
    requires w.original in w.registry && i < |w.puts| && !Failing(w.puts[i])
    ensures !Failing(StepPut(w, w.puts[i], false).1)
  {
    var p := w.puts[i];
    RegisteredIffUnmoved(w, w0);
    assert PutOk(w, w0, p) && SameInput(p, w0.puts[i]);
    if p.replacement == None {
      ContentStillNew(w, w0, i);
    }
    OwnerDoesNotFail(w, p);
  }

  lemma FailsOnlyAfterMoveStep(w: World, w0: World, i: nat)
    requires Initial(w0) && FreshContents(w0) && AllOwners(w0) && Invariant(w, w0) && Clean(w, w0)
    requires FailsOnlyAfterMove(w) && i < |w.puts|
    ensures FailsOnlyAfterMove(Step(w, i, false))
  {
    if w.original !in w.registry {
      MovedStaysMoved(w, w0, i);
    } else if !Failing(w.puts[i]) {
      MoverDoesNotFail(w, w0, i);
    }
    FailureFrame(w, i);
  }

  lemma FailureFrame(w: World, i: nat)
    requires FailsOnlyAfterMove(w) && i < |w.puts|
    requires w.original !in w.registry ==> w.original !in Step(w, i, false).registry
    requires w.original in w.registry ==> !Failing(StepPut(w, w.puts[i], false).1)
    ensures FailsOnlyAfterMove(Step(w, i, false))
  {
  }

  lemma {:induction false} FailsOnlyAfterMoveRun(w: World, w0: World, turns: seq<Turn>)
    requires Initial(w0) && FreshContents(w0) && AllOwners(w0) && Invariant(w, w0) && Clean(w, w0)
    requires FailsOnlyAfterMove(w) && NoFaults(turns)
    requires forall k :: 0 <= k < |turns| ==> turns[k].put < |w.puts|
    ensures FailsOnlyAfterMove(Run(w, turns))
    decreases |turns|
  {
    if turns == [] {
    } else {
      StepInvariant(w, w0, turns[0].put, false);
      CleanStep(w, w0, turns[0].put);
      FailsOnlyAfterMoveStep(w, w0, turns[0].put);
      FailsOnlyAfterMoveRun(Step(w, turns[0].put, false), w0, turns[1..]);
    }
  }

  /** A complete race of owners, with fresh contents and without faults, has a success. */
  lemma {:induction false} SomePutSucceeds(w0: World, turns: seq<Turn>)
    requires Initial(w0) && FreshContents(w0) && AllOwners(w0) && NoFaults(turns) && w0.puts != []
    requires forall k :: 0 <= k < |turns| ==> turns[k].put < |w0.puts|
    requires AllDone(Run(w0, turns))
    ensures exists i :: 0 <= i < |w0.puts| && Succeeded(Run(w0, turns).puts[i])
  {
    var w := Run(w0, turns);
    InitialInvariant(w0);
    RunInvariant(w0, w0, turns);
    FailsOnlyAfterMoveRun(w0, w0, turns);
    RegisteredIffUnmoved(w, w0);
    if Unmoved(w, w0) {
      assert !Failing(w.puts[0]);
      assert Succeeded(w.puts[0]);
    } else {
      var m: nat :| MovedBy(w, w0, m);
      assert PutOk(w, w0, w.puts[m]);
      assert Succeeded(w.puts[m]);
    }
  }

  // ----- a PUT that reads the registry too late -----

  /** A PUT that reads the registry once the row has moved takes no notice of the
      post: no ownership check, and no migration later. */
  lemma LateReaderSeesNoPost(w: World, w0: World, i: nat)
    requires Initial(w0) && Invariant(w, w0) && !Unmoved(w, w0)
    requires i < |w.puts| && w.puts[i].pc == Found
    ensures Step(w, i, false).puts[i].pc == Authorised(false)
  {
    RegisteredIffUnmoved(w, w0);
  }

  lemma NextIsUnregistered(w: World, w0: World)
    requires Initial(w0) && Invariant(w, w0)
    ensures w.next !in w.registry
  {
    if !Unmoved(w, w0) {
      var m: nat :| MovedBy(w, w0, m);
      assert PutOk(w, w0, w.puts[m]);
    }
  }

  /** Such a PUT then uploads, deletes the original and is told success for a
      document that no row points at. */
  lemma LateReaderLeavesOrphan(w: World, w0: World, i: nat)
    requires Initial(w0) && Invariant(w, w0) && i < |w.puts|
    requires w.puts[i].pc == Uploading(false) && w.puts[i].content !in w.docs.Values
    ensures var u := Step(Step(w, i, false), i, false);
            && u.puts[i].pc == Done(Ok(w.next)) && w.next in u.docs
            && u.registry == w.registry && w.next !in u.registry && u.original !in u.docs
  {
    NextIsUnregistered(w, w0);
    var p, n := w.puts[i], w.next;
    var v := w.(docs := w.docs[n := p.content], next := n + 1);
    assert Step(w, i, false) == v.(puts := v.puts[i := p.(pc := Replacing(false, n), replacement := Some(n))]);
  }

  // ----- such a race -----

  /** The original, document 0, belongs to PUT 0; PUT 1 is not allowed to replace it. */
  function Stage(docs: map<DocId, string>, row: DocId, next: DocId, owner: Put, other: Put): World {
    World(docs, map[row := Post("ann", true)], next, 0, [owner, other])
  }

  const OWNER := NewPut("b", true, true)
  const OTHER := NewPut("c", false, true)

  const BEFORE_RACE := Stage(map[0 := "a"], 0, 1, OWNER, OTHER)
  const OTHER_STARTED := Stage(map[0 := "a"], 0, 1, OWNER, OTHER.(pc := Found))
  const OWNER_READ :=
    Stage(map[0 := "a"], 0, 1, OWNER.(pc := Authorised(true), sawPost := true), OTHER.(pc := Found))
  const OWNER_UPLOADED :=
    Stage(map[0 := "a", 1 := "b"], 0, 2,
          OWNER.(pc := Uploaded(1), replacement := Some(1), sawPost := true), OTHER.(pc := Found))
  const OWNER_MOVED := OWNER.(pc := Replacing(true, 1), replacement := Some(1), sawPost := true, migrated := true)
  const ROW_MOVED := Stage(map[0 := "a", 1 := "b"], 1, 2, OWNER_MOVED, OTHER.(pc := Found))
  const OTHER_READ := Stage(map[0 := "a", 1 := "b"], 1, 2, OWNER_MOVED, OTHER.(pc := Uploading(false)))
  const OTHER_SUCCEEDED := OTHER.(pc := Done(Ok(2)), replacement := Some(2))
  const OTHER_DONE := Stage(map[1 := "b", 2 := "c"], 1, 3, OWNER_MOVED, OTHER_SUCCEEDED)
  const AFTER_RACE := Stage(map[1 := "b", 2 := "c"], 1, 3, OWNER_MOVED.(pc := Done(Ok(1))), OTHER_SUCCEEDED)

  lemma OtherStarts()
    ensures Step(BEFORE_RACE, 1, false) == OTHER_STARTED
  {
  }

  lemma OwnerReads()
    ensures Step(Step(OTHER_STARTED, 0, false), 0, false) == OWNER_READ
  {
  }

  lemma OwnerUploads()
    ensures Step(Step(OWNER_READ, 0, false), 0, false) == OWNER_UPLOADED
  {
    assert "b" !in OWNER_READ.docs.Values;
    assert map[0 := "a"][1 := "b"] == map[0 := "a", 1 := "b"];
  }

  lemma OwnerMoves()
    ensures Step(OWNER_UPLOADED, 0, false) == ROW_MOVED
  {
    assert MigrateRow(map[0 := Post("ann", true)], 0, 1) == map[1 := Post("ann", true)];
  }

  lemma OtherReads()
    ensures Step(Step(ROW_MOVED, 1, false), 1, false) == OTHER_READ
  {
    assert "c" !in ROW_MOVED.docs.Values;
  }

  lemma OtherFinishes()
    ensures Step(Step(OTHER_READ, 1, false), 1, false) == OTHER_DONE
  {
    assert "c" !in OTHER_READ.docs.Values;
    assert map[0 := "a", 1 := "b"][2 := "c"] - {0} == map[1 := "b", 2 := "c"];
  }

  lemma OwnerFinishes()
    ensures Step(OTHER_DONE, 0, false) == AFTER_RACE
  {
  }

  /** One fault-free operation of PUT i, then the rest. */
  function Then(i: nat, rest: seq<Turn>): seq<Turn> {
    [Turn(i, false)] + rest
  }

  predicate OfTwo(turns: seq<Turn>) {
    NoFaults(turns) && forall k :: 0 <= k < |turns| ==> turns[k].put < 2
  }

  lemma RunThen(w: World, i: nat, rest: seq<Turn>)
    requires |w.puts| == 2 && i < 2 && OfTwo(rest)
    ensures OfTwo(Then(i, rest)) && Run(w, Then(i, rest)) == Run(Step(w, i, false), rest)
  {
    assert Then(i, rest)[1..] == rest;
  }

  lemma RunThenTwice(w: World, i: nat, rest: seq<Turn>)
    requires |w.puts| == 2 && i < 2 && OfTwo(rest)
    ensures OfTwo(Then(i, Then(i, rest)))
    ensures Run(w, Then(i, Then(i, rest))) == Run(Step(Step(w, i, false), i, false), rest)
  {
    RunThen(Step(w, i, false), i, rest);
    RunThen(w, i, Then(i, rest));
  }

  const OTHER_TURNS := Then(1, Then(1, Then(1, Then(1, Then(0, [])))))
  const LATE_READER_TURNS := Then(1, Then(0, Then(0, Then(0, Then(0, Then(0, OTHER_TURNS))))))

  lemma SecondHalf()
    ensures OfTwo(OTHER_TURNS) && Run(ROW_MOVED, OTHER_TURNS) == AFTER_RACE
  {
    OtherReads();
    OtherFinishes();
    OwnerFinishes();
    RunThen(OTHER_DONE, 0, []);
    RunThenTwice(OTHER_READ, 1, Then(0, []));
    RunThenTwice(ROW_MOVED, 1, Then(1, Then(1, Then(0, []))));
  }

  lemma FirstHalf()
    ensures OfTwo(LATE_READER_TURNS) && Run(BEFORE_RACE, LATE_READER_TURNS) == Run(ROW_MOVED, OTHER_TURNS)
  {
    SecondHalf();
    OtherStarts();
    OwnerReads();
    OwnerUploads();
    OwnerMoves();
    RunThen(OWNER_UPLOADED, 0, OTHER_TURNS);
    RunThenTwice(OWNER_READ, 0, Then(0, OTHER_TURNS));
    RunThenTwice(OTHER_STARTED, 0, Then(0, Then(0, Then(0, OTHER_TURNS))));
    RunThen(BEFORE_RACE, 1, Then(0, Then(0, Then(0, Then(0, Then(0, OTHER_TURNS))))));
  }

  lemma RaceIsFair()
    ensures Initial(BEFORE_RACE) && FreshContents(BEFORE_RACE)
  {
  }

  lemma RowMissesOrphan()
    ensures 2 in AFTER_RACE.docs && 2 !in AFTER_RACE.registry && !RowAt(AFTER_RACE, BEFORE_RACE, 2)
  {
    assert 2 in MigrateRow(BEFORE_RACE.registry, 0, 2);
  }

  /** A complete fault-free race of two PUTs with fresh contents: PUT 1, which does not
      own the post, is told success for document 2, which no row points at. */
  lemma LateReaderRace()
    ensures Initial(BEFORE_RACE) && FreshContents(BEFORE_RACE) && OfTwo(LATE_READER_TURNS)
    ensures var w := Run(BEFORE_RACE, LATE_READER_TURNS);
            && AllDone(w) && !w.puts[1].owner && w.puts[1].pc == Done(Ok(2))
            && 2 in w.docs && 2 !in w.registry && !RowAt(w, BEFORE_RACE, 2)
  {
    RaceIsFair();
    FirstHalf();
    SecondHalf();
    RowMissesOrphan();
  }
}

/** Ownership in every race of PUTs, and what one PUT does when it runs alone. */
module BlogAlone {
  import opened Options
  import opened BlogRace

  predicate TurnsOf(w: World, turns: seq<Turn>) {
    forall k :: 0 <= k < |turns| ==> turns[k].put < |w.puts|
  }

  // ----- ownership -----

  /** What a PUT has on record about ownership, whatever the other PUTs do. */
  predicate Gated(p: Put) {
    && (p.sawPost && !p.owner ==> p.pc == Done(Err(Forbidden)) && p.replacement == None)
    && (p.migrated ==> p.sawPost && p.owner)
    && (p.pc == Done(Err(Forbidden)) ==> p.sawPost && !p.owner)
    && match p.pc
       case Start => !p.sawPost && p.replacement == None
       case Found => !p.sawPost && p.replacement == None
       case Authorised(s) => s == p.sawPost && p.replacement == None
       case Uploading(s) => s == p.sawPost && p.replacement == None
       case Uploaded(n) => p.sawPost && p.replacement == Some(n)
       case LostRace(n, cause) => p.sawPost && p.replacement == Some(n) && cause != Forbidden
       case Replacing(s, n) => s == p.sawPost && p.replacement == Some(n)
       case Done(Ok(d)) => p.replacement == None || p.replacement == Some(d)
       case Done(Err(_)) => true
  }

  lemma EarlyGated(w: World, p: Put, fault: bool)
    requires Gated(p) && (p.pc.Start? || p.pc.Found? || p.pc.Authorised?)
    ensures var q := StepPut(w, p, fault).1; Gated(q) && SameInput(p, q)
  {
  }

  lemma UploadGated(w: World, p: Put, fault: bool)
    requires Gated(p) && (p.pc.Uploading? || p.pc.Uploaded?)
    ensures var q := StepPut(w, p, fault).1; Gated(q) && SameInput(p, q)
  {
  }

  lemma LateGated(w: World, p: Put, fault: bool)
    requires Gated(p) && (p.pc.LostRace? || p.pc.Replacing? || p.pc.Done?)
    ensures var q := StepPut(w, p, fault).1; Gated(q) && SameInput(p, q)
  {
  }

  lemma StepGated(w: World, p: Put, fault: bool)
    requires Gated(p)
    ensures var q := StepPut(w, p, fault).1; Gated(q) && SameInput(p, q)
  {
    match p.pc
    case Uploading(_) => UploadGated(w, p, fault);
    case Uploaded(_) => UploadGated(w, p, fault);
    case LostRace(_, _) => LateGated(w, p, fault);
    case Replacing(_, _) => LateGated(w, p, fault);
    case Done(_) => LateGated(w, p, fault);
    case _ => EarlyGated(w, p, fault);
  }

  lemma {:induction false} RunGated(w: World, turns: seq<Turn>, i: nat)
    requires TurnsOf(w, turns) && i < |w.puts| && Gated(w.puts[i])
    ensures Gated(Run(w, turns).puts[i]) && SameInput(Run(w, turns).puts[i], w.puts[i])
    decreases |turns|
  {
    if turns == [] {
    } else {
      var j := turns[0].put;
      if j == i {
        StepGated(w, w.puts[i], turns[0].fault);
      }
      assert Step(w, j, turns[0].fault).puts[i] ==
          if j == i then StepPut(w, w.puts[i], turns[0].fault).1 else w.puts[i] by {
        StepOne(w, j, turns[0].fault, i);
      }
      RunGated(Step(w, j, turns[0].fault), turns[1..], i);
    }
  }

  lemma StepOne(w: World, j: nat, fault: bool, i: nat)
    requires j < |w.puts| && i < |w.puts|
    ensures Step(w, j, fault).puts[i] == if j == i then StepPut(w, w.puts[i], fault).1 else w.puts[i]
  {
    assert StepPut(w, w.puts[j], fault).0.puts == w.puts;
  }

  /** In every interleaving, with any faults: only an owner's PUT moves the row; one that
      has read the row without owning it has ended as forbidden and has created nothing;
      and only such a PUT is forbidden. */
  lemma {:induction false} OnlyOwnersMigrate(w0: World, turns: seq<Turn>, i: nat)
    requires Initial(w0) && TurnsOf(w0, turns) && i < |w0.puts|
    ensures var p, owner := Run(w0, turns).puts[i], w0.puts[i].owner;
            && SameInput(p, w0.puts[i])
            && (p.migrated ==> owner)
            && (p.sawPost && !owner ==> p.pc == Done(Err(Forbidden)) && p.replacement == None)
            && (p.pc == Done(Err(Forbidden)) ==> p.sawPost && !owner)
            && (!owner && p.replacement.Some? ==> !p.sawPost)
  {
    assert Gated(w0.puts[i]);
    RunGated(w0, turns, i);
  }

  /** The original keeps its content for as long as it is there. */
  predicate OriginalKept(w: World, w0: World) {
    w0.original in w.docs && w0.original in w0.docs ==> w.docs[w0.original] == w0.docs[w0.original]
  }

  lemma {:induction false} RunKeepsOriginal(w: World, w0: World, turns: seq<Turn>)
    requires Initial(w0) && Invariant(w, w0) && OriginalKept(w, w0) && TurnsOf(w, turns)
    ensures OriginalKept(Run(w, turns), w0)
    decreases |turns|
  {
    if turns == [] {
    } else {
      var j, fault := turns[0].put, turns[0].fault;
      StepInvariant(w, w0, j, fault);
      assert PutOk(w, w0, w.puts[j]);
      RunKeepsOriginal(Step(w, j, fault), w0, turns[1..]);
    }
  }

  /** PUTs of sessions that do not own the post change nothing, however many race. */
  lemma {:induction false} StrangersChangeNothing(w0: World, turns: seq<Turn>)
    requires Initial(w0) && TurnsOf(w0, turns) && forall i :: 0 <= i < |w0.puts| ==> !w0.puts[i].owner
    ensures Run(w0, turns).docs == w0.docs && Run(w0, turns).registry == w0.registry
  {
    var w := Run(w0, turns);
    InitialInvariant(w0);
    RunInvariant(w0, w0, turns);
    RunKeepsOriginal(w0, w0, turns);
    forall i | 0 <= i < |w.puts|
      ensures !w.puts[i].migrated && (w.puts[i].sawPost ==> w.puts[i].replacement == None)
    {
      OnlyOwnersMigrate(w0, turns, i);
    }
    NothingMoved(w, w0);
  }

  lemma NothingMoved(w: World, w0: World)
    requires Initial(w0) && Invariant(w, w0) && OriginalKept(w, w0)
    requires forall i :: 0 <= i < |w.puts| ==>
               !w.puts[i].migrated && (w.puts[i].sawPost ==> w.puts[i].replacement == None)
    ensures w.docs == w0.docs && w.registry == w0.registry
  {
    assert Unmoved(w, w0);
    assert forall i :: 0 <= i < |w.puts| ==> !ReadTooLate(w.puts[i]) && w.puts[i].replacement == None;
  }

  // ----- one PUT that runs alone -----

  /** What a PUT alone on `original` leaves, and what it answers: the document replaced,
      with its row if it has one; or kept, because the content is stored or empty; or
      an error and nothing changed, but for a replacement whose removal failed. */
  predicate Outcome(docs: map<DocId, string>, registry: map<DocId, Post>, next: DocId, original: DocId, request: Put,
                    docs': map<DocId, string>, registry': map<DocId, Post>, r: Response,
                    cleanupFailed: bool, deleteFailed: bool)
  {
    match r
    case Ok(d) =>
      && original in docs && (original in registry ==> request.owner) && !cleanupFailed
      && if request.content in docs.Values || !request.chunked
         then d == original && docs' == docs && registry' == registry && !deleteFailed
         else && d == next
              && registry' == (if original in registry then MigrateRow(registry, original, next) else registry)
              && docs' == docs[next := request.content] - (if deleteFailed then {} else {original})
    case Err(f) =>
      && registry' == registry && !deleteFailed
      && docs' == (if cleanupFailed then docs[next := request.content] else docs)
      && (cleanupFailed ==> original in registry && request.owner && f == DatabaseError)
      && match f
         case NotFound => original !in docs
         case Forbidden => original in registry && !request.owner
         case DatabaseError => true
         case _ => false
  }

  /** Operations a PUT has left at most. */
  function Left(pc: Pc): nat {
    match pc
    case Start => 6
    case Found => 5
    case Authorised(_) => 4
    case Uploading(_) => 3
    case Uploaded(_) => 2
    case LostRace(_, _) => 1
    case Replacing(_, _) => 1
    case Done(_) => 0
  }

  /** A world with one PUT that has not started. */
  predicate Alone(w: World) {
    && |w.puts| == 1 && w.puts[0] == NewPut(w.puts[0].content, w.puts[0].owner, w.puts[0].chunked)
    && (forall d :: d in w.docs ==> d < w.next) && forall d :: d in w.registry ==> d in w.docs
  }

  predicate Untouched(w: World, w0: World) {
    w.docs == w0.docs && w.registry == w0.registry && w.next == w0.next
  }

  /** The replacement is stored and nothing else has changed. */
  predicate Copied(w: World, w0: World, n: DocId)
    requires |w.puts| == 1
  {
    n == w0.next && w.docs == w0.docs[n := w.puts[0].content]
  }

  /** Where the lone PUT is, and what it has done to the world it started in. */
  predicate OnItsWay(w: World, w0: World, faulted: bool)
    requires |w.puts| == 1 && |w0.puts| == 1
  {
    var p := w.puts[0];
    var isNew := p.content !in w0.docs.Values && p.chunked;
    var allowed := w0.original in w0.docs && (w0.original in w0.registry ==> p.owner);
    && w.original == w0.original && SameInput(p, w0.puts[0])
    && (p.cleanupFailed || p.deleteFailed ==> p.pc.Done? && faulted)
    && match p.pc
       case Start => Untouched(w, w0)
       case Found => Untouched(w, w0) && w0.original in w0.docs
       case Authorised(s) => Untouched(w, w0) && allowed && s == (w0.original in w0.registry)
       case Uploading(s) => Untouched(w, w0) && allowed && isNew && s == (w0.original in w0.registry)
       case Uploaded(n) =>
         allowed && isNew && w0.original in w0.registry && w.registry == w0.registry && Copied(w, w0, n)
       case LostRace(n, cause) =>
         allowed && isNew && w0.original in w0.registry && w.registry == w0.registry && Copied(w, w0, n)
         && cause == DatabaseError && faulted
       case Replacing(_, n) =>
         allowed && isNew && Copied(w, w0, n)
         && w.registry == if w0.original in w0.registry then MigrateRow(w0.registry, w0.original, n) else w0.registry
       case Done(r) =>
         && Outcome(w0.docs, w0.registry, w0.next, w0.original, p, w.docs, w.registry, r,
                    p.cleanupFailed, p.deleteFailed)
         && (r == Err(DatabaseError) ==> faulted)
  }

  lemma EarlyShortens(w: World, p: Put, fault: bool)
    requires p.pc.Start? || p.pc.Found? || p.pc.Authorised?
    ensures Left(StepPut(w, p, fault).1.pc) < Left(p.pc)
  {
  }

  lemma UploadShortens(w: World, p: Put, fault: bool)
    requires p.pc.Uploading?
    ensures Left(StepPut(w, p, fault).1.pc) < Left(p.pc)
  {
  }

  lemma MoveShortens(w: World, p: Put, fault: bool)
    requires p.pc.Uploaded?
    ensures Left(StepPut(w, p, fault).1.pc) < Left(p.pc)
  {
  }

  lemma LateEnds(w: World, p: Put, fault: bool)
    requires p.pc.LostRace? || p.pc.Replacing? || p.pc.Done?
    ensures StepPut(w, p, fault).1.pc.Done?
  {
  }

  /** Every operation brings a PUT nearer to its end. */
  lemma StepShortens(w: World, p: Put, fault: bool)
    ensures Left(StepPut(w, p, fault).1.pc) <= if p.pc.Done? then 0 else Left(p.pc) - 1
  {
    match p.pc
    case Uploading(_) => UploadShortens(w, p, fault);
    case Uploaded(_) => MoveShortens(w, p, fault);
    case LostRace(_, _) => LateEnds(w, p, fault);
    case Replacing(_, _) => LateEnds(w, p, fault);
    case Done(_) => LateEnds(w, p, fault);
    case _ => EarlyShortens(w, p, fault);
  }

  lemma EarlyAlone(w: World, w0: World, fault: bool, faulted: bool)
    requires Alone(w0) && |w.puts| == 1 && OnItsWay(w, w0, faulted)
    requires w.puts[0].pc.Start? || w.puts[0].pc.Found?
    ensures OnItsWay(Step(w, 0, fault), w0, faulted || fault)
  {
  }

  lemma UploadAlone(w: World, w0: World, fault: bool, faulted: bool)
    requires Alone(w0) && |w.puts| == 1 && OnItsWay(w, w0, faulted)
    requires w.puts[0].pc.Authorised? || w.puts[0].pc.Uploading?
    ensures OnItsWay(Step(w, 0, fault), w0, faulted || fault)
  {
  }

  lemma LateAlone(w: World, w0: World, fault: bool, faulted: bool)
    requires Alone(w0) && |w.puts| == 1 && OnItsWay(w, w0, faulted)
    requires w.puts[0].pc.Uploaded? || w.puts[0].pc.LostRace? || w.puts[0].pc.Replacing? || w.puts[0].pc.Done?
    ensures OnItsWay(Step(w, 0, fault), w0, faulted || fault)
  {
    if w.puts[0].pc.LostRace? {
      assert w0.docs[w0.next := w.puts[0].content] - {w0.next} == w0.docs;
    }
  }

  lemma StepAlone(w: World, w0: World, fault: bool, faulted: bool)
    requires Alone(w0) && |w.puts| == 1 && OnItsWay(w, w0, faulted)
    ensures OnItsWay(Step(w, 0, fault), w0, faulted || fault)
  {
    match w.puts[0].pc
    case Authorised(_) => UploadAlone(w, w0, fault, faulted);
    case Uploading(_) => UploadAlone(w, w0, fault, faulted);
    case Uploaded(_) => LateAlone(w, w0, fault, faulted);
    case LostRace(_, _) => LateAlone(w, w0, fault, faulted);
    case Replacing(_, _) => LateAlone(w, w0, fault, faulted);
    case Done(_) => LateAlone(w, w0, fault, faulted);
    case _ => EarlyAlone(w, w0, fault, faulted);
  }

  predicate Faulty(turns: seq<Turn>) {
    exists k :: 0 <= k < |turns| && turns[k].fault
  }

  lemma {:induction false} RunAlone(w: World, w0: World, turns: seq<Turn>, faulted: bool)
    requires Alone(w0) && |w.puts| == 1 && OnItsWay(w, w0, faulted) && TurnsOf(w, turns)
    ensures OnItsWay(Run(w, turns), w0, faulted || Faulty(turns))
    ensures Left(w.puts[0].pc) <= |turns| ==> Run(w, turns).puts[0].pc.Done?
    decreases |turns|
  {
    if turns == [] {
    } else {
      var v := Step(w, 0, turns[0].fault);
      StepAlone(w, w0, turns[0].fault, faulted);
      StepShortens(w, w.puts[0], turns[0].fault);
      StepOne(w, 0, turns[0].fault, 0);
      RunAlone(v, w0, turns[1..], faulted || turns[0].fault);
      assert Faulty(turns) <==> turns[0].fault || Faulty(turns[1..]) by {
        if Faulty(turns) && !turns[0].fault {
          var k :| 0 <= k < |turns| && turns[k].fault;
          assert turns[1..][k - 1].fault;
        }
        if Faulty(turns[1..]) {
          var k :| 0 <= k < |turns| - 1 && turns[1..][k].fault;
          assert turns[k + 1].fault;
        }
      }
    }
  }

  /** A PUT that runs alone is over after at most six operations, whatever fails, with the
      outcome of `update_document`; without a fault its answer is settled by what is
      stored and by who asks. */
  lemma {:induction false} LonePut(w0: World, turns: seq<Turn>)
    requires Alone(w0) && TurnsOf(w0, turns) && |turns| >= 6
    ensures var w := Run(w0, turns);
            var p := w.puts[0];
            && p.pc.Done?
            && Outcome(w0.docs, w0.registry, w0.next, w0.original, w0.puts[0], w.docs, w.registry, p.pc.response,
                       p.cleanupFailed, p.deleteFailed)
            && (!Faulty(turns) ==>
                  && !p.cleanupFailed && !p.deleteFailed
                  && p.pc.response ==
                     if w0.original !in w0.docs then Err(NotFound)
                     else if w0.original in w0.registry && !p.owner then Err(Forbidden)
                     else if p.content in w0.docs.Values || !p.chunked then Ok(w0.original)
                     else Ok(w0.next))
  {
    RunAlone(w0, w0, turns, false);
  }
}

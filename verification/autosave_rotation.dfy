/** A rotation, the new document id that a save itself brings about, does not end the
    editing session: what was pending or queued before it is sent after it. */
module AutosaveRotation {
  import opened Options
  import opened Autosave
  import opened AutosaveSerial

  // ----- one route change -----

  /** A PUT of the live session was answered with `doc`, and the route has not followed yet. */
  predicate RotatingTo(s: Hook, doc: DocId) {
    && s.running != [] && s.running[0].phase != Sent && s.running[0].phase.target == doc
    && IsCurrent(s, s.running[0].request)
  }

  /** The session goes on, with all it holds, on another document. */
  predicate Continues(s: Hook, t: Hook, doc: DocId) {
    && t.docId == doc && t.mounted && t.generation == s.generation
    && t.pending == s.pending && t.timer == s.timer && t.queued == s.queued && t.last == s.last
    && t.inFlight == s.inFlight && t.running == s.running && t.status == s.status
    && t.history.edits == s.history.edits && t.history.puts == s.history.puts
  }

  /** The session is over, with all that waited. */
  predicate Ends(s: Hook, t: Hook, doc: DocId) {
    && t.docId == doc && t.generation == s.generation + 1
    && t.pending == None && !t.timer && t.queued == None && t.status == Idle
  }

  /** The session goes on if and only if the route changes to the document that its own
      running save was answered with. */
  lemma ContinuesIff(s: Hook, doc: DocId)
    requires Isolated(s) && Serial(s) && s.mounted && doc != s.docId
    ensures var t := Step(s, RouteChanges(doc));
            if RotatingTo(s, doc) then Continues(s, t, doc) else Ends(s, t, doc)
  {
  }

  // ----- runs whose only route changes are rotations -----

  /** The hook stays mounted, and the route changes only where the hook navigates. */
  predicate Follows(s: Hook, e: Event) {
    match e
    case RouteChanges(doc) => doc == s.docId || (RotatingTo(s, doc) && s.running[0].phase.Navigating?)
    case Unmount => false
    case _ => true
  }

  predicate RotationRun(s: Hook, events: seq<Event>)
    decreases |events|
  {
    events == [] ||
    (&& Guarded(s, events[0]) && Enabled(s, events[0]) && Follows(s, events[0])
     && RotationRun(Step(s, events[0]), events[1..]))
  }

  /** "idle" is a session without edits, and "saving" one with something under way whose
      end will change the status. */
  predicate StatusHonest(s: Hook) {
    && (s.status == Idle <==> s.history.edits == [])
    && (s.status == Saving ==>
          || s.timer || s.queued.Some?
          || (s.running != [] && !s.running[0].phase.Navigating? && IsCurrent(s, s.running[0].request)))
  }

  predicate Unbroken(s: Hook) {
    Isolated(s) && Serial(s) && s.mounted && s.generation == 0 && StatusHonest(s)
  }

  lemma SettleUnbroken(s: Hook)
    requires |s.running| == 1 && Isolated(s) && s.mounted && s.generation == 0
    requires s.status == Idle <==> s.history.edits == []
    requires s.status == Saving ==> s.timer || s.queued.Some?
    requires s.queued.Some? ==> s.history.edits != []
    ensures var t := Settle(s, 0); t.mounted && t.generation == 0 && StatusHonest(t)
  {
    assert s.running[..0] + s.running[1..] == [];
  }

  lemma EndUnbroken(s: Hook, e: Event)
    requires Unbroken(s) && Enabled(s, e) && (e.PutFails? || e.InvalidationDone? || e.NavigationDone?)
    ensures var t := Step(s, e); t.mounted && t.generation == 0 && StatusHonest(t)
  {
    match e
    case PutFails(i) =>
      SettleUnbroken(if IsCurrent(s, s.running[i].request) then s.(status := Error) else s);
    case InvalidationDone(i) =>
      if !IsCurrent(s, s.running[i].request) {
        SettleUnbroken(s);
      }
    case NavigationDone(i) => SettleUnbroken(s);
  }

  lemma SuccessUnbroken(s: Hook, i: nat, document: DocId)
    requires Unbroken(s) && Enabled(s, PutSucceeds(i, document))
    ensures var t := Step(s, PutSucceeds(i, document)); t.mounted && t.generation == 0 && StatusHonest(t)
  {
    var r := s.running[i].request;
    var t := s.(history := s.history.(acknowledged := Some(r.edit)));
    AcknowledgedIsolated(s, r.edit);
    if !IsCurrent(s, r) {
      SettleUnbroken(t);
    } else if document == r.doc {
      SettleUnbroken(t.(status := Saved));
    }
  }

  lemma StepUnbroken(s: Hook, e: Event)
    requires Unbroken(s) && Guarded(s, e) && Enabled(s, e) && Follows(s, e)
    ensures Unbroken(Step(s, e))
  {
    StepIsolated(s, e);
    StepSerial(s, e);
    match e
    case PutSucceeds(i, document) => SuccessUnbroken(s, i, document);
    case RouteChanges(doc) =>
      if doc != s.docId {
        ContinuesIff(s, doc);
      }
    case PutFails(_) => EndUnbroken(s, e);
    case InvalidationDone(_) => EndUnbroken(s, e);
    case NavigationDone(_) => EndUnbroken(s, e);
    case _ =>
  }

  lemma {:induction false} RunUnbroken(s: Hook, events: seq<Event>)
    requires Unbroken(s) && RotationRun(s, events)
    ensures Run(s, events).Some? && Unbroken(Run(s, events).value)
    decreases |events|
  {
    if events == [] {
    } else {
      StepUnbroken(s, events[0]);
      RunUnbroken(Step(s, events[0]), events[1..]);
    }
  }

  /** From the first render on, however many rotations: it is one session throughout; the
      newest edit of all is waiting, queued behind a running PUT or sent last; and at
      rest the status says which it is: nothing edited, failed, or saved and
      acknowledged. */
  lemma {:induction false} RotationsLoseNothing(doc: DocId, events: seq<Event>)
    requires RotationRun(Mounted(doc), events)
    ensures Run(Mounted(doc), events).Some?
    ensures var s := Run(Mounted(doc), events).value;
            var newest := |s.history.edits| - 1;
            && s.mounted && s.generation == 0
            && (s.history.edits != [] ==>
                  || (s.pending.Some? && s.pending.value.edit == newest && s.timer)
                  || (s.queued.Some? && s.queued.value.edit == newest && s.running != [])
                  || (s.last.Some? && s.last.value.edit == newest))
            && (s.running == [] && !s.timer ==>
                  match s.status
                  case Idle => s.history.edits == []
                  case Saving => false
                  case Saved => s.history.edits != [] && s.history.acknowledged == Some(newest)
                  case Error => s.last.Some? && s.last.value.edit == newest)
  {
    MountedIsolated(doc);
    RunUnbroken(Mounted(doc), events);
  }

  // ----- a route that gets there first -----

  /** If the route reaches the new document before the query cache has been refreshed,
      the saved status is never shown: the hook keeps saying "saving" with nothing
      waiting, queued or running, although the edit has been acknowledged. */
  lemma EarlyRouteLeavesSaving(a: SaveInput)
    ensures var events := [Schedule(a), TimerFires, PutSucceeds(0, "e"), RouteChanges("e"), InvalidationDone(0)];
            Run(Mounted("d"), events).Some?
            && var s := Run(Mounted("d"), events).value;
               && s.mounted && s.status == Saving && !s.timer && s.queued == None && s.running == []
               && s.history.acknowledged == Some(|s.history.edits| - 1)
  {
    var s0 := Mounted("d");
    var s1 := Step(s0, Schedule(a));
    var s2 := Step(s1, TimerFires);
    var s3 := Step(s2, PutSucceeds(0, "e"));
    var s4 := Step(s3, RouteChanges("e"));
    assert s4.running[..0] + s4.running[1..] == [];
    var s5 := Step(s4, InvalidationDone(0));
    var e := [Schedule(a), TimerFires, PutSucceeds(0, "e"), RouteChanges("e"), InvalidationDone(0)];
    assert Run(s5, e[5..]) == Some(s5);
    assert e[4..][1..] == e[5..] && Run(s4, e[4..]) == Some(s5);
    assert e[3..][1..] == e[4..] && Run(s3, e[3..]) == Some(s5);
    assert e[2..][1..] == e[3..] && Run(s2, e[2..]) == Some(s5);
    assert e[1..][1..] == e[2..] && Run(s1, e[1..]) == Some(s5);
    assert Run(s0, e) == Some(s5);
  }

  /** Exactly then: the answer of the cache leaves "saving" behind with nothing under way
      if and only if the route has already moved on and no later edit waits. */
  lemma SavingStuckIff(s: Hook)
    requires Isolated(s) && Serial(s) && s.mounted && s.status == Saving && Enabled(s, InvalidationDone(0))
    ensures var t := Step(s, InvalidationDone(0));
            t.status == Saving && !t.timer && t.queued == None && t.running == [] <==>
            !IsCurrent(s, s.running[0].request) && !s.timer && s.queued == None
  {
    assert s.running[..0] + s.running[1..] == [];
  }
}

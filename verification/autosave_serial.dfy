/** Serialisation and "no edit is lost" for runs in which retry sends nothing while a
    PUT is running, and what retry does otherwise. */
module AutosaveSerial {
  import opened Options
  import opened Autosave

  /** Retry while a PUT is running is the one event the hook does not guard; it is
      harmless when there is nothing current to send. */
  predicate Guarded(s: Hook, e: Event) {
    e.Retry? ==> RetryHarmless(s)
  }

  predicate RetryHarmless(s: Hook) {
    s.running == [] || s.last == None || !IsCurrent(s, s.last.value)
  }

  predicate GuardedRun(s: Hook, events: seq<Event>)
    decreases |events|
  {
    events == [] || (Guarded(s, events[0]) && Enabled(s, events[0]) && GuardedRun(Step(s, events[0]), events[1..]))
  }

  /** PUTs carry edits in the order the edits were made. */
  predicate InEditOrder(puts: seq<Put>) {
    forall i, j :: 0 <= i < j < |puts| ==> puts[i].request.edit <= puts[j].request.edit
  }

  predicate OneInFlight(s: Hook) {
    && |s.running| <= 1 && (s.inFlight <==> s.running != [])
    && (s.running != [] ==> s.last == Some(s.running[0].request))
    && (s.queued.Some? ==> s.running != [])
  }

  /** `last` is the PUT sent last, and waiting drafts are at least as new. */
  predicate DraftsInOrder(s: Hook) {
    var h := s.history;
    && InEditOrder(h.puts)
    && (s.last.Some? <==> h.puts != [])
    && (s.last.Some? ==> h.puts[|h.puts| - 1].request == s.last.value && s.last.value.edit < |h.edits|)
    && (s.queued.Some? ==> s.last.Some? && s.last.value.edit <= s.queued.value.edit < |h.edits|)
    && (s.timer <==> s.mounted && s.pending.Some?)
    && (s.timer ==> s.pending.value.edit == |h.edits| - 1 && s.pending.value.generation == s.generation)
  }

  /** The newest edit of the live session waits for the timer, or is queued, or is
      the one that was sent last. */
  predicate NewestKept(s: Hook) {
    var h := s.history;
    s.mounted && h.edits != [] && h.edits[|h.edits| - 1].generation == s.generation ==>
      var newest := |h.edits| - 1;
      if s.pending.Some? then s.pending.value.edit == newest
      else if s.queued.Some? then s.queued.value.edit == newest
      else s.last.Some? && s.last.value.edit == newest
  }

  /** How a running PUT, a rotation and the route fit together. */
  predicate RotationTracked(s: Hook) {
    s.mounted ==>
      && (s.rotated.Some? ==>
            s.running != [] && s.running[0].phase != Sent && s.running[0].phase.target == s.rotated.value
            && IsCurrent(s, s.running[0].request))
      && (s.running != [] && s.running[0].phase != Sent && IsCurrent(s, s.running[0].request) ==>
            s.rotated == Some(s.running[0].phase.target))
      && (s.running != [] && s.running[0].phase == Sent && s.running[0].request.generation == s.generation ==>
            s.docId == s.running[0].request.doc)
      && (s.running != [] && s.running[0].phase != Sent ==>
            s.running[0].phase.target != s.running[0].request.doc
            && s.history.acknowledged == Some(s.running[0].request.edit))
  }

  predicate StatusTrue(s: Hook) {
    s.mounted && s.status == Saved ==>
      && s.last.Some? && s.last.value.generation == s.generation
      && (s.running == [] ==> s.history.acknowledged == Some(s.last.value.edit))
  }

  predicate Serial(s: Hook) {
    && OneInFlight(s) && DraftsInOrder(s) && NewestKept(s) && RotationTracked(s) && StatusTrue(s)
    && (s.queued.Some? ==> s.mounted && s.queued.value.generation == s.generation)
    && (forall i, j :: 0 <= i < j < |s.history.edits| ==>
        s.history.edits[i].generation <= s.history.edits[j].generation)
    && (forall i :: 0 <= i < |s.history.edits| ==> s.history.edits[i].generation <= s.generation)
  }

  lemma SettleSerial(s: Hook)
    requires |s.running| == 1 && Serial(s) && (s.mounted ==> s.rotated == None)
    requires s.mounted && s.status == Saved ==> s.history.acknowledged == Some(s.running[0].request.edit)
    requires s.queued.Some? ==> DraftOk(s.history, s.queued.value)
    ensures Serial(Settle(s, 0))
  {
    assert s.running[..0] + s.running[1..] == [];
  }

  lemma ScheduleSerial(s: Hook, input: SaveInput)
    requires Serial(s) && s.mounted
    ensures Serial(Step(s, Schedule(input)))
  {
  }

  lemma TimerSerial(s: Hook)
    requires Isolated(s) && Serial(s) && s.timer
    ensures Serial(Step(s, TimerFires))
  {
  }

  lemma FailsSerial(s: Hook, i: nat)
    requires Isolated(s) && Serial(s) && Enabled(s, PutFails(i))
    ensures Serial(Step(s, PutFails(i)))
  {
    SettleSerial(if IsCurrent(s, s.running[i].request) then s.(status := Error) else s);
  }

  lemma SucceedsSerial(s: Hook, i: nat, document: DocId)
    requires Isolated(s) && Serial(s) && Enabled(s, PutSucceeds(i, document))
    ensures Serial(Step(s, PutSucceeds(i, document)))
  {
    var r := s.running[i].request;
    var t := s.(history := s.history.(acknowledged := Some(r.edit)));
    if !IsCurrent(s, r) {
      SettleSerial(t);
    } else if document == r.doc {
      SettleSerial(t.(status := Saved));
    } else {
      RotationSerial(s, i, document);
    }
  }

  lemma InvalidationSerial(s: Hook, i: nat)
    requires Isolated(s) && Serial(s) && Enabled(s, InvalidationDone(i))
    ensures Serial(Step(s, InvalidationDone(i)))
  {
    if !IsCurrent(s, s.running[i].request) {
      SettleSerial(s);
    }
  }

  lemma RotationSerial(s: Hook, i: nat, document: DocId)
    requires Isolated(s) && Serial(s) && Enabled(s, PutSucceeds(i, document))
    requires IsCurrent(s, s.running[i].request) && document != s.running[i].request.doc
    ensures Serial(Step(s, PutSucceeds(i, document)))
  {
  }

  lemma RouteSerial(s: Hook, doc: DocId)
    requires Isolated(s) && Serial(s) && s.mounted
    ensures Serial(RouteEffect(s, doc))
  {
    if s.rotated == Some(doc) {
      RotationLandsSerial(s, doc);
    }
  }

  lemma RotationLandsSerial(s: Hook, doc: DocId)
    requires Isolated(s) && Serial(s) && s.mounted && s.rotated == Some(doc)
    ensures Serial(RouteEffect(s, doc))
  {
  }

  lemma RetrySerial(s: Hook)
    requires Isolated(s) && Serial(s) && s.mounted && RetryHarmless(s)
    ensures Serial(Step(s, Retry))
  {
    if s.last.Some? && IsCurrent(s, s.last.value) {
      IdleRetrySerial(s);
    }
  }

  lemma IdleRetrySerial(s: Hook)
    requires Isolated(s) && Serial(s) && s.mounted && s.running == []
    ensures Serial(Step(s, Retry))
  {
  }

  lemma UnmountSerial(s: Hook)
    requires Serial(s) && s.mounted
    ensures Serial(Step(s, Unmount))
  {
  }

  lemma StepSerial(s: Hook, e: Event)
    requires Isolated(s) && Serial(s) && Guarded(s, e) && Enabled(s, e)
    ensures Serial(Step(s, e))
  {
    match e
    case Schedule(input) => ScheduleSerial(s, input);
    case TimerFires => TimerSerial(s);
    case PutFails(i) => FailsSerial(s, i);
    case PutSucceeds(i, document) => SucceedsSerial(s, i, document);
    case InvalidationDone(i) => InvalidationSerial(s, i);
    case NavigationDone(i) => SettleSerial(s);
    case RouteChanges(doc) => RouteSerial(s, doc);
    case Retry => RetrySerial(s);
    case Unmount => UnmountSerial(s);
  }

  lemma {:induction false} GuardedRunSerial(s: Hook, events: seq<Event>)
    requires Isolated(s) && Serial(s) && GuardedRun(s, events)
    ensures Run(s, events).Some? && Isolated(Run(s, events).value) && Serial(Run(s, events).value)
    decreases |events|
  {
    if events == [] {
    } else {
      StepIsolated(s, events[0]);
      StepSerial(s, events[0]);
      GuardedRunSerial(Step(s, events[0]), events[1..]);
    }
  }

  /** The session has an edit, and `newest` is the last one. */
  predicate NewestOfSession(s: Hook, newest: nat) {
    newest < |s.history.edits| && newest == |s.history.edits| - 1 && s.history.edits[newest].generation == s.generation
  }

  /** From the first render on, while retry is only used when harmless: at most one
      PUT runs, PUTs follow edit order, the newest edit of the session is waiting,
      queued or sent last, and "saved" with nothing waiting or running means that
      the newest edit is the one the server has acknowledged. */
  lemma {:induction false} SerialisedAndNothingLost(doc: DocId, events: seq<Event>)
    requires GuardedRun(Mounted(doc), events)
    ensures Run(Mounted(doc), events).Some?
    ensures var s := Run(Mounted(doc), events).value;
            && |s.running| <= 1 && InEditOrder(s.history.puts)
            && (s.mounted ==> forall newest :: NewestOfSession(s, newest) ==>
                  || (s.pending.Some? && s.pending.value.edit == newest && s.timer)
                  || (s.queued.Some? && s.queued.value.edit == newest && s.running != [])
                  || (s.last.Some? && s.last.value.edit == newest))
            && (s.mounted && s.status == Saved && !s.timer && s.running == [] ==>
                  s.history.edits != [] && NewestOfSession(s, |s.history.edits| - 1)
                  && s.history.acknowledged == Some(|s.history.edits| - 1))
  {
    GuardedRunSerial(Mounted(doc), events);
  }

  // ----- retry -----

  /** When nothing waits, retrying after a failure sends the newest edit again. */
  lemma RetrySendsNewest(s: Hook, newest: nat)
    requires Isolated(s) && Serial(s) && s.mounted && s.running == [] && !s.timer
    requires NewestOfSession(s, newest) && s.last.Some? && IsCurrent(s, s.last.value)
    ensures var t := Step(s, Retry);
            && |t.history.puts| == |s.history.puts| + 1
            && t.history.puts[|s.history.puts|].request.edit == newest
            && t.status == Saving
  {
  }

  /** Retry keeps a single PUT in flight exactly when none was running, or when it
      has nothing current to send. */
  lemma RetrySingleIff(s: Hook)
    requires OneInFlight(s) && s.mounted
    ensures OneInFlight(Step(s, Retry)) <==> RetryHarmless(s)
  {
  }

  /** The retry button can be showing while a PUT runs: a failed PUT, with the timer
      of a later edit still to fire, leaves the status at "error" when that edit is
      sent, and pressing retry then sends it a second time. */
  lemma RetryWhileRunningSendsTwice(a: SaveInput, b: SaveInput)
    ensures var events := [Schedule(a), TimerFires, Schedule(b), PutFails(0), TimerFires];
            Run(Mounted("d"), events).Some?
            && var s := Run(Mounted("d"), events).value;
               && s.mounted && s.status == Error && |s.running| == 1
               && |Step(s, Retry).running| == 2
               && Step(s, Retry).running[0].request == Step(s, Retry).running[1].request
  {
    var s0 := Mounted("d");
    var s1 := Step(s0, Schedule(a));
    var s2 := Step(s1, TimerFires);
    var s3 := Step(s2, Schedule(b));
    assert s3.running[..0] + s3.running[1..] == [];
    var s4 := Step(s3, PutFails(0));
    var s5 := Step(s4, TimerFires);
    var e := [Schedule(a), TimerFires, Schedule(b), PutFails(0), TimerFires];
    assert Run(s5, e[5..]) == Some(s5);
    assert e[4..][1..] == e[5..] && Run(s4, e[4..]) == Some(s5);
    assert e[3..][1..] == e[4..] && Run(s3, e[3..]) == Some(s5);
    assert e[2..][1..] == e[3..] && Run(s2, e[2..]) == Some(s5);
    assert e[1..][1..] == e[2..] && Run(s1, e[1..]) == Some(s5);
    assert Run(s0, e) == Some(s5);
  }
}

/** The vault's debounced autosave as a state machine: every callback of the
    hook, every answer of the server and every route change is one event. */
module Autosave {
  import opened Options

  type DocId = string

  datatype SaveInput = SaveInput(content: string, title: string)

  /** `edit` numbers the edit a draft came from; the hook itself keeps only the input. */
  datatype Draft = Draft(generation: nat, input: SaveInput, edit: nat)

  datatype Request = Request(doc: DocId, generation: nat, input: SaveInput, edit: nat)

  datatype Status = Idle | Saving | Saved | Error

  /** How far a running mutation is: waiting for the server, or, after a rotation
      response, waiting for the query cache and then for the router. */
  datatype Phase = Sent | Invalidating(target: DocId) | Navigating(target: DocId)

  datatype Mutation = Mutation(request: Request, phase: Phase)

  /** An edit, with the place of its document in the session. */
  datatype Edit = Edit(generation: nat, position: nat, input: SaveInput)

  datatype Put = Put(request: Request, position: nat)

  /** A PUT to `from` of session `generation` answered with the new id `to`. */
  datatype Rotation = Rotation(generation: nat, from: DocId, to: DocId)

  /** `sessions[g]` lists the documents that session g has been routed to. */
  datatype History = History(
    edits: seq<Edit>, puts: seq<Put>, rotations: seq<Rotation>, sessions: seq<seq<DocId>>, acknowledged: Option<nat>)

  datatype Hook = Hook(
    docId: DocId, generation: nat, pending: Option<Draft>, queued: Option<Draft>,
    inFlight: bool, last: Option<Request>, timer: bool, rotated: Option<DocId>,
    status: Status, mounted: bool, running: seq<Mutation>, history: History)

  datatype Event =
    | Schedule(input: SaveInput)
    | TimerFires
    | PutFails(i: nat)
    | PutSucceeds(i: nat, document: DocId)
    | InvalidationDone(i: nat)
    | NavigationDone(i: nat)
    | RouteChanges(doc: DocId)
    | Retry
    | Unmount

  function Mounted(doc: DocId): Hook {
    Hook(doc, 0, None, None, false, None, false, None, Idle, true, [], History([], [], [], [[doc]], None))
  }

  // ----- the callbacks -----

  predicate IsCurrent(s: Hook, r: Request) {
    r.doc == s.docId && r.generation == s.generation
  }

  /** Where the current session is in its list of documents. */
  function Position(s: Hook): nat {
    if s.generation < |s.history.sessions| && s.history.sessions[s.generation] != []
    then |s.history.sessions[s.generation]| - 1 else 0
  }

  /** `mutateSave(request)`. */
  function Send(s: Hook, r: Request): Hook {
    s.(running := s.running + [Mutation(r, Sent)],
       history := s.history.(puts := s.history.puts + [Put(r, Position(s))]))
  }

  function Dispatch(s: Hook, d: Draft): Hook {
    if d.generation != s.generation then s
    else if s.inFlight then s.(queued := Some(d))
    else
      var r := Request(s.docId, d.generation, d.input, d.edit);
      Send(s.(last := Some(r), inFlight := true), r)
  }

  /** `onSettled` of the mutation at `i`: chain the queued draft or go idle. */
  function Settle(s: Hook, i: nat): Hook
    requires i < |s.running|
  {
    var t := s.(running := s.running[..i] + s.running[i + 1..], queued := None);
    match s.queued
    case Some(d) =>
      if d.generation == s.generation
      then
        var r := Request(s.docId, d.generation, d.input, d.edit);
        Send(t.(last := Some(r), status := Saving), r)
      else t.(inFlight := false)
    case None => t.(inFlight := false)
  }

  /** The layout effect on `docId`. */
  function RouteEffect(s: Hook, doc: DocId): Hook {
    if s.docId == doc then s
    else if s.rotated == Some(doc) && s.generation < |s.history.sessions|
    then s.(docId := doc, rotated := None,
            history := s.history.(
              sessions := s.history.sessions[s.generation := s.history.sessions[s.generation] + [doc]]))
    else s.(docId := doc, rotated := None, generation := s.generation + 1, timer := false,
            pending := None, queued := None, status := Idle,
            history := s.history.(sessions := s.history.sessions + [[doc]]))
  }

  /** Whether an event can happen.  A navigation is done once the route change has
      landed, or once another navigation has replaced it. */
  predicate Enabled(s: Hook, e: Event) {
    match e
    case Schedule(_) => s.mounted
    case TimerFires => s.timer
    case PutFails(i) => i < |s.running| && s.running[i].phase == Sent
    case PutSucceeds(i, _) => i < |s.running| && s.running[i].phase == Sent
    case InvalidationDone(i) => i < |s.running| && s.running[i].phase.Invalidating?
    case NavigationDone(i) =>
      i < |s.running| && s.running[i].phase.Navigating?
      && (s.docId == s.running[i].phase.target || s.generation != s.running[i].request.generation)
    case RouteChanges(_) => s.mounted
    case Retry => s.mounted
    case Unmount => s.mounted
  }

  function Step(s: Hook, e: Event): Hook
    requires Enabled(s, e)
  {
    match e
    case Schedule(input) =>
      s.(pending := Some(Draft(s.generation, input, |s.history.edits|)), status := Saving, timer := true,
         history := s.history.(edits := s.history.edits + [Edit(s.generation, Position(s), input)]))
    case TimerFires =>
      var t := s.(timer := false, pending := None);
      (match s.pending
       case None => t
       case Some(d) => Dispatch(t, d))
    case PutFails(i) =>
      Settle(if IsCurrent(s, s.running[i].request) then s.(status := Error) else s, i)
    case PutSucceeds(i, document) =>
      var r := s.running[i].request;
      var t := s.(history := s.history.(acknowledged := Some(r.edit)));
      if !IsCurrent(s, r) then Settle(t, i)
      else if document == r.doc then Settle(t.(status := Saved), i)
      else t.(rotated := Some(document), running := s.running[i := Mutation(r, Invalidating(document))],
              history := t.history.(rotations := s.history.rotations + [Rotation(r.generation, r.doc, document)]))
    case InvalidationDone(i) =>
      var m := s.running[i];
      if !IsCurrent(s, m.request) then Settle(s, i)
      else s.(status := Saved, running := s.running[i := Mutation(m.request, Navigating(m.phase.target))])
    case NavigationDone(i) => Settle(s, i)
    case RouteChanges(doc) => RouteEffect(s, doc)
    case Retry =>
      (match s.last
       case None => s
       case Some(r) => if IsCurrent(s, r) then Send(s.(status := Saving, inFlight := true), r) else s)
    case Unmount =>
      s.(mounted := false, generation := s.generation + 1, queued := None, timer := false,
         history := s.history.(sessions := s.history.sessions + [[s.docId]]))
  }

  function Run(s: Hook, events: seq<Event>): Option<Hook>
    decreases |events|
  {
    if events == [] then Some(s)
    else if Enabled(s, events[0]) then Run(Step(s, events[0]), events[1..])
    else None
  }

  // ----- isolation -----

  /** The draft carries an edit of its own session. */
  predicate DraftOk(h: History, d: Draft) {
    d.edit < |h.edits| && h.edits[d.edit].generation == d.generation && h.edits[d.edit].input == d.input
  }

  /** The PUT carries an edit of its own session, made on the document it is sent
      to or on one that came earlier in that session. */
  predicate PutOk(h: History, p: Put) {
    var r := p.request;
    && DraftOk(h, Draft(r.generation, r.input, r.edit))
    && r.generation < |h.sessions| && h.edits[r.edit].position <= p.position < |h.sessions[r.generation]|
    && h.sessions[r.generation][p.position] == r.doc
  }

  /** A session moves from one document to the next only when a PUT of that very
      session to the one was answered with the other. */
  predicate SessionOk(h: History, g: nat)
    requires g < |h.sessions|
  {
    && h.sessions[g] != []
    && forall k :: 0 < k < |h.sessions[g]| ==> Rotation(g, h.sessions[g][k - 1], h.sessions[g][k]) in h.rotations
  }

  predicate HistoryOk(h: History) {
    && (forall g :: 0 <= g < |h.sessions| ==> SessionOk(h, g))
    && (forall i :: 0 <= i < |h.edits| ==>
          h.edits[i].generation < |h.sessions| && h.edits[i].position < |h.sessions[h.edits[i].generation]|)
    && (forall i :: 0 <= i < |h.puts| ==> PutOk(h, h.puts[i]))
  }

  /** Invariant of every run, whatever the user does. */
  predicate Isolated(s: Hook) {
    var h := s.history;
    && HistoryOk(h) && |h.sessions| == s.generation + 1
    && h.sessions[s.generation] != [] && h.sessions[s.generation][|h.sessions[s.generation]| - 1] == s.docId
    && (s.pending.Some? ==> DraftOk(h, s.pending.value) && (s.timer ==> s.pending.value.generation == s.generation))
    && (s.queued.Some? ==> DraftOk(h, s.queued.value) && s.queued.value.generation == s.generation)
    && (s.last.Some? ==> DraftOk(h, Draft(s.last.value.generation, s.last.value.input, s.last.value.edit)))
    && (s.rotated.Some? && s.mounted ==> Rotation(s.generation, s.docId, s.rotated.value) in h.rotations)
    && (!s.mounted ==> !s.timer && s.queued == None)
  }

  lemma SendIsolated(s: Hook, r: Request)
    requires Isolated(s) && DraftOk(s.history, Draft(r.generation, r.input, r.edit)) && IsCurrent(s, r)
    ensures Isolated(Send(s, r))
  {
    var t := Send(s, r);
    assert PutOk(t.history, Put(r, Position(s))) by {
      assert s.history.edits[r.edit].position < |s.history.sessions[r.generation]|;
    }
    forall i | 0 <= i < |t.history.puts|
      ensures PutOk(t.history, t.history.puts[i])
    {
      if i < |s.history.puts| {
        assert PutOk(s.history, s.history.puts[i]);
      }
    }
    assert forall g :: 0 <= g < |t.history.sessions| ==> SessionOk(s.history, g) ==> SessionOk(t.history, g);
  }

  lemma SettleIsolated(s: Hook, i: nat)
    requires Isolated(s) && i < |s.running|
    ensures Isolated(Settle(s, i))
  {
    if s.queued.Some? {
      var d := s.queued.value;
      var r := Request(s.docId, d.generation, d.input, d.edit);
      var t := s.(running := s.running[..i] + s.running[i + 1..], queued := None, last := Some(r), status := Saving);
      SendIsolated(t, r);
    }
  }

  /** Adding edits, rotations or sessions leaves what was recorded as it was. */
  lemma HistoryGrows(h: History, k: History)
    requires HistoryOk(h)
    requires k.puts == h.puts && |h.edits| <= |k.edits| && k.edits[..|h.edits|] == h.edits
    requires |h.sessions| <= |k.sessions|
    requires forall g :: 0 <= g < |h.sessions| ==>
        |h.sessions[g]| <= |k.sessions[g]| && k.sessions[g][..|h.sessions[g]|] == h.sessions[g]
    ensures forall i :: 0 <= i < |k.puts| ==> PutOk(k, k.puts[i])
  {
    forall i | 0 <= i < |k.puts|
      ensures PutOk(k, k.puts[i])
    {
      var r := h.puts[i].request;
      assert PutOk(h, h.puts[i]);
      assert k.edits[r.edit] == k.edits[..|h.edits|][r.edit] == h.edits[r.edit];
      assert k.sessions[r.generation][h.puts[i].position] ==
          k.sessions[r.generation][..|h.sessions[r.generation]|][h.puts[i].position];
    }
  }

  lemma ScheduleIsolated(s: Hook, input: SaveInput)
    requires Isolated(s) && s.mounted
    ensures Isolated(Step(s, Schedule(input)))
  {
    var t := Step(s, Schedule(input));
    HistoryGrows(s.history, t.history);
    assert forall g :: 0 <= g < |t.history.sessions| ==> SessionOk(s.history, g) ==> SessionOk(t.history, g);
  }

  lemma AcknowledgedIsolated(s: Hook, edit: nat)
    requires Isolated(s)
    ensures Isolated(s.(history := s.history.(acknowledged := Some(edit))))
  {
    var t := s.(history := s.history.(acknowledged := Some(edit)));
    HistoryGrows(s.history, t.history);
    assert forall g :: 0 <= g < |t.history.sessions| ==> SessionOk(s.history, g) ==> SessionOk(t.history, g);
  }

  lemma RotationIsolated(s: Hook, i: nat, document: DocId)
    requires Isolated(s) && Enabled(s, PutSucceeds(i, document))
    requires IsCurrent(s, s.running[i].request) && document != s.running[i].request.doc
    ensures Isolated(Step(s, PutSucceeds(i, document)))
  {
    var u := Step(s, PutSucceeds(i, document));
    HistoryGrows(s.history, u.history);
    assert forall g :: 0 <= g < |u.history.sessions| ==> SessionOk(s.history, g) ==> SessionOk(u.history, g);
  }

  lemma SucceedsIsolated(s: Hook, i: nat, document: DocId)
    requires Isolated(s) && Enabled(s, PutSucceeds(i, document))
    ensures Isolated(Step(s, PutSucceeds(i, document)))
  {
    var r := s.running[i].request;
    var t := s.(history := s.history.(acknowledged := Some(r.edit)));
    AcknowledgedIsolated(s, r.edit);
    if !IsCurrent(s, r) {
      SettleIsolated(t, i);
    } else if document == r.doc {
      SettleIsolated(t.(status := Saved), i);
    } else {
      RotationIsolated(s, i, document);
    }
  }

  lemma RotationLandsIsolated(s: Hook, doc: DocId)
    requires Isolated(s) && s.mounted && s.docId != doc && s.rotated == Some(doc)
    ensures Isolated(RouteEffect(s, doc))
  {
    var g := s.generation;
    var h, k := s.history, RouteEffect(s, doc).history;
    assert k.sessions[g] == h.sessions[g] + [doc];
    assert k.sessions[g][..|h.sessions[g]|] == h.sessions[g];
    HistoryGrows(h, k);
    forall n | 0 <= n < |k.sessions|
      ensures SessionOk(k, n)
    {
      assert SessionOk(h, n);
    }
  }

  lemma NavigationIsolated(s: Hook, doc: DocId)
    requires Isolated(s) && s.mounted && s.docId != doc && s.rotated != Some(doc)
    ensures Isolated(RouteEffect(s, doc))
  {
    var h, k := s.history, RouteEffect(s, doc).history;
    assert k.sessions[..|h.sessions|] == h.sessions;
    assert forall n :: 0 <= n < |h.sessions| ==> k.sessions[n] == h.sessions[n];
    HistoryGrows(h, k);
    forall n | 0 <= n < |k.sessions|
      ensures SessionOk(k, n)
    {
      if n < |h.sessions| {
        assert SessionOk(h, n);
      }
    }
  }

  lemma RouteIsolated(s: Hook, doc: DocId)
    requires Isolated(s) && s.mounted
    ensures Isolated(RouteEffect(s, doc))
  {
    if s.docId != doc {
      if s.rotated == Some(doc) {
        RotationLandsIsolated(s, doc);
      } else {
        NavigationIsolated(s, doc);
      }
    }
  }

  lemma UnmountIsolated(s: Hook)
    requires Isolated(s) && s.mounted
    ensures Isolated(Step(s, Unmount))
  {
    var t := Step(s, Unmount);
    HistoryGrows(s.history, t.history);
    forall g | 0 <= g < |t.history.sessions|
      ensures SessionOk(t.history, g)
    {
      if g < |s.history.sessions| {
        assert SessionOk(s.history, g);
      }
    }
  }

  lemma DispatchIsolated(s: Hook, d: Draft)
    requires Isolated(s) && DraftOk(s.history, d) && s.mounted
    ensures Isolated(Dispatch(s, d))
  {
    if d.generation == s.generation && !s.inFlight {
      var r := Request(s.docId, d.generation, d.input, d.edit);
      SendIsolated(s.(last := Some(r), inFlight := true), r);
    }
  }

  lemma TimerIsolated(s: Hook)
    requires Isolated(s) && Enabled(s, TimerFires)
    ensures Isolated(Step(s, TimerFires))
  {
    if s.pending.Some? {
      DispatchIsolated(s.(timer := false, pending := None), s.pending.value);
    }
  }

  lemma PutEndsIsolated(s: Hook, e: Event)
    requires Isolated(s) && Enabled(s, e) && (e.PutFails? || e.InvalidationDone? || e.NavigationDone?)
    ensures Isolated(Step(s, e))
  {
    match e
    case PutFails(i) =>
      SettleIsolated(if IsCurrent(s, s.running[i].request) then s.(status := Error) else s, i);
    case InvalidationDone(i) =>
      if !IsCurrent(s, s.running[i].request) {
        SettleIsolated(s, i);
      }
    case NavigationDone(i) => SettleIsolated(s, i);
  }

  lemma RetryIsolated(s: Hook)
    requires Isolated(s) && Enabled(s, Retry)
    ensures Isolated(Step(s, Retry))
  {
    if s.last.Some? && IsCurrent(s, s.last.value) {
      SendIsolated(s.(status := Saving, inFlight := true), s.last.value);
    }
  }

  lemma StepIsolated(s: Hook, e: Event)
    requires Isolated(s) && Enabled(s, e)
    ensures Isolated(Step(s, e))
  {
    match e
    case Schedule(input) => ScheduleIsolated(s, input);
    case TimerFires => TimerIsolated(s);
    case PutSucceeds(i, document) => SucceedsIsolated(s, i, document);
    case RouteChanges(doc) => RouteIsolated(s, doc);
    case Retry => RetryIsolated(s);
    case Unmount => UnmountIsolated(s);
    case _ => PutEndsIsolated(s, e);
  }

  /** Isolation.  In every run, however retries, rotations and navigations fall,
      each PUT carries an input that was entered in the same session, on the
      document it is sent to or on one that became that document only through
      this session's own save responses. */
  lemma {:induction false} Isolation(s: Hook, events: seq<Event>)
    requires Isolated(s) && Run(s, events).Some?
    ensures Isolated(Run(s, events).value)
    decreases |events|
  {
    if events == [] {
    } else {
      StepIsolated(s, events[0]);
      Isolation(Step(s, events[0]), events[1..]);
    }
  }

  lemma MountedIsolated(doc: DocId)
    ensures Isolated(Mounted(doc))
  {
  }

  /** From mounting on: every PUT carries an edit of its own session, on the document
      it is sent to or an earlier one of the session, and a session has only moved
      where its own save responses led. */
  lemma {:induction false} IsolationFromMount(doc: DocId, events: seq<Event>)
    requires Run(Mounted(doc), events).Some?
    ensures var h := Run(Mounted(doc), events).value.history;
            && (forall i :: 0 <= i < |h.puts| ==> PutOk(h, h.puts[i]))
            && forall g :: 0 <= g < |h.sessions| ==> SessionOk(h, g)
  {
    MountedIsolated(doc);
    Isolation(Mounted(doc), events);
  }

  lemma SettleKeepsIsolation(s: Hook, i: nat)
    requires i < |s.running|
    ensures Isolated(s) ==> Isolated(Settle(s, i))
  {
    if Isolated(s) {
      SettleIsolated(s, i);
    }
  }

  lemma StepKeepsIsolation(s: Hook, e: Event)
    requires Enabled(s, e)
    ensures Isolated(s) ==> Isolated(Step(s, e))
  {
    if Isolated(s) {
      StepIsolated(s, e);
    }
  }

  /** From `s` to `t`, at most one PUT was sent, for the live session and document. */
  predicate SendsLive(s: Hook, t: Hook) {
    var before, after := s.history.puts, t.history.puts;
    || after == before
    || (|after| == |before| + 1 && after[..|before|] == before
        && s.mounted && s.generation == t.generation && IsCurrent(t, after[|before|].request))
  }

  lemma SettleSendsLive(s: Hook, i: nat)
    requires (s.queued.Some? ==> s.mounted) && i < |s.running|
    ensures SendsLive(s, Settle(s, i))
  {
  }

  /** A step sends at most one PUT, and only for the live session and its current
      document: after a navigation away or an unmount no stale draft is sent. */
  lemma OnlyLiveSessionSends(s: Hook, e: Event)
    requires s.queued.Some? || s.timer ==> s.mounted
    requires Enabled(s, e)
    ensures SendsLive(s, Step(s, e))
  {
    match e
    case PutFails(i) => SettleSendsLive(if IsCurrent(s, s.running[i].request) then s.(status := Error) else s, i);
    case PutSucceeds(i, document) =>
      var t := s.(history := s.history.(acknowledged := Some(s.running[i].request.edit)));
      SettleSendsLive(t, i);
      SettleSendsLive(t.(status := Saved), i);
    case InvalidationDone(i) => SettleSendsLive(s, i);
    case NavigationDone(i) => SettleSendsLive(s, i);
    case _ =>
  }

  lemma LiveFlags(s: Hook)
    requires Isolated(s)
    ensures s.queued.Some? || s.timer ==> s.mounted
  {
  }

  /** `after` extends `before` by PUTs of session g or later ones only. */
  predicate ExtendsWithLive(before: seq<Put>, after: seq<Put>, g: nat) {
    && |before| <= |after| && after[..|before|] == before
    && forall i :: |before| <= i < |after| ==> after[i].request.generation >= g
  }

  lemma ExtendsTransitive(a: seq<Put>, b: seq<Put>, c: seq<Put>, g: nat, h: nat)
    requires ExtendsWithLive(a, b, g) && ExtendsWithLive(b, c, h) && g <= h
    ensures ExtendsWithLive(a, c, g)
  {
    assert c[..|a|] == b[..|a|];
    assert forall i :: |a| <= i < |b| ==> c[i] == c[..|b|][i] == b[i];
  }

  predicate NothingStale(s: Hook, t: Hook) {
    && s.generation <= t.generation && (t.mounted ==> s.mounted)
    && ExtendsWithLive(s.history.puts, t.history.puts, s.generation)
    && (!s.mounted ==> t.history.puts == s.history.puts)
  }

  lemma SessionsAdvance(s: Hook, e: Event)
    requires Enabled(s, e)
    ensures s.generation <= Step(s, e).generation && (Step(s, e).mounted ==> s.mounted)
  {
    match e
    case PutSucceeds(i, document) => SucceedsAdvances(s, i, document);
    case TimerFires => SendingAdvances(s, e);
    case Retry => SendingAdvances(s, e);
    case _ =>
  }

  lemma SucceedsAdvances(s: Hook, i: nat, document: DocId)
    requires Enabled(s, PutSucceeds(i, document))
    ensures var t := Step(s, PutSucceeds(i, document)); s.generation <= t.generation && (t.mounted ==> s.mounted)
  {
  }

  lemma SendingAdvances(s: Hook, e: Event)
    requires Enabled(s, e) && (e.TimerFires? || e.Retry?)
    ensures s.generation <= Step(s, e).generation && (Step(s, e).mounted ==> s.mounted)
  {
  }

  lemma LiveSendIsNotStale(s: Hook, t: Hook)
    requires SendsLive(s, t) && s.generation <= t.generation && (t.mounted ==> s.mounted)
    ensures NothingStale(s, t)
  {
  }

  lemma StepSendsNothingStale(s: Hook, e: Event)
    requires s.queued.Some? || s.timer ==> s.mounted
    requires Enabled(s, e)
    ensures NothingStale(s, Step(s, e))
  {
    OnlyLiveSessionSends(s, e);
    SessionsAdvance(s, e);
    LiveSendIsNotStale(s, Step(s, e));
  }

  lemma NothingStaleTransitive(s: Hook, t: Hook, u: Hook)
    requires NothingStale(s, t) && NothingStale(t, u)
    ensures NothingStale(s, u)
  {
    ExtendsTransitive(s.history.puts, t.history.puts, u.history.puts, s.generation, t.generation);
  }

  /** Once a session has ended, by navigation or by unmounting, none of its drafts
      is ever sent; once the hook is unmounted nothing is. */
  lemma {:induction false} NothingStaleIsSent(s: Hook, events: seq<Event>)
    requires Isolated(s) && Run(s, events).Some?
    ensures NothingStale(s, Run(s, events).value)
    decreases |events|
  {
    if events == [] {
    } else {
      StepIsolated(s, events[0]);
      LiveFlags(s);
      StepSendsNothingStale(s, events[0]);
      NothingStaleIsSent(Step(s, events[0]), events[1..]);
      NothingStaleTransitive(s, Step(s, events[0]), Run(s, events).value);
    }
  }

  // ----- the hook as it is written -----

  class AutosaveHook {
    var docId: DocId
    var generation: nat
    var pending: Option<Draft>
    var queued: Option<Draft>
    var inFlight: bool
    var last: Option<Request>
    var timer: bool
    var rotated: Option<DocId>
    var status: Status
    var mounted: bool
    /** Mutations of the query library that have not settled. */
    var running: seq<Mutation>
    /** What happened so far; the hook keeps no such record. */
    var history: History

    function State(): Hook
      reads this
    {
      Hook(docId, generation, pending, queued, inFlight, last, timer, rotated, status, mounted, running, history)
    }

    constructor (doc: DocId)
      ensures State() == Mounted(doc) && Isolated(State())
    {
      MountedIsolated(doc);
      docId, generation, pending, queued, inFlight, last := doc, 0, None, None, false, None;
      timer, rotated, status, mounted, running := false, None, Idle, true, [];
      history := History([], [], [], [[doc]], None);
    }

    predicate Current(r: Request)
      reads this
    {
      r.doc == docId && r.generation == generation
    }

    method MutateSave(r: Request)
      modifies this`running, this`history
      ensures State() == Send(old(State()), r)
    {
      history := history.(puts := history.puts + [Put(r, Position(State()))]);
      running := running + [Mutation(r, Sent)];
    }

    method DispatchDraft(d: Draft)
      modifies this
      ensures State() == Dispatch(old(State()), d)
    {
      if d.generation != generation {
        return;
      }
      if inFlight {
        queued := Some(d);
        return;
      }
      var request := Request(docId, d.generation, d.input, d.edit);
      last := Some(request);
      inFlight := true;
      MutateSave(request);
    }

    method OnSettled(i: nat)
      requires i < |running|
      modifies this
      ensures State() == Settle(old(State()), i)
      ensures Isolated(old(State())) ==> Isolated(State())
    {
      SettleKeepsIsolation(State(), i);
      running := running[..i] + running[i + 1..];
      var next := queued;
      queued := None;
      if next.Some? && next.value.generation == generation {
        var request := Request(docId, next.value.generation, next.value.input, next.value.edit);
        last := Some(request);
        status := Saving;
        MutateSave(request);
        return;
      }
      inFlight := false;
    }

    method OnSchedule(input: SaveInput)
      requires mounted
      modifies this
      ensures State() == Step(old(State()), Schedule(input))
      ensures Isolated(old(State())) ==> Isolated(State())
    {
      StepKeepsIsolation(State(), Schedule(input));
      pending := Some(Draft(generation, input, |history.edits|));
      history := history.(edits := history.edits + [Edit(generation, Position(State()), input)]);
      status := Saving;
      timer := true;
    }

    method OnTimer()
      requires timer
      modifies this
      ensures State() == Step(old(State()), TimerFires)
      ensures Isolated(old(State())) ==> Isolated(State())
    {
      StepKeepsIsolation(State(), TimerFires);
      timer := false;
      var draft := pending;
      pending := None;
      if draft.None? {
        return;
      }
      DispatchDraft(draft.value);
    }

    method OnError(i: nat)
      requires Enabled(State(), PutFails(i))
      modifies this
      ensures State() == Step(old(State()), PutFails(i))
      ensures Isolated(old(State())) ==> Isolated(State())
    {
      StepKeepsIsolation(State(), PutFails(i));
      if Current(running[i].request) {
        status := Error;
      }
      OnSettled(i);
    }

    method OnSuccess(i: nat, document: DocId)
      requires Enabled(State(), PutSucceeds(i, document))
      modifies this
      ensures State() == Step(old(State()), PutSucceeds(i, document))
      ensures Isolated(old(State())) ==> Isolated(State())
    {
      StepKeepsIsolation(State(), PutSucceeds(i, document));
      var request := running[i].request;
      history := history.(acknowledged := Some(request.edit));
      if !Current(request) {
        OnSettled(i);
        return;
      }
      if document != request.doc {
        rotated := Some(document);
        history := history.(rotations := history.rotations + [Rotation(request.generation, request.doc, document)]);
        running := running[i := Mutation(request, Invalidating(document))];
        return;
      }
      status := Saved;
      OnSettled(i);
    }

    /** After `invalidateQueries`, before `navigate`. */
    method OnInvalidated(i: nat)
      requires Enabled(State(), InvalidationDone(i))
      modifies this
      ensures State() == Step(old(State()), InvalidationDone(i))
      ensures Isolated(old(State())) ==> Isolated(State())
    {
      StepKeepsIsolation(State(), InvalidationDone(i));
      var request, target := running[i].request, running[i].phase.target;
      if !Current(request) {
        OnSettled(i);
        return;
      }
      status := Saved;
      running := running[i := Mutation(request, Navigating(target))];
    }

    method OnNavigated(i: nat)
      requires Enabled(State(), NavigationDone(i))
      modifies this
      ensures State() == Step(old(State()), NavigationDone(i))
      ensures Isolated(old(State())) ==> Isolated(State())
    {
      StepKeepsIsolation(State(), NavigationDone(i));
      OnSettled(i);
    }

    /** Another document in the same mount: a new session, with nothing pending. */
    method StartSession(doc: DocId)
      requires docId != doc && rotated != Some(doc)
      modifies this
      ensures State() == RouteEffect(old(State()), doc)
    {
      docId := doc;
      rotated := None;
      generation := generation + 1;
      timer := false;
      pending := None;
      queued := None;
      status := Idle;
      history := history.(sessions := history.sessions + [[doc]]);
    }

    /** The navigation to the rotated document has landed: the session goes on. */
    method LandRotation(doc: DocId)
      requires docId != doc && rotated == Some(doc) && generation < |history.sessions|
      modifies this`docId, this`rotated, this`history
      ensures State() == RouteEffect(old(State()), doc)
    {
      docId := doc;
      rotated := None;
      history := history.(sessions := history.sessions[generation := history.sessions[generation] + [doc]]);
    }

    method OnRoute(doc: DocId)
      requires mounted && generation < |history.sessions|
      modifies this
      ensures State() == Step(old(State()), RouteChanges(doc))
      ensures Isolated(old(State())) ==> Isolated(State())
    {
      StepKeepsIsolation(State(), RouteChanges(doc));
      if docId == doc {
        return;
      }
      if rotated == Some(doc) {
        LandRotation(doc);
      } else {
        StartSession(doc);
      }
    }

    method OnRetry()
      requires mounted
      modifies this
      ensures State() == Step(old(State()), Retry)
      ensures Isolated(old(State())) ==> Isolated(State())
    {
      StepKeepsIsolation(State(), Retry);
      if last.None? {
        return;
      }
      if !Current(last.value) {
        return;
      }
      status := Saving;
      inFlight := true;
      MutateSave(last.value);
    }

    method OnUnmount()
      requires mounted
      modifies this
      ensures State() == Step(old(State()), Unmount)
      ensures Isolated(old(State())) ==> Isolated(State())
    {
      StepKeepsIsolation(State(), Unmount);
      mounted := false;
      generation := generation + 1;
      queued := None;
      timer := false;
      history := history.(sessions := history.sessions + [[docId]]);
    }
  }
}

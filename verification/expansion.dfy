/** Expanding a search hit along the entity graph: a breadth-first search with
    hop decay and a bounded frontier. */
module Expansion {
  import opened Ranking
  import opened Related
  import Sorting

  const FRONTIER_MAX := 100

  /** Decay of an entity `k` related_to edges away from a mentioned one. */
  function Decay(k: nat): real {
    if k == 0 then 0.95 else 1.0 / (k + 1) as real
  }

  /** The decay of a path of k edges in numbers: 0.95, then 1/2, 1/3 and so on. */
  predicate Decayed(k: nat, d: real) {
    if k == 0 then d == 0.95 else d * (k + 1) as real == 1.0
  }

  lemma DecayInNumbers(k: nat)
    ensures Decayed(k, Decay(k))
  {
    if k > 0 {
      Reciprocal((k + 1) as real);
    }
  }

  lemma Reciprocal(x: real)
    requires x > 0.0
    ensures 1.0 / x * x == 1.0
  {
  }

  lemma DecayOrder(j: nat, k: nat)
    ensures j < k ==> Decay(j) > Decay(k)
    ensures Decay(k) > 0.0
  {
    if 0 < j < k {
      InverseOrder((j + 1) as real, (k + 1) as real);
    } else if j == 0 && k > 0 {
      InverseOrder(1.0, (k + 1) as real);
      if k > 1 {
        InverseOrder(2.0, (k + 1) as real);
      }
    }
  }

  // ----- the frontier -----

  predicate Named(frontier: seq<Ranked>, e: Entity) {
    exists i :: 0 <= i < |frontier| && frontier[i].key == e
  }

  predicate Holds(frontier: seq<Ranked>, e: Entity, least: real) {
    exists i :: 0 <= i < |frontier| && frontier[i].key == e && frontier[i].score >= least
  }

  /** An entry stands for a path of at most `k` edges to its entity. */
  ghost predicate Witnessed(graph: Graph, mentioned: seq<Entity>, r: Ranked, k: nat) {
    exists j :: 0 <= j <= k && r.score == Decay(j) && Reach(graph, mentioned, j, r.key)
  }

  /** Every entry is witnessed; entries of unvisited entities are from the last hop. */
  ghost predicate Sound(graph: Graph, mentioned: seq<Entity>, frontier: seq<Ranked>, visited: set<Entity>, k: nat) {
    forall i :: 0 <= i < |frontier| ==>
      && Witnessed(graph, mentioned, frontier[i], k)
      && (frontier[i].key !in visited ==> Reach(graph, mentioned, k, frontier[i].key))
  }

  ghost predicate Covers(graph: Graph, mentioned: seq<Entity>, frontier: seq<Ranked>, k: nat) {
    forall j, e :: 0 <= j <= k && Reach(graph, mentioned, j, e) ==> Holds(frontier, e, Decay(j))
  }

  /** Successors of visited entities are present, with at least the last hop's decay. */
  ghost predicate Expanded(graph: Graph, frontier: seq<Ranked>, visited: set<Entity>, k: nat) {
    forall v, e :: v in visited && e in graph(v) ==> Holds(frontier, e, Decay(k))
  }

  lemma HoldsMore(frontier: seq<Ranked>, more: seq<Ranked>, e: Entity, a: real, b: real)
    requires Holds(frontier, e, a) && b <= a
    ensures Holds(frontier + more, e, b)
  {
    var i :| 0 <= i < |frontier| && frontier[i].key == e && frontier[i].score >= a;
    assert (frontier + more)[i] == frontier[i];
  }

  /** The entries one hop adds. */
  function Entries(rows: seq<Entity>, decay: real): (r: seq<Ranked>)
    ensures |r| == |rows| && forall i :: 0 <= i < |r| ==> r[i] == Ranked(rows[i], decay)
  {
    seq(|rows|, i requires 0 <= i < |rows| => Ranked(rows[i], decay))
  }

  /** The unvisited names of the frontier, each once. */
  predicate NewNames(frontier: seq<Ranked>, visited: set<Entity>, names: seq<Entity>) {
    && Sorting.Distinct(names)
    && (forall i :: 0 <= i < |names| ==> names[i] !in visited && Named(frontier, names[i]))
    && forall i :: 0 <= i < |frontier| && frontier[i].key !in visited ==> frontier[i].key in names
  }

  lemma HopSound(graph: Graph, mentioned: seq<Entity>, frontier: seq<Ranked>, visited: set<Entity>, k: nat,
                 names: seq<Entity>, rows: seq<Entity>, after: set<Entity>)
    requires Sound(graph, mentioned, frontier, visited, k)
    requires NewNames(frontier, visited, names) && Answers(graph, names, rows)
    requires forall i :: 0 <= i < |frontier| ==> frontier[i].key in after
    ensures Sound(graph, mentioned, frontier + Entries(rows, Decay(k + 1)), after, k + 1)
  {
    var all := frontier + Entries(rows, Decay(k + 1));
    forall i | 0 <= i < |all|
      ensures Witnessed(graph, mentioned, all[i], k + 1)
      ensures all[i].key !in after ==> Reach(graph, mentioned, k + 1, all[i].key)
    {
      if i < |frontier| {
        var j :| 0 <= j <= k && frontier[i].score == Decay(j) && Reach(graph, mentioned, j, frontier[i].key);
      } else {
        var e := all[i].key;
        assert e in rows && IsSuccessor(graph, names, e);
        var n :| 0 <= n < |names| && e in graph(names[n]);
        var m :| 0 <= m < |frontier| && frontier[m].key == names[n];
        assert Reach(graph, mentioned, k, frontier[m].key);
        assert Reach(graph, mentioned, k + 1, e);
      }
    }
  }

  lemma SuccessorHeld(graph: Graph, mentioned: seq<Entity>, frontier: seq<Ranked>, visited: set<Entity>, k: nat,
                      names: seq<Entity>, rows: seq<Entity>, m: Entity, e: Entity)
    requires Expanded(graph, frontier, visited, k) && NewNames(frontier, visited, names) && Answers(graph, names, rows)
    requires e in graph(m) && (m in visited || Named(frontier, m))
    ensures Holds(frontier + Entries(rows, Decay(k + 1)), e, Decay(k + 1))
  {
    var more := Entries(rows, Decay(k + 1));
    DecayOrder(k, k + 1);
    if m in visited {
      HoldsMore(frontier, more, e, Decay(k), Decay(k + 1));
    } else {
      var i :| 0 <= i < |frontier| && frontier[i].key == m;
      var n :| 0 <= n < |names| && names[n] == m;
      assert IsSuccessor(graph, names, e);
      var r :| 0 <= r < |rows| && rows[r] == e;
      assert (frontier + more)[|frontier| + r] == Ranked(e, Decay(k + 1));
    }
  }

  lemma HopCovers(graph: Graph, mentioned: seq<Entity>, frontier: seq<Ranked>, visited: set<Entity>, k: nat,
                  names: seq<Entity>, rows: seq<Entity>)
    requires Covers(graph, mentioned, frontier, k) && Expanded(graph, frontier, visited, k)
    requires NewNames(frontier, visited, names) && Answers(graph, names, rows)
    ensures Covers(graph, mentioned, frontier + Entries(rows, Decay(k + 1)), k + 1)
  {
    var more := Entries(rows, Decay(k + 1));
    forall j, e | 0 <= j <= k + 1 && Reach(graph, mentioned, j, e)
      ensures Holds(frontier + more, e, Decay(j))
    {
      if j <= k {
        HoldsMore(frontier, more, e, Decay(j), Decay(j));
      } else {
        var m :| Reach(graph, mentioned, k, m) && e in graph(m);
        assert Holds(frontier, m, Decay(k));
        SuccessorHeld(graph, mentioned, frontier, visited, k, names, rows, m, e);
      }
    }
  }

  lemma HopExpanded(graph: Graph, mentioned: seq<Entity>, frontier: seq<Ranked>, visited: set<Entity>, k: nat,
                    names: seq<Entity>, rows: seq<Entity>, after: set<Entity>)
    requires Expanded(graph, frontier, visited, k)
    requires NewNames(frontier, visited, names) && Answers(graph, names, rows)
    requires forall v :: v in after ==> v in visited || Named(frontier, v)
    ensures Expanded(graph, frontier + Entries(rows, Decay(k + 1)), after, k + 1)
  {
    forall v, e | v in after && e in graph(v)
      ensures Holds(frontier + Entries(rows, Decay(k + 1)), e, Decay(k + 1))
    {
      SuccessorHeld(graph, mentioned, frontier, visited, k, names, rows, v, e);
    }
  }

  /** When no unvisited name is left, nothing further away is missing either. */
  lemma {:induction false} Saturated(graph: Graph, mentioned: seq<Entity>, frontier: seq<Ranked>,
                                     visited: set<Entity>, k: nat, j: nat, e: Entity)
    requires Covers(graph, mentioned, frontier, k) && Expanded(graph, frontier, visited, k)
    requires NewNames(frontier, visited, []) && Reach(graph, mentioned, j, e)
    ensures Holds(frontier, e, Decay(j))
    decreases j
  {
    if j <= k {
    } else {
      var m :| Reach(graph, mentioned, j - 1, m) && e in graph(m);
      Saturated(graph, mentioned, frontier, visited, k, j - 1, m);
      var i :| 0 <= i < |frontier| && frontier[i].key == m;
      assert m in visited;
      DecayOrder(k, j);
      HoldsMore(frontier, [], e, Decay(k), Decay(j));
      assert frontier + [] == frontier;
    }
  }

  lemma TruncationSound(graph: Graph, mentioned: seq<Entity>, frontier: seq<Ranked>, visited: set<Entity>, k: nat,
                        max: nat)
    requires Sound(graph, mentioned, frontier, visited, k)
    ensures Sound(graph, mentioned, Top(frontier, max), visited, k)
  {
    var kept := Top(frontier, max);
    forall i | 0 <= i < |kept|
      ensures Witnessed(graph, mentioned, kept[i], k)
      ensures kept[i].key !in visited ==> Reach(graph, mentioned, k, kept[i].key)
    {
      assert kept[i] == Sort(frontier)[i];
      InSort(frontier, kept[i]);
      var j :| 0 <= j < |frontier| && frontier[j] == kept[i];
    }
  }

  // ----- the search itself -----

  /** Collect the unvisited names of the frontier, and mark them visited. */
  method CollectNames(frontier: seq<Ranked>, visited: set<Entity>) returns (names: seq<Entity>, after: set<Entity>)
    ensures NewNames(frontier, visited, names)
    ensures after == visited + set n | n in names
  {
    names, after := [], visited;
    for i := 0 to |frontier|
      invariant Sorting.Distinct(names)
      invariant forall n :: 0 <= n < |names| ==> names[n] !in visited && names[n] in after && Named(frontier, names[n])
      invariant forall n :: 0 <= n < i && frontier[n].key !in visited ==> frontier[n].key in names
      invariant after == visited + set n | n in names
    {
      var e := frontier[i].key;
      if e !in after {
        after := after + {e};
        names := names + [e];
      }
    }
  }

  ghost predicate HopInvariant(graph: Graph, mentioned: seq<Entity>, frontier: seq<Ranked>, visited: set<Entity>,
                               k: nat, truncated: bool) {
    && Sound(graph, mentioned, frontier, visited, k)
    && (!truncated ==>
          |frontier| <= FRONTIER_MAX && Covers(graph, mentioned, frontier, k) && Expanded(graph, frontier, visited, k))
  }

  /** The batched query of one hop.  Callers know nothing of the order of the rows. */
  method Query(graph: Graph, names: seq<Entity>) returns (rows: seq<Entity>)
    ensures Answers(graph, names, rows)
  {
    AllSuccessorsAnswers(graph, names);
    rows := AllSuccessors(graph, names);
  }

  /** Keep the closest entries when there are too many. */
  function Capped(frontier: seq<Ranked>): seq<Ranked> {
    if |frontier| > FRONTIER_MAX then Top(frontier, FRONTIER_MAX) else frontier
  }

  /** What one hop asked, and the rows it was given. */
  datatype Asked = Asked(names: seq<Entity>, rows: seq<Entity>)

  /** The frontier after the hops of `trace`: the successors found by each hop join
      with that hop's decay, and the frontier is capped. */
  function Frontier(mentioned: seq<Entity>, trace: seq<Asked>): seq<Ranked> {
    if trace == [] then Capped(Entries(mentioned, 0.95))
    else
      var n := |trace| - 1;
      Capped(Frontier(mentioned, trace[..n]) + Entries(trace[n].rows, Decay(n + 1)))
  }

  function Visited(trace: seq<Asked>): set<Entity> {
    if trace == [] then {}
    else
      var n := |trace| - 1;
      Visited(trace[..n]) + set e | e in trace[n].names
  }

  /** Every hop asked for all new names, and the answers are those of the graph. */
  ghost predicate Faithful(graph: Graph, mentioned: seq<Entity>, trace: seq<Asked>) {
    trace != [] ==>
      var n := |trace| - 1;
      && Faithful(graph, mentioned, trace[..n])
      && NewNames(Frontier(mentioned, trace[..n]), Visited(trace[..n]), trace[n].names)
      && Answers(graph, trace[n].names, trace[n].rows)
  }

  lemma OneMore(graph: Graph, mentioned: seq<Entity>, trace: seq<Asked>, names: seq<Entity>, rows: seq<Entity>)
    ensures var more := trace + [Asked(names, rows)];
            && Frontier(mentioned, more) == Capped(Frontier(mentioned, trace) + Entries(rows, Decay(|trace| + 1)))
            && Visited(more) == Visited(trace) + (set e | e in names)
            && (Faithful(graph, mentioned, more) <==>
                && Faithful(graph, mentioned, trace)
                && NewNames(Frontier(mentioned, trace), Visited(trace), names) && Answers(graph, names, rows))
  {
    var more := trace + [Asked(names, rows)];
    assert more[..|trace|] == trace;
  }

  method DecayOfHop(hop: nat, ghost k: nat) returns (decay: real)
    requires hop == k + 1 && k > 0
    ensures decay == Decay(k) && decay * hop as real == 1.0
  {
    Reciprocal(hop as real);
    decay := 1.0 / hop as real;
  }

  method Hop(graph: Graph, ghost mentioned: seq<Entity>, frontier: seq<Ranked>, hop: nat, names: seq<Entity>,
             ghost trace: seq<Asked>)
      returns (next: seq<Ranked>, ghost more: seq<Asked>)
    requires hop == |trace| + 2 && Faithful(graph, mentioned, trace)
    requires frontier == Frontier(mentioned, trace) && NewNames(frontier, Visited(trace), names)
    ensures Faithful(graph, mentioned, more) && |more| == |trace| + 1
    ensures next == Frontier(mentioned, more)
    ensures Visited(more) == Visited(trace) + set e | e in names
  {
    var rows := Query(graph, names);
    var decay := DecayOfHop(hop, |trace| + 1);
    next := Capped(frontier + Entries(rows, decay));
    OneMore(graph, mentioned, trace, names, rows);
    more := trace + [Asked(names, rows)];
  }

  /** The frontier is what the hops' answers build: all of `far` hops, or fewer when
      no new entity was left. */
  ghost predicate Explored(graph: Graph, mentioned: seq<Entity>, trace: seq<Asked>, far: nat, frontier: seq<Ranked>) {
    && Faithful(graph, mentioned, trace) && frontier == Frontier(mentioned, trace)
    && (|trace| == far || (|trace| < far && NewNames(frontier, Visited(trace), [])))
  }

  ghost predicate WasExplored(graph: Graph, mentioned: seq<Entity>, far: nat, frontier: seq<Ranked>) {
    exists trace :: Explored(graph, mentioned, trace, far, frontier)
  }

  /** The hops of one origin hit, until none is left or no new entity is found. */
  method Search(graph: Graph, mentioned: seq<Entity>, maxExpand: nat) returns (frontier: seq<Ranked>)
    requires maxExpand >= 1
    ensures WasExplored(graph, mentioned, maxExpand - 1, frontier)
  {
    ghost var trace: seq<Asked> := [];
    frontier := Capped(Entries(mentioned, 0.95));
    var visited: set<Entity> := {};
    var hop := 2;
    while hop <= maxExpand
      invariant hop == |trace| + 2 && |trace| <= maxExpand - 1
      invariant Faithful(graph, mentioned, trace) && frontier == Frontier(mentioned, trace) && visited == Visited(trace)
    {
      var names, after := CollectNames(frontier, visited);
      if |names| == 0 {
        break;
      }
      frontier, trace := Hop(graph, mentioned, frontier, hop, names, trace);
      visited, hop := after, hop + 1;
    }
    assert Explored(graph, mentioned, trace, maxExpand - 1, frontier);
  }

  // ----- what the hops keep -----

  lemma HopKeeps(graph: Graph, mentioned: seq<Entity>, frontier: seq<Ranked>, visited: set<Entity>, k: nat,
                 names: seq<Entity>, rows: seq<Entity>, after: set<Entity>, truncated: bool, all: seq<Ranked>)
    requires HopInvariant(graph, mentioned, frontier, visited, k, truncated)
    requires NewNames(frontier, visited, names) && Answers(graph, names, rows)
    requires forall v :: v in after <==> v in visited || Named(frontier, v)
    requires all == frontier + Entries(rows, Decay(k + 1))
    ensures HopInvariant(graph, mentioned, all, after, k + 1, truncated || |all| > FRONTIER_MAX)
  {
    HopSound(graph, mentioned, frontier, visited, k, names, rows, after);
    if !truncated {
      HopCovers(graph, mentioned, frontier, visited, k, names, rows);
      HopExpanded(graph, mentioned, frontier, visited, k, names, rows, after);
    }
  }

  /** Until it is cut, the frontier names exactly the entities near enough. */
  lemma NamedIsWithin(graph: Graph, mentioned: seq<Entity>, frontier: seq<Ranked>, visited: set<Entity>, k: nat,
                      e: Entity)
    requires Sound(graph, mentioned, frontier, visited, k) && Covers(graph, mentioned, frontier, k)
    ensures Named(frontier, e) <==> Within(graph, mentioned, k, e)
  {
    if Named(frontier, e) {
      var i :| 0 <= i < |frontier| && frontier[i].key == e;
      assert Witnessed(graph, mentioned, frontier[i], k);
    }
    if Within(graph, mentioned, k, e) {
      var j :| 0 <= j <= k && Reach(graph, mentioned, j, e);
      assert Holds(frontier, e, Decay(j));
    }
  }

  /** How many rows the search has seen after `k` hops, and from which queries.  An uncut
      frontier holds all of them; a cut one had to be. */
  ghost predicate Counted(graph: Graph, mentioned: seq<Entity>, visited: set<Entity>, k: nat, rows: nat,
                          truncated: bool) {
    if truncated then
      exists s :: |mentioned| + OutDegree(graph, s) > FRONTIER_MAX && AllWithin(graph, mentioned, k - 1, s)
    else
      IsNear(graph, mentioned, k - 1, visited) && rows == |mentioned| + OutDegree(graph, visited)
  }

  lemma AfterIsNear(graph: Graph, mentioned: seq<Entity>, frontier: seq<Ranked>, visited: set<Entity>, k: nat,
                    after: set<Entity>)
    requires Sound(graph, mentioned, frontier, visited, k) && Covers(graph, mentioned, frontier, k)
    requires IsNear(graph, mentioned, k - 1, visited)
    requires forall v :: v in after <==> v in visited || Named(frontier, v)
    ensures IsNear(graph, mentioned, k, after)
  {
    forall e
      ensures e in after <==> Within(graph, mentioned, k, e)
    {
      NamedIsWithin(graph, mentioned, frontier, visited, k, e);
      if Within(graph, mentioned, k - 1, e) {
        var j :| 0 <= j <= k - 1 && Reach(graph, mentioned, j, e);
      }
    }
  }

  lemma AfterIsNamed(frontier: seq<Ranked>, visited: set<Entity>, names: seq<Entity>, after: set<Entity>)
    requires NewNames(frontier, visited, names) && after == visited + set n | n in names
    ensures forall v :: v in after <==> v in visited || Named(frontier, v)
  {
    forall v
      ensures v in after <==> v in visited || Named(frontier, v)
    {
      if Named(frontier, v) && v !in visited {
        var i :| 0 <= i < |frontier| && frontier[i].key == v;
      }
    }
  }

  lemma NextCounted(graph: Graph, mentioned: seq<Entity>, frontier: seq<Ranked>, visited: set<Entity>, k: nat,
                    truncated: bool, names: seq<Entity>, after: set<Entity>, cut: bool, rows: nat)
    requires HopInvariant(graph, mentioned, frontier, visited, k, truncated)
    requires Counted(graph, mentioned, visited, k, |frontier|, truncated)
    requires NewNames(frontier, visited, names) && after == visited + set n | n in names
    requires cut == (truncated || |frontier| + |AllSuccessors(graph, names)| > FRONTIER_MAX)
    requires !cut ==> rows == |frontier| + |AllSuccessors(graph, names)|
    ensures Counted(graph, mentioned, after, k + 1, rows, cut)
  {
    if truncated {
      StillCounted(graph, mentioned, visited, k, |frontier|, after, k + 1, rows);
    } else {
      AfterIsNamed(frontier, visited, names, after);
      AfterIsNear(graph, mentioned, frontier, visited, k, after);
      QueryAddsOutDegree(graph, visited, names, after);
      assert AllWithin(graph, mentioned, k, after);
    }
  }

  lemma EndCounted(graph: Graph, mentioned: seq<Entity>, frontier: seq<Ranked>, visited: set<Entity>, k: nat,
                   truncated: bool, far: nat)
    requires HopInvariant(graph, mentioned, frontier, visited, k, truncated)
    requires Counted(graph, mentioned, visited, k, |frontier|, truncated)
    requires NewNames(frontier, visited, []) && k <= far
    ensures Counted(graph, mentioned, visited, far, |frontier|, truncated)
  {
    if truncated {
      StillCounted(graph, mentioned, visited, k, |frontier|, visited, far, |frontier|);
    } else {
      SaturatedCounted(graph, mentioned, frontier, visited, k, far);
    }
  }

  lemma StillCounted(graph: Graph, mentioned: seq<Entity>, visited: set<Entity>, k: nat, rows: nat,
                     after: set<Entity>, far: nat, more: nat)
    requires Counted(graph, mentioned, visited, k, rows, true) && k <= far
    ensures Counted(graph, mentioned, after, far, more, true)
  {
    var s :| |mentioned| + OutDegree(graph, s) > FRONTIER_MAX && AllWithin(graph, mentioned, k - 1, s);
    forall e | e in s
      ensures Within(graph, mentioned, far - 1, e)
    {
      assert Within(graph, mentioned, k - 1, e);
      var j :| 0 <= j <= k - 1 && Reach(graph, mentioned, j, e);
    }
  }

  lemma SaturatedCounted(graph: Graph, mentioned: seq<Entity>, frontier: seq<Ranked>, visited: set<Entity>, k: nat,
                         far: nat)
    requires Sound(graph, mentioned, frontier, visited, k) && Covers(graph, mentioned, frontier, k)
    requires Counted(graph, mentioned, visited, k, |frontier|, false)
    requires NewNames(frontier, visited, []) && k <= far
    ensures Counted(graph, mentioned, visited, far, |frontier|, false)
  {
    forall e
      ensures e in visited <==> Within(graph, mentioned, k, e)
    {
      NamedIsWithin(graph, mentioned, frontier, visited, k, e);
      if Named(frontier, e) {
        var i :| 0 <= i < |frontier| && frontier[i].key == e;
      }
      if Within(graph, mentioned, k - 1, e) {
        var j :| 0 <= j <= k - 1 && Reach(graph, mentioned, j, e);
      }
    }
    NearClosed(graph, mentioned, k - 1, far - 1, visited);
  }

  /** The frontier is cut exactly when there are too many rows. */
  lemma CutIffTooMany(graph: Graph, mentioned: seq<Entity>, visited: set<Entity>, k: nat, rows: nat, truncated: bool)
    requires Counted(graph, mentioned, visited, k, rows, truncated) && (!truncated ==> rows <= FRONTIER_MAX)
    ensures truncated <==> Fanout(graph, mentioned, k - 1) > FRONTIER_MAX
  {
    if truncated {
      var s :| |mentioned| + OutDegree(graph, s) > FRONTIER_MAX && AllWithin(graph, mentioned, k - 1, s);
      FanoutAtLeast(graph, mentioned, k - 1, s);
    } else {
      FanoutOf(graph, mentioned, k - 1, visited);
    }
  }

  lemma StartSound(graph: Graph, mentioned: seq<Entity>, none: set<Entity>)
    requires none == {}
    ensures HopInvariant(graph, mentioned, Entries(mentioned, 0.95), none, 0, |mentioned| > FRONTIER_MAX)
    ensures Covers(graph, mentioned, Entries(mentioned, 0.95), 0)
  {
    var frontier := Entries(mentioned, 0.95);
    forall i | 0 <= i < |frontier|
      ensures Witnessed(graph, mentioned, frontier[i], 0)
    {
      assert frontier[i].score == Decay(0) && Reach(graph, mentioned, 0, frontier[i].key);
    }
    forall e | Reach(graph, mentioned, 0, e)
      ensures Holds(frontier, e, Decay(0))
    {
      var i :| 0 <= i < |mentioned| && mentioned[i] == e;
      assert frontier[i].key == e;
    }
  }

  /** With no unvisited entity left, nothing would change in any later hop. */
  lemma SaturatedSearch(graph: Graph, mentioned: seq<Entity>, frontier: seq<Ranked>, visited: set<Entity>, k: nat,
                        far: nat, truncated: bool)
    requires HopInvariant(graph, mentioned, frontier, visited, k, truncated) && NewNames(frontier, visited, []) &&
        k <= far
    ensures HopInvariant(graph, mentioned, frontier, visited, far, truncated)
  {
    forall i | 0 <= i < |frontier|
      ensures Witnessed(graph, mentioned, frontier[i], far) && frontier[i].key in visited
    {
      assert Witnessed(graph, mentioned, frontier[i], k);
    }
    if !truncated {
      forall j, e | 0 <= j <= far && Reach(graph, mentioned, j, e)
        ensures Holds(frontier, e, Decay(j))
      {
        Saturated(graph, mentioned, frontier, visited, k, j, e);
      }
      forall v, e | v in visited && e in graph(v)
        ensures Holds(frontier, e, Decay(far))
      {
        DecayOrder(k, far);
        HoldsMore(frontier, [], e, Decay(k), Decay(far));
        assert frontier + [] == frontier;
      }
    }
  }

  lemma CappedKeeps(graph: Graph, mentioned: seq<Entity>, frontier: seq<Ranked>, visited: set<Entity>, k: nat,
                    truncated: bool)
    requires HopInvariant(graph, mentioned, frontier, visited, k, truncated)
    requires |frontier| > FRONTIER_MAX ==> truncated
    ensures HopInvariant(graph, mentioned, Capped(frontier), visited, k, truncated)
  {
    if |frontier| > FRONTIER_MAX {
      TruncationSound(graph, mentioned, frontier, visited, k, FRONTIER_MAX);
    }
  }

  lemma StartIsSane(graph: Graph, mentioned: seq<Entity>, visited: set<Entity>)
    requires visited == {}
    ensures HopInvariant(graph, mentioned, Capped(Entries(mentioned, 0.95)), visited, 0, |mentioned| > FRONTIER_MAX)
    ensures Counted(graph, mentioned, visited, 0, |Capped(Entries(mentioned, 0.95))|, |mentioned| > FRONTIER_MAX)
  {
    var truncated := |mentioned| > FRONTIER_MAX;
    StartSound(graph, mentioned, visited);
    CappedKeeps(graph, mentioned, Entries(mentioned, 0.95), visited, 0, truncated);
    StartCounted(graph, mentioned, visited, |Capped(Entries(mentioned, 0.95))|, truncated);
  }

  /** Some hop, or the start, had more entries than the cap. */
  predicate WasCut(mentioned: seq<Entity>, trace: seq<Asked>) {
    if trace == [] then |mentioned| > FRONTIER_MAX
    else
      var n := |trace| - 1;
      WasCut(mentioned, trace[..n]) || |Frontier(mentioned, trace[..n])| + |trace[n].rows| > FRONTIER_MAX
  }

  lemma {:induction false} TraceIsSane(graph: Graph, mentioned: seq<Entity>, trace: seq<Asked>)
    requires Faithful(graph, mentioned, trace)
    ensures var frontier, visited, cut := Frontier(mentioned, trace), Visited(trace), WasCut(mentioned, trace);
            && HopInvariant(graph, mentioned, frontier, visited, |trace|, cut)
            && Counted(graph, mentioned, visited, |trace|, |frontier|, cut)
  {
    if trace == [] {
      StartIsSane(graph, mentioned, Visited(trace));
    } else {
      var n := |trace| - 1;
      var before, visited := Frontier(mentioned, trace[..n]), Visited(trace[..n]);
      TraceIsSane(graph, mentioned, trace[..n]);
      HopIsSane(graph, mentioned, before, visited, n, WasCut(mentioned, trace[..n]), trace[n], Visited(trace));
    }
  }

  lemma HopIsSane(graph: Graph, mentioned: seq<Entity>, frontier: seq<Ranked>, visited: set<Entity>, k: nat,
                  truncated: bool, asked: Asked, after: set<Entity>)
    requires HopInvariant(graph, mentioned, frontier, visited, k, truncated)
    requires Counted(graph, mentioned, visited, k, |frontier|, truncated)
    requires NewNames(frontier, visited, asked.names) && Answers(graph, asked.names, asked.rows)
    requires after == visited + set e | e in asked.names
    ensures var next := Capped(frontier + Entries(asked.rows, Decay(k + 1)));
            var cut := truncated || |frontier| + |asked.rows| > FRONTIER_MAX;
            && HopInvariant(graph, mentioned, next, after, k + 1, cut)
            && Counted(graph, mentioned, after, k + 1, |next|, cut)
  {
    var all := frontier + Entries(asked.rows, Decay(k + 1));
    var cut := truncated || |all| > FRONTIER_MAX;
    AfterIsNamed(frontier, visited, asked.names, after);
    HopKeeps(graph, mentioned, frontier, visited, k, asked.names, asked.rows, after, truncated, all);
    CappedKeeps(graph, mentioned, all, after, k + 1, cut);
    NextCounted(graph, mentioned, frontier, visited, k, truncated, asked.names, after, cut, |Capped(all)|);
  }

  // ----- what a cut leaves -----

  /** Each entity present has an entry at least as good as its shortest path. */
  ghost predicate Closest(graph: Graph, mentioned: seq<Entity>, frontier: seq<Ranked>) {
    forall e, j: nat :: Named(frontier, e) && Reach(graph, mentioned, j, e) ==> Holds(frontier, e, Decay(j))
  }

  ghost predicate AllBefore(frontier: seq<Ranked>, r: Ranked) {
    forall i :: 0 <= i < |frontier| ==> Leq(frontier[i], r)
  }

  /** Whatever is missing ranks after everything present. */
  ghost predicate Outranked(graph: Graph, mentioned: seq<Entity>, frontier: seq<Ranked>) {
    forall e, j: nat :: !Named(frontier, e) && Reach(graph, mentioned, j, e) ==>
        AllBefore(frontier, Ranked(e, Decay(j)))
  }

  /** A frontier that was cut: full, and what it lost is no loss to what it kept. */
  ghost predicate WellCut(graph: Graph, mentioned: seq<Entity>, frontier: seq<Ranked>) {
    |frontier| == FRONTIER_MAX && Closest(graph, mentioned, frontier) && Outranked(graph, mentioned, frontier)
  }

  lemma WitnessedScore(graph: Graph, mentioned: seq<Entity>, r: Ranked, k: nat)
    requires Witnessed(graph, mentioned, r, k)
    ensures r.score >= Decay(k)
  {
    var j :| 0 <= j <= k && r.score == Decay(j) && Reach(graph, mentioned, j, r.key);
    DecayOrder(j, k);
  }

  /** What is further away than the search got ranks after everything found. */
  lemma FartherIsWorse(graph: Graph, mentioned: seq<Entity>, r: Ranked, k: nat, j: nat)
    requires Witnessed(graph, mentioned, r, k) && j > k
    ensures r.score > Decay(j)
  {
    WitnessedScore(graph, mentioned, r, k);
    DecayOrder(k, j);
  }

  ghost predicate AllWitnessed(graph: Graph, mentioned: seq<Entity>, frontier: seq<Ranked>, k: nat) {
    forall i :: 0 <= i < |frontier| ==> Witnessed(graph, mentioned, frontier[i], k)
  }

  lemma CoveredIsClosest(graph: Graph, mentioned: seq<Entity>, frontier: seq<Ranked>, k: nat)
    requires AllWitnessed(graph, mentioned, frontier, k) && Covers(graph, mentioned, frontier, k)
    ensures Closest(graph, mentioned, frontier)
  {
    forall e, j: nat | Named(frontier, e) && Reach(graph, mentioned, j, e)
      ensures Holds(frontier, e, Decay(j))
    {
      if j > k {
        FartherIsHeld(graph, mentioned, frontier, k, j, e);
      }
    }
  }

  lemma FartherIsHeld(graph: Graph, mentioned: seq<Entity>, frontier: seq<Ranked>, k: nat, j: nat, e: Entity)
    requires AllWitnessed(graph, mentioned, frontier, k) && j > k && Named(frontier, e)
    ensures Holds(frontier, e, Decay(j))
  {
    var i :| 0 <= i < |frontier| && frontier[i].key == e;
    FartherIsWorse(graph, mentioned, frontier[i], k, j);
  }

  /** The best entries of a list hold what the list holds, of the entities they name. */
  lemma TopHolds(all: seq<Ranked>, max: nat, e: Entity, least: real)
    requires Holds(all, e, least) && Named(Top(all, max), e)
    ensures Holds(Top(all, max), e, least)
  {
    var kept := Top(all, max);
    var i :| 0 <= i < |all| && all[i].key == e && all[i].score >= least;
    var n :| 0 <= n < |kept| && kept[n].key == e;
    if all[i] !in kept {
      TopKeepsBest(all, max, kept[n], all[i]);
    }
  }

  /** What is not named among the best entries ranks after all of them. */
  lemma TopOutranks(all: seq<Ranked>, max: nat, e: Entity, least: real)
    requires Holds(all, e, least) && !Named(Top(all, max), e)
    ensures AllBefore(Top(all, max), Ranked(e, least))
  {
    var kept := Top(all, max);
    var i :| 0 <= i < |all| && all[i].key == e && all[i].score >= least;
    LeqTotal(Ranked(e, least), all[i]);
    forall n | 0 <= n < |kept|
      ensures Leq(kept[n], Ranked(e, least))
    {
      TopKeepsBest(all, max, kept[n], all[i]);
      LeqTransitive(kept[n], all[i], Ranked(e, least));
    }
  }

  /** The first cut. */
  lemma CutIsWellCut(graph: Graph, mentioned: seq<Entity>, all: seq<Ranked>, k: nat)
    requires |all| > FRONTIER_MAX && Covers(graph, mentioned, all, k)
    requires AllWitnessed(graph, mentioned, Top(all, FRONTIER_MAX), k)
    ensures WellCut(graph, mentioned, Top(all, FRONTIER_MAX))
  {
    var kept := Top(all, FRONTIER_MAX);
    forall e, j: nat | Reach(graph, mentioned, j, e) && Named(kept, e)
      ensures Holds(kept, e, Decay(j))
    {
      if j <= k {
        TopHolds(all, FRONTIER_MAX, e, Decay(j));
      } else {
        FartherIsHeld(graph, mentioned, kept, k, j, e);
      }
    }
    forall e, j: nat | Reach(graph, mentioned, j, e) && !Named(kept, e)
      ensures AllBefore(kept, Ranked(e, Decay(j)))
    {
      if j <= k {
        TopOutranks(all, FRONTIER_MAX, e, Decay(j));
      } else {
        forall i | 0 <= i < |kept|
          ensures Leq(kept[i], Ranked(e, Decay(j)))
        {
          FartherIsWorse(graph, mentioned, kept[i], k, j);
        }
      }
    }
  }

  /** Once full, the frontier gains nothing from later hops. */
  lemma LaterHopsChangeNothing(graph: Graph, mentioned: seq<Entity>, frontier: seq<Ranked>, k: nat, rows: seq<Entity>)
    requires |frontier| == FRONTIER_MAX && AllWitnessed(graph, mentioned, frontier, k)
    ensures var next := Capped(frontier + Entries(rows, Decay(k + 1)));
            |next| == |frontier| && forall x :: x in next <==> x in frontier
  {
    var more := Entries(rows, Decay(k + 1));
    if rows == [] {
      assert frontier + more == frontier;
    } else {
      forall x, y | x in frontier && y in more
        ensures Leq(x, y)
      {
        FartherIsWorse(graph, mentioned, x, k, k + 1);
      }
      TopIgnoresWorse(frontier, more, FRONTIER_MAX);
      forall x
        ensures x in Sort(frontier) <==> x in frontier
      {
        InSort(frontier, x);
      }
    }
  }

  lemma SameEntries(a: seq<Ranked>, b: seq<Ranked>, e: Entity)
    requires forall x :: x in b <==> x in a
    ensures Named(a, e) <==> Named(b, e)
    ensures forall least :: Holds(a, e, least) ==> Holds(b, e, least)
  {
    forall i | 0 <= i < |a|
      ensures a[i] in b
    {
    }
    forall i | 0 <= i < |b|
      ensures b[i] in a
    {
    }
  }

  lemma WellCutStays(graph: Graph, mentioned: seq<Entity>, a: seq<Ranked>, b: seq<Ranked>)
    requires WellCut(graph, mentioned, a) && |b| == |a| && forall x :: x in b <==> x in a
    ensures WellCut(graph, mentioned, b)
  {
    forall e, j: nat | Reach(graph, mentioned, j, e) && Named(b, e)
      ensures Holds(b, e, Decay(j))
    {
      SameEntries(a, b, e);
    }
    forall e, j: nat | Reach(graph, mentioned, j, e) && !Named(b, e)
      ensures AllBefore(b, Ranked(e, Decay(j)))
    {
      SameEntries(a, b, e);
      assert AllBefore(a, Ranked(e, Decay(j)));
      forall i | 0 <= i < |b|
        ensures Leq(b[i], Ranked(e, Decay(j)))
      {
        assert b[i] in a;
      }
    }
  }

  lemma StartIsWellCut(graph: Graph, mentioned: seq<Entity>)
    requires |mentioned| > FRONTIER_MAX
    ensures WellCut(graph, mentioned, Capped(Entries(mentioned, 0.95)))
  {
    var all := Entries(mentioned, 0.95);
    StartSound(graph, mentioned, {});
    TruncationSound(graph, mentioned, all, {}, 0, FRONTIER_MAX);
    CutIsWellCut(graph, mentioned, all, 0);
  }

  lemma HopIsWellCut(graph: Graph, mentioned: seq<Entity>, frontier: seq<Ranked>, visited: set<Entity>, k: nat,
                     asked: Asked, after: set<Entity>)
    requires HopInvariant(graph, mentioned, frontier, visited, k, false)
    requires NewNames(frontier, visited, asked.names) && Answers(graph, asked.names, asked.rows)
    requires after == visited + set e | e in asked.names
    requires |frontier| + |asked.rows| > FRONTIER_MAX
    ensures WellCut(graph, mentioned, Capped(frontier + Entries(asked.rows, Decay(k + 1))))
  {
    var all := frontier + Entries(asked.rows, Decay(k + 1));
    AfterIsNamed(frontier, visited, asked.names, after);
    HopSound(graph, mentioned, frontier, visited, k, asked.names, asked.rows, after);
    HopCovers(graph, mentioned, frontier, visited, k, asked.names, asked.rows);
    TruncationSound(graph, mentioned, all, after, k + 1, FRONTIER_MAX);
    CutIsWellCut(graph, mentioned, all, k + 1);
  }

  /** However often the frontier is cut, what it holds is what the first cut kept. */
  lemma {:induction false} CutTraceIsWellCut(graph: Graph, mentioned: seq<Entity>, trace: seq<Asked>)
    requires Faithful(graph, mentioned, trace) && WasCut(mentioned, trace)
    ensures WellCut(graph, mentioned, Frontier(mentioned, trace))
  {
    if trace == [] {
      StartIsWellCut(graph, mentioned);
    } else {
      var n := |trace| - 1;
      var before := Frontier(mentioned, trace[..n]);
      TraceIsSane(graph, mentioned, trace[..n]);
      if WasCut(mentioned, trace[..n]) {
        CutTraceIsWellCut(graph, mentioned, trace[..n]);
        LaterHopsChangeNothing(graph, mentioned, before, n, trace[n].rows);
        WellCutStays(graph, mentioned, before, Frontier(mentioned, trace));
      } else {
        HopIsWellCut(graph, mentioned, before, Visited(trace[..n]), n, trace[n], Visited(trace));
      }
    }
  }

  /** What the frontier holds after all hops. */
  ghost predicate Searched(graph: Graph, mentioned: seq<Entity>, frontier: seq<Ranked>, far: nat, truncated: bool) {
    && |frontier| <= FRONTIER_MAX
    && AllWitnessed(graph, mentioned, frontier, far)
    && Closest(graph, mentioned, frontier)
    && (if truncated then Outranked(graph, mentioned, frontier) else Covers(graph, mentioned, frontier, far))
  }

  /** The search as a whole: what it has reached, and when it was cut. */
  lemma {:induction false} SearchReaches(graph: Graph, mentioned: seq<Entity>, trace: seq<Asked>, far: nat)
    requires Faithful(graph, mentioned, trace)
    requires |trace| == far || (|trace| < far && NewNames(Frontier(mentioned, trace), Visited(trace), []))
    ensures Searched(graph, mentioned, Frontier(mentioned, trace), far, WasCut(mentioned, trace))
    ensures WasCut(mentioned, trace) <==> Fanout(graph, mentioned, far - 1) > FRONTIER_MAX
  {
    var frontier, visited, cut := Frontier(mentioned, trace), Visited(trace), WasCut(mentioned, trace);
    TraceIsSane(graph, mentioned, trace);
    if cut {
      CutTraceIsWellCut(graph, mentioned, trace);
    }
    if |trace| < far {
      SaturatedSearch(graph, mentioned, frontier, visited, |trace|, far, cut);
      EndCounted(graph, mentioned, frontier, visited, |trace|, cut, far);
    }
    Finished(graph, mentioned, frontier, visited, far, cut);
    CutIffTooMany(graph, mentioned, visited, far, |frontier|, cut);
  }

  lemma Finished(graph: Graph, mentioned: seq<Entity>, frontier: seq<Ranked>, visited: set<Entity>, k: nat,
                 truncated: bool)
    requires HopInvariant(graph, mentioned, frontier, visited, k, truncated)
    requires truncated ==> WellCut(graph, mentioned, frontier)
    ensures Searched(graph, mentioned, frontier, k, truncated)
  {
    if !truncated {
      CoveredIsClosest(graph, mentioned, frontier, k);
    }
  }

  lemma StartCounted(graph: Graph, mentioned: seq<Entity>, none: set<Entity>, rows: nat, truncated: bool)
    requires none == {} && truncated == (|mentioned| > FRONTIER_MAX) && (!truncated ==> rows == |mentioned|)
    ensures Counted(graph, mentioned, none, 0, rows, truncated)
  {
    assert OutDegree(graph, none) == 0;
    assert AllWithin(graph, mentioned, -1, none);
    assert forall e :: !Within(graph, mentioned, -1, e);
  }

  // ----- the best decay of each entity -----

  predicate IsBest(frontier: seq<Ranked>, e: Entity, d: real) {
    && Ranked(e, d) in frontier
    && forall i :: 0 <= i < |frontier| && frontier[i].key == e ==> frontier[i].score <= d
  }

  /** Keep the highest decay per entity. */
  method BestDecays(frontier: seq<Ranked>) returns (best: map<Entity, real>)
    ensures |best| <= |frontier|
    ensures forall e :: e in best <==> Named(frontier, e)
    ensures forall e :: e in best ==> IsBest(frontier, e, best[e])
  {
    best := map[];
    for i := 0 to |frontier|
      invariant |best| <= i
      invariant forall e :: e in best ==> Named(frontier, e) && Ranked(e, best[e]) in frontier
      invariant forall n :: 0 <= n < i ==> frontier[n].key in best && frontier[n].score <= best[frontier[n].key]
    {
      var r := frontier[i];
      assert Ranked(r.key, r.score) == frontier[i];
      if r.key !in best {
        best := best[r.key := r.score];
      } else if r.score > best[r.key] {
        MapUpdateSize(best, r.key, r.score);
        best := best[r.key := r.score];
      }
    }
  }

  lemma MapUpdateSize(m: map<Entity, real>, k: Entity, v: real)
    requires k in m
    ensures |m[k := v]| == |m|
  {
    assert m[k := v].Keys == m.Keys;
    assert |m| == |m.Keys| && |m[k := v]| == |m[k := v].Keys|;
  }

  /** `items` are the best decays of the frontier. */
  predicate BestOf(frontier: seq<Ranked>, best: map<Entity, real>, items: seq<Ranked>) {
    && (forall e :: e in best ==> IsBest(frontier, e, best[e]) && Ranked(e, best[e]) in items)
    && (forall i :: 0 <= i < |frontier| ==> frontier[i].key in best)
    && forall i :: 0 <= i < |items| ==> items[i].key in best && items[i].score == best[items[i].key]
  }

  lemma ShortestPath(graph: Graph, mentioned: seq<Entity>, j: nat, e: Entity) returns (k: nat)
    requires Reach(graph, mentioned, j, e)
    ensures k <= j && Distance(graph, mentioned, k, e)
  {
    k := 0;
    while !Reach(graph, mentioned, k, e)
      invariant k <= j && forall i :: 0 <= i < k ==> !Reach(graph, mentioned, i, e)
      decreases j - k
    {
      k := k + 1;
    }
  }

  /** An entry with the decay of the shortest path to its entity, within reach. */
  ghost predicate Shortest(graph: Graph, mentioned: seq<Entity>, r: Ranked, far: nat) {
    exists k :: 0 <= k <= far && Distance(graph, mentioned, k, r.key) && r.score == Decay(k)
  }

  lemma ShortestIsUnique(graph: Graph, mentioned: seq<Entity>, r: Ranked, s: Ranked, far: nat)
    requires Shortest(graph, mentioned, r, far) && Shortest(graph, mentioned, s, far) && r.key == s.key
    ensures r == s
  {
  }

  /** The best decay of an entity is that of its shortest path. */
  lemma BestIsShortest(graph: Graph, mentioned: seq<Entity>, frontier: seq<Ranked>, far: nat, truncated: bool,
                       r: Ranked)
    requires Searched(graph, mentioned, frontier, far, truncated) && IsBest(frontier, r.key, r.score)
    ensures Shortest(graph, mentioned, r, far)
  {
    var n :| 0 <= n < |frontier| && frontier[n] == Ranked(r.key, r.score);
    assert Witnessed(graph, mentioned, frontier[n], far);
    var j :| 0 <= j <= far && r.score == Decay(j) && Reach(graph, mentioned, j, r.key);
    var k := ShortestPath(graph, mentioned, j, r.key);
    DecayOrder(k, j);
    assert Named(frontier, r.key) && Holds(frontier, r.key, Decay(k));
  }

  lemma ResultShortest(graph: Graph, mentioned: seq<Entity>, frontier: seq<Ranked>, far: nat, truncated: bool,
                       best: map<Entity, real>, items: seq<Ranked>)
    requires Searched(graph, mentioned, frontier, far, truncated) && BestOf(frontier, best, items)
    ensures forall r :: r in Top(items, FRONTIER_MAX) ==> Shortest(graph, mentioned, r, far)
  {
    forall r | r in Top(items, FRONTIER_MAX)
      ensures Shortest(graph, mentioned, r, far)
    {
      InTop(items, FRONTIER_MAX, r);
      BestIsShortest(graph, mentioned, frontier, far, truncated, r);
    }
  }

  /** What is within reach and not in the result is not in the frontier either. */
  lemma MissingIsNotNamed(graph: Graph, mentioned: seq<Entity>, frontier: seq<Ranked>, far: nat, truncated: bool,
                          best: map<Entity, real>, items: seq<Ranked>, r: Ranked)
    requires Searched(graph, mentioned, frontier, far, truncated) && BestOf(frontier, best, items)
    requires |items| <= FRONTIER_MAX && Shortest(graph, mentioned, r, far) && r !in Top(items, FRONTIER_MAX)
    ensures !Named(frontier, r.key)
  {
    if Named(frontier, r.key) {
      var s := Ranked(r.key, best[r.key]);
      BestIsShortest(graph, mentioned, frontier, far, truncated, s);
      ShortestIsUnique(graph, mentioned, r, s, far);
      InTop(items, FRONTIER_MAX, s);
    }
  }

  lemma ResultComplete(graph: Graph, mentioned: seq<Entity>, frontier: seq<Ranked>, far: nat, truncated: bool,
                       best: map<Entity, real>, items: seq<Ranked>, r: Ranked)
    requires Searched(graph, mentioned, frontier, far, truncated) && BestOf(frontier, best, items)
    requires |items| <= FRONTIER_MAX && Shortest(graph, mentioned, r, far) && r !in Top(items, FRONTIER_MAX)
    ensures truncated && forall x :: x in Top(items, FRONTIER_MAX) ==> Leq(x, r)
  {
    MissingIsNotNamed(graph, mentioned, frontier, far, truncated, best, items, r);
    var k :| 0 <= k <= far && Distance(graph, mentioned, k, r.key) && r.score == Decay(k);
    assert Reach(graph, mentioned, k, r.key);
    assert AllBefore(frontier, Ranked(r.key, Decay(k)));
    forall x | x in Top(items, FRONTIER_MAX)
      ensures Leq(x, r)
    {
      InTop(items, FRONTIER_MAX, x);
      assert IsBest(frontier, x.key, best[x.key]);
      var i :| 0 <= i < |frontier| && frontier[i] == x;
    }
  }

  /** What the search hands to the chunk query: entities within reach, each with the
      decay of its shortest path.  Only a cut leaves any out, and then the ones that
      rank after all that are kept. */
  ghost predicate Nearest(graph: Graph, mentioned: seq<Entity>, far: nat, result: seq<Ranked>, truncated: bool) {
    && |result| <= FRONTIER_MAX
    && (forall r :: r in result ==> Shortest(graph, mentioned, r, far))
    && forall r :: Shortest(graph, mentioned, r, far) && r !in result ==>
        truncated && forall x :: x in result ==> Leq(x, r)
  }

  lemma ResultExpands(graph: Graph, mentioned: seq<Entity>, frontier: seq<Ranked>, far: nat, truncated: bool,
                      best: map<Entity, real>, items: seq<Ranked>)
    requires Searched(graph, mentioned, frontier, far, truncated) && BestOf(frontier, best, items)
    requires |items| <= |frontier|
    ensures Nearest(graph, mentioned, far, Top(items, FRONTIER_MAX), truncated)
  {
    var result := Top(items, FRONTIER_MAX);
    ResultShortest(graph, mentioned, frontier, far, truncated, best, items);
    forall r | Shortest(graph, mentioned, r, far) && r !in result
      ensures truncated && forall x :: x in result ==> Leq(x, r)
    {
      ResultComplete(graph, mentioned, frontier, far, truncated, best, items, r);
    }
  }

  lemma FrontierExpands(graph: Graph, mentioned: seq<Entity>, frontier: seq<Ranked>, far: nat,
                        best: map<Entity, real>, items: seq<Ranked>, result: seq<Ranked>)
    requires WasExplored(graph, mentioned, far, frontier)
    requires BestOf(frontier, best, items) && |items| <= |frontier| && result == Top(items, FRONTIER_MAX)
    ensures ByDistance(graph, mentioned, far, result, Fanout(graph, mentioned, far - 1) > 100)
  {
    var trace :| Explored(graph, mentioned, trace, far, frontier);
    SearchReaches(graph, mentioned, trace, far);
    ResultExpands(graph, mentioned, frontier, far, WasCut(mentioned, trace), best, items);
    NearestByDistance(graph, mentioned, far, result, WasCut(mentioned, trace));
  }

  // ----- the search and its result in numbers -----

  /** The entry has the decay of some path of at most `far` edges to its entity. */
  ghost predicate OfPath(graph: Graph, mentioned: seq<Entity>, far: nat, r: Ranked) {
    exists j :: 0 <= j <= far && Reach(graph, mentioned, j, r.key) && Decayed(j, r.score)
  }

  /** An entry for `e` with the decay of at most j edges. */
  predicate HasEntry(frontier: seq<Ranked>, j: nat, e: Entity) {
    exists i, n :: 0 <= i < |frontier| && 0 <= n <= j && frontier[i].key == e && Decayed(n, frontier[i].score)
  }

  /** `SearchReaches` without a formula for the decay: every entry is that of a path, and
      up to a hundred rows every path has an entry that decays no more. */
  lemma {:induction false} SearchInNumbers(graph: Graph, mentioned: seq<Entity>, trace: seq<Asked>, far: nat)
    requires Faithful(graph, mentioned, trace)
    requires |trace| == far || (|trace| < far && NewNames(Frontier(mentioned, trace), Visited(trace), []))
    ensures forall r :: r in Frontier(mentioned, trace) ==> OfPath(graph, mentioned, far, r)
    ensures Fanout(graph, mentioned, far - 1) <= 100 ==>
              forall j, e :: 0 <= j <= far && Reach(graph, mentioned, j, e) ==>
                HasEntry(Frontier(mentioned, trace), j, e)
  {
    var frontier := Frontier(mentioned, trace);
    SearchReaches(graph, mentioned, trace, far);
    forall r | r in frontier
      ensures OfPath(graph, mentioned, far, r)
    {
      var i :| 0 <= i < |frontier| && frontier[i] == r;
      assert Witnessed(graph, mentioned, frontier[i], far);
      var j :| 0 <= j <= far && r.score == Decay(j) && Reach(graph, mentioned, j, r.key);
      DecayInNumbers(j);
    }
    if Fanout(graph, mentioned, far - 1) <= 100 {
      forall j, e | 0 <= j <= far && Reach(graph, mentioned, j, e)
        ensures HasEntry(frontier, j, e)
      {
        EntryOfPath(graph, mentioned, frontier, far, j, e);
      }
    }
  }

  lemma EntryOfPath(graph: Graph, mentioned: seq<Entity>, frontier: seq<Ranked>, far: nat, j: nat, e: Entity)
    requires AllWitnessed(graph, mentioned, frontier, far) && Holds(frontier, e, Decay(j))
    ensures HasEntry(frontier, j, e)
  {
    var i :| 0 <= i < |frontier| && frontier[i].key == e && frontier[i].score >= Decay(j);
    assert Witnessed(graph, mentioned, frontier[i], far);
    var n :| 0 <= n <= far && frontier[i].score == Decay(n) && Reach(graph, mentioned, n, e);
    DecayOrder(j, n);
    DecayInNumbers(n);
  }

  /** An entity within reach, with the decay of its distance. */
  ghost predicate AtDistance(graph: Graph, mentioned: seq<Entity>, far: nat, r: Ranked) {
    exists k :: 0 <= k <= far && Distance(graph, mentioned, k, r.key) && Decayed(k, r.score)
  }

  /** Entity x is nearer than an entity e at distance k, or as near and not after it by name. */
  ghost predicate NoFarther(graph: Graph, mentioned: seq<Entity>, x: Entity, k: nat, e: Entity) {
    exists j :: 0 <= j <= k && Distance(graph, mentioned, j, x) && (j == k ==> Sorting.KeyLeq(x, e))
  }

  /** Every entry is of this kind. */
  ghost predicate AllAtDistance(graph: Graph, mentioned: seq<Entity>, far: nat, result: seq<Ranked>) {
    result == [] ||
    (&& AllAtDistance(graph, mentioned, far, result[..|result| - 1])
     && AtDistance(graph, mentioned, far, result[|result| - 1]))
  }

  lemma {:induction false} AllAtDistanceIff(graph: Graph, mentioned: seq<Entity>, far: nat, result: seq<Ranked>)
    ensures AllAtDistance(graph, mentioned, far, result) <==>
            forall r :: r in result ==> AtDistance(graph, mentioned, far, r)
  {
    if result == [] {
    } else {
      var before, last := result[..|result| - 1], result[|result| - 1];
      AllAtDistanceIff(graph, mentioned, far, before);
      assert result == before + [last];
    }
  }

  /** Entity e, at distance k, is in the result, or all that is there is no farther. */
  ghost predicate InOrNoNearer(graph: Graph, mentioned: seq<Entity>, result: seq<Ranked>, truncated: bool, k: nat,
                               e: Entity) {
    Named(result, e) || (truncated && forall x :: x in result ==> NoFarther(graph, mentioned, x.key, k, e))
  }

  /** So for every entity up to distance k. */
  ghost predicate NoneNearerLeftOut(graph: Graph, mentioned: seq<Entity>, result: seq<Ranked>, truncated: bool, k: int)
    decreases k + 1
  {
    k >= 0 ==>
      && NoneNearerLeftOut(graph, mentioned, result, truncated, k - 1)
      && forall e :: Distance(graph, mentioned, k, e) ==> InOrNoNearer(graph, mentioned, result, truncated, k, e)
  }

  /** At most a hundred entities, each with the decay of its distance; if one within
      reach is left out, there were too many, and all that are kept are nearer,
      or as near and earlier by name. */
  ghost predicate ByDistance(graph: Graph, mentioned: seq<Entity>, far: nat, result: seq<Ranked>, truncated: bool) {
    && |result| <= 100 && AllAtDistance(graph, mentioned, far, result)
    && NoneNearerLeftOut(graph, mentioned, result, truncated, far)
  }

  lemma ShortestIsAtDistance(graph: Graph, mentioned: seq<Entity>, far: nat, r: Ranked)
    requires Shortest(graph, mentioned, r, far)
    ensures AtDistance(graph, mentioned, far, r)
  {
    var k :| 0 <= k <= far && Distance(graph, mentioned, k, r.key) && r.score == Decay(k);
    DecayInNumbers(k);
  }

  lemma LeftOutIsFarther(graph: Graph, mentioned: seq<Entity>, far: nat, x: Ranked, k: nat, e: Entity)
    requires Shortest(graph, mentioned, x, far) && Leq(x, Ranked(e, Decay(k)))
    ensures NoFarther(graph, mentioned, x.key, k, e)
  {
    var j :| 0 <= j <= far && Distance(graph, mentioned, j, x.key) && x.score == Decay(j);
    DecayOrder(j, k);
    DecayOrder(k, j);
  }

  lemma {:induction false} NearestByDistance(graph: Graph, mentioned: seq<Entity>, far: nat, result: seq<Ranked>,
                                             truncated: bool)
    requires Nearest(graph, mentioned, far, result, truncated)
    ensures ByDistance(graph, mentioned, far, result, truncated)
  {
    forall r | r in result
      ensures AtDistance(graph, mentioned, far, r)
    {
      ShortestIsAtDistance(graph, mentioned, far, r);
    }
    AllAtDistanceIff(graph, mentioned, far, result);
    FartherLeftOut(graph, mentioned, far, result, truncated, far);
  }

  lemma {:induction false} FartherLeftOut(graph: Graph, mentioned: seq<Entity>, far: nat, result: seq<Ranked>,
                                          truncated: bool, k: int)
    requires Nearest(graph, mentioned, far, result, truncated) && k <= far
    ensures NoneNearerLeftOut(graph, mentioned, result, truncated, k)
    decreases k + 1
  {
    if k < 0 {
    } else {
      FartherLeftOut(graph, mentioned, far, result, truncated, k - 1);
      forall e | Distance(graph, mentioned, k, e)
        ensures InOrNoNearer(graph, mentioned, result, truncated, k, e)
      {
        LeftOut(graph, mentioned, far, result, truncated, k, e);
      }
    }
  }

  lemma LeftOut(graph: Graph, mentioned: seq<Entity>, far: nat, result: seq<Ranked>, truncated: bool, k: nat, e: Entity)
    requires Nearest(graph, mentioned, far, result, truncated)
    requires k <= far && Distance(graph, mentioned, k, e)
    ensures InOrNoNearer(graph, mentioned, result, truncated, k, e)
  {
    var r := Ranked(e, Decay(k));
    assert Shortest(graph, mentioned, r, far);
    if i :| 0 <= i < |result| && result[i] == r {
      assert Named(result, e);
    } else {
      forall x | x in result
        ensures NoFarther(graph, mentioned, x.key, k, e)
      {
        LeftOutIsFarther(graph, mentioned, far, x, k, e);
      }
    }
  }

  lemma AtDistanceIsShortest(graph: Graph, mentioned: seq<Entity>, far: nat, r: Ranked)
    requires AtDistance(graph, mentioned, far, r)
    ensures Shortest(graph, mentioned, r, far)
  {
    var k :| 0 <= k <= far && Distance(graph, mentioned, k, r.key) && Decayed(k, r.score);
    DecayedIs(k, r.score);
  }

  lemma DecayedIs(k: nat, d: real)
    requires Decayed(k, d)
    ensures d == Decay(k)
  {
    DecayInNumbers(k);
    if k > 0 {
      SameReciprocal((k + 1) as real, d, Decay(k));
    }
  }

  lemma SameReciprocal(x: real, a: real, b: real)
    requires x > 0.0 && a * x == 1.0 && b * x == 1.0
    ensures a == b
  {
    assert (a - b) * x == 0.0;
  }

  lemma {:induction false} LeftOutUpTo(graph: Graph, mentioned: seq<Entity>, result: seq<Ranked>, truncated: bool,
                                       k: int, j: nat, e: Entity)
    requires NoneNearerLeftOut(graph, mentioned, result, truncated, k)
    requires j <= k && Distance(graph, mentioned, j, e)
    ensures InOrNoNearer(graph, mentioned, result, truncated, j, e)
    decreases k
  {
    if j == k {
    } else {
      LeftOutUpTo(graph, mentioned, result, truncated, k - 1, j, e);
    }
  }

  /** The same result in terms of the decay formula. */
  lemma {:induction false} ByDistanceIsNearest(graph: Graph, mentioned: seq<Entity>, far: nat, result: seq<Ranked>,
                                               truncated: bool)
    requires ByDistance(graph, mentioned, far, result, truncated)
    ensures Nearest(graph, mentioned, far, result, truncated)
  {
    AllAtDistanceIff(graph, mentioned, far, result);
    forall r | r in result
      ensures Shortest(graph, mentioned, r, far)
    {
      AtDistanceIsShortest(graph, mentioned, far, r);
    }
    forall r | Shortest(graph, mentioned, r, far) && r !in result
      ensures truncated && forall x :: x in result ==> Leq(x, r)
    {
      MissingIsFarther(graph, mentioned, far, result, truncated, r);
    }
  }

  lemma MissingIsFarther(graph: Graph, mentioned: seq<Entity>, far: nat, result: seq<Ranked>, truncated: bool,
                         r: Ranked)
    requires NoneNearerLeftOut(graph, mentioned, result, truncated, far)
    requires forall x :: x in result ==> Shortest(graph, mentioned, x, far)
    requires Shortest(graph, mentioned, r, far) && r !in result
    ensures truncated && forall x :: x in result ==> Leq(x, r)
  {
    var k :| 0 <= k <= far && Distance(graph, mentioned, k, r.key) && r.score == Decay(k);
    LeftOutUpTo(graph, mentioned, result, truncated, far, k, r.key);
    if i :| 0 <= i < |result| && result[i].key == r.key {
      ShortestIsUnique(graph, mentioned, r, result[i], far);
    }
    forall x | x in result
      ensures Leq(x, r)
    {
      NoFartherIsFirst(graph, mentioned, x, k, r.key, far);
    }
  }

  lemma NoFartherIsFirst(graph: Graph, mentioned: seq<Entity>, x: Ranked, k: nat, e: Entity, far: nat)
    requires Shortest(graph, mentioned, x, far) && NoFarther(graph, mentioned, x.key, k, e)
    ensures Leq(x, Ranked(e, Decay(k)))
  {
    var i :| 0 <= i <= far && Distance(graph, mentioned, i, x.key) && x.score == Decay(i);
    var j :| 0 <= j <= k && Distance(graph, mentioned, j, x.key) && (j == k ==> Sorting.KeyLeq(x.key, e));
    assert i == j;
    DecayOrder(j, k);
  }

  /** Keep each entity's best decay, in the order of the later cut. */
  method BestFirst(frontier: seq<Ranked>) returns (items: seq<Ranked>, ghost best: map<Entity, real>)
    ensures BestOf(frontier, best, items) && |items| <= |frontier|
  {
    var table := BestDecays(frontier);
    items := Enumerate(table);
    best := table;
    forall i | 0 <= i < |frontier|
      ensures frontier[i].key in best
    {
      assert Named(frontier, frontier[i].key);
    }
  }

  /** The frontier part of `expand_search_hits`, for one origin hit. */
  method Decays(graph: Graph, mentioned: seq<Entity>, maxExpand: nat) returns (result: seq<Ranked>)
    requires maxExpand >= 1
    ensures ByDistance(graph, mentioned, maxExpand - 1, result, Fanout(graph, mentioned, maxExpand - 2) > 100)
  {
    var frontier := Search(graph, mentioned, maxExpand);
    var items; ghost var best;
    items, best := BestFirst(frontier);
    result := Top(items, FRONTIER_MAX);
    FrontierExpands(graph, mentioned, frontier, maxExpand - 1, best, items, result);
  }
}

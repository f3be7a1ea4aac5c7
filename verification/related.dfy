/** The `related_to` graph between entities: paths, distances, and how many rows
    its queries return. */
module Related {
  import Sorting

  type Entity = string

  /** `related_to` successors of an entity, by name. */
  type Graph = Entity -> seq<Entity>

  /** Some path of exactly `k` edges leads from a mentioned entity to `e`. */
  ghost predicate Reach(graph: Graph, mentioned: seq<Entity>, k: nat, e: Entity) {
    if k == 0 then e in mentioned
    else exists m :: Reach(graph, mentioned, k - 1, m) && e in graph(m)
  }

  /** `k` is the length of the shortest path to `e`. */
  ghost predicate Distance(graph: Graph, mentioned: seq<Entity>, k: nat, e: Entity) {
    Reach(graph, mentioned, k, e) && forall j :: 0 <= j < k ==> !Reach(graph, mentioned, j, e)
  }

  // ----- the batched query -----

  predicate IsSuccessor(graph: Graph, names: seq<Entity>, e: Entity) {
    exists i :: 0 <= i < |names| && e in graph(names[i])
  }

  function AllSuccessors(graph: Graph, names: seq<Entity>): seq<Entity> {
    if names == [] then [] else graph(names[0]) + AllSuccessors(graph, names[1..])
  }

  /** The answer to `IN $names`: one row per edge, in whatever order. */
  ghost predicate Answers(graph: Graph, names: seq<Entity>, rows: seq<Entity>) {
    && |rows| == |AllSuccessors(graph, names)|
    && forall e :: e in rows <==> IsSuccessor(graph, names, e)
  }

  lemma {:induction false} AllSuccessorsAnswers(graph: Graph, names: seq<Entity>)
    ensures Answers(graph, names, AllSuccessors(graph, names))
  {
    if names == [] {
    } else {
      var rest := names[1..];
      AllSuccessorsAnswers(graph, rest);
      forall e
        ensures IsSuccessor(graph, names, e) <==> e in graph(names[0]) || IsSuccessor(graph, rest, e)
      {
        if IsSuccessor(graph, rest, e) {
          var i :| 0 <= i < |rest| && e in graph(rest[i]);
          assert names[i + 1] == rest[i];
        }
        if IsSuccessor(graph, names, e) && e !in graph(names[0]) {
          var i :| 0 <= i < |names| && e in graph(names[i]);
          assert rest[i - 1] == names[i];
        }
      }
    }
  }

  // ----- how many rows the queries return -----

  /** Number of edges leaving the entities of `s`. */
  ghost function OutDegree(graph: Graph, s: set<Entity>): nat {
    if s == {} then 0
    else
      var v :| v in s;
      |graph(v)| + OutDegree(graph, s - {v})
  }

  lemma {:induction false} OutDegreeWithout(graph: Graph, s: set<Entity>, v: Entity)
    requires v in s
    ensures OutDegree(graph, s) == |graph(v)| + OutDegree(graph, s - {v})
  {
    var w :| w in s && OutDegree(graph, s) == |graph(w)| + OutDegree(graph, s - {w});
    if w == v {
    } else {
      OutDegreeWithout(graph, s - {w}, v);
      OutDegreeWithout(graph, s - {v}, w);
      assert s - {w} - {v} == s - {v} - {w};
    }
  }

  lemma {:induction false} OutDegreeMonotone(graph: Graph, s: set<Entity>, t: set<Entity>)
    requires s <= t
    ensures OutDegree(graph, s) <= OutDegree(graph, t)
  {
    if s == {} {
    } else {
      var v :| v in s;
      OutDegreeWithout(graph, s, v);
      OutDegreeWithout(graph, t, v);
      OutDegreeMonotone(graph, s - {v}, t - {v});
    }
  }

  lemma {:induction false} QueryAddsOutDegree(graph: Graph, visited: set<Entity>, names: seq<Entity>,
                                              after: set<Entity>)
    requires Sorting.Distinct(names) && forall i :: 0 <= i < |names| ==> names[i] !in visited
    requires after == visited + set n | n in names
    ensures OutDegree(graph, after) == OutDegree(graph, visited) + |AllSuccessors(graph, names)|
    decreases names
  {
    if names == [] {
      assert after == visited;
    } else {
      var more := visited + {names[0]};
      OutDegreeWithout(graph, more, names[0]);
      assert more - {names[0]} == visited;
      assert names == [names[0]] + names[1..];
      assert after == more + set n | n in names[1..];
      QueryAddsOutDegree(graph, more, names[1..], after);
    }
  }

  /** At most `k` edges lead from a mentioned entity to `e`. */
  ghost predicate Within(graph: Graph, mentioned: seq<Entity>, k: int, e: Entity) {
    exists j :: 0 <= j <= k && Reach(graph, mentioned, j, e)
  }

  ghost predicate IsNear(graph: Graph, mentioned: seq<Entity>, k: int, s: set<Entity>) {
    forall e :: e in s <==> Within(graph, mentioned, k, e)
  }

  ghost predicate AllWithin(graph: Graph, mentioned: seq<Entity>, k: int, s: set<Entity>) {
    forall e :: e in s ==> Within(graph, mentioned, k, e)
  }

  ghost function Successors(graph: Graph, s: set<Entity>): set<Entity> {
    set m, e | m in s && e in graph(m) :: e
  }

  /** Entities at most `k` edges away from a mentioned one. */
  ghost function Near(graph: Graph, mentioned: seq<Entity>, k: int): set<Entity>
    decreases k + 1
  {
    if k < 0 then {}
    else if k == 0 then set e | e in mentioned
    else
      var close := Near(graph, mentioned, k - 1);
      close + Successors(graph, close)
  }

  lemma WithinStep(graph: Graph, mentioned: seq<Entity>, k: nat, e: Entity)
    ensures Within(graph, mentioned, k + 1, e) <==>
        Within(graph, mentioned, k, e) || exists m :: Within(graph, mentioned, k, m) && e in graph(m)
  {
    if Within(graph, mentioned, k + 1, e) {
      var j :| 0 <= j <= k + 1 && Reach(graph, mentioned, j, e);
      if j > k {
        var m :| Reach(graph, mentioned, k, m) && e in graph(m);
        assert Within(graph, mentioned, k, m);
      }
    }
    if Within(graph, mentioned, k, e) {
      var j :| 0 <= j <= k && Reach(graph, mentioned, j, e);
    }
    forall m | Within(graph, mentioned, k, m) && e in graph(m)
      ensures Within(graph, mentioned, k + 1, e)
    {
      var j :| 0 <= j <= k && Reach(graph, mentioned, j, m);
      assert Reach(graph, mentioned, j + 1, e);
    }
  }

  lemma NearStep(graph: Graph, mentioned: seq<Entity>, k: nat, close: set<Entity>)
    requires IsNear(graph, mentioned, k, close)
    ensures IsNear(graph, mentioned, k + 1, close + Successors(graph, close))
  {
    forall e
      ensures e in close + Successors(graph, close) <==> Within(graph, mentioned, k + 1, e)
    {
      WithinStep(graph, mentioned, k, e);
    }
  }

  lemma {:induction false} NearIsNear(graph: Graph, mentioned: seq<Entity>, k: int)
    ensures IsNear(graph, mentioned, k, Near(graph, mentioned, k))
    decreases k + 1
  {
    if k > 0 {
      NearIsNear(graph, mentioned, k - 1);
      NearStep(graph, mentioned, k - 1, Near(graph, mentioned, k - 1));
    } else if k == 0 {
      forall e
        ensures e in mentioned <==> Within(graph, mentioned, 0, e)
      {
        assert e in mentioned <==> Reach(graph, mentioned, 0, e);
      }
    }
  }

  /** Rows seen once the successors of all entities within `k` edges have been
      queried: the mentioned entities and one row per edge. */
  ghost function Fanout(graph: Graph, mentioned: seq<Entity>, k: int): nat {
    |mentioned| + OutDegree(graph, Near(graph, mentioned, k))
  }

  lemma {:induction false} FanoutOf(graph: Graph, mentioned: seq<Entity>, k: int, s: set<Entity>)
    requires IsNear(graph, mentioned, k, s)
    ensures Fanout(graph, mentioned, k) == |mentioned| + OutDegree(graph, s)
  {
    NearIsNear(graph, mentioned, k);
    assert s == Near(graph, mentioned, k);
  }

  lemma FanoutAtLeast(graph: Graph, mentioned: seq<Entity>, k: int, s: set<Entity>)
    requires AllWithin(graph, mentioned, k, s)
    ensures Fanout(graph, mentioned, k) >= |mentioned| + OutDegree(graph, s)
  {
    NearIsNear(graph, mentioned, k);
    OutDegreeMonotone(graph, s, Near(graph, mentioned, k));
  }

  /** Once all entities within `k + 1` edges are within `k`, that is all of them. */
  lemma {:induction false} NearClosed(graph: Graph, mentioned: seq<Entity>, k: int, far: int, s: set<Entity>)
    requires -1 <= k <= far && IsNear(graph, mentioned, k, s) && IsNear(graph, mentioned, k + 1, s)
    ensures IsNear(graph, mentioned, far, s)
    decreases far - k
  {
    if k >= far - 1 {
    } else {
      forall e
        ensures e in s <==> Within(graph, mentioned, k + 2, e)
      {
        WithinStep(graph, mentioned, k + 1, e);
        if k >= 0 {
          WithinStep(graph, mentioned, k, e);
        }
      }
      NearClosed(graph, mentioned, k + 1, far, s);
    }
  }
}

/** Lists ranked by score, highest first, equal scores by key: the order every
    result list is cut in. */
module Ranking {
  import S = Sorting

  datatype Ranked = Ranked(key: string, score: real)

  predicate Leq(a: Ranked, b: Ranked) {
    a.score > b.score || (a.score == b.score && S.KeyLeq(a.key, b.key))
  }

  lemma LeqTotal(a: Ranked, b: Ranked)
    ensures Leq(a, b) || Leq(b, a)
    ensures Leq(a, b) && Leq(b, a) ==> a == b
  {
    S.KeyTotal(a.key, b.key);
  }

  lemma LeqTransitive(a: Ranked, b: Ranked, c: Ranked)
    requires Leq(a, b) && Leq(b, c)
    ensures Leq(a, c)
  {
    if a.score == b.score == c.score {
      S.KeyTransitive(a.key, b.key, c.key);
    }
  }

  lemma LeqIsTotalOrder()
    ensures S.TotalOrder(Leq)
  {
    forall a, b
      ensures Leq(a, b) || Leq(b, a)
    {
      LeqTotal(a, b);
    }
    forall a, b, c | Leq(a, b) && Leq(b, c)
      ensures Leq(a, c)
    {
      LeqTransitive(a, b, c);
    }
  }

  /** `sort_by` under this order; being total, it fixes the result. */
  function Sort(s: seq<Ranked>): (r: seq<Ranked>)
    ensures multiset(r) == multiset(s) && |r| == |s|
  {
    S.Sort(s, Leq)
  }

  lemma SortSorted(s: seq<Ranked>)
    ensures S.Sorted(Sort(s), Leq)
  {
    LeqIsTotalOrder();
    S.SortSorted(s, Leq);
  }

  /** The first k of the ranking. */
  function Top(s: seq<Ranked>, k: nat): seq<Ranked> {
    var r := Sort(s);
    if |r| <= k then r else r[..k]
  }

  /** The ranking does not depend on the order its input comes in. */
  lemma TopOrderIndependent(s: seq<Ranked>, t: seq<Ranked>, k: nat)
    requires multiset(s) == multiset(t)
    ensures Top(s, k) == Top(t, k)
  {
    LeqIsTotalOrder();
    forall i, j | 0 <= i < |s| && 0 <= j < |s| && Leq(s[i], s[j]) && Leq(s[j], s[i])
      ensures s[i] == s[j]
    {
      LeqTotal(s[i], s[j]);
    }
    S.SortOrderIndependent(s, t, Leq);
  }

  lemma InSort(s: seq<Ranked>, x: Ranked)
    ensures x in Sort(s) <==> x in s
  {
    S.InSort(s, Leq, x);
  }

  /** Whatever is cut off ranks after everything that is kept. */
  lemma TopKeepsBest(s: seq<Ranked>, k: nat, x: Ranked, y: Ranked)
    requires x in Top(s, k) && y in s && y !in Top(s, k)
    ensures x in s && Leq(x, y)
  {
    var r := Sort(s);
    InSort(s, x);
    InSort(s, y);
    SortSorted(s);
    var i :| 0 <= i < |Top(s, k)| && Top(s, k)[i] == x;
    assert forall m :: 0 <= m < |Top(s, k)| ==> Top(s, k)[m] == r[m];
    var j :| 0 <= j < |r| && r[j] == y;
    assert j >= |Top(s, k)|;
  }

  lemma InTop(s: seq<Ranked>, k: nat, x: Ranked)
    ensures x in Top(s, k) ==> x in s
    ensures |s| <= k && x in s ==> x in Top(s, k)
  {
    InSort(s, x);
    if x in Top(s, k) {
      var i :| 0 <= i < |Top(s, k)| && Top(s, k)[i] == x;
      assert Sort(s)[i] == x;
    }
  }

  /** Entries that rank after all of a full list change nothing in it. */
  lemma TopIgnoresWorse(s: seq<Ranked>, more: seq<Ranked>, k: nat)
    requires |s| == k && forall x, y :: x in s && y in more ==> Leq(x, y)
    ensures Top(s + more, k) == Sort(s)
  {
    var r := Sort(s) + Sort(more);
    SortSorted(s);
    SortSorted(more);
    SortSorted(s + more);
    forall i, j | 0 <= i < j < |r|
      ensures Leq(r[i], r[j])
    {
      if i < |s| <= j {
        InSort(s, r[i]);
        InSort(more, r[j]);
      }
    }
    forall i, j | 0 <= i < |r| && 0 <= j < |r| && Leq(r[i], r[j]) && Leq(r[j], r[i])
      ensures r[i] == r[j]
    {
      LeqTotal(r[i], r[j]);
    }
    LeqIsTotalOrder();
    S.SortedUnique(r, Sort(s + more), Leq);
    assert r[..k] == Sort(s);
  }

  /** A hash map's entries, in an arbitrary iteration order. */
  method Enumerate(table: map<string, real>) returns (items: seq<Ranked>)
    ensures |items| == |table|
    ensures forall i :: 0 <= i < |items| ==> items[i].key in table && items[i].score == table[items[i].key]
    ensures forall id :: id in table ==> Ranked(id, table[id]) in items
    ensures forall i, j :: 0 <= i < j < |items| ==> items[i].key != items[j].key
  {
    items := [];
    var left := table.Keys;
    while left != {}
      invariant left <= table.Keys && |items| + |left| == |table|
      invariant forall i :: 0 <= i < |items| ==>
          items[i].key in table && items[i].key !in left && items[i].score == table[items[i].key]
      invariant forall id :: id in table && id !in left ==> Ranked(id, table[id]) in items
      invariant forall i, j :: 0 <= i < j < |items| ==> items[i].key != items[j].key
      decreases left
    {
      var id :| id in left;
      left := left - {id};
      items := items + [Ranked(id, table[id])];
    }
  }

  lemma InverseOrder(a: real, b: real)
    requires 0.0 < a < b
    ensures 1.0 / a > 1.0 / b
  {
    assert (1.0 / a - 1.0 / b) * (a * b) == b - a;
  }
}

/** Reciprocal rank fusion of the vector and the keyword leg of a hybrid search. */
module Fusion {
  import opened Ranking
  import Sorting

  datatype Hit = Hit(score: real, keyword: bool)

  /** `rrf_k.max(1)` */
  function Clamped(k: nat): nat {
    if k < 1 then 1 else k
  }

  /** Weight of the hit at position `rank`, counted from 0, of one leg. */
  function Weight(k: nat, rank: nat): real {
    1.0 / (Clamped(k) + rank + 1) as real
  }

  /** What one leg adds to the score of a chunk: the weight of its rank, if found. */
  function Leg(k: nat, ids: seq<string>, id: string): real {
    LegFrom(k, ids, 0, id)
  }

  function LegFrom(k: nat, ids: seq<string>, from: nat, id: string): real
    requires from <= |ids|
    decreases |ids| - from
  {
    if from == |ids| then 0.0
    else if ids[from] == id then Weight(k, from)
    else LegFrom(k, ids, from + 1, id)
  }

  lemma {:induction false} LegAt(k: nat, ids: seq<string>, from: nat, rank: nat)
    requires Sorting.Distinct(ids) && from <= rank < |ids|
    ensures LegFrom(k, ids, from, ids[rank]) == Weight(k, rank)
    decreases |ids| - from
  {
    if from >= rank {
    } else {
      LegAt(k, ids, from + 1, rank);
    }
  }

  lemma {:induction false} LegMissing(k: nat, ids: seq<string>, from: nat, id: string)
    requires from <= |ids| && id !in ids[from..]
    ensures LegFrom(k, ids, from, id) == 0.0
    decreases |ids| - from
  {
    if from >= |ids| {
    } else {
      assert ids[from] == ids[from..][0];
      assert id !in ids[from + 1..] by {
        assert ids[from..] == [ids[from]] + ids[from + 1..];
      }
      LegMissing(k, ids, from + 1, id);
    }
  }

  lemma WeightOrder(k: nat, a: nat, b: nat)
    requires a <= b
    ensures Weight(k, a) >= Weight(k, b) > 0.0
    ensures a < b ==> Weight(k, a) > Weight(k, b)
  {
    var c := Clamped(k);
    if a < b {
      InverseOrder((c + a + 1) as real, (c + b + 1) as real);
    }
  }

  // ----- merging -----

  /** The table after the whole vector leg and `n` rows of the keyword leg. */
  ghost predicate Merged(k: nat, vector: seq<string>, keyword: seq<string>, n: nat, table: map<string, Hit>)
    requires n <= |keyword|
  {
    && (forall id :: id in table <==> id in vector || id in keyword[..n])
    && forall id :: id in table ==>
        table[id] ==
        Hit(Leg(k, vector, id) + (if id in keyword[..n] then Leg(k, keyword, id) else 0.0), id in keyword[..n])
  }

  /** The two merge loops of `hybrid_search`. */
  method Merge(k: nat, vector: seq<string>, keyword: seq<string>) returns (table: map<string, Hit>)
    requires Sorting.Distinct(vector) && Sorting.Distinct(keyword)
    ensures forall id :: id in table <==> id in vector || id in keyword
    ensures forall id :: id in table ==> table[id] == Hit(Leg(k, vector, id) + Leg(k, keyword, id), id in keyword)
  {
    table := map[];
    for rank := 0 to |vector|
      invariant forall id :: id in table <==> id in vector[..rank]
      invariant forall id :: id in table ==> table[id] == Hit(Leg(k, vector, id), false)
    {
      var id := vector[rank];
      LegAt(k, vector, 0, rank);
      if id !in table {
        table := table[id := Hit(Weight(k, rank), false)];
      }
      assert vector[..rank + 1] == vector[..rank] + [id];
    }
    assert vector[..|vector|] == vector;
    for rank := 0 to |keyword|
      invariant Merged(k, vector, keyword, rank, table)
    {
      table := MergeKeyword(k, vector, keyword, rank, table);
    }
    assert keyword[..|keyword|] == keyword;
    forall id | id in table
      ensures table[id] == Hit(Leg(k, vector, id) + Leg(k, keyword, id), id in keyword)
    {
      if id !in keyword {
        assert keyword[0..] == keyword;
        LegMissing(k, keyword, 0, id);
      }
    }
  }

  method MergeKeyword(k: nat, ghost vector: seq<string>, keyword: seq<string>, rank: nat, before: map<string, Hit>)
      returns (table: map<string, Hit>)
    requires Sorting.Distinct(keyword) && rank < |keyword| && Merged(k, vector, keyword, rank, before)
    ensures Merged(k, vector, keyword, rank + 1, table)
  {
    var id := keyword[rank];
    LegAt(k, keyword, 0, rank);
    assert keyword[..rank + 1] == keyword[..rank] + [id];
    assert id !in keyword[..rank];
    if id in before {
      table := before[id := Hit(before[id].score + Weight(k, rank), true)];
    } else {
      assert vector[0..] == vector;
      LegMissing(k, vector, 0, id);
      table := before[id := Hit(Weight(k, rank), true)];
    }
  }

  // ----- ranking -----

  /** Score of a chunk: the sum of what the two legs give it. */
  function Score(k: nat, vector: seq<string>, keyword: seq<string>, id: string): real {
    Leg(k, vector, id) + Leg(k, keyword, id)
  }

  /** Each chunk of either leg once, with its score. */
  ghost predicate Scored(k: nat, vector: seq<string>, keyword: seq<string>, items: seq<Ranked>) {
    && (forall i :: 0 <= i < |items| ==>
          (items[i].key in vector || items[i].key in keyword) &&
          items[i].score == Score(k, vector, keyword, items[i].key))
    && (forall id :: id in vector || id in keyword ==> Ranked(id, Score(k, vector, keyword, id)) in items)
    && forall i, j :: 0 <= i < j < |items| ==> items[i].key != items[j].key
  }

  /** Whatever order the table is read in, it is the same items. */
  lemma ScoredUnique(k: nat, vector: seq<string>, keyword: seq<string>, a: seq<Ranked>, b: seq<Ranked>)
    requires Scored(k, vector, keyword, a) && Scored(k, vector, keyword, b)
    ensures multiset(a) == multiset(b)
  {
    forall x
      ensures x in a <==> x in b
    {
      if x in a {
        var i :| 0 <= i < |a| && a[i] == x;
        assert Ranked(x.key, Score(k, vector, keyword, x.key)) in b;
      }
      if x in b {
        var i :| 0 <= i < |b| && b[i] == x;
        assert Ranked(x.key, Score(k, vector, keyword, x.key)) in a;
      }
    }
    Sorting.SameElements(a, b);
  }

  /** The scores of the table, in the order it is iterated in. */
  method Scores(table: map<string, Hit>) returns (items: seq<Ranked>)
    ensures forall i :: 0 <= i < |items| ==> items[i].key in table && items[i].score == table[items[i].key].score
    ensures forall id :: id in table ==> Ranked(id, table[id].score) in items
    ensures forall i, j :: 0 <= i < j < |items| ==> items[i].key != items[j].key
  {
    var scores := map id | id in table :: table[id].score;
    items := Enumerate(scores);
    forall id | id in table
      ensures Ranked(id, table[id].score) in items
    {
      assert id in scores && scores[id] == table[id].score;
    }
  }

  /** The hits a hybrid search returns, and which of them the keyword leg found. */
  method HybridMerge(k: nat, vector: seq<string>, keyword: seq<string>, topK: nat)
      returns (hits: seq<Ranked>, highlighted: set<string>)
    requires Sorting.Distinct(vector) && Sorting.Distinct(keyword)
    ensures forall items :: Scored(k, vector, keyword, items) ==> hits == Top(items, topK)
    ensures exists items :: Scored(k, vector, keyword, items)
    ensures forall id :: id in highlighted <==> id in keyword && exists i :: 0 <= i < |hits| && hits[i].key == id
  {
    var table := Merge(k, vector, keyword);
    var items := Scores(table);
    assert Scored(k, vector, keyword, items);
    forall other | Scored(k, vector, keyword, other)
      ensures Top(items, topK) == Top(other, topK)
    {
      ScoredUnique(k, vector, keyword, items, other);
      TopOrderIndependent(items, other, topK);
    }
    hits := Top(items, topK);
    highlighted := {};
    for n := 0 to |hits|
      invariant forall id :: id in highlighted <==> id in keyword && exists i :: 0 <= i < n && hits[i].key == id
    {
      InTop(items, topK, hits[n]);
      if table[hits[n].key].keyword {
        highlighted := highlighted + {hits[n].key};
      }
    }
  }

  // ----- agreement of the legs -----

  lemma ScoreOfWeights(k: nat, vector: seq<string>, keyword: seq<string>, id: string)
    requires Sorting.Distinct(vector) && Sorting.Distinct(keyword)
    ensures forall i, j :: 0 <= i < |vector| && 0 <= j < |keyword| && vector[i] == keyword[j] == id ==>
        Score(k, vector, keyword, id) == Weight(k, i) + Weight(k, j)
    ensures forall i :: 0 <= i < |vector| && vector[i] == id && id !in keyword ==>
        Score(k, vector, keyword, id) == Weight(k, i)
    ensures forall j :: 0 <= j < |keyword| && keyword[j] == id && id !in vector ==>
        Score(k, vector, keyword, id) == Weight(k, j)
  {
    forall i | 0 <= i < |vector| && vector[i] == id
      ensures Leg(k, vector, id) == Weight(k, i)
    {
      LegAt(k, vector, 0, i);
    }
    forall j | 0 <= j < |keyword| && keyword[j] == id
      ensures Leg(k, keyword, id) == Weight(k, j)
    {
      LegAt(k, keyword, 0, j);
    }
    assert vector[0..] == vector && keyword[0..] == keyword;
    if id !in vector {
      LegMissing(k, vector, 0, id);
    }
    if id !in keyword {
      LegMissing(k, keyword, 0, id);
    }
  }

  /** What a hit found at this rank gets from a leg, for the configured k or for 1. */
  lemma WeightInNumbers(k: nat, rank: nat)
    ensures k >= 1 ==> Weight(k, rank) * (k + rank + 1) as real == 1.0
    ensures k == 0 ==> Weight(k, rank) * (rank + 2) as real == 1.0
  {
    Reciprocal((Clamped(k) + rank + 1) as real);
  }

  lemma Reciprocal(x: real)
    requires x > 0.0
    ensures 1.0 / x * x == 1.0
  {
  }

  /** The scores of chunks by the ranks they were found at, counted from 0, for any k but
      0; and 0 is taken for 1. */
  lemma {:induction false} ScoreByRanks(k: nat, vector: seq<string>, keyword: seq<string>, id: string)
    requires Sorting.Distinct(vector) && Sorting.Distinct(keyword) && k >= 1
    ensures forall i, j :: 0 <= i < |vector| && 0 <= j < |keyword| && vector[i] == keyword[j] == id ==>
        Score(k, vector, keyword, id) == 1.0 / (k + i + 1) as real + 1.0 / (k + j + 1) as real
    ensures forall i :: 0 <= i < |vector| && vector[i] == id && id !in keyword ==>
        Score(k, vector, keyword, id) == 1.0 / (k + i + 1) as real
    ensures forall j :: 0 <= j < |keyword| && keyword[j] == id && id !in vector ==>
        Score(k, vector, keyword, id) == 1.0 / (k + j + 1) as real
    ensures Score(0, vector, keyword, id) == Score(1, vector, keyword, id)
  {
    ScoreOfWeights(k, vector, keyword, id);
    SameLeg(vector, 0, id);
    SameLeg(keyword, 0, id);
  }

  lemma {:induction false} SameLeg(ids: seq<string>, from: nat, id: string)
    requires from <= |ids|
    ensures LegFrom(0, ids, from, id) == LegFrom(1, ids, from, id)
    decreases |ids| - from
  {
    if from == |ids| {
    } else {
      SameLeg(ids, from + 1, id);
    }
  }

  ghost predicate FoundTwice(vector: seq<string>, keyword: seq<string>, id: string) {
    id in vector && id in keyword
  }

  ghost predicate FoundOnce(vector: seq<string>, keyword: seq<string>, id: string) {
    (id in vector) != (id in keyword)
  }

  /** Lists as the two queries return them. */
  ghost predicate Fetched(topK: nat, vector: seq<string>, keyword: seq<string>) {
    |vector| <= 3 * topK && |keyword| <= 3 * topK && Sorting.Distinct(vector) && Sorting.Distinct(keyword)
  }

  lemma TwiceLastBeatsFirst(k: nat, fetched: nat)
    requires fetched > 0
    ensures 2.0 * Weight(k, fetched - 1) > Weight(k, 0) <==> fetched < Clamped(k) + 2
  {
    var c := Clamped(k);
    var a, b := (c + fetched) as real, (c + 1) as real;
    assert 2.0 * (1.0 / a) - 1.0 / b == (2.0 * b - a) / (a * b);
    Quotient(2.0 * b - a, a * b);
  }

  lemma Quotient(x: real, y: real)
    requires y > 0.0
    ensures x / y > 0.0 <==> x > 0.0
  {
    assert (x / y) * y == x;
  }

  lemma FoundTwiceAtLeast(k: nat, fetched: nat, vector: seq<string>, keyword: seq<string>, x: string)
    requires |vector| <= fetched && |keyword| <= fetched && Sorting.Distinct(vector) && Sorting.Distinct(keyword) &&
        FoundTwice(vector, keyword, x)
    ensures fetched > 0 && Score(k, vector, keyword, x) >= 2.0 * Weight(k, fetched - 1)
  {
    ScoreOfWeights(k, vector, keyword, x);
    var i :| 0 <= i < |vector| && vector[i] == x;
    var j :| 0 <= j < |keyword| && keyword[j] == x;
    WeightOrder(k, i, fetched - 1);
    WeightOrder(k, j, fetched - 1);
  }

  lemma FoundOnceAtMost(k: nat, vector: seq<string>, keyword: seq<string>, y: string)
    requires Sorting.Distinct(vector) && Sorting.Distinct(keyword) && FoundOnce(vector, keyword, y)
    ensures Score(k, vector, keyword, y) <= Weight(k, 0)
  {
    ScoreOfWeights(k, vector, keyword, y);
    if y in vector {
      var n :| 0 <= n < |vector| && vector[n] == y;
      WeightOrder(k, 0, n);
    } else {
      var n :| 0 <= n < |keyword| && keyword[n] == y;
      WeightOrder(k, 0, n);
    }
  }

  /** A hit of both legs outranks any hit of one, when few enough are fetched. */
  lemma BothOutrankOne(k: nat, topK: nat, vector: seq<string>, keyword: seq<string>, x: string, y: string)
    requires 3 * topK < Clamped(k) + 2 && Fetched(topK, vector, keyword)
    requires FoundTwice(vector, keyword, x) && FoundOnce(vector, keyword, y)
    ensures Score(k, vector, keyword, x) > Score(k, vector, keyword, y)
  {
    FoundTwiceAtLeast(k, 3 * topK, vector, keyword, x);
    FoundOnceAtMost(k, vector, keyword, y);
    TwiceLastBeatsFirst(k, 3 * topK);
  }

  function Name(c: char, n: nat): string {
    seq(n + 1, _ => c)
  }

  /** `n - 1` names of the leg's own, then one both legs share. */
  function Disjoint(c: char, n: nat): seq<string>
    requires n > 0
  {
    seq(n - 1, i requires i >= 0 => Name(c, i)) + ["x"]
  }

  lemma NamesDiffer(c: char, i: nat, d: char, j: nat)
    ensures c != d || i != j ==> Name(c, i) != Name(d, j)
    ensures c != 'x' ==> Name(c, i) != "x"
  {
    assert |Name(c, i)| == i + 1 && |Name(d, j)| == j + 1;
    assert Name(c, i)[0] == c && Name(d, j)[0] == d;
  }

  lemma DisjointIsDistinct(c: char, n: nat)
    requires n > 0 && c != 'x'
    ensures Sorting.Distinct(Disjoint(c, n)) && |Disjoint(c, n)| == n
  {
    var s := Disjoint(c, n);
    forall i, j | 0 <= i < j < n
      ensures s[i] != s[j]
    {
      NamesDiffer(c, i, c, j);
    }
  }

  /** Otherwise some hit of both legs does not. */
  lemma SomeOneHitHolds(k: nat, topK: nat) returns (vector: seq<string>, keyword: seq<string>, x: string, y: string)
    requires 3 * topK >= Clamped(k) + 2
    ensures Fetched(topK, vector, keyword) && FoundTwice(vector, keyword, x) && FoundOnce(vector, keyword, y)
    ensures Score(k, vector, keyword, x) <= Score(k, vector, keyword, y)
  {
    var n := 3 * topK;
    vector, keyword := Disjoint('v', n), Disjoint('k', n);
    x, y := "x", Name('v', 0);
    DisjointIsDistinct('v', n);
    DisjointIsDistinct('k', n);
    assert vector[n - 1] == keyword[n - 1] == x && vector[0] == y;
    forall j | 0 <= j < n
      ensures keyword[j] != y
    {
      NamesDiffer('v', 0, 'k', j);
    }
    ScoreOfWeights(k, vector, keyword, x);
    ScoreOfWeights(k, vector, keyword, y);
    TwiceLastBeatsFirst(k, n);
  }

  /** Agreement of the legs decides the ranking exactly when `3 * topK < k + 2`. */
  lemma AgreementDecidesIff(k: nat, topK: nat)
    ensures (forall vector, keyword, x, y ::
               Fetched(topK, vector, keyword) && FoundTwice(vector, keyword, x) && FoundOnce(vector, keyword, y)
               ==> Score(k, vector, keyword, x) > Score(k, vector, keyword, y))
            <==> 3 * topK < k + 2
  {
    if 3 * topK < k + 2 {
      forall vector, keyword, x, y | Fetched(topK, vector, keyword) && FoundTwice(vector, keyword, x) &&
          FoundOnce(vector, keyword, y)
        ensures Score(k, vector, keyword, x) > Score(k, vector, keyword, y)
      {
        BothOutrankOne(k, topK, vector, keyword, x, y);
      }
    } else {
      var vector, keyword, x, y := SomeOneHitHolds(k, topK);
    }
  }

  /** So no hit of one leg is returned before, or instead of, a hit of both. */
  lemma AgreedHitsComeFirst(k: nat, topK: nat, vector: seq<string>, keyword: seq<string>, items: seq<Ranked>,
                            hits: seq<Ranked>, n: nat, x: string)
    requires 3 * topK < k + 2 && Fetched(topK, vector, keyword)
    requires Scored(k, vector, keyword, items) && hits == Top(items, topK)
    requires n < |hits| && FoundOnce(vector, keyword, hits[n].key) && FoundTwice(vector, keyword, x)
    ensures exists m :: 0 <= m < n && hits[m].key == x
  {
    var r := Ranked(x, Score(k, vector, keyword, x));
    InSort(items, r);
    SortSorted(items);
    var m :| 0 <= m < |Sort(items)| && Sort(items)[m] == r;
    assert hits[n] == Sort(items)[n];
    InTop(items, topK, hits[n]);
    BothOutrankOne(k, topK, vector, keyword, x, hits[n].key);
    assert m < n;
    assert hits[m] == Sort(items)[m];
  }
}

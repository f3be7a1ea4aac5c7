/** The hits a graph expansion adds to a search result. */
module ExpansionHits {
  import opened Expansion
  import opened Ranking
  import opened Related
  import Sorting

  const EXPAND_ORIGIN_LIMIT := 3

  datatype Key = Key(document: string, idx: nat)

  datatype Hit = Hit(at: Key, score: real)

  /** A chunk found through the frontier, and the entities given with it. */
  datatype Row = Row(at: Key, matched: seq<Entity>)

  /** The answers of the database: the entities a chunk mentions, and the chunks
      that mention any of some entities. */
  datatype Queries = Queries(graph: Graph, mentions: Key -> seq<Entity>, chunks: seq<Entity> -> seq<Row>) {
    /** The chunk query of one direct hit.  No chunk is `IN []`. */
    function Rows(names: seq<Entity>): seq<Row> {
      if names == [] then [] else chunks(names)
    }

    /** The entities of a direct hit.  They are taken out of the table, so a second
        hit on the same chunk has none. */
    function Mentioned(direct: seq<Hit>, n: nat): seq<Entity>
      requires n < |direct|
    {
      if First(direct, n) then mentions(direct[n].at) else []
    }
  }

  predicate First(direct: seq<Hit>, n: nat)
    requires n < |direct|
  {
    forall m :: 0 <= m < n ==> direct[m].at != direct[n].at
  }

  function Positive(score: real): real {
    if score > 0.0 then score else 0.0
  }

  /** Highest decay of the matched entities; 0.95 when the frontier has none of them. */
  function BestMatch(matched: seq<Entity>, decays: map<Entity, real>): real {
    if matched == [] then 0.95
    else if matched[0] !in decays then BestMatch(matched[1..], decays)
    else if forall e :: e in matched[1..] ==> e !in decays then decays[matched[0]]
    else
      var rest := BestMatch(matched[1..], decays);
      if rest > decays[matched[0]] then rest else decays[matched[0]]
  }

  predicate Matches(matched: seq<Entity>, decays: map<Entity, real>) {
    exists e :: e in matched && e in decays
  }

  lemma {:induction false} BestMatchIsBest(matched: seq<Entity>, decays: map<Entity, real>)
    ensures var d := BestMatch(matched, decays);
            if Matches(matched, decays) then
              && (exists e :: e in matched && e in decays && decays[e] == d)
              && forall e :: e in matched && e in decays ==> decays[e] <= d
            else d == 0.95
  {
    if matched == [] {
    } else {
      assert matched == [matched[0]] + matched[1..];
      BestMatchIsBest(matched[1..], decays);
    }
  }

  predicate Fresh(hits: seq<Hit>, seen: set<Key>) {
    && (forall i :: 0 <= i < |hits| ==> hits[i].at !in seen)
    && forall i, j :: 0 <= i < j < |hits| ==> hits[i].at != hits[j].at
  }

  function Keys(hits: seq<Hit>): set<Key> {
    set i | 0 <= i < |hits| :: hits[i].at
  }

  lemma KeysConcat(a: seq<Hit>, b: seq<Hit>)
    ensures Keys(a + b) == Keys(a) + Keys(b)
  {
    forall key | key in Keys(a) + Keys(b)
      ensures key in Keys(a + b)
    {
      if key in Keys(a) {
        var i :| 0 <= i < |a| && a[i].at == key;
        assert (a + b)[i].at == key;
      } else {
        var i :| 0 <= i < |b| && b[i].at == key;
        assert (a + b)[|a| + i].at == key;
      }
    }
  }

  /** The hit of a row: the direct hit's score, decayed by the best match. */
  function HitOf(row: Row, origin: real, decays: map<Entity, real>): Hit {
    Hit(row.at, Positive(origin) * BestMatch(row.matched, decays))
  }

  predicate HasRow(rows: seq<Row>, at: Key) {
    exists r :: 0 <= r < |rows| && rows[r].at == at
  }

  /** The first row of a chunk gives the hit. */
  ghost predicate OfRow(hit: Hit, rows: seq<Row>, origin: real, decays: map<Entity, real>) {
    exists r :: 0 <= r < |rows| && hit == HitOf(rows[r], origin, decays) &&
      forall q :: 0 <= q < r ==> rows[q].at != hit.at
  }

  /** The chunks found through one direct hit that have not been seen before. */
  method Collect(rows: seq<Row>, origin: real, decays: map<Entity, real>, seen: set<Key>) returns (hits: seq<Hit>)
    ensures Fresh(hits, seen)
    ensures forall r :: 0 <= r < |rows| ==> rows[r].at in seen + Keys(hits)
    ensures forall i :: 0 <= i < |hits| ==> OfRow(hits[i], rows, origin, decays)
  {
    hits := [];
    var known := seen;
    for r := 0 to |rows|
      invariant Fresh(hits, seen) && known == seen + Keys(hits)
      invariant forall n :: 0 <= n < r ==> rows[n].at in known
      invariant forall i :: 0 <= i < |hits| ==> OfRow(hits[i], rows, origin, decays)
    {
      var row := rows[r];
      if row.at !in known {
        var hit := HitOf(row, origin, decays);
        assert OfRow(hit, rows, origin, decays);
        FreshOneMore(hits, seen, hit);
        hits := hits + [hit];
        known := known + {row.at};
      }
    }
  }

  lemma FreshOneMore(hits: seq<Hit>, seen: set<Key>, hit: Hit)
    requires Fresh(hits, seen) && hit.at !in seen + Keys(hits)
    ensures Fresh(hits + [hit], seen) && Keys(hits + [hit]) == Keys(hits) + {hit.at}
  {
    KeysConcat(hits, [hit]);
    assert [hit][0] == hit;
    assert Keys([hit]) == {hit.at};
    forall i | 0 <= i < |hits|
      ensures hits[i].at != hit.at
    {
      assert hits[i].at in Keys(hits);
    }
  }

  /** The entities to look for, and their decays. */
  datatype Search = Search(names: seq<Entity>, decays: map<Entity, real>)

  function Pairs(names: seq<Entity>, decays: map<Entity, real>): (r: seq<Ranked>)
    requires forall e :: e in names ==> e in decays
  {
    seq(|names|, i requires 0 <= i < |names| => Ranked(names[i], decays[names[i]]))
  }

  /** The entities and decays are those of the expansion from `mentioned`. */
  ghost predicate IsSearch(graph: Graph, mentioned: seq<Entity>, maxExpand: nat, search: Search) {
    && maxExpand >= 1
    && (forall e :: e in search.names <==> e in search.decays)
    && Nearest(graph, mentioned, maxExpand - 1, Pairs(search.names, search.decays),
                 Fanout(graph, mentioned, maxExpand - 2) > FRONTIER_MAX)
  }

  /** Entities of the frontier with their decays. */
  method DecayMap(frontier: seq<Ranked>) returns (decays: map<Entity, real>)
    ensures forall e :: e in decays <==> Named(frontier, e)
    ensures forall e :: e in decays ==> Ranked(e, decays[e]) in frontier
  {
    decays := map[];
    for i := 0 to |frontier|
      invariant forall e :: e in decays ==> Ranked(e, decays[e]) in frontier
      invariant forall n :: 0 <= n < i ==> frontier[n].key in decays
    {
      assert frontier[i] == Ranked(frontier[i].key, frontier[i].score);
      decays := decays[frontier[i].key := frontier[i].score];
    }
  }

  /** An expansion names no entity with two decays. */
  lemma PairsAgain(graph: Graph, mentioned: seq<Entity>, far: nat, frontier: seq<Ranked>, cut: bool,
                   names: seq<Entity>, decays: map<Entity, real>)
    requires Nearest(graph, mentioned, far, frontier, cut)
    requires |names| == |frontier| && forall i :: 0 <= i < |names| ==> names[i] == frontier[i].key && names[i] in decays
    requires forall e :: e in decays ==> Ranked(e, decays[e]) in frontier
    ensures Pairs(names, decays) == frontier
  {
    forall i | 0 <= i < |names|
      ensures Pairs(names, decays)[i] == frontier[i]
    {
      ShortestIsUnique(graph, mentioned, frontier[i], Ranked(names[i], decays[names[i]]), far);
    }
  }

  method DecaysOf(graph: Graph, mentioned: seq<Entity>, maxExpand: nat) returns (search: Search)
    requires maxExpand >= 1
    ensures IsSearch(graph, mentioned, maxExpand, search)
  {
    var frontier := Decays(graph, mentioned, maxExpand);
    ByDistanceIsNearest(graph, mentioned, maxExpand - 1, frontier, Fanout(graph, mentioned, maxExpand - 2) > 100);
    var names := seq(|frontier|, i requires 0 <= i < |frontier| => frontier[i].key);
    var decays := DecayMap(frontier);
    forall i | 0 <= i < |names|
      ensures names[i] in decays
    {
      assert Named(frontier, frontier[i].key);
    }
    forall e | e in decays
      ensures e in names
    {
      var i :| 0 <= i < |frontier| && frontier[i].key == e;
      assert names[i] == e;
    }
    PairsAgain(graph, mentioned, maxExpand - 1, frontier,
               Fanout(graph, mentioned, maxExpand - 2) > FRONTIER_MAX, names, decays);
    search := Search(names, decays);
  }

  /** Every decay is that of a shortest path within reach. */
  lemma SearchShortest(graph: Graph, mentioned: seq<Entity>, maxExpand: nat, search: Search, e: Entity)
    requires IsSearch(graph, mentioned, maxExpand, search) && e in search.decays
    ensures Ranked(e, search.decays[e]) in Pairs(search.names, search.decays)
    ensures Shortest(graph, mentioned, Ranked(e, search.decays[e]), maxExpand - 1)
  {
    var i :| 0 <= i < |search.names| && search.names[i] == e;
    assert Pairs(search.names, search.decays)[i] == Ranked(e, search.decays[e]);
  }

  lemma SearchBound(graph: Graph, mentioned: seq<Entity>, maxExpand: nat, search: Search)
    requires IsSearch(graph, mentioned, maxExpand, search)
    ensures forall e :: e in search.decays ==> 0.0 < search.decays[e] <= 0.95
  {
    forall e | e in search.decays
      ensures 0.0 < search.decays[e] <= 0.95
    {
      SearchShortest(graph, mentioned, maxExpand, search, e);
      var k :| 0 <= k <= maxExpand - 1 && Distance(graph, mentioned, k, e) && search.decays[e] == Decay(k);
      DecayOrder(0, k);
    }
  }

  /** The hits of one direct hit are those of all chunks its search finds, but for
      the ones seen before. */
  ghost predicate FoundBy(rows: seq<Row>, origin: real, decays: map<Entity, real>, seen: set<Key>, hits: seq<Hit>) {
    && Fresh(hits, seen)
    && (forall at :: HasRow(rows, at) ==> at in seen + Keys(hits))
    && forall i :: 0 <= i < |hits| ==> OfRow(hits[i], rows, origin, decays)
  }

  /** The expansion of one direct hit. */
  method ExpandOne(queries: Queries, mentioned: seq<Entity>, origin: real, maxExpand: nat, seen: set<Key>)
      returns (hits: seq<Hit>, ghost search: Search)
    requires maxExpand >= 1
    ensures IsSearch(queries.graph, mentioned, maxExpand, search)
    ensures FoundBy(queries.Rows(search.names), origin, search.decays, seen, hits)
  {
    var found := DecaysOf(queries.graph, mentioned, maxExpand);
    hits := Collect(queries.Rows(found.names), origin, found.decays, seen);
    search := found;
  }

  lemma ScaledDown(score: real, d: real, product: real)
    requires score >= 0.0 && 0.0 < d <= 0.95 && product == score * d
    ensures 0.0 <= product <= 0.95 * score
  {
    assert score * (0.95 - d) >= 0.0;
  }

  lemma HitBound(row: Row, origin: real, decays: map<Entity, real>)
    requires forall e :: e in decays ==> 0.0 < decays[e] <= 0.95
    ensures 0.0 <= HitOf(row, origin, decays).score <= 0.95 * Positive(origin)
  {
    BestMatchIsBest(row.matched, decays);
    ScaledDown(Positive(origin), BestMatch(row.matched, decays), HitOf(row, origin, decays).score);
  }

  /** An expanded hit ranks strictly below the hit it came from exactly when that
      hit has a positive score. */
  lemma WeakerIff(row: Row, origin: real, decays: map<Entity, real>)
    requires forall e :: e in decays ==> 0.0 < decays[e] <= 0.95
    ensures HitOf(row, origin, decays).score < origin <==> origin > 0.0
  {
    HitBound(row, origin, decays);
  }

  predicate ByScore(a: Hit, b: Hit) {
    a.score >= b.score
  }

  // ----- all direct hits -----

  /** The searches of the first direct hits, in rank order. */
  ghost predicate AreSearches(queries: Queries, direct: seq<Hit>, maxExpand: nat, searches: seq<Search>) {
    && |searches| <= |direct|
    && forall n :: 0 <= n < |searches| ==>
        IsSearch(queries.graph, queries.Mentioned(direct, n), maxExpand, searches[n])
  }

  /** `hit` comes from the direct hit of rank `n`, and no hit of higher rank finds its chunk. */
  ghost predicate From(queries: Queries, direct: seq<Hit>, searches: seq<Search>, hit: Hit, n: nat) {
    && n < |searches| <= |direct|
    && OfRow(hit, queries.Rows(searches[n].names), direct[n].score, searches[n].decays)
    && forall m :: 0 <= m < n ==> !HasRow(queries.Rows(searches[m].names), hit.at)
  }

  ghost predicate FromSome(queries: Queries, direct: seq<Hit>, searches: seq<Search>, hit: Hit) {
    exists n :: From(queries, direct, searches, hit, n)
  }

  /** Every chunk a search finds is known. */
  ghost predicate AllFound(queries: Queries, searches: seq<Search>, known: set<Key>) {
    forall n, at :: 0 <= n < |searches| && HasRow(queries.Rows(searches[n].names), at) ==> at in known
  }

  /** The hits are those of all chunks the searches find, but for the direct ones. */
  ghost predicate Gathered(queries: Queries, direct: seq<Hit>, searches: seq<Search>, hits: seq<Hit>) {
    && Fresh(hits, Keys(direct))
    && AllFound(queries, searches, Keys(direct) + Keys(hits))
    && forall i :: 0 <= i < |hits| ==> FromSome(queries, direct, searches, hits[i])
  }

  lemma GatheredMore(queries: Queries, direct: seq<Hit>, searches: seq<Search>, found: seq<Hit>,
                     search: Search, hits: seq<Hit>)
    requires Gathered(queries, direct, searches, found) && |searches| < |direct|
    requires FoundBy(queries.Rows(search.names), direct[|searches|].score, search.decays,
                     Keys(direct) + Keys(found), hits)
    ensures Gathered(queries, direct, searches + [search], found + hits)
  {
    FreshConcat(found, hits, Keys(direct));
    KeysConcat(found, hits);
    MoreFound(queries, searches, Keys(direct) + Keys(found), search, Keys(direct) + Keys(found + hits));
    forall i | 0 <= i < |found + hits|
      ensures FromSome(queries, direct, searches + [search], (found + hits)[i])
    {
      FromMore(queries, direct, searches, found, search, hits, i);
    }
  }

  lemma FromMore(queries: Queries, direct: seq<Hit>, searches: seq<Search>, found: seq<Hit>,
                 search: Search, hits: seq<Hit>, i: nat)
    requires Gathered(queries, direct, searches, found) && |searches| < |direct| && i < |found + hits|
    requires FoundBy(queries.Rows(search.names), direct[|searches|].score, search.decays,
                     Keys(direct) + Keys(found), hits)
    ensures FromSome(queries, direct, searches + [search], (found + hits)[i])
  {
    if i < |found| {
      StillFrom(queries, direct, searches, search, found[i]);
    } else {
      NewlyFrom(queries, direct, searches, found, search, hits, i - |found|);
    }
  }

  lemma MoreFound(queries: Queries, searches: seq<Search>, known: set<Key>, search: Search, more: set<Key>)
    requires AllFound(queries, searches, known) && known <= more
    requires forall at :: HasRow(queries.Rows(search.names), at) ==> at in more
    ensures AllFound(queries, searches + [search], more)
  {
  }

  lemma StillFrom(queries: Queries, direct: seq<Hit>, searches: seq<Search>, search: Search, hit: Hit)
    requires FromSome(queries, direct, searches, hit) && |searches| < |direct|
    ensures FromSome(queries, direct, searches + [search], hit)
  {
    var n :| From(queries, direct, searches, hit, n);
    assert From(queries, direct, searches + [search], hit, n);
  }

  lemma NewlyFrom(queries: Queries, direct: seq<Hit>, searches: seq<Search>, found: seq<Hit>,
                  search: Search, hits: seq<Hit>, i: nat)
    requires Gathered(queries, direct, searches, found) && |searches| < |direct| && i < |hits|
    requires FoundBy(queries.Rows(search.names), direct[|searches|].score, search.decays,
                     Keys(direct) + Keys(found), hits)
    ensures FromSome(queries, direct, searches + [search], hits[i])
  {
    assert From(queries, direct, searches + [search], hits[i], |searches|);
  }

  /** What the expansion of a result list returns. */
  ghost predicate IsExpansion(queries: Queries, direct: seq<Hit>, maxExpand: nat,
                              searches: seq<Search>, expanded: seq<Hit>) {
    && AreSearches(queries, direct, maxExpand, searches)
    && |searches| == (if maxExpand == 0 then 0
                      else if |direct| < 3 then |direct| else 3)
    && Gathered(queries, direct, searches, expanded)
    && forall i, j :: 0 <= i < j < |expanded| ==> expanded[i].score >= expanded[j].score
  }

  /** `expand_search_hits`: the chunks the first three direct hits lead to, each once,
      each with its first origin's score and decay, in order of score. */
  method Expand(queries: Queries, direct: seq<Hit>, maxExpand: nat)
      returns (expanded: seq<Hit>, ghost searches: seq<Search>)
    ensures IsExpansion(queries, direct, maxExpand, searches, expanded)
    ensures maxExpand == 0 ==> expanded == []
  {
    var found: seq<Hit> := [];
    searches := [];
    if maxExpand > 0 {
      for n := 0 to |direct|
        invariant |searches| == (if n < EXPAND_ORIGIN_LIMIT then n else EXPAND_ORIGIN_LIMIT)
        invariant AreSearches(queries, direct, maxExpand, searches)
        invariant Gathered(queries, direct, searches, found)
      {
        if n < EXPAND_ORIGIN_LIMIT {
          var seen := Keys(direct) + Keys(found);
          var hits; ghost var search;
          hits, search := ExpandOne(queries, queries.Mentioned(direct, n), direct[n].score, maxExpand, seen);
          GatheredMore(queries, direct, searches, found, search, hits);
          found, searches := found + hits, searches + [search];
        }
      }
    }
    expanded := Sorting.Sort(found, ByScore);
    Sorting.SortSorted(found, ByScore);
    SortKeepsGathered(queries, direct, searches, found);
  }

  lemma SortKeepsGathered(queries: Queries, direct: seq<Hit>, searches: seq<Search>, found: seq<Hit>)
    requires Gathered(queries, direct, searches, found)
    ensures Gathered(queries, direct, searches, Sorting.Sort(found, ByScore))
  {
    var sorted := Sorting.Sort(found, ByScore);
    SortKeepsFresh(found, Keys(direct));
    SortKeepsKeys(found);
    forall i | 0 <= i < |sorted|
      ensures FromSome(queries, direct, searches, sorted[i])
    {
      Sorting.InSort(found, ByScore, sorted[i]);
    }
  }

  lemma SortKeepsKeys(found: seq<Hit>)
    ensures Keys(Sorting.Sort(found, ByScore)) == Keys(found)
  {
    var sorted := Sorting.Sort(found, ByScore);
    forall i | 0 <= i < |sorted|
      ensures sorted[i].at in Keys(found)
    {
      Sorting.InSort(found, ByScore, sorted[i]);
    }
    forall i | 0 <= i < |found|
      ensures found[i].at in Keys(sorted)
    {
      Sorting.InSort(found, ByScore, found[i]);
    }
  }

  /** Every expanded hit is at most 0.95 of one of the first three direct hits, and
      below it exactly when that one has a positive score. */
  lemma ExpandedIsWeaker(queries: Queries, direct: seq<Hit>, maxExpand: nat, searches: seq<Search>, hit: Hit, n: nat)
    requires AreSearches(queries, direct, maxExpand, searches) && From(queries, direct, searches, hit, n)
    ensures 0.0 <= hit.score <= 0.95 * Positive(direct[n].score)
    ensures hit.score < direct[n].score <==> direct[n].score > 0.0
  {
    var rows, decays := queries.Rows(searches[n].names), searches[n].decays;
    SearchBound(queries.graph, queries.Mentioned(direct, n), maxExpand, searches[n]);
    var r :| 0 <= r < |rows| && hit == HitOf(rows[r], direct[n].score, decays);
    HitBound(rows[r], direct[n].score, decays);
    WeakerIff(rows[r], direct[n].score, decays);
  }

  lemma FreshConcat(found: seq<Hit>, hits: seq<Hit>, start: set<Key>)
    requires Fresh(found, start) && Fresh(hits, start + Keys(found))
    ensures Fresh(found + hits, start)
  {
    forall i | 0 <= i < |found|
      ensures found[i].at in Keys(found)
    {
    }
  }

  lemma SortKeepsFresh(found: seq<Hit>, start: set<Key>)
    requires Fresh(found, start)
    ensures Fresh(Sorting.Sort(found, ByScore), start)
  {
    var r := Sorting.Sort(found, ByScore);
    forall i | 0 <= i < |r|
      ensures r[i] in found
    {
      Sorting.InSort(found, ByScore, r[i]);
    }
    forall i, j | 0 <= i < j < |r|
      ensures r[i].at != r[j].at
    {
      Sorting.InSort(found, ByScore, r[i]);
      Sorting.InSort(found, ByScore, r[j]);
      Sorting.CountOnce(found, r[i]);
      Sorting.TwiceCounts(r, i, j);
    }
  }
}

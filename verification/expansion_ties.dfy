/** Whether an expanded hit can tie a direct one: exactly when two direct scores
    happen to be one decay apart. */
module ExpansionTies {
  import opened Expansion
  import opened ExpansionHits
  import opened Ranking
  import opened Related

  /** What one call of the expansion finds and returns. */
  datatype Outcome = Outcome(queries: Queries, searches: seq<Search>, expanded: seq<Hit>)

  ghost predicate Possible(direct: seq<Hit>, maxExpand: nat, o: Outcome) {
    IsExpansion(o.queries, direct, maxExpand, o.searches, o.expanded)
  }

  predicate Ties(direct: seq<Hit>, expanded: seq<Hit>) {
    exists i, m :: 0 <= i < |expanded| && 0 <= m < |direct| && expanded[i].score == direct[m].score
  }

  predicate OneOver(hop: nat, d: real) {
    d * hop as real == 1.0
  }

  /** 0.95, 1/2, 1/3 and so on to 1 over the number of hops, or over the cap. */
  ghost predicate IsDecay(maxExpand: nat, d: real) {
    maxExpand >= 1 && (d == 0.95 || exists hop :: 2 <= hop <= maxExpand && hop <= 100 && OneOver(hop, d))
  }

  lemma DecayIs(maxExpand: nat, k: nat)
    requires k < maxExpand && k < FRONTIER_MAX
    ensures IsDecay(maxExpand, Decay(k))
  {
    DecayInNumbers(k);
    assert k > 0 ==> OneOver(k + 1, Decay(k));
  }

  lemma IsDecayOf(maxExpand: nat, d: real) returns (k: nat)
    requires IsDecay(maxExpand, d)
    ensures k < maxExpand && k < FRONTIER_MAX && d == Decay(k)
  {
    if d == 0.95 {
      k := 0;
    } else {
      var hop :| 2 <= hop <= maxExpand && hop <= 100 && OneOver(hop, d);
      k := hop - 1;
      DecayInNumbers(k);
      SameReciprocal(hop as real, d, Decay(k));
    }
  }

  /** The direct hit of rank `m` lies one decay below that of rank `n`, an origin. */
  ghost predicate OneDecayApart(direct: seq<Hit>, maxExpand: nat, n: nat, m: nat, d: real) {
    && n < |direct| && n < 3 && First(direct, n)
    && m < |direct| && IsDecay(maxExpand, d)
    && direct[m].score == Positive(direct[n].score) * d
  }

  ghost predicate CanTie(direct: seq<Hit>, maxExpand: nat) {
    exists n, m, d :: OneDecayApart(direct, maxExpand, n, m, d)
  }

  // ----- every tie is of this kind -----

  /** An entity in the result brings in one at each smaller distance. */
  lemma {:induction false} PathInResult(graph: Graph, mentioned: seq<Entity>, far: nat, result: seq<Ranked>, cut: bool,
                                        k: nat, e: Entity) returns (path: seq<Ranked>)
    requires Nearest(graph, mentioned, far, result, cut)
    requires k <= far && Distance(graph, mentioned, k, e) && Ranked(e, Decay(k)) in result
    ensures |path| == k + 1 && forall i :: 0 <= i <= k ==> path[i] in result && path[i].score == Decay(i)
  {
    var last := Ranked(e, Decay(k));
    if k == 0 {
      path := [last];
    } else {
      var m :| Reach(graph, mentioned, k - 1, m) && e in graph(m);
      PredecessorDistance(graph, mentioned, k - 1, m, e);
      var previous := Ranked(m, Decay(k - 1));
      assert Shortest(graph, mentioned, previous, far);
      DecayOrder(k - 1, k);
      assert previous in result by {
        assert !Leq(last, previous);
      }
      path := PathInResult(graph, mentioned, far, result, cut, k - 1, m);
      path := path + [last];
    }
  }

  lemma PredecessorDistance(graph: Graph, mentioned: seq<Entity>, k: nat, m: Entity, e: Entity)
    requires Distance(graph, mentioned, k + 1, e) && Reach(graph, mentioned, k, m) && e in graph(m)
    ensures Distance(graph, mentioned, k, m)
  {
    forall j | 0 <= j < k
      ensures !Reach(graph, mentioned, j, m)
    {
      if Reach(graph, mentioned, j, m) {
        assert Reach(graph, mentioned, j + 1, e);
      }
    }
  }

  lemma {:induction false} DistinctFit<T>(a: seq<T>, b: set<T>)
    requires forall i, j :: 0 <= i < j < |a| ==> a[i] != a[j]
    requires forall i :: 0 <= i < |a| ==> a[i] in b
    ensures |a| <= |b|
  {
    if a == [] {
    } else {
      DistinctFit(a[1..], b - {a[0]});
    }
  }

  lemma {:induction false} FewElements<T>(s: seq<T>)
    ensures |set x | x in s| <= |s|
  {
    if s == [] {
    } else {
      FewElements(s[1..]);
      assert s == [s[0]] + s[1..];
      assert (set x | x in s) == {s[0]} + set x | x in s[1..];
    }
  }

  /** The cap on the frontier bounds the distance too. */
  lemma DistanceBelowCap(graph: Graph, mentioned: seq<Entity>, far: nat, result: seq<Ranked>, cut: bool, k: nat,
                         e: Entity)
    requires Nearest(graph, mentioned, far, result, cut)
    requires k <= far && Distance(graph, mentioned, k, e) && Ranked(e, Decay(k)) in result
    ensures k < FRONTIER_MAX
  {
    var path := PathInResult(graph, mentioned, far, result, cut, k, e);
    forall i, j | 0 <= i < j < |path|
      ensures path[i] != path[j]
    {
      DecayOrder(i, j);
    }
    DistinctFit(path, set r | r in result);
    FewElements(result);
  }

  lemma SearchDecay(graph: Graph, mentioned: seq<Entity>, maxExpand: nat, search: Search, e: Entity) returns (k: nat)
    requires IsSearch(graph, mentioned, maxExpand, search) && e in search.decays
    ensures k < maxExpand && k < FRONTIER_MAX && search.decays[e] == Decay(k)
  {
    var result := Pairs(search.names, search.decays);
    SearchShortest(graph, mentioned, maxExpand, search, e);
    k :| 0 <= k <= maxExpand - 1 && Distance(graph, mentioned, k, e) && search.decays[e] == Decay(k);
    DistanceBelowCap(graph, mentioned, maxExpand - 1, result,
                     Fanout(graph, mentioned, maxExpand - 2) > FRONTIER_MAX, k, e);
  }

  lemma MatchDecay(graph: Graph, mentioned: seq<Entity>, maxExpand: nat, search: Search, matched: seq<Entity>)
      returns (k: nat)
    requires IsSearch(graph, mentioned, maxExpand, search)
    ensures k < maxExpand && k < FRONTIER_MAX && BestMatch(matched, search.decays) == Decay(k)
  {
    BestMatchIsBest(matched, search.decays);
    if e :| e in matched && e in search.decays && search.decays[e] == BestMatch(matched, search.decays) {
      k := SearchDecay(graph, mentioned, maxExpand, search, e);
    } else {
      k := 0;
    }
  }

  lemma RowOfHit(hit: Hit, rows: seq<Row>, origin: real, decays: map<Entity, real>) returns (row: Row)
    requires OfRow(hit, rows, origin, decays)
    ensures hit == HitOf(row, origin, decays)
  {
    var r :| 0 <= r < |rows| && hit == HitOf(rows[r], origin, decays);
    row := rows[r];
  }

  lemma ScoreOf(hit: Hit, row: Row, origin: real, decays: map<Entity, real>, d: real)
    requires hit == HitOf(row, origin, decays) && d == BestMatch(row.matched, decays)
    ensures hit.score == Positive(origin) * d
  {
  }

  lemma MatchOfHit(hit: Hit, rows: seq<Row>, origin: real, decays: map<Entity, real>) returns (row: Row, d: real)
    requires OfRow(hit, rows, origin, decays)
    ensures d == BestMatch(row.matched, decays) && hit.score == Positive(origin) * d
  {
    row := RowOfHit(hit, rows, origin, decays);
    d := BestMatch(row.matched, decays);
    ScoreOf(hit, row, origin, decays, d);
  }

  lemma AnyMatchDecay(queries: Queries, direct: seq<Hit>, maxExpand: nat, searches: seq<Search>, n: nat)
    requires AreSearches(queries, direct, maxExpand, searches) && n < |searches|
    ensures forall matched :: IsDecay(maxExpand, BestMatch(matched, searches[n].decays))
  {
    forall matched
      ensures IsDecay(maxExpand, BestMatch(matched, searches[n].decays))
    {
      var k := MatchDecay(queries.graph, queries.Mentioned(direct, n), maxExpand, searches[n], matched);
      DecayIs(maxExpand, k);
    }
  }

  lemma {:induction false} UnreachedFromNone(graph: Graph, k: nat, e: Entity)
    ensures !Reach(graph, [], k, e)
  {
    if k == 0 || !Reach(graph, [], k, e) {
    } else {
      var m :| Reach(graph, [], k - 1, m) && e in graph(m);
      UnreachedFromNone(graph, k - 1, m);
    }
  }

  lemma SearchFromNone(graph: Graph, maxExpand: nat, search: Search)
    requires IsSearch(graph, [], maxExpand, search)
    ensures search.names == []
  {
    if search.names != [] {
      var e := search.names[0];
      SearchShortest(graph, [], maxExpand, search, e);
      var k :| 0 <= k <= maxExpand - 1 && Distance(graph, [], k, e) && search.decays[e] == Decay(k);
      UnreachedFromNone(graph, k, e);
    }
  }

  /** A second hit on a chunk has no entities, and leads nowhere. */
  lemma OriginIsFirst(queries: Queries, direct: seq<Hit>, maxExpand: nat, searches: seq<Search>, hit: Hit, n: nat)
    requires AreSearches(queries, direct, maxExpand, searches) && From(queries, direct, searches, hit, n)
    ensures First(direct, n)
  {
    if !First(direct, n) {
      SearchFromNone(queries.graph, maxExpand, searches[n]);
    }
  }

  lemma ScoreFrom(queries: Queries, direct: seq<Hit>, searches: seq<Search>, hit: Hit, n: nat)
      returns (matched: seq<Entity>, d: real)
    requires From(queries, direct, searches, hit, n)
    ensures d == BestMatch(matched, searches[n].decays) && hit.score == Positive(direct[n].score) * d
  {
    var row;
    row, d := MatchOfHit(hit, queries.Rows(searches[n].names), direct[n].score, searches[n].decays);
    matched := row.matched;
  }

  /** The score of an expanded hit is its origin's, decayed by some distance. */
  lemma ScoreIsDecayed(queries: Queries, direct: seq<Hit>, maxExpand: nat, searches: seq<Search>, hit: Hit, n: nat)
      returns (d: real)
    requires AreSearches(queries, direct, maxExpand, searches) && From(queries, direct, searches, hit, n)
    ensures IsDecay(maxExpand, d) && hit.score == Positive(direct[n].score) * d
  {
    var matched;
    matched, d := ScoreFrom(queries, direct, searches, hit, n);
    AnyMatchDecay(queries, direct, maxExpand, searches, n);
  }

  predicate OneOverOf(hop: nat, score: real, origin: real) {
    score * hop as real == origin
  }

  /** An expanded hit's score in numbers: 0.95 of its origin's, or its origin's over two
      hops or more, up to the number asked for or the cap. */
  lemma ScoreInNumbers(queries: Queries, direct: seq<Hit>, maxExpand: nat, searches: seq<Search>, hit: Hit, n: nat)
    requires AreSearches(queries, direct, maxExpand, searches) && From(queries, direct, searches, hit, n)
    ensures var origin := Positive(direct[n].score);
            || hit.score == 0.95 * origin
            || exists hop :: 2 <= hop <= maxExpand && hop <= 100 && OneOverOf(hop, hit.score, origin)
  {
    var d := ScoreIsDecayed(queries, direct, maxExpand, searches, hit, n);
    if d != 0.95 {
      var hop :| 2 <= hop <= maxExpand && hop <= 100 && OneOver(hop, d);
      ScaleBack(Positive(direct[n].score), d, hop, hit.score);
    }
  }

  lemma ScaleBack(origin: real, d: real, hop: nat, score: real)
    requires OneOver(hop, d) && score == origin * d
    ensures OneOverOf(hop, score, origin)
  {
    assert score * hop as real == origin * (d * hop as real);
  }

  lemma HitIsOneDecayApart(queries: Queries, direct: seq<Hit>, maxExpand: nat, searches: seq<Search>, hit: Hit, m: nat)
    requires AreSearches(queries, direct, maxExpand, searches) && |searches| <= EXPAND_ORIGIN_LIMIT
    requires FromSome(queries, direct, searches, hit) && m < |direct| && hit.score == direct[m].score
    ensures CanTie(direct, maxExpand)
  {
    var n :| From(queries, direct, searches, hit, n);
    OriginIsFirst(queries, direct, maxExpand, searches, hit, n);
    var d := ScoreIsDecayed(queries, direct, maxExpand, searches, hit, n);
    assert OneDecayApart(direct, maxExpand, n, m, d);
  }

  lemma TieIsOneDecayApart(direct: seq<Hit>, maxExpand: nat, o: Outcome)
    requires Possible(direct, maxExpand, o) && Ties(direct, o.expanded)
    ensures CanTie(direct, maxExpand)
  {
    var i, m :| 0 <= i < |o.expanded| && 0 <= m < |direct| && o.expanded[i].score == direct[m].score;
    HitIsOneDecayApart(o.queries, direct, maxExpand, o.searches, o.expanded[i], m);
  }

  // ----- every such pair of scores gives a tie -----

  function Name(i: nat): Entity {
    seq(i + 1, _ => 'a')
  }

  /** Entities in a row: each leads to the next, up to the one `k` edges away. */
  function Chain(k: nat): Graph {
    (e: Entity) => if |e| <= k then [e + "a"] else []
  }

  lemma {:induction false} ChainReach(k: nat, j: nat, e: Entity)
    ensures Reach(Chain(k), [Name(0)], j, e) <==> j <= k && e == Name(j)
  {
    if j == 0 {
    } else {
      var previous := Name(j - 1);
      assert Name(j) == previous + "a";
      if Reach(Chain(k), [Name(0)], j, e) {
        var m :| Reach(Chain(k), [Name(0)], j - 1, m) && e in Chain(k)(m);
        ChainReach(k, j - 1, m);
      }
      if j <= k && e == Name(j) {
        ChainReach(k, j - 1, previous);
        assert e in Chain(k)(previous);
      }
    }
  }

  lemma ChainDistance(k: nat, j: nat, e: Entity)
    ensures Distance(Chain(k), [Name(0)], j, e) <==> j <= k && e == Name(j)
  {
    ChainReach(k, j, e);
    if j <= k && e == Name(j) {
      forall i | 0 <= i < j
        ensures !Reach(Chain(k), [Name(0)], i, e)
      {
        ChainReach(k, i, e);
        assert |Name(i)| != |Name(j)|;
      }
    }
  }

  function ChainNames(k: nat): seq<Entity> {
    seq(k + 1, i requires 0 <= i => Name(i))
  }

  function ChainSearch(k: nat): Search {
    var names := ChainNames(k);
    Search(names, map e | e in names :: Decay(|e| - 1))
  }

  lemma ChainKeys(k: nat)
    ensures forall e :: e in ChainSearch(k).names <==> e in ChainSearch(k).decays
    ensures |ChainSearch(k).names| == k + 1
    ensures forall i :: 0 <= i <= k ==> ChainSearch(k).names[i] == Name(i)
  {
  }

  lemma ChainDecay(k: nat, i: nat)
    requires i <= k
    ensures Name(i) in ChainSearch(k).decays && ChainSearch(k).decays[Name(i)] == Decay(i)
  {
    var e := Name(i);
    assert ChainNames(k)[i] == e && |e| - 1 == i;
    assert ChainSearch(k).decays[e] == Decay(|e| - 1);
  }

  lemma ChainPairs(k: nat)
    ensures forall e :: e in ChainSearch(k).names ==> e in ChainSearch(k).decays
    ensures var result := Pairs(ChainSearch(k).names, ChainSearch(k).decays);
            |result| == k + 1 && forall i :: 0 <= i <= k ==> result[i] == Ranked(Name(i), Decay(i))
  {
    ChainKeys(k);
    var result := Pairs(ChainSearch(k).names, ChainSearch(k).decays);
    forall i | 0 <= i <= k
      ensures result[i] == Ranked(Name(i), Decay(i))
    {
      ChainDecay(k, i);
    }
  }

  lemma ChainSound(k: nat, far: nat, r: Ranked)
    requires (forall e :: e in ChainSearch(k).names ==> e in ChainSearch(k).decays)
    requires k <= far && r in Pairs(ChainSearch(k).names, ChainSearch(k).decays)
    ensures Shortest(Chain(k), [Name(0)], r, far)
  {
    ChainPairs(k);
    var result := Pairs(ChainSearch(k).names, ChainSearch(k).decays);
    var i :| 0 <= i < |result| && result[i] == r;
    ChainDistance(k, i, r.key);
  }

  lemma ChainComplete(k: nat, far: nat, r: Ranked)
    requires Shortest(Chain(k), [Name(0)], r, far)
    ensures forall e :: e in ChainSearch(k).names ==> e in ChainSearch(k).decays
    ensures r in Pairs(ChainSearch(k).names, ChainSearch(k).decays)
  {
    ChainPairs(k);
    var result := Pairs(ChainSearch(k).names, ChainSearch(k).decays);
    var j :| 0 <= j <= far && Distance(Chain(k), [Name(0)], j, r.key) && r.score == Decay(j);
    ChainDistance(k, j, r.key);
    assert result[j] == r;
  }

  lemma ExactIsNearest(graph: Graph, mentioned: seq<Entity>, far: nat, result: seq<Ranked>, cut: bool)
    requires |result| <= FRONTIER_MAX && forall r :: r in result <==> Shortest(graph, mentioned, r, far)
    ensures Nearest(graph, mentioned, far, result, cut)
  {
  }

  lemma ChainIsNearest(k: nat, far: nat, cut: bool)
    requires k <= far && k < FRONTIER_MAX
    ensures forall e :: e in ChainSearch(k).names ==> e in ChainSearch(k).decays
    ensures Nearest(Chain(k), [Name(0)], far, Pairs(ChainSearch(k).names, ChainSearch(k).decays), cut)
  {
    ChainPairs(k);
    var result := Pairs(ChainSearch(k).names, ChainSearch(k).decays);
    forall r
      ensures r in result <==> Shortest(Chain(k), [Name(0)], r, far)
    {
      if r in result {
        ChainSound(k, far, r);
      }
      if Shortest(Chain(k), [Name(0)], r, far) {
        ChainComplete(k, far, r);
      }
    }
    ExactIsNearest(Chain(k), [Name(0)], far, result, cut);
  }

  lemma ChainIsSearch(k: nat, maxExpand: nat)
    requires k < maxExpand && k < FRONTIER_MAX
    ensures IsSearch(Chain(k), [Name(0)], maxExpand, ChainSearch(k))
  {
    ChainKeys(k);
    ChainIsNearest(k, maxExpand - 1, Fanout(Chain(k), [Name(0)], maxExpand - 2) > FRONTIER_MAX);
  }

  lemma NoneIsSearch(graph: Graph, maxExpand: nat)
    requires maxExpand >= 1
    ensures IsSearch(graph, [], maxExpand, Search([], map[]))
  {
    var far := maxExpand - 1;
    forall r
      ensures !Shortest(graph, [], r, far)
    {
      if k :| 0 <= k <= far && Distance(graph, [], k, r.key) && r.score == Decay(k) {
        UnreachedFromNone(graph, k, r.key);
      }
    }
  }

  /** A chunk number beyond those of all direct hits. */
  function Beyond(direct: seq<Hit>): (r: nat)
    ensures forall i :: 0 <= i < |direct| ==> direct[i].at.idx < r
  {
    if direct == [] then 0
    else
      var rest := Beyond(direct[1..]);
      if direct[0].at.idx < rest then rest else direct[0].at.idx + 1
  }

  /** The hit of rank `n` mentions the start of the chain; one chunk mentions its end. */
  function ChainQueries(direct: seq<Hit>, n: nat, k: nat): Queries
    requires n < |direct|
  {
    Queries(
      Chain(k),
      key => if key == direct[n].at then [Name(0)] else [],
      (names: seq<Entity>) => if Name(k) in names then [Row(Key("", Beyond(direct)), [Name(k)])] else [])
  }

  function ChainSearches(direct: seq<Hit>, n: nat, k: nat): seq<Search> {
    var count := if |direct| < EXPAND_ORIGIN_LIMIT then |direct| else EXPAND_ORIGIN_LIMIT;
    seq(count, i => if i == n then ChainSearch(k) else Search([], map[]))
  }

  lemma ChainAreSearches(direct: seq<Hit>, maxExpand: nat, n: nat, k: nat)
    requires n < |direct| && First(direct, n) && k < maxExpand && k < FRONTIER_MAX
    ensures AreSearches(ChainQueries(direct, n, k), direct, maxExpand, ChainSearches(direct, n, k))
  {
    var queries, searches := ChainQueries(direct, n, k), ChainSearches(direct, n, k);
    ChainIsSearch(k, maxExpand);
    NoneIsSearch(Chain(k), maxExpand);
    forall i | 0 <= i < |searches|
      ensures IsSearch(queries.graph, queries.Mentioned(direct, i), maxExpand, searches[i])
    {
      assert queries.Mentioned(direct, i) == if i == n then [Name(0)] else [];
    }
  }

  /** The one hit the chain leads to. */
  function ChainHit(direct: seq<Hit>, n: nat, k: nat): Hit
    requires n < |direct|
  {
    HitOf(Row(Key("", Beyond(direct)), [Name(k)]), direct[n].score, ChainSearch(k).decays)
  }

  lemma ChainScore(direct: seq<Hit>, n: nat, k: nat)
    requires n < |direct|
    ensures ChainHit(direct, n, k).score == Positive(direct[n].score) * Decay(k)
  {
    var decays := ChainSearch(k).decays;
    assert ChainNames(k)[k] == Name(k);
    assert Name(k) in decays && decays[Name(k)] == Decay(k);
    assert [Name(k)][1..] == [];
    assert BestMatch([Name(k)], decays) == Decay(k);
  }

  lemma ChainRows(direct: seq<Hit>, n: nat, k: nat, i: nat)
    requires n < |direct| && i < |ChainSearches(direct, n, k)|
    ensures var rows := ChainQueries(direct, n, k).Rows(ChainSearches(direct, n, k)[i].names);
            rows == if i == n then [Row(Key("", Beyond(direct)), [Name(k)])] else []
  {
    assert ChainNames(k)[k] == Name(k);
  }

  lemma OnlyRow(row: Row, origin: real, decays: map<Entity, real>)
    ensures OfRow(HitOf(row, origin, decays), [row], origin, decays)
  {
    assert [row][0] == row;
  }

  lemma ChainFrom(direct: seq<Hit>, n: nat, k: nat)
    requires n < |direct| && n < EXPAND_ORIGIN_LIMIT
    ensures From(ChainQueries(direct, n, k), direct, ChainSearches(direct, n, k), ChainHit(direct, n, k), n)
  {
    var queries, searches := ChainQueries(direct, n, k), ChainSearches(direct, n, k);
    OnlyRow(Row(Key("", Beyond(direct)), [Name(k)]), direct[n].score, ChainSearch(k).decays);
    ChainRows(direct, n, k, n);
    forall m | 0 <= m < n
      ensures !HasRow(queries.Rows(searches[m].names), ChainHit(direct, n, k).at)
    {
      ChainRows(direct, n, k, m);
    }
  }

  lemma ChainGathered(direct: seq<Hit>, n: nat, k: nat)
    requires n < |direct| && n < EXPAND_ORIGIN_LIMIT
    ensures Gathered(ChainQueries(direct, n, k), direct, ChainSearches(direct, n, k), [ChainHit(direct, n, k)])
  {
    var queries, searches, hit := ChainQueries(direct, n, k), ChainSearches(direct, n, k), ChainHit(direct, n, k);
    assert [hit][0] == hit && Keys([hit]) == {hit.at};
    forall i, at | 0 <= i < |searches| && HasRow(queries.Rows(searches[i].names), at)
      ensures at in Keys([hit])
    {
      ChainRows(direct, n, k, i);
    }
    ChainFrom(direct, n, k);
    assert FromSome(queries, direct, searches, hit);
  }

  lemma ChainTies(direct: seq<Hit>, n: nat, m: nat, k: nat)
    requires n < |direct| && m < |direct| && direct[m].score == Positive(direct[n].score) * Decay(k)
    ensures Ties(direct, [ChainHit(direct, n, k)])
  {
    ChainScore(direct, n, k);
    assert [ChainHit(direct, n, k)][0].score == direct[m].score;
  }

  lemma OneDecayApartTies(direct: seq<Hit>, maxExpand: nat, n: nat, m: nat, d: real) returns (o: Outcome)
    requires OneDecayApart(direct, maxExpand, n, m, d)
    ensures Possible(direct, maxExpand, o) && Ties(direct, o.expanded)
  {
    var k := IsDecayOf(maxExpand, d);
    ChainTies(direct, n, m, k);
    o := Outcome(ChainQueries(direct, n, k), ChainSearches(direct, n, k), [ChainHit(direct, n, k)]);
    ChainAreSearches(direct, maxExpand, n, k);
    ChainGathered(direct, n, k);
  }

  /** An expansion can tie a direct hit exactly when two direct scores are one decay apart. */
  lemma TiesIff(direct: seq<Hit>, maxExpand: nat)
    ensures (exists o :: Possible(direct, maxExpand, o) && Ties(direct, o.expanded)) <==> CanTie(direct, maxExpand)
  {
    if o :| Possible(direct, maxExpand, o) && Ties(direct, o.expanded) {
      TieIsOneDecayApart(direct, maxExpand, o);
    }
    if n, m, d :| OneDecayApart(direct, maxExpand, n, m, d) {
      var o := OneDecayApartTies(direct, maxExpand, n, m, d);
    }
  }

  /** Two direct hits with scores 1.0 and 0.95: what the first one mentions can tie the second. */
  lemma TieExample(a: Key, b: Key) returns (o: Outcome)
    ensures Possible([Hit(a, 1.0), Hit(b, 0.95)], 1, o)
    ensures Ties([Hit(a, 1.0), Hit(b, 0.95)], o.expanded)
  {
    var direct := [Hit(a, 1.0), Hit(b, 0.95)];
    o := OneDecayApartTies(direct, 1, 0, 1, 0.95);
  }

  /** Scores 1.0 and 0.5: with two hops, what lies one edge from a mentioned entity can tie. */
  lemma TieExampleTwoHops(a: Key, b: Key) returns (o: Outcome)
    ensures Possible([Hit(a, 1.0), Hit(b, 0.5)], 2, o)
    ensures Ties([Hit(a, 1.0), Hit(b, 0.5)], o.expanded)
  {
    var direct := [Hit(a, 1.0), Hit(b, 0.5)];
    assert OneOver(2, 0.5);
    o := OneDecayApartTies(direct, 2, 0, 1, 0.5);
  }
}

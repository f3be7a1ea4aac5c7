/** The canonical form of a JSON tree, whose text is hashed as the tokenizer's
    fingerprint. */
module CanonicalJson {
  import opened Options
  import S = Sorting
  import opened Versions

  datatype Field = Field(key: string, value: Json)

  datatype Json =
    | Null
    | Bool(b: bool)
    | Number(literal: string)
    | Text(s: string)
    | Array(items: seq<Json>)
    | Object(fields: seq<Field>)

  /** Keys are unique within each object, as in any parsed tree. */
  ghost predicate Proper(v: Json)
    decreases v
  {
    match v
    case Array(items) => forall i :: 0 <= i < |items| ==> Proper(items[i])
    case Object(fields) =>
      && (forall i, j :: 0 <= i < j < |fields| ==> fields[i].key != fields[j].key)
      && forall i :: 0 <= i < |fields| ==> Proper(fields[i].value)
    case _ => true
  }

  predicate FieldLeq(a: Field, b: Field) {
    S.KeyLeq(a.key, b.key)
  }

  /** `sort_json_keys` */
  function Canon(v: Json): Json
    decreases v
  {
    match v
    case Array(items) => Array(seq(|items|, i requires 0 <= i < |items| => Canon(items[i])))
    case Object(fields) => Object(S.Sort(CanonFields(v), FieldLeq))
    case _ => v
  }

  function CanonFields(v: Json): (r: seq<Field>)
    requires v.Object?
    ensures |r| == |v.fields|
    decreases v, 0
  {
    seq(|v.fields|, i requires 0 <= i < |v.fields| => Field(v.fields[i].key, Canon(v.fields[i].value)))
  }

  /** Equal up to the order of keys, at every depth. */
  ghost predicate Same(a: Json, b: Json)
    decreases a
  {
    match a
    case Array(items) => b.Array? && |items| == |b.items| && forall i :: 0 <= i < |items| ==> Same(items[i], b.items[i])
    case Object(fields) =>
      && b.Object?
      && (forall i :: 0 <= i < |fields| ==> SameAt(fields[i], b.fields))
      && forall j :: 0 <= j < |b.fields| ==> Lookup(fields, b.fields[j].key).Some?
    case _ => a == b
  }

  /** The member of the same name is there, and equal. */
  ghost predicate SameAt(x: Field, fields: seq<Field>)
    decreases x
  {
    Lookup(fields, x.key).Some? && Same(x.value, Lookup(fields, x.key).value)
  }

  function Lookup(fields: seq<Field>, key: string): Option<Json> {
    if fields == [] then None
    else if fields[0].key == key then Some(fields[0].value)
    else Lookup(fields[1..], key)
  }

  lemma {:induction false} LookupIs(fields: seq<Field>, j: nat)
    requires UniqueKeys(fields) && j < |fields|
    ensures Lookup(fields, fields[j].key) == Some(fields[j].value)
  {
    if j == 0 {
    } else {
      LookupIs(fields[1..], j - 1);
    }
  }

  lemma {:induction false} LookupFinds(fields: seq<Field>, key: string) returns (j: nat)
    requires Lookup(fields, key).Some?
    ensures j < |fields| && fields[j] == Field(key, Lookup(fields, key).value)
  {
    if fields[0].key == key {
      j := 0;
    } else {
      j := LookupFinds(fields[1..], key);
      j := j + 1;
    }
  }

  lemma FieldLeqIsTotalOrder()
    ensures S.TotalOrder(FieldLeq)
  {
    forall a, b
      ensures FieldLeq(a, b) || FieldLeq(b, a)
    {
      S.KeyTotal(a.key, b.key);
    }
    forall a, b, c | FieldLeq(a, b) && FieldLeq(b, c)
      ensures FieldLeq(a, c)
    {
      S.KeyTransitive(a.key, b.key, c.key);
    }
  }

  ghost predicate UniqueKeys(fields: seq<Field>) {
    forall i, j :: 0 <= i < j < |fields| ==> fields[i].key != fields[j].key
  }

  lemma UniqueKeysUntied(fields: seq<Field>)
    requires UniqueKeys(fields)
    ensures S.Untied(fields, FieldLeq)
  {
    forall i, j | 0 <= i < |fields| && 0 <= j < |fields| &&
                  FieldLeq(fields[i], fields[j]) && FieldLeq(fields[j], fields[i])
      ensures fields[i] == fields[j]
    {
      S.KeyTotal(fields[i].key, fields[j].key);
    }
  }

  // ----- equal trees have equal canonical forms, and only they -----

  lemma {:induction false} SameHasSameCanon(a: Json, b: Json)
    requires Proper(a) && Proper(b) && Same(a, b)
    ensures Canon(a) == Canon(b)
    decreases a, 1
  {
    match a
    case Array(items) =>
      forall i | 0 <= i < |items|
        ensures Canon(items[i]) == Canon(b.items[i])
      {
        SameHasSameCanon(items[i], b.items[i]);
      }
      assert Canon(a).items == Canon(b).items;
    case Object(fields) =>
      forall x
        ensures x in CanonFields(a) <==> x in CanonFields(b)
      {
        if x in CanonFields(a) {
          LeftInRight(a, b, x);
        }
        if x in CanonFields(b) {
          RightInLeft(a, b, x);
        }
      }
      SameFieldsSort(CanonFields(a), CanonFields(b));
    case _ =>
  }

  lemma {:induction false} LeftInRight(a: Json, b: Json, x: Field)
    requires a.Object? && b.Object? && Proper(a) && Proper(b) && Same(a, b) && x in CanonFields(a)
    ensures x in CanonFields(b)
    decreases a, 0
  {
    var i :| 0 <= i < |CanonFields(a)| && CanonFields(a)[i] == x;
    assert SameAt(a.fields[i], b.fields);
    var j := LookupFinds(b.fields, x.key);
    SameHasSameCanon(a.fields[i].value, b.fields[j].value);
    assert CanonFields(b)[j] == x;
  }

  lemma {:induction false} RightInLeft(a: Json, b: Json, x: Field)
    requires a.Object? && b.Object? && Proper(a) && Proper(b) && Same(a, b) && x in CanonFields(b)
    ensures x in CanonFields(a)
    decreases a, 0
  {
    var j :| 0 <= j < |CanonFields(b)| && CanonFields(b)[j] == x;
    assert b.fields[j].key == x.key;
    var i := LookupFinds(a.fields, x.key);
    assert SameAt(a.fields[i], b.fields);
    LookupIs(b.fields, j);
    SameHasSameCanon(a.fields[i].value, b.fields[j].value);
    assert CanonFields(a)[i] == x;
  }

  lemma SameFieldsSort(f: seq<Field>, g: seq<Field>)
    requires UniqueKeys(f) && UniqueKeys(g) && forall x :: x in f <==> x in g
    ensures S.Sort(f, FieldLeq) == S.Sort(g, FieldLeq)
  {
    S.SameElements(f, g);
    FieldLeqIsTotalOrder();
    UniqueKeysUntied(f);
    S.SortOrderIndependent(f, g, FieldLeq);
  }

  lemma {:induction false} SameCanonIsSame(a: Json, b: Json)
    requires Proper(a) && Proper(b) && Canon(a) == Canon(b)
    ensures Same(a, b)
    decreases a, 1
  {
    match a
    case Array(items) =>
      forall i | 0 <= i < |items|
        ensures Same(items[i], b.items[i])
      {
        assert Canon(a).items[i] == Canon(b).items[i];
        SameCanonIsSame(items[i], b.items[i]);
      }
    case Object(fields) =>
      forall i | 0 <= i < |fields|
        ensures SameAt(fields[i], b.fields)
      {
        SameCanonIsSameAt(a, b, i);
      }
      forall j | 0 <= j < |b.fields|
        ensures Lookup(fields, b.fields[j].key).Some?
      {
        var i := FieldMatch(CanonFields(b), CanonFields(a), j);
        LookupIs(fields, i);
      }
    case _ =>
  }

  lemma {:induction false} SameCanonIsSameAt(a: Json, b: Json, i: nat)
    requires a.Object? && b.Object? && Proper(a) && Proper(b) && Canon(a) == Canon(b) && i < |a.fields|
    ensures SameAt(a.fields[i], b.fields)
    decreases a, 0
  {
    var j := FieldMatch(CanonFields(a), CanonFields(b), i);
    LookupIs(b.fields, j);
    SameCanonIsSame(a.fields[i].value, b.fields[j].value);
  }

  lemma FieldMatch(f: seq<Field>, g: seq<Field>, i: nat) returns (j: nat)
    requires S.Sort(f, FieldLeq) == S.Sort(g, FieldLeq) && i < |f|
    ensures j < |g| && g[j] == f[i]
  {
    S.InSort(f, FieldLeq, f[i]);
    S.InSort(g, FieldLeq, f[i]);
    j :| 0 <= j < |g| && g[j] == f[i];
  }

  /** Canonical forms tell trees apart exactly up to key order. */
  lemma {:induction false} CanonDecides(a: Json, b: Json)
    requires Proper(a) && Proper(b)
    ensures Canon(a) == Canon(b) <==> Same(a, b)
  {
    if Same(a, b) {
      SameHasSameCanon(a, b);
    }
    if Canon(a) == Canon(b) {
      SameCanonIsSame(a, b);
    }
  }

  // ----- canonical forms -----

  /** Keys are in order, at every depth. */
  ghost predicate Ordered(v: Json)
    decreases v
  {
    match v
    case Array(items) => forall i :: 0 <= i < |items| ==> Ordered(items[i])
    case Object(fields) => S.Sorted(fields, FieldLeq) && forall i :: 0 <= i < |fields| ==> Ordered(fields[i].value)
    case _ => true
  }

  lemma {:induction false} CanonIsOrdered(v: Json)
    requires Proper(v)
    ensures Ordered(Canon(v)) && Proper(Canon(v))
    decreases v
  {
    match v
    case Array(items) =>
      forall i | 0 <= i < |items|
        ensures Ordered(Canon(items[i])) && Proper(Canon(items[i]))
      {
        CanonIsOrdered(items[i]);
      }
    case Object(fields) =>
      var f, r := CanonFields(v), S.Sort(CanonFields(v), FieldLeq);
      FieldLeqIsTotalOrder();
      S.SortSorted(f, FieldLeq);
      SortKeepsUniqueKeys(f);
      forall i | 0 <= i < |r|
        ensures Ordered(r[i].value) && Proper(r[i].value)
      {
        S.InSort(f, FieldLeq, r[i]);
        var j :| 0 <= j < |f| && f[j] == r[i];
        CanonIsOrdered(fields[j].value);
      }
    case _ =>
  }

  lemma SortKeepsUniqueKeys(f: seq<Field>)
    requires UniqueKeys(f)
    ensures UniqueKeys(S.Sort(f, FieldLeq))
  {
    var r := S.Sort(f, FieldLeq);
    forall i, j | 0 <= i < j < |r|
      ensures r[i].key != r[j].key
    {
      S.InSort(f, FieldLeq, r[i]);
      S.InSort(f, FieldLeq, r[j]);
      S.CountOnce(f, r[i]);
      S.TwiceCounts(r, i, j);
    }
  }

  lemma {:induction false} OrderedIsCanon(v: Json)
    requires Proper(v) && Ordered(v)
    ensures Canon(v) == v
    decreases v
  {
    match v
    case Array(items) =>
      forall i | 0 <= i < |items|
        ensures Canon(items[i]) == items[i]
      {
        OrderedIsCanon(items[i]);
      }
      assert Canon(v).items == items;
    case Object(fields) =>
      forall i | 0 <= i < |fields|
        ensures Canon(fields[i].value) == fields[i].value
      {
        OrderedIsCanon(fields[i].value);
      }
      assert CanonFields(v) == fields;
      FieldLeqIsTotalOrder();
      UniqueKeysUntied(fields);
      S.SortSorted(fields, FieldLeq);
      S.SortedUnique(fields, S.Sort(fields, FieldLeq), FieldLeq);
    case _ =>
  }

  /** Canonicalising changes nothing exactly when all keys are in order already; so
      doing it twice is doing it once. */
  lemma {:induction false} CanonFixedIff(v: Json)
    requires Proper(v)
    ensures Canon(v) == v <==> Ordered(v)
    ensures Canon(Canon(v)) == Canon(v)
  {
    CanonIsOrdered(v);
    OrderedIsCanon(Canon(v));
    if Ordered(v) {
      OrderedIsCanon(v);
    }
  }

  // ----- the fingerprint -----

  function Get(v: Json, key: string): Option<Json> {
    if v.Object? then Lookup(v.fields, key) else None
  }

  /** The `/model/type` text of a tokenizer configuration. */
  function Algorithm(config: Json): string {
    match Get(config, "model")
    case None => "unknown"
    case Some(model) =>
      match Get(model, "type")
      case Some(Text(s)) => s
      case _ => "unknown"
  }

  /** The configuration is an object with a "model" that has a "type" text. */
  predicate HasType(config: Json, s: string) {
    config.Object? && exists i ::
      && 0 <= i < |config.fields| && config.fields[i].key == "model" && config.fields[i].value.Object?
      && Field("type", Text(s)) in config.fields[i].value.fields
  }

  /** That text is the algorithm; without one it is "unknown". */
  lemma {:induction false} AlgorithmIs(config: Json, s: string)
    requires Proper(config)
    ensures HasType(config, s) ==> Algorithm(config) == s
    ensures Algorithm(config) == s ==> HasType(config, s) || s == "unknown"
  {
    if HasType(config, s) {
      TypeIsFound(config, s);
    }
    if Algorithm(config) == s && s != "unknown" {
      TypeIsThere(config, s);
    }
  }

  lemma TypeIsThere(config: Json, s: string)
    requires Algorithm(config) == s && s != "unknown"
    ensures HasType(config, s)
  {
    var i := LookupFinds(config.fields, "model");
    var j := LookupFinds(config.fields[i].value.fields, "type");
    assert config.fields[i].value.fields[j] == Field("type", Text(s));
  }

  lemma TypeIsFound(config: Json, s: string)
    requires Proper(config) && HasType(config, s)
    ensures Algorithm(config) == s
  {
    var i :| 0 <= i < |config.fields| && config.fields[i].key == "model" && config.fields[i].value.Object?
             && Field("type", Text(s)) in config.fields[i].value.fields;
    LookupIs(config.fields, i);
    var inner := config.fields[i].value;
    assert Proper(inner);
    var j :| 0 <= j < |inner.fields| && inner.fields[j] == Field("type", Text(s));
    LookupIs(inner.fields, j);
  }

  function Description(source: string, config: Json): Json {
    Object([
      Field("schema", Text(TOKENIZER_FINGERPRINT_SCHEMA)), Field("tokenizers", Text(TOKENIZER_CRATE_VERSION)),
      Field("source", Text(source)), Field("algorithm", Text(Algorithm(config))), Field("config", config)])
  }

  /** The tree whose text is hashed. */
  function FingerprintInput(source: string, config: Json): Json {
    Canon(Description(source, config))
  }

  /** Members of equal objects are found alike, and are equal. */
  lemma SameGet(a: Json, b: Json, key: string)
    requires Proper(a) && Proper(b) && Same(a, b)
    ensures Get(a, key).Some? <==> Get(b, key).Some?
    ensures Get(a, key).Some? ==>
              && Same(Get(a, key).value, Get(b, key).value)
              && Proper(Get(a, key).value) && Proper(Get(b, key).value)
  {
    if Get(a, key).Some? {
      var i := LookupFinds(a.fields, key);
      assert SameAt(a.fields[i], b.fields);
      var j := LookupFinds(b.fields, key);
    }
    if Get(b, key).Some? {
      var j := LookupFinds(b.fields, key);
      assert Lookup(a.fields, b.fields[j].key).Some?;
    }
  }

  lemma SameAlgorithm(a: Json, b: Json)
    requires Proper(a) && Proper(b) && Same(a, b)
    ensures Algorithm(a) == Algorithm(b)
  {
    SameGet(a, b, "model");
    if Get(a, "model").Some? {
      SameGet(Get(a, "model").value, Get(b, "model").value, "type");
    }
  }

  lemma DescriptionIsProper(source: string, config: Json)
    requires Proper(config)
    ensures Proper(Description(source, config))
  {
  }

  /** The hashed tree is the same exactly for the same source and configurations
      that are equal up to the order of their keys. */
  lemma {:induction false} FingerprintInputIff(s: string, a: Json, t: string, b: Json)
    requires Proper(a) && Proper(b)
    ensures FingerprintInput(s, a) == FingerprintInput(t, b) <==> s == t && Same(a, b)
  {
    DescriptionIsProper(s, a);
    DescriptionIsProper(t, b);
    CanonDecides(Description(s, a), Description(t, b));
    if s == t && Same(a, b) {
      SameAlgorithm(a, b);
      SameDescription(s, a, b);
    }
    if Same(Description(s, a), Description(t, b)) {
      DescriptionTells(s, a, t, b);
    }
  }

  lemma DescriptionTells(s: string, a: Json, t: string, b: Json)
    requires Proper(a) && Proper(b) && Same(Description(s, a), Description(t, b))
    ensures s == t && Same(a, b)
  {
    var x, y := Description(s, a), Description(t, b);
    DescriptionIsProper(s, a);
    DescriptionIsProper(t, b);
    SameGet(x, y, "source");
    SameGet(x, y, "config");
    DescriptionMembers(s, a);
    DescriptionMembers(t, b);
  }

  lemma DescriptionMembers(source: string, config: Json)
    requires Proper(config)
    ensures Get(Description(source, config), "source") == Some(Text(source))
    ensures Get(Description(source, config), "config") == Some(config)
    ensures Get(Description(source, config), "schema") == Some(Text("1"))
    ensures Get(Description(source, config), "tokenizers") == Some(Text(TOKENIZER_CRATE_VERSION))
    ensures Get(Description(source, config), "algorithm") == Some(Text(Algorithm(config)))
  {
    var fields := Description(source, config).fields;
    LookupIs(fields, 0);
    LookupIs(fields, 1);
    LookupIs(fields, 3);
    assert fields[2] == Field("source", Text(source)) && fields[4] == Field("config", config);
    LookupIs(fields, 2);
    LookupIs(fields, 4);
  }

  lemma SameDescription(s: string, a: Json, b: Json)
    requires Same(a, b) && Algorithm(a) == Algorithm(b)
    ensures Same(Description(s, a), Description(s, b))
  {
    var x, y := Description(s, a), Description(s, b);
    forall i | 0 <= i < |x.fields|
      ensures SameAt(x.fields[i], y.fields) && Lookup(x.fields, y.fields[i].key).Some?
    {
      LookupIs(x.fields, i);
      LookupIs(y.fields, i);
    }
  }
}

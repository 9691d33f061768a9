/** Canonical JSON: object keys sorted at every depth (src/service/canonical.rs). */
module Canonical {
  import opened SortedEntries
  import opened Json
  import StringOrder

  type Fields = seq<Entry<Json>>

  /** The canonical value. */
  function Canon(v: Json): Json {
    match v
    case Obj(fields) => Obj(Sort(CanonFields(fields)))
    case Arr(items) => Arr(seq(|items|, i requires 0 <= i < |items| => Canon(items[i])))
    case _ => v
  }

  function CanonFields(fields: Fields): Fields {
    seq(|fields|, i requires 0 <= i < |fields| => Entry(fields[i].key, Canon(fields[i].value)))
  }

  /** Equal up to object key order at every depth: the reference notion, without any sorting. */
  ghost predicate Equivalent(a: Json, b: Json) {
    match (a, b)
    case (Obj(f), Obj(g)) =>
      && (forall i :: 0 <= i < |f| ==> HasKey(g, f[i].key))
      && (forall j :: 0 <= j < |g| ==> HasKey(f, g[j].key))
      && forall i, j :: 0 <= i < |f| && 0 <= j < |g| && f[i].key == g[j].key ==> Equivalent(f[i].value, g[j].value)
    case (Arr(x), Arr(y)) =>
      |x| == |y| && forall i :: 0 <= i < |x| ==> Equivalent(x[i], y[i])
    case _ => !a.Obj? && !a.Arr? && a == b
  }

  // ---------- objects ----------

  lemma CanonFieldsSorted(fields: Fields)
    requires DistinctKeys(fields)
    ensures Sorted(Sort(CanonFields(fields)))
    ensures forall x :: x in Sort(CanonFields(fields)) <==> x in CanonFields(fields)
  {
    var c := CanonFields(fields);
    SortSorted(c);
    SortElements(c);
    forall x ensures x in Sort(c) <==> x in c {
      assert x in multiset(Sort(c)) <==> x in multiset(c);
    }
  }

  /** Equivalent values have the same canonical value. */
  lemma {:induction false} EquivalentSameCanon(a: Json, b: Json)
    requires WellFormed(a) && WellFormed(b) && Equivalent(a, b)
    ensures Canon(a) == Canon(b)
  {
    match (a, b)
    case (Obj(f), Obj(g)) =>
      CanonFieldsSorted(f);
      CanonFieldsSorted(g);
      forall i, j | 0 <= i < |f| && 0 <= j < |g| && f[i].key == g[j].key
        ensures CanonFields(f)[i] == CanonFields(g)[j]
      {
        EquivalentSameCanon(f[i].value, g[j].value);
      }
      SameElements(f, g);
      SortedUnique(Sort(CanonFields(f)), Sort(CanonFields(g)));
    case (Arr(x), Arr(y)) =>
      forall i | 0 <= i < |x| ensures Canon(x[i]) == Canon(y[i]) {
        EquivalentSameCanon(x[i], y[i]);
      }
    case _ =>
  }

  lemma SameElements(f: Fields, g: Fields)
    requires forall i :: 0 <= i < |f| ==> HasKey(g, f[i].key)
    requires forall j :: 0 <= j < |g| ==> HasKey(f, g[j].key)
    requires forall i, j :: 0 <= i < |f| && 0 <= j < |g| && f[i].key == g[j].key ==> CanonFields(f)[i] == CanonFields(g)[j]
    ensures forall x :: x in CanonFields(f) <==> x in CanonFields(g)
  {
    forall x | x in CanonFields(f) ensures x in CanonFields(g) {
      var i :| 0 <= i < |f| && CanonFields(f)[i] == x;
      assert CanonFields(f)[i] == CanonFields(g)[IndexOf(g, f[i].key)];
    }
    forall x | x in CanonFields(g) ensures x in CanonFields(f) {
      var j :| 0 <= j < |g| && CanonFields(g)[j] == x;
      assert CanonFields(f)[IndexOf(f, g[j].key)] == CanonFields(g)[j];
    }
  }

  /** Values with the same canonical value are equivalent: no meaning is lost. */
  lemma {:induction false} SameCanonEquivalent(a: Json, b: Json)
    requires WellFormed(a) && WellFormed(b) && Canon(a) == Canon(b)
    ensures Equivalent(a, b)
  {
    match (a, b)
    case (Obj(f), Obj(g)) =>
      CanonFieldsSorted(f);
      CanonFieldsSorted(g);
      SharedKeys(f, g);
      SharedKeys(g, f);
      forall i, j | 0 <= i < |f| && 0 <= j < |g| && f[i].key == g[j].key
        ensures Equivalent(f[i].value, g[j].value)
      {
        SameField(f, g, i, j);
        SameCanonEquivalent(f[i].value, g[j].value);
      }
    case (Arr(x), Arr(y)) =>
      assert |x| == |Canon(a).items| == |y|;
      forall i | 0 <= i < |x| ensures Equivalent(x[i], y[i]) {
        assert Canon(a).items[i] == Canon(b).items[i];
        SameCanonEquivalent(x[i], y[i]);
      }
    case _ =>
  }

  lemma SharedKeys(f: Fields, g: Fields)
    requires forall x :: x in CanonFields(f) ==> x in CanonFields(g)
    ensures forall i :: 0 <= i < |f| ==> HasKey(g, f[i].key)
  {
    forall i | 0 <= i < |f| ensures HasKey(g, f[i].key) {
      assert CanonFields(f)[i] in CanonFields(g);
    }
  }

  lemma SameField(f: Fields, g: Fields, i: nat, j: nat)
    requires DistinctKeys(g) && i < |f| && j < |g| && f[i].key == g[j].key
    requires forall x :: x in CanonFields(f) ==> x in CanonFields(g)
    ensures Canon(f[i].value) == Canon(g[j].value)
  {
    assert CanonFields(f)[i] in CanonFields(g);
    var k :| 0 <= k < |g| && CanonFields(g)[k] == CanonFields(f)[i];
    assert k == j;
  }

  /** The normal-form theorem: canonical values coincide exactly for equivalent values. */
  lemma CanonIsNormalForm(a: Json, b: Json)
    requires WellFormed(a) && WellFormed(b)
    ensures Canon(a) == Canon(b) <==> Equivalent(a, b)
  {
    if Canon(a) == Canon(b) {
      SameCanonEquivalent(a, b);
    }
    if Equivalent(a, b) {
      EquivalentSameCanon(a, b);
    }
  }

  // ---------- the canonical value itself ----------

  /** Canonicalising keeps the meaning. */
  lemma {:induction false} CanonEquivalent(v: Json)
    requires WellFormed(v)
    ensures WellFormed(Canon(v)) && Equivalent(v, Canon(v))
  {
    match v
    case Obj(f) =>
      CanonFieldsSorted(f);
      var g := Sort(CanonFields(f));
      SortedHasDistinctKeys(g);
      forall i | 0 <= i < |f| ensures HasKey(g, f[i].key) {
        assert CanonFields(f)[i] in g;
      }
      forall j | 0 <= j < |g| ensures HasKey(f, g[j].key) && WellFormed(g[j].value) {
        var i := FieldOf(f, g[j]);
        CanonEquivalent(f[i].value);
      }
      forall i, j | 0 <= i < |f| && 0 <= j < |g| && f[i].key == g[j].key
        ensures Equivalent(f[i].value, g[j].value)
      {
        var k := FieldOf(f, g[j]);
        assert k == i;
        CanonEquivalent(f[i].value);
      }
    case Arr(items) =>
      forall i | 0 <= i < |items| ensures WellFormed(Canon(items[i])) && Equivalent(items[i], Canon(items[i])) {
        CanonEquivalent(items[i]);
      }
    case _ =>
  }

  lemma FieldOf(f: Fields, x: Entry<Json>) returns (i: nat)
    requires x in CanonFields(f)
    ensures i < |f| && x == Entry(f[i].key, Canon(f[i].value))
  {
    i :| 0 <= i < |f| && CanonFields(f)[i] == x;
  }

  /** Canonicalising twice changes nothing. */
  lemma CanonIdempotent(v: Json)
    requires WellFormed(v)
    ensures Canon(Canon(v)) == Canon(v)
  {
    CanonEquivalent(v);
    EquivalentSameCanon(v, Canon(v));
  }

  // ---------- the procedure ----------

  lemma {:induction false} InsertCommutes(x: Entry<Json>, fields: Fields)
    ensures CanonFields(Insert(x, fields)) == Insert(Entry(x.key, Canon(x.value)), CanonFields(fields))
  {
    if fields != [] && !StringOrder.Less(x.key, fields[0].key) {
      InsertCommutes(x, fields[1..]);
      assert CanonFields(fields)[1..] == CanonFields(fields[1..]);
    }
  }

  /** Sorting the keys first and then canonicalising the values is the same. */
  lemma {:induction false} SortCommutes(fields: Fields)
    ensures CanonFields(Sort(fields)) == Sort(CanonFields(fields))
  {
    if fields != [] {
      SortCommutes(fields[1..]);
      InsertCommutes(fields[0], Sort(fields[1..]));
      assert CanonFields(fields)[1..] == CanonFields(fields[1..]);
    }
  }

  /** `canonical_value`. */
  method CanonicalValue(v: Json) returns (r: Json)
    ensures r == Canon(v)
    decreases v
  {
    match v
    case Obj(fields) =>
      var out := CanonicalObject(fields);
      r := Obj(out);
    case Arr(items) =>
      var out := CanonicalArray(items);
      r := Arr(out);
    case _ =>
      r := v;
  }

  lemma SortFrom(fields: Fields, i: nat)
    requires i < |Sort(fields)|
    ensures Sort(fields)[i] in fields
  {
    SortElements(fields);
    assert Sort(fields)[i] in multiset(fields);
  }

  /** The object case: sort the keys, then insert the canonical values one by one. */
  method CanonicalObject(fields: Fields) returns (out: Fields)
    ensures out == Sort(CanonFields(fields))
    decreases fields
  {
    var sorted := Sort(fields);
    SortCommutes(fields);
    out := [];
    for i := 0 to |sorted|
      invariant |out| == i
      invariant forall k :: 0 <= k < i ==> out[k] == CanonFields(sorted)[k]
    {
      SortFrom(fields, i);
      var value := CanonicalValue(sorted[i].value);
      out := out + [Entry(sorted[i].key, value)];
    }
  }

  method CanonicalArray(items: seq<Json>) returns (out: seq<Json>)
    ensures Arr(out) == Canon(Arr(items))
    decreases items
  {
    out := [];
    for i := 0 to |items|
      invariant |out| == i
      invariant forall k :: 0 <= k < i ==> out[k] == Canon(items[k])
    {
      var item := CanonicalValue(items[i]);
      out := out + [item];
    }
  }
}

/** Stripping of private fields from request bodies (src/service/proxy.rs).

Fields whose name starts with an underscore are removed, except the property names directly inside
a JSON Schema name map, and nothing is touched below depth 32.  A body without such fields is sent
as the client's original bytes; the theorems say that this skips nothing. */
module UnderscoreFilter {
  import opened Text
  import opened SortedEntries
  import opened Json

  type Fields = seq<Entry<Json>>

  const MAX_DEPTH: nat := 32

  predicate IsPrivate(key: string) {
    key != "" && key[0] == '_'
  }

  /** The value of such a key maps names to schemas. */
  predicate IsNameMap(key: string) {
    key in {"properties", "patternProperties", "definitions", "$defs"}
  }

  /** `strip_underscore_at_depth`. */
  function Strip(v: Json, depth: nat, inMap: bool): Json
    decreases v
  {
    if depth > MAX_DEPTH then v
    else
      match v
      case Obj(fields) => Obj(StripFields(fields, depth, inMap))
      case Arr(items) => Arr(StripItems(items, depth, inMap))
      case _ => v
  }

  function StripFields(fields: Fields, depth: nat, inMap: bool): Fields
    decreases fields
  {
    if fields == [] then []
    else
      var head, tail := fields[0], StripFields(fields[1..], depth, inMap);
      if !inMap && IsPrivate(head.key) then tail
      else [Entry(head.key, Strip(head.value, depth + 1, IsNameMap(head.key)))] + tail
  }

  function StripItems(items: seq<Json>, depth: nat, inMap: bool): seq<Json>
    decreases items
  {
    if items == [] then [] else [Strip(items[0], depth + 1, inMap)] + StripItems(items[1..], depth, inMap)
  }

  /** `has_underscore_at_depth`. */
  predicate Has(v: Json, depth: nat, inMap: bool)
    decreases v
  {
    depth <= MAX_DEPTH &&
    match v
    case Obj(fields) => HasInFields(fields, depth, inMap)
    case Arr(items) => HasInItems(items, depth, inMap)
    case _ => false
  }

  predicate HasInFields(fields: Fields, depth: nat, inMap: bool)
    decreases fields
  {
    fields != [] &&
    (|| (!inMap && IsPrivate(fields[0].key))
     || Has(fields[0].value, depth + 1, IsNameMap(fields[0].key))
     || HasInFields(fields[1..], depth, inMap))
  }

  predicate HasInItems(items: seq<Json>, depth: nat, inMap: bool)
    decreases items
  {
    items != [] && (Has(items[0], depth + 1, inMap) || HasInItems(items[1..], depth, inMap))
  }

  // ---------- the in-place walk ----------

  /** `retain`: the fields that are not private. */
  function Retained(fields: Fields): Fields {
    if fields == [] then []
    else if IsPrivate(fields[0].key) then Retained(fields[1..])
    else [fields[0]] + Retained(fields[1..])
  }

  lemma {:induction false} RetainFirst(fields: Fields, depth: nat)
    ensures StripFields(Retained(fields), depth, true) == StripFields(fields, depth, false)
  {
    if fields != [] {
      RetainFirst(fields[1..], depth);
      if !IsPrivate(fields[0].key) {
        assert Retained(fields)[1..] == Retained(fields[1..]);
      }
    }
  }

  lemma {:induction false} RetainedIsPart(fields: Fields)
    ensures forall i :: 0 <= i < |Retained(fields)| ==> Retained(fields)[i] in fields
  {
    if fields != [] {
      RetainedIsPart(fields[1..]);
    }
  }

  lemma StripFieldsSnoc(done: Fields, fields: Fields, i: nat, depth: nat)
    requires i < |fields|
    ensures var f := fields[i];
      (done + [Entry(f.key, Strip(f.value, depth + 1, IsNameMap(f.key)))]) + StripFields(fields[i + 1..], depth, true)
      == done + StripFields(fields[i..], depth, true)
  {
    assert fields[i..][1..] == fields[i + 1..];
  }

  lemma StripItemsSnoc(done: seq<Json>, items: seq<Json>, i: nat, depth: nat, inMap: bool)
    requires i < |items|
    ensures (done + [Strip(items[i], depth + 1, inMap)]) + StripItems(items[i + 1..], depth, inMap)
      == done + StripItems(items[i..], depth, inMap)
  {
    assert items[i..][1..] == items[i + 1..];
  }

  /** `strip_underscore_at_depth` as the source runs it: drop private fields of an object first,
      then visit what is left. */
  method StripAtDepth(v: Json, depth: nat, inMap: bool) returns (r: Json)
    ensures r == Strip(v, depth, inMap)
    decreases v
  {
    if depth > MAX_DEPTH {
      return v;
    }
    match v
    case Obj(fields) =>
      var out := StripObject(fields, depth, inMap);
      r := Obj(out);
    case Arr(items) =>
      var out := StripArray(items, depth, inMap);
      r := Arr(out);
    case _ =>
      r := v;
  }

  method StripObject(fields: Fields, depth: nat, inMap: bool) returns (out: Fields)
    ensures out == StripFields(fields, depth, inMap)
    decreases fields
  {
    var kept := if inMap then fields else Retained(fields);
    RetainFirst(fields, depth);
    RetainedIsPart(fields);
    out := [];
    for i := 0 to |kept|
      invariant out + StripFields(kept[i..], depth, true) == StripFields(fields, depth, inMap)
    {
      assert kept[i] in fields;
      var x := StripAtDepth(kept[i].value, depth + 1, IsNameMap(kept[i].key));
      StripFieldsSnoc(out, kept, i, depth);
      out := out + [Entry(kept[i].key, x)];
    }
  }

  method StripArray(items: seq<Json>, depth: nat, inMap: bool) returns (out: seq<Json>)
    ensures out == StripItems(items, depth, inMap)
    decreases items
  {
    out := [];
    for i := 0 to |items|
      invariant out + StripItems(items[i..], depth, inMap) == StripItems(items, depth, inMap)
    {
      var x := StripAtDepth(items[i], depth + 1, inMap);
      StripItemsSnoc(out, items, i, depth, inMap);
      out := out + [x];
    }
  }

  function StripUnderscoreFields(v: Json): Json {
    Strip(v, 0, false)
  }

  predicate HasUnderscoreFields(v: Json) {
    Has(v, 0, false)
  }

  // ---------- the test is exact ----------

  lemma {:induction false} StripShrinks(fields: Fields, depth: nat, inMap: bool)
    ensures |StripFields(fields, depth, inMap)| <= |fields|
  {
    if fields != [] {
      StripShrinks(fields[1..], depth, inMap);
    }
  }

  lemma {:induction false} HasIffStripChanges(v: Json, depth: nat, inMap: bool)
    ensures Has(v, depth, inMap) <==> Strip(v, depth, inMap) != v
    decreases v
  {
    if depth <= MAX_DEPTH {
      match v
      case Obj(fields) => HasIffFieldsChange(fields, depth, inMap);
      case Arr(items) => HasIffItemsChange(items, depth, inMap);
      case _ =>
    }
  }

  lemma {:induction false} HasIffFieldsChange(fields: Fields, depth: nat, inMap: bool)
    ensures HasInFields(fields, depth, inMap) <==> StripFields(fields, depth, inMap) != fields
    decreases fields
  {
    if fields != [] {
      var head, rest := fields[0], fields[1..];
      StripShrinks(rest, depth, inMap);
      HasIffStripChanges(head.value, depth + 1, IsNameMap(head.key));
      HasIffFieldsChange(rest, depth, inMap);
      ConsEqual(Entry(head.key, Strip(head.value, depth + 1, IsNameMap(head.key))), StripFields(rest, depth, inMap), fields);
    }
  }

  lemma {:induction false} HasIffItemsChange(items: seq<Json>, depth: nat, inMap: bool)
    ensures HasInItems(items, depth, inMap) <==> StripItems(items, depth, inMap) != items
    decreases items
  {
    if items != [] {
      HasIffStripChanges(items[0], depth + 1, inMap);
      HasIffItemsChange(items[1..], depth, inMap);
      ConsEqual(Strip(items[0], depth + 1, inMap), StripItems(items[1..], depth, inMap), items);
    }
  }

  lemma ConsEqual<T>(head: T, tail: seq<T>, whole: seq<T>)
    requires whole != []
    ensures [head] + tail == whole <==> head == whole[0] && tail == whole[1..]
  {
    assert whole == [whole[0]] + whole[1..];
    assert ([head] + tail)[0] == head && ([head] + tail)[1..] == tail;
  }

  /** Keeping the original bytes loses nothing: the test is false exactly when stripping is the
      identity. */
  lemma SkippingTheRebuildIsLossless(v: Json)
    ensures !HasUnderscoreFields(v) <==> StripUnderscoreFields(v) == v
  {
    HasIffStripChanges(v, 0, false);
  }

  // ---------- stripping is complete and idempotent ----------

  lemma {:induction false} StrippedHasNone(v: Json, depth: nat, inMap: bool)
    ensures !Has(Strip(v, depth, inMap), depth, inMap)
    decreases v
  {
    if depth <= MAX_DEPTH {
      match v
      case Obj(fields) => StrippedFieldsHaveNone(fields, depth, inMap);
      case Arr(items) => StrippedItemsHaveNone(items, depth, inMap);
      case _ =>
    }
  }

  lemma {:induction false} StrippedFieldsHaveNone(fields: Fields, depth: nat, inMap: bool)
    ensures !HasInFields(StripFields(fields, depth, inMap), depth, inMap)
    decreases fields
  {
    if fields != [] {
      StrippedHasNone(fields[0].value, depth + 1, IsNameMap(fields[0].key));
      StrippedFieldsHaveNone(fields[1..], depth, inMap);
      var tail := StripFields(fields[1..], depth, inMap);
      assert inMap || !IsPrivate(fields[0].key) ==> StripFields(fields, depth, inMap)[1..] == tail;
    }
  }

  lemma {:induction false} StrippedItemsHaveNone(items: seq<Json>, depth: nat, inMap: bool)
    ensures !HasInItems(StripItems(items, depth, inMap), depth, inMap)
    decreases items
  {
    if items != [] {
      StrippedHasNone(items[0], depth + 1, inMap);
      StrippedItemsHaveNone(items[1..], depth, inMap);
      assert StripItems(items, depth, inMap)[1..] == StripItems(items[1..], depth, inMap);
    }
  }

  /** Stripping twice is stripping once. */
  lemma StripIsIdempotent(v: Json)
    ensures StripUnderscoreFields(StripUnderscoreFields(v)) == StripUnderscoreFields(v)
  {
    StrippedHasNone(v, 0, false);
    HasIffStripChanges(StripUnderscoreFields(v), 0, false);
  }

  // ---------- what is removed ----------

  function Keys(fields: Fields): seq<string> {
    seq(|fields|, i requires 0 <= i < |fields| => fields[i].key)
  }

  /** Names inside a schema name map are never removed. */
  lemma {:induction false} NameMapKeepsNames(fields: Fields, depth: nat)
    ensures Keys(StripFields(fields, depth, true)) == Keys(fields)
  {
    if fields != [] {
      NameMapKeepsNames(fields[1..], depth);
      assert Keys(fields) == [fields[0].key] + Keys(fields[1..]);
    }
  }

  /** A step into an object or an array, and the value at the end of a path of steps. */
  datatype PathStep = Key(name: string) | Index(i: nat)

  function Enter(v: Json, step: PathStep): Option<Json> {
    match step
    case Key(name) => Get(v, name)
    case Index(i) => if v.Arr? && i < |v.items| then Some(v.items[i]) else None
  }

  function ValueAt(v: Json, path: seq<PathStep>): Option<Json>
    decreases path
  {
    if path == [] then Some(v)
    else
      var x := Enter(v, path[0]);
      if x.None? then None else ValueAt(x.value, path[1..])
  }

  /** Does the name-map flag hold behind a step?  An array hands it on. */
  predicate FlagBehind(step: PathStep, inMap: bool) {
    match step
    case Key(name) => IsNameMap(name)
    case Index(_) => inMap
  }

  /** A path survives unless some key on it is private, stands outside a name map, and is not too deep. */
  predicate Survives(path: seq<PathStep>, depth: nat, inMap: bool)
    decreases path
  {
    path == [] || depth > MAX_DEPTH ||
    ((path[0].Key? && IsPrivate(path[0].name) ==> inMap) && Survives(path[1..], depth + 1, FlagBehind(path[0], inMap)))
  }

  lemma {:induction false} StripLookup(fields: Fields, depth: nat, inMap: bool, key: string)
    ensures Lookup(StripFields(fields, depth, inMap), key) ==
      match Lookup(fields, key)
      case None => None
      case Some(x) => if !inMap && IsPrivate(key) then None else Some(Strip(x, depth + 1, IsNameMap(key)))
  {
    if fields != [] {
      StripLookup(fields[1..], depth, inMap, key);
      LookupCons(fields, key);
      if inMap || !IsPrivate(fields[0].key) {
        var out := StripFields(fields, depth, inMap);
        LookupCons(out, key);
        assert out[1..] == StripFields(fields[1..], depth, inMap);
      }
    }
  }

  lemma {:induction false} StripItem(items: seq<Json>, depth: nat, inMap: bool, i: nat)
    ensures |StripItems(items, depth, inMap)| == |items|
    ensures i < |items| ==> StripItems(items, depth, inMap)[i] == Strip(items[i], depth + 1, inMap)
  {
    if items != [] {
      StripItem(items[1..], depth, inMap, if i == 0 then 0 else i - 1);
    }
  }

  /** One step into a stripped value. */
  lemma StripEnter(v: Json, step: PathStep, depth: nat, inMap: bool)
    requires depth <= MAX_DEPTH
    ensures Enter(Strip(v, depth, inMap), step) ==
      var x := Enter(v, step);
      if x.None? || (step.Key? && IsPrivate(step.name) && !inMap) then None
      else Some(Strip(x.value, depth + 1, FlagBehind(step, inMap)))
  {
    match v
    case Obj(fields) =>
      if step.Key? {
        StripLookup(fields, depth, inMap, step.name);
      }
    case Arr(items) =>
      if step.Index? {
        StripItem(items, depth, inMap, step.i);
      }
    case _ =>
  }

  predicate IsScalar(v: Json) {
    !v.Obj? && !v.Arr?
  }

  /** Exactly the fields on paths that do not survive are removed, through objects and arrays alike;
      every other value stays where it was, scalars unchanged and the rest with its contents
      stripped. */
  lemma {:induction false} StripRemovesExactly(v: Json, path: seq<PathStep>, depth: nat, inMap: bool)
    ensures ValueAt(Strip(v, depth, inMap), path).Some? <==> ValueAt(v, path).Some? && Survives(path, depth, inMap)
    ensures ValueAt(Strip(v, depth, inMap), path).Some? && IsScalar(ValueAt(v, path).value) ==>
              ValueAt(Strip(v, depth, inMap), path) == ValueAt(v, path)
    decreases path
  {
    if path != [] && depth <= MAX_DEPTH {
      StripEnter(v, path[0], depth, inMap);
      var x := Enter(v, path[0]);
      if x.Some? {
        StripRemovesExactly(x.value, path[1..], depth + 1, FlagBehind(path[0], inMap));
      }
    }
  }

  // ---------- schema names ----------

  ghost predicate AllIndices(path: seq<PathStep>) {
    forall i :: 0 <= i < |path| ==> path[i].Index?
  }

  /** Behind a name map, through any arrays, no name is removed. */
  lemma {:induction false} NamesSurviveInMap(indices: seq<PathStep>, name: string, depth: nat)
    requires AllIndices(indices)
    ensures Survives(indices, depth, true) && Survives(indices + [Key(name)], depth, true)
  {
    var path := indices + [Key(name)];
    if indices == [] {
      assert path[1..] == [];
    } else {
      assert path[1..] == indices[1..] + [Key(name)];
      NamesSurviveInMap(indices[1..], name, depth + 1);
    }
  }

  lemma {:induction false} MapSurvivesWithNames(path: seq<PathStep>, m: string, indices: seq<PathStep>, name: string,
                                                depth: nat, inMap: bool)
    requires IsNameMap(m) && AllIndices(indices)
    ensures Survives(path + [Key(m)] + (indices + [Key(name)]), depth, inMap) == Survives(path + [Key(m)], depth, inMap)
    decreases path
  {
    var short := path + [Key(m)];
    var long := short + (indices + [Key(name)]);
    if path == [] {
      assert short[1..] == [] && long[1..] == indices + [Key(name)];
      NamesSurviveInMap(indices, name, depth + 1);
    } else {
      assert short[1..] == path[1..] + [Key(m)];
      assert long[1..] == path[1..] + [Key(m)] + (indices + [Key(name)]);
      MapSurvivesWithNames(path[1..], m, indices, name, depth + 1, FlagBehind(path[0], inMap));
    }
  }

  lemma {:induction false} ValueAtAppend(v: Json, a: seq<PathStep>, b: seq<PathStep>)
    ensures ValueAt(v, a + b).Some? ==> ValueAt(v, a).Some?
    decreases a
  {
    if a != [] {
      assert (a + b)[1..] == a[1..] + b;
      var x := Enter(v, a[0]);
      if x.Some? {
        ValueAtAppend(x.value, a[1..], b);
      }
    }
  }

  /** A name in a schema name map, wherever the map stands in the body, is removed only together with
      the whole map. */
  lemma NameMapExempts(v: Json, path: seq<PathStep>, m: string, indices: seq<PathStep>, name: string)
    requires IsNameMap(m) && AllIndices(indices)
    ensures
      var here, there := path + [Key(m)], path + [Key(m)] + (indices + [Key(name)]);
      ValueAt(StripUnderscoreFields(v), there).Some? <==>
        ValueAt(v, there).Some? && ValueAt(StripUnderscoreFields(v), here).Some?
  {
    var here, there := path + [Key(m)], path + [Key(m)] + (indices + [Key(name)]);
    StripRemovesExactly(v, here, 0, false);
    StripRemovesExactly(v, there, 0, false);
    MapSurvivesWithNames(path, m, indices, name, 0, false);
    ValueAtAppend(v, here, indices + [Key(name)]);
  }
}

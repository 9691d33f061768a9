/** JSON values as the proxy handles them (`serde_json::Value`).

An object is a sequence of fields so that key order exists in the model; the keys of a value
that came out of the parser are distinct. */
module Json {
  import opened Text
  import opened SortedEntries

  datatype Json =
    | Null
    | Bool(flag: bool)
    | Number(repr: string)
    | Str(text: string)
    | Arr(items: seq<Json>)
    | Obj(fields: seq<Entry<Json>>)

  /** The position of a key, or the number of fields. */
  function IndexOf(fields: seq<Entry<Json>>, key: string): (i: nat)
    ensures i <= |fields|
    ensures i < |fields| ==> fields[i].key == key
    ensures forall j :: 0 <= j < i ==> fields[j].key != key
  {
    if fields == [] || fields[0].key == key then 0 else 1 + IndexOf(fields[1..], key)
  }

  predicate HasKey(fields: seq<Entry<Json>>, key: string) {
    IndexOf(fields, key) < |fields|
  }

  function Lookup(fields: seq<Entry<Json>>, key: string): Option<Json> {
    var i := IndexOf(fields, key);
    if i < |fields| then Some(fields[i].value) else None
  }

  /** `Value::get`. */
  function Get(v: Json, key: string): Option<Json> {
    if v.Obj? then Lookup(v.fields, key) else None
  }

  /** The value at a path of object keys. */
  function At(v: Json, path: seq<string>): Option<Json>
    decreases path
  {
    if path == [] then Some(v)
    else
      var x := Get(v, path[0]);
      if x.None? then None else At(x.value, path[1..])
  }

  /** Every object in the value has distinct keys. */
  ghost predicate WellFormed(v: Json) {
    match v
    case Obj(fields) => DistinctKeys(fields) && forall i :: 0 <= i < |fields| ==> WellFormed(fields[i].value)
    case Arr(items) => forall i :: 0 <= i < |items| ==> WellFormed(items[i])
    case _ => true
  }

  lemma LookupCons(fields: seq<Entry<Json>>, key: string)
    requires fields != []
    ensures Lookup(fields, key) == if fields[0].key == key then Some(fields[0].value) else Lookup(fields[1..], key)
  {
  }

  /** With distinct keys, a field is found at its own position. */
  lemma IndexOfAt(fields: seq<Entry<Json>>, i: nat)
    requires DistinctKeys(fields) && i < |fields|
    ensures IndexOf(fields, fields[i].key) == i
  {
  }
}

/** Paths of one and of two keys. */
module JsonPaths {
  import opened Text
  import opened Json

  lemma AtOne(v: Json, a: string)
    ensures At(v, [a]) == Get(v, a)
  {
    var none: seq<string> := [];
    assert [a][1..] == none;
  }

  lemma AtTwo(v: Json, a: string, b: string)
    ensures At(v, [a, b]) == if Get(v, a).Some? then Get(Get(v, a).value, b) else None
  {
    assert [a, b][1..] == [b];
    if Get(v, a).Some? {
      AtOne(Get(v, a).value, b);
    }
  }
}

/** Operator-configured extra body fields (src/service/proxy.rs).

A route's extra fields are laid over its provider's, both are laid over the client's body, and the
fields the gateway manages itself are never touched.  The theorems give the value at every path of
the outgoing body. */
module ExtraBody {
  import opened Text
  import opened SortedEntries
  import opened Json

  type Fields = seq<Entry<Json>>
  type Path = seq<string>

  /** `EXTRA_MANAGED_KEYS`. */
  predicate IsManaged(key: string) {
    key in {"model", "stream", "stream_options"}
  }

  /** Object insertion: an existing key keeps its place. */
  function Put(fields: Fields, key: string, v: Json): Fields {
    var i := IndexOf(fields, key);
    if i < |fields| then fields[i := Entry(key, v)] else fields + [Entry(key, v)]
  }

  /** Two objects are merged, anything else is replaced. */
  function MergeValue(was: Option<Json>, v: Json): Json
    decreases v
  {
    if was.Some? && was.value.Obj? && v.Obj? then Obj(MergeFields(was.value.fields, v.fields)) else v
  }

  function MergeFields(d: Fields, s: Fields): Fields
    decreases s
  {
    if s == [] then d
    else MergeFields(Put(d, s[0].key, MergeValue(Lookup(d, s[0].key), s[0].value)), s[1..])
  }

  /** `merge_deep`. */
  function MergeDeep(d: Json, s: Json): Json {
    if d.Obj? && s.Obj? then Obj(MergeFields(d.fields, s.fields)) else d
  }

  function Unmanaged(fields: Fields): Fields {
    if fields == [] then []
    else if IsManaged(fields[0].key) then Unmanaged(fields[1..])
    else [fields[0]] + Unmanaged(fields[1..])
  }

  /** `effective_extra`. */
  function EffectiveExtra(route: Json, provider: Json): Option<Json> {
    var merged := MergeDeep(provider, route);
    if !merged.Obj? then None
    else
      var fields := Unmanaged(merged.fields);
      if fields == [] then None else Some(Obj(fields))
  }

  /** `apply_extra`. */
  function ApplyExtra(body: Json, extra: Option<Json>): Json {
    if extra.Some? && body.Obj? && extra.value.Obj? then
      Obj(MergeFields(body.fields, Unmanaged(extra.value.fields)))
    else body
  }

  /** The outgoing body of one attempt. */
  function Forwarded(body: Json, route: Json, provider: Json): Json {
    ApplyExtra(body, EffectiveExtra(route, provider))
  }

  // ---------- the loops ----------

  /** The loop of `merge_deep`. */
  method MergeInto(d: Fields, s: Fields) returns (out: Fields)
    ensures out == MergeFields(d, s)
    decreases s
  {
    out := d;
    for i := 0 to |s|
      invariant MergeFields(out, s[i..]) == MergeFields(d, s)
    {
      assert s[i..][1..] == s[i + 1..];
      var i0 := IndexOf(out, s[i].key);
      if i0 < |out| && out[i0].value.Obj? && s[i].value.Obj? {
        var inner := MergeInto(out[i0].value.fields, s[i].value.fields);
        out := out[i0 := Entry(s[i].key, Obj(inner))];
      } else {
        out := Put(out, s[i].key, s[i].value);
      }
    }
  }

  /** The loop of `apply_extra`, which skips managed keys as it goes. */
  method ApplyInto(body: Json, extra: Option<Json>) returns (r: Json)
    ensures r == ApplyExtra(body, extra)
  {
    if extra.None? || !body.Obj? || !extra.value.Obj? {
      return body;
    }
    var s, out := extra.value.fields, body.fields;
    for i := 0 to |s|
      invariant MergeFields(out, Unmanaged(s[i..])) == MergeFields(body.fields, Unmanaged(s))
    {
      assert s[i..][1..] == s[i + 1..];
      if !IsManaged(s[i].key) {
        assert Unmanaged(s[i..])[1..] == Unmanaged(s[i + 1..]);
        var i0 := IndexOf(out, s[i].key);
        if i0 < |out| && out[i0].value.Obj? && s[i].value.Obj? {
          var inner := MergeInto(out[i0].value.fields, s[i].value.fields);
          out := out[i0 := Entry(s[i].key, Obj(inner))];
        } else {
          out := Put(out, s[i].key, s[i].value);
        }
      }
    }
    r := Obj(out);
  }

  // ---------- one level ----------

  lemma IndexOfIs(fields: Fields, key: string, i: nat)
    requires i <= |fields|
    requires i < |fields| ==> fields[i].key == key
    requires forall j :: 0 <= j < i ==> fields[j].key != key
    ensures IndexOf(fields, key) == i
  {
  }

  lemma PutLookup(fields: Fields, key: string, v: Json, k: string)
    ensures Lookup(Put(fields, key, v), k) == if k == key then Some(v) else Lookup(fields, k)
  {
    var i, j, out := IndexOf(fields, key), IndexOf(fields, k), Put(fields, key, v);
    if k == key {
      IndexOfIs(out, k, i);
    } else if j < |fields| {
      IndexOfIs(out, k, j);
    } else {
      IndexOfIs(out, k, |out|);
    }
  }

  /** The merged value under one key. */
  lemma {:induction false} MergedLookup(d: Fields, s: Fields, k: string)
    requires DistinctKeys(s)
    ensures Lookup(MergeFields(d, s), k) ==
      match Lookup(s, k)
      case None => Lookup(d, k)
      case Some(v) => Some(MergeValue(Lookup(d, k), v))
    decreases s
  {
    if s != [] {
      var v := MergeValue(Lookup(d, s[0].key), s[0].value);
      PutLookup(d, s[0].key, v, k);
      LookupCons(s, k);
      MergedLookup(Put(d, s[0].key, v), s[1..], k);
    }
  }

  // ---------- every path ----------

  /** Some prefix of the path is a non-object in the configuration. */
  predicate Overrides(s: Json, path: Path)
    decreases path
  {
    path != [] &&
    var x := Get(s, path[0]);
    x.Some? && (!x.value.Obj? || Overrides(x.value, path[1..]))
  }

  /** The merged value at every path: what the configuration has there, merged with what was there;
      nothing where the configuration replaced an ancestor; and the old value everywhere else. */
  ghost predicate OverlaidAt(d: Json, s: Json, r: Json, path: Path) {
    At(r, path) ==
      if At(s, path).Some? then Some(MergeValue(At(d, path), At(s, path).value))
      else if Overrides(s, path) then None
      else At(d, path)
  }

  lemma {:induction false} MergedAt(d: Json, s: Json, path: Path)
    requires d.Obj? && s.Obj? && WellFormed(s)
    ensures OverlaidAt(d, s, MergeDeep(d, s), path)
    decreases path
  {
    if path != [] {
      MergedLookup(d.fields, s.fields, path[0]);
      var x, y := Get(d, path[0]), Get(s, path[0]);
      if y.Some? && y.value.Obj? {
        ValueWellFormed(s.fields, path[0]);
        if x.Some? && x.value.Obj? {
          MergedAt(x.value, y.value, path[1..]);
        }
      }
    }
  }

  lemma ValueWellFormed(fields: Fields, key: string)
    requires WellFormed(Obj(fields)) && Lookup(fields, key).Some?
    ensures WellFormed(Lookup(fields, key).value)
  {
    var i := IndexOf(fields, key);
    assert WellFormed(fields[i].value);
  }

  // ---------- well-formedness ----------

  lemma PutWellFormed(fields: Fields, key: string, v: Json)
    requires WellFormed(Obj(fields)) && WellFormed(v)
    ensures WellFormed(Obj(Put(fields, key, v)))
  {
    var i, out := IndexOf(fields, key), Put(fields, key, v);
    assert DistinctKeys(out);
    assert forall j :: 0 <= j < |out| ==> out[j].value == v || (j < |fields| && out[j] == fields[j]);
  }

  lemma {:induction false} MergeWellFormed(d: Fields, s: Fields)
    requires WellFormed(Obj(d)) && WellFormed(Obj(s))
    ensures WellFormed(Obj(MergeFields(d, s)))
    decreases s
  {
    if s != [] {
      var key, v := s[0].key, s[0].value;
      assert WellFormed(v);
      var was := Lookup(d, key);
      if was.Some? && was.value.Obj? && v.Obj? {
        ValueWellFormed(d, key);
        MergeWellFormed(was.value.fields, v.fields);
      }
      PutWellFormed(d, key, MergeValue(was, v));
      assert WellFormed(Obj(s[1..]));
      MergeWellFormed(Put(d, key, MergeValue(was, v)), s[1..]);
    }
  }

  lemma {:induction false} UnmanagedLookup(fields: Fields, k: string)
    ensures Lookup(Unmanaged(fields), k) == if IsManaged(k) then None else Lookup(fields, k)
  {
    if fields != [] {
      UnmanagedLookup(fields[1..], k);
      LookupCons(fields, k);
      if !IsManaged(fields[0].key) {
        LookupCons(Unmanaged(fields), k);
        assert Unmanaged(fields)[1..] == Unmanaged(fields[1..]);
      }
    }
  }

  lemma {:induction false} UnmanagedIsPart(fields: Fields)
    ensures forall i :: 0 <= i < |Unmanaged(fields)| ==> Unmanaged(fields)[i] in fields
  {
    if fields != [] {
      UnmanagedIsPart(fields[1..]);
    }
  }

  lemma {:induction false} UnmanagedDistinct(fields: Fields)
    requires DistinctKeys(fields)
    ensures DistinctKeys(Unmanaged(fields))
  {
    if fields != [] {
      UnmanagedDistinct(fields[1..]);
      UnmanagedIsPart(fields[1..]);
    }
  }

  lemma UnmanagedWellFormed(fields: Fields)
    requires WellFormed(Obj(fields))
    ensures WellFormed(Obj(Unmanaged(fields)))
  {
    UnmanagedIsPart(fields);
    UnmanagedDistinct(fields);
  }

  lemma {:induction false} UnmanagedTwice(fields: Fields)
    ensures Unmanaged(Unmanaged(fields)) == Unmanaged(fields)
  {
    if fields != [] {
      UnmanagedTwice(fields[1..]);
      assert !IsManaged(fields[0].key) ==> Unmanaged(fields)[1..] == Unmanaged(fields[1..]);
    }
  }

  // ---------- the outgoing body ----------

  /** Gateway-managed fields are the client's own, whatever is configured. */
  lemma ManagedFieldsAreKept(body: Json, extra: Option<Json>, path: Path)
    requires extra.Some? ==> WellFormed(extra.value)
    requires path != [] && IsManaged(path[0])
    ensures At(ApplyExtra(body, extra), path) == At(body, path)
  {
    if extra.Some? && body.Obj? && extra.value.Obj? {
      UnmanagedDistinct(extra.value.fields);
      UnmanagedLookup(extra.value.fields, path[0]);
      MergedLookup(body.fields, Unmanaged(extra.value.fields), path[0]);
    }
  }

  /** No configuration changes which model is asked for, or whether and how the answer is streamed. */
  lemma ModelAndStreamAreTheClients(body: Json, route: Json, provider: Json, key: string)
    requires WellFormed(route) && WellFormed(provider)
    requires key == "model" || key == "stream" || key == "stream_options"
    ensures Get(Forwarded(body, route, provider), key) == Get(body, key)
  {
    var extra := EffectiveExtra(route, provider);
    if extra.Some? && body.Obj? {
      var fields := extra.value.fields;
      EffectiveIsWellFormed(route, provider);
      UnmanagedDistinct(fields);
      UnmanagedLookup(fields, key);
      MergedLookup(body.fields, Unmanaged(fields), key);
    }
  }

  lemma EffectiveIsWellFormed(route: Json, provider: Json)
    requires WellFormed(route) && WellFormed(provider) && EffectiveExtra(route, provider).Some?
    ensures WellFormed(EffectiveExtra(route, provider).value)
  {
    var merged := MergeDeep(provider, route);
    if route.Obj? {
      MergeWellFormed(provider.fields, route.fields);
    }
    UnmanagedWellFormed(merged.fields);
  }

  /** Elsewhere the outgoing body is the client's with the provider's and then the route's fields
      laid over it. */
  lemma ForwardedAt(body: Json, route: Json, provider: Json, path: Path)
    requires WellFormed(route) && WellFormed(provider) && body.Obj? && provider.Obj?
    requires path != [] && !IsManaged(path[0])
    ensures OverlaidAt(body, MergeDeep(provider, route), Forwarded(body, route, provider), path)
  {
    var merged := MergeDeep(provider, route);
    if route.Obj? {
      MergeWellFormed(provider.fields, route.fields);
    }
    var extra := Obj(Unmanaged(merged.fields));
    UnmanagedWellFormed(merged.fields);
    UnmanagedTwice(merged.fields);
    assert Forwarded(body, route, provider) == MergeDeep(body, extra);
    MergedAt(body, extra, path);
    UnmanagedLookup(merged.fields, path[0]);
  }

  /** A route's leaf reaches the upstream exactly when the provider's configuration is an object
      (or the client sent that very value). */
  lemma RouteLeafReachesIff(body: Json, route: Json, provider: Json, path: Path)
    requires WellFormed(route) && WellFormed(provider) && body.Obj?
    requires path != [] && !IsManaged(path[0])
    requires At(route, path).Some? && !At(route, path).value.Obj?
    ensures At(Forwarded(body, route, provider), path) == At(route, path)
      <==> provider.Obj? || At(body, path) == At(route, path)
  {
    if provider.Obj? {
      MergedAt(provider, route, path);
      ForwardedAt(body, route, provider, path);
    }
  }

  /** A provider's leaf reaches the upstream where the route says nothing about it. */
  lemma ProviderLeafReaches(body: Json, route: Json, provider: Json, path: Path)
    requires WellFormed(route) && WellFormed(provider) && body.Obj?
    requires path != [] && !IsManaged(path[0])
    requires At(provider, path).Some? && !At(provider, path).value.Obj?
    requires At(route, path).None? && !Overrides(route, path)
    ensures At(Forwarded(body, route, provider), path) == At(provider, path)
  {
    if route.Obj? {
      MergedAt(provider, route, path);
    }
    ForwardedAt(body, route, provider, path);
  }

  /** What neither configuration speaks about is what the client sent. */
  lemma ClientValueSurvives(body: Json, route: Json, provider: Json, path: Path)
    requires WellFormed(route) && WellFormed(provider)
    requires path != []
    requires At(route, path).None? && !Overrides(route, path)
    requires At(provider, path).None? && !Overrides(provider, path)
    ensures At(Forwarded(body, route, provider), path) == At(body, path)
  {
    if body.Obj? && provider.Obj? && !IsManaged(path[0]) {
      if route.Obj? {
        MergedAt(provider, route, path);
        MergedOverrides(provider, route, path);
      }
      ForwardedAt(body, route, provider, path);
    } else if body.Obj? && provider.Obj? {
      var extra := EffectiveExtra(route, provider);
      if route.Obj? {
        MergeWellFormed(provider.fields, route.fields);
      }
      UnmanagedWellFormed(MergeDeep(provider, route).fields);
      ManagedFieldsAreKept(body, extra, path);
    }
  }

  lemma {:induction false} MergedOverrides(d: Json, s: Json, path: Path)
    requires d.Obj? && s.Obj? && WellFormed(s)
    requires !Overrides(d, path) && !Overrides(s, path)
    ensures !Overrides(MergeDeep(d, s), path)
    decreases path
  {
    if path != [] {
      MergedLookup(d.fields, s.fields, path[0]);
      var x, y := Get(d, path[0]), Get(s, path[0]);
      if y.Some? && x.Some? && x.value.Obj? && y.value.Obj? {
        ValueWellFormed(s.fields, path[0]);
        MergedOverrides(x.value, y.value, path[1..]);
      }
    }
  }

  // ---------- applying twice ----------

  /** Every field of `s` is already in `m`. */
  ghost predicate Absorbs(m: Fields, s: Fields) {
    forall i :: 0 <= i < |s| ==> AbsorbsField(m, s[i])
  }

  ghost predicate AbsorbsField(m: Fields, f: Entry<Json>) {
    Put(m, f.key, MergeValue(Lookup(m, f.key), f.value)) == m
  }

  lemma {:induction false} AbsorbedMergeIsNoOp(m: Fields, s: Fields)
    requires Absorbs(m, s)
    ensures MergeFields(m, s) == m
  {
    if s != [] {
      assert AbsorbsField(m, s[0]);
      assert Absorbs(m, s[1..]) by {
        forall i | 0 <= i < |s[1..]| ensures AbsorbsField(m, s[1..][i]) {
          assert s[1..][i] == s[i + 1];
        }
      }
      AbsorbedMergeIsNoOp(m, s[1..]);
    }
  }

  lemma AbsorbsWhatIsThere(m: Fields, f: Entry<Json>)
    requires Lookup(m, f.key).Some?
    requires MergeValue(Lookup(m, f.key), f.value) == Lookup(m, f.key).value
    ensures AbsorbsField(m, f)
  {
    var i := IndexOf(m, f.key);
    assert m[i] == Entry(f.key, Lookup(m, f.key).value);
  }

  lemma {:induction false} MergeWithSelf(s: Fields)
    requires WellFormed(Obj(s))
    ensures MergeFields(s, s) == s
    decreases s
  {
    forall i | 0 <= i < |s| ensures AbsorbsField(s, s[i]) {
      IndexOfAt(s, i);
      assert WellFormed(s[i].value);
      if s[i].value.Obj? {
        MergeWithSelf(s[i].value.fields);
      }
      AbsorbsWhatIsThere(s, s[i]);
    }
    AbsorbedMergeIsNoOp(s, s);
  }

  lemma {:induction false} MergeTwice(d: Fields, s: Fields)
    requires WellFormed(Obj(s))
    ensures MergeFields(MergeFields(d, s), s) == MergeFields(d, s)
    decreases s
  {
    var m := MergeFields(d, s);
    forall i | 0 <= i < |s| ensures AbsorbsField(m, s[i]) {
      IndexOfAt(s, i);
      assert WellFormed(s[i].value);
      MergedLookup(d, s, s[i].key);
      if s[i].value.Obj? {
        var was := Lookup(d, s[i].key);
        MergeWithSelf(s[i].value.fields);
        if was.Some? && was.value.Obj? {
          MergeTwice(was.value.fields, s[i].value.fields);
        }
      }
      AbsorbsWhatIsThere(m, s[i]);
    }
    AbsorbedMergeIsNoOp(m, s);
  }

  /** Applying a configuration again changes nothing. */
  lemma ApplyIsIdempotent(body: Json, extra: Option<Json>)
    requires extra.Some? ==> WellFormed(extra.value)
    ensures ApplyExtra(ApplyExtra(body, extra), extra) == ApplyExtra(body, extra)
  {
    if extra.Some? && body.Obj? && extra.value.Obj? {
      UnmanagedWellFormed(extra.value.fields);
      MergeTwice(body.fields, Unmanaged(extra.value.fields));
    }
  }
}

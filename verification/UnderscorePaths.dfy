/** Which fields the underscore filter removes, by the positions of a path (src/service/proxy.rs). */
module UnderscorePaths {
  import opened Text
  import opened Json
  import opened UnderscoreFilter

  ghost predicate IsMapKey(step: PathStep) {
    || step == Key("properties") || step == Key("patternProperties")
    || step == Key("definitions") || step == Key("$defs")
  }

  ghost predicate IsPrivateKey(step: PathStep) {
    step.Key? && "_" <= step.name
  }

  ghost predicate OnlyIndices(path: seq<PathStep>, lo: int, hi: int) {
    0 <= lo && hi <= |path| && forall k :: lo <= k < hi ==> path[k].Index?
  }

  /** Position `i` is a name in a schema name map: nothing but array positions stand between it and the
      map's key, or the start when that is in a map. */
  ghost predicate IsName(path: seq<PathStep>, i: int, inMap: bool) {
    || (inMap && OnlyIndices(path, 0, i))
    || exists j :: 0 <= j < i < |path| && IsMapKey(path[j]) && OnlyIndices(path, j + 1, i)
  }

  /** Every private key on the path is a name, or stands deeper than 32 levels. */
  ghost predicate Spared(path: seq<PathStep>, depth: int, inMap: bool) {
    forall i :: 0 <= i < |path| && IsPrivateKey(path[i]) && depth + i <= 32 ==> IsName(path, i, inMap)
  }

  lemma NameLater(path: seq<PathStep>, i: nat, inMap: bool)
    requires 0 < i < |path|
    ensures IsName(path, i, inMap) <==> IsName(path[1..], i - 1, FlagBehind(path[0], inMap))
  {
    var tail, flag := path[1..], FlagBehind(path[0], inMap);
    assert forall k :: 0 <= k < |tail| ==> tail[k] == path[k + 1];
    if IsName(tail, i - 1, flag) {
      NameFromTail(path, i, inMap);
    }
    if inMap && OnlyIndices(path, 0, i) {
      assert path[0].Index?;
    } else if j :| 0 <= j < i && IsMapKey(path[j]) && OnlyIndices(path, j + 1, i) {
      NameToTail(path, i, j, inMap);
    }
  }

  lemma NameFromTail(path: seq<PathStep>, i: nat, inMap: bool)
    requires 0 < i < |path| && IsName(path[1..], i - 1, FlagBehind(path[0], inMap))
    ensures IsName(path, i, inMap)
  {
    var tail, flag := path[1..], FlagBehind(path[0], inMap);
    assert forall k :: 1 <= k < |path| ==> path[k] == tail[k - 1];
    if flag && OnlyIndices(tail, 0, i - 1) {
      assert OnlyIndices(path, 1, i);
      if path[0].Key? {
        assert IsMapKey(path[0]) && OnlyIndices(path, 0 + 1, i);
      } else {
        assert OnlyIndices(path, 0, i);
      }
    } else {
      var j :| 0 <= j < i - 1 && IsMapKey(tail[j]) && OnlyIndices(tail, j + 1, i - 1);
      assert IsMapKey(path[j + 1]) && OnlyIndices(path, j + 1 + 1, i);
    }
  }

  lemma NameToTail(path: seq<PathStep>, i: nat, j: nat, inMap: bool)
    requires j < i < |path| && IsMapKey(path[j]) && OnlyIndices(path, j + 1, i)
    ensures IsName(path[1..], i - 1, FlagBehind(path[0], inMap))
  {
    var tail := path[1..];
    assert forall k :: 0 <= k < |tail| ==> tail[k] == path[k + 1];
    if j == 0 {
      assert OnlyIndices(tail, 0, i - 1);
    } else {
      assert IsMapKey(tail[j - 1]) && OnlyIndices(tail, j - 1 + 1, i - 1);
    }
  }

  lemma PrivateIff(key: string)
    ensures IsPrivate(key) <==> "_" <= key
  {
  }

  lemma {:induction false} SurvivesIff(path: seq<PathStep>, depth: nat, inMap: bool)
    ensures Survives(path, depth, inMap) <==> Spared(path, depth, inMap)
    decreases path
  {
    if path != [] && depth <= 32 {
      var tail, flag := path[1..], FlagBehind(path[0], inMap);
      if path[0].Key? {
        PrivateIff(path[0].name);
      }
      SurvivesIff(tail, depth + 1, flag);
      SparedCons(path, depth, inMap);
    }
  }

  lemma SparedCons(path: seq<PathStep>, depth: nat, inMap: bool)
    requires path != [] && depth <= 32
    ensures Spared(path, depth, inMap) <==>
      (IsPrivateKey(path[0]) ==> inMap) && Spared(path[1..], depth + 1, FlagBehind(path[0], inMap))
  {
    var tail, flag := path[1..], FlagBehind(path[0], inMap);
    assert IsName(path, 0, inMap) <==> inMap;
    forall i | 0 < i < |path| ensures tail[i - 1] == path[i] && (IsName(path, i, inMap) <==> IsName(tail, i - 1, flag)) {
      NameLater(path, i, inMap);
    }
    if Spared(path, depth, inMap) {
      forall i | 0 <= i < |tail| && IsPrivateKey(tail[i]) && depth + 1 + i <= 32 ensures IsName(tail, i, flag) {
        assert path[i + 1] == tail[i];
        assert IsName(path, i + 1, inMap);
      }
    }
  }

  /** Of the whole body: a value stays exactly when no key on its path starts with an underscore, except
      for names in schema name maps and for keys more than 32 levels down. */
  lemma RemovedByPosition(v: Json, path: seq<PathStep>)
    ensures ValueAt(StripUnderscoreFields(v), path).Some? <==> ValueAt(v, path).Some? && Spared(path, 0, false)
  {
    StripRemovesExactly(v, path, 0, false);
    SurvivesIff(path, 0, false);
  }
}

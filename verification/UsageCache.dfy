/** The cache of tokens used per (user, plan) in the current period (src/service/usage.rs).

Billing increments the cache after its database transaction; a periodic reload merges snapshots
that were read outside the lock, so increments and merges interleave in any order. */
module UsageCache {
  import Int64

  /** (user id, plan id) */
  type Key = (int, int)

  datatype Slot = Slot(period: string, tokens: int)

  type Cache = map<Key, Slot>

  datatype Snapshot = Snapshot(key: Key, period: string, used: int)

  /** `get_plan`: another period key means a new period. */
  function Used(c: Cache, key: Key, period: string): int {
    if key in c && c[key].period == period then c[key].tokens else 0
  }

  /** `incr_plan`. */
  function Increment(c: Cache, key: Key, period: string, tokens: int): Cache {
    if key !in c then c[key := Slot(period, Int64.SaturatingAdd(0, tokens))]
    else if c[key].period == period then c[key := Slot(period, Int64.SaturatingAdd(c[key].tokens, tokens))]
    else c[key := Slot(period, Int64.Max(tokens, 0))]
  }

  /** One snapshot of `reload_from_db`: overwrite unless the same period already counts as much. */
  function MergeSnapshot(c: Cache, s: Snapshot): Cache {
    if s.key in c && c[s.key].period == s.period && c[s.key].tokens >= s.used then c
    else c[s.key := Slot(s.period, s.used)]
  }

  function MergeSnapshots(c: Cache, snapshots: seq<Snapshot>): Cache {
    if snapshots == [] then c
    else MergeSnapshot(MergeSnapshots(c, snapshots[..|snapshots| - 1]), snapshots[|snapshots| - 1])
  }

  class PlanUsage {
    var planUsage: Cache

    constructor ()
      ensures planUsage == map[]
    {
      planUsage := map[];
    }

    method GetPlan(userId: int, planId: int, periodKey: string) returns (tokens: int)
      ensures tokens == Used(planUsage, (userId, planId), periodKey)
    {
      if (userId, planId) in planUsage && planUsage[(userId, planId)].period == periodKey {
        tokens := planUsage[(userId, planId)].tokens;
      } else {
        tokens := 0;
      }
    }

    method IncrPlan(userId: int, planId: int, periodKey: string, tokens: int)
      modifies this
      ensures planUsage == Increment(old(planUsage), (userId, planId), periodKey, tokens)
    {
      var key := (userId, planId);
      if key !in planUsage {
        planUsage := planUsage[key := Slot(periodKey, 0)];
      }
      var e := planUsage[key];
      if e.period == periodKey {
        planUsage := planUsage[key := Slot(periodKey, Int64.SaturatingAdd(e.tokens, tokens))];
      } else {
        planUsage := planUsage[key := Slot(periodKey, Int64.Max(tokens, 0))];
      }
    }

    /** The merge loop of `reload_from_db`. */
    method ReloadFrom(snapshots: seq<Snapshot>)
      modifies this
      ensures planUsage == MergeSnapshots(old(planUsage), snapshots)
    {
      for i := 0 to |snapshots|
        invariant planUsage == MergeSnapshots(old(planUsage), snapshots[..i])
      {
        var s := snapshots[i];
        if s.key in planUsage && planUsage[s.key].period == s.period && planUsage[s.key].tokens >= s.used {
        } else {
          planUsage := planUsage[s.key := Slot(s.period, s.used)];
        }
        assert snapshots[..i + 1][..i] == snapshots[..i];
      }
      assert snapshots[..|snapshots|] == snapshots;
    }
  }

  // ---------- runs ----------

  datatype Op = Incr(key: Key, period: string, tokens: int) | Merge(snapshot: Snapshot)

  function Apply(c: Cache, op: Op): Cache {
    match op
    case Incr(key, period, tokens) => Increment(c, key, period, tokens)
    case Merge(s) => MergeSnapshot(c, s)
  }

  function Run(c: Cache, ops: seq<Op>): Cache {
    if ops == [] then c else Apply(Run(c, ops[..|ops| - 1]), ops[|ops| - 1])
  }

  function KeyOf(op: Op): Key {
    match op
    case Incr(key, _, _) => key
    case Merge(s) => s.key
  }

  /** The operations on `key` stay in one period and carry amounts that fit `i64`. */
  ghost predicate OnePeriod(ops: seq<Op>, key: Key, period: string) {
    forall i :: 0 <= i < |ops| && KeyOf(ops[i]) == key ==> InPeriod(ops[i], period)
  }

  predicate InPeriod(op: Op, period: string) {
    match op
    case Incr(_, p, tokens) => p == period && 0 <= tokens <= Int64.MAX
    case Merge(s) => s.period == period && 0 <= s.used <= Int64.MAX
  }

  function SumIncr(ops: seq<Op>, key: Key): int {
    if ops == [] then 0
    else
      var last := ops[|ops| - 1];
      SumIncr(ops[..|ops| - 1], key) + (if last.Incr? && last.key == key then last.tokens else 0)
  }

  /** The largest snapshot merged for the key, or zero. */
  function MaxSnapshot(ops: seq<Op>, key: Key): int {
    if ops == [] then 0
    else
      var last := ops[|ops| - 1];
      Int64.Max(MaxSnapshot(ops[..|ops| - 1], key),
                if last.Merge? && last.snapshot.key == key then last.snapshot.used else 0)
  }

  /** Operations on other keys leave a slot alone. */
  lemma {:induction false} OtherKeysUntouched(c: Cache, ops: seq<Op>, key: Key)
    requires forall i :: 0 <= i < |ops| ==> KeyOf(ops[i]) != key
    ensures (key in Run(c, ops) <==> key in c) && (key in c ==> Run(c, ops)[key] == c[key])
  {
    if ops != [] {
      OtherKeysUntouched(c, ops[..|ops| - 1], key);
    }
  }

  ghost predicate Between(used: int, start: int, sum: int, top: int) {
    && 0 <= sum && 0 <= top
    && Int64.Min(start + sum, Int64.MAX) <= used
    && top <= used
    && used <= Int64.Min(Int64.Max(start, top) + sum, Int64.MAX)
  }

  lemma IncrementBetween(c: Cache, key: Key, period: string, tokens: int, start: int, sum: int, top: int)
    requires 0 <= tokens <= Int64.MAX && 0 <= start
    requires Between(Used(c, key, period), start, sum, top)
    ensures Between(Used(Increment(c, key, period, tokens), key, period), start, sum + tokens, top)
  {
    assert Used(Increment(c, key, period, tokens), key, period) == Int64.SaturatingAdd(Used(c, key, period), tokens);
  }

  lemma MergeBetween(c: Cache, s: Snapshot, start: int, sum: int, top: int)
    requires 0 <= s.used <= Int64.MAX && 0 <= start
    requires Between(Used(c, s.key, s.period), start, sum, top)
    ensures Between(Used(MergeSnapshot(c, s), s.key, s.period), start, sum, Int64.Max(top, s.used))
  {
    assert Used(MergeSnapshot(c, s), s.key, s.period) == Int64.Max(Used(c, s.key, s.period), s.used);
  }

  /** Over every interleaving of operations in one period, whatever period the slot counted before:
      the cached value is never below what it started from (zero in another period)
      plus the increments, nor below any merged snapshot, and never above the largest of the start
      and the snapshots plus the increments (all clamped to `i64`). */
  lemma {:induction false} CacheBounds(c: Cache, ops: seq<Op>, key: Key, period: string)
    requires OnePeriod(ops, key, period)
    requires 0 <= Used(c, key, period) <= Int64.MAX
    ensures Between(Used(Run(c, ops), key, period), Used(c, key, period), SumIncr(ops, key), MaxSnapshot(ops, key))
  {
    if ops != [] {
      var n := |ops| - 1;
      var init, op := ops[..n], ops[n];
      CacheBounds(c, init, key, period);
      assert KeyOf(op) == key ==> InPeriod(op, period);
      OneStepBetween(Run(c, init), op, key, period, Used(c, key, period), SumIncr(init, key), MaxSnapshot(init, key));
    }
  }

  lemma OneStepBetween(c: Cache, op: Op, key: Key, period: string, start: int, sum: int, top: int)
    requires KeyOf(op) == key ==> InPeriod(op, period)
    requires 0 <= start && Between(Used(c, key, period), start, sum, top)
    ensures Between(Used(Apply(c, op), key, period), start,
                    sum + (if op.Incr? && op.key == key then op.tokens else 0),
                    Int64.Max(top, if op.Merge? && op.snapshot.key == key then op.snapshot.used else 0))
  {
    if KeyOf(op) == key {
      match op
      case Incr(_, _, tokens) => IncrementBetween(c, key, period, tokens, start, sum, top);
      case Merge(s) => MergeBetween(c, s, start, sum, top);
    }
  }

  /** When the period turns over, nothing of the past period is carried into the new one, and the
      past period no longer counts, whatever it had reached. */
  lemma {:induction false} TurnoverStartsOver(c: Cache, ops: seq<Op>, key: Key, past: string, period: string)
    requires key in c && c[key].period == past != period
    requires OnePeriod(ops, key, period)
    ensures Between(Used(Run(c, ops), key, period), 0, SumIncr(ops, key), MaxSnapshot(ops, key))
    ensures (exists i :: 0 <= i < |ops| && KeyOf(ops[i]) == key) ==> Used(Run(c, ops), key, past) == 0
  {
    CacheBounds(c, ops, key, period);
    if i :| 0 <= i < |ops| && KeyOf(ops[i]) == key {
      SlotMovedOn(c, ops, key, period, i);
    }
  }

  lemma {:induction false} SlotMovedOn(c: Cache, ops: seq<Op>, key: Key, period: string, i: nat)
    requires OnePeriod(ops, key, period) && i < |ops| && KeyOf(ops[i]) == key
    ensures key in Run(c, ops) && Run(c, ops)[key].period == period
  {
    var n := |ops| - 1;
    var last := ops[n];
    assert KeyOf(last) == key ==> InPeriod(last, period);
    if i < n {
      SlotMovedOn(c, ops[..n], key, period, i);
    }
  }

  /** One increment of any `i64` amount, in terms of what the cache reports: the period that is being
      counted goes on, a period that turns over starts from the amount, or from zero when the amount
      is negative, and every other slot reports what it did. */
  lemma IncrementCounts(c: Cache, key: Key, period: string, tokens: int, other: Key, p: string)
    requires -Int64.MAX - 1 <= tokens <= Int64.MAX
    ensures
      var after := Increment(c, key, period, tokens);
      && (other != key ==> Used(after, other, p) == Used(c, other, p))
      && (p != period ==> Used(after, key, p) == 0)
      && (key in c && c[key].period != period ==> Used(after, key, period) == if tokens < 0 then 0 else tokens)
      && (key in c && c[key].period == period && -Int64.MAX - 1 <= Used(c, key, period) + tokens <= Int64.MAX ==>
            Used(after, key, period) == Used(c, key, period) + tokens)
      && (key !in c ==> Used(after, key, period) == tokens)
  {
  }

  /** Every merged snapshot is counted by the maximum. */
  lemma {:induction false} SnapshotBelowMax(ops: seq<Op>, key: Key, i: nat)
    requires i < |ops| && ops[i].Merge? && ops[i].snapshot.key == key
    ensures ops[i].snapshot.used <= MaxSnapshot(ops, key)
  {
    if i < |ops| - 1 {
      SnapshotBelowMax(ops[..|ops| - 1], key, i);
    }
  }

  /** What a merge means: the larger of the two counts of a period; other slots are untouched. */
  lemma MergeTakesLarger(c: Cache, s: Snapshot, key: Key, period: string)
    ensures Used(MergeSnapshot(c, s), key, period) ==
      if key != s.key then Used(c, key, period)
      else if period != s.period then
        (if s.key in c && c[s.key].period == s.period && c[s.key].tokens >= s.used then Used(c, key, period) else 0)
      else if s.key in c && c[s.key].period == s.period then Int64.Max(c[s.key].tokens, s.used)
      else s.used
  {
  }

  /** Every snapshot merged meanwhile was behind the given one plus the increments made before it. */
  ghost predicate MergesBehind(ops: seq<Op>, key: Key, snapshot: int) {
    ops == [] ||
    var n := |ops| - 1;
    && MergesBehind(ops[..n], key, snapshot)
    && (ops[n].Merge? && ops[n].snapshot.key == key ==> ops[n].snapshot.used < snapshot + SumIncr(ops[..n], key))
  }

  /** The cache stays below a snapshot plus the increments exactly when it started below the snapshot
      and so did every merge. */
  lemma {:induction false} StaysShortIff(c: Cache, ops: seq<Op>, key: Key, period: string, snapshot: int)
    requires OnePeriod(ops, key, period) && 0 <= Used(c, key, period) <= Int64.MAX
    requires Int64.Max(Used(c, key, period), MaxSnapshot(ops, key)) + SumIncr(ops, key) <= Int64.MAX
    ensures Used(Run(c, ops), key, period) < snapshot + SumIncr(ops, key)
       <==> Used(c, key, period) < snapshot && MergesBehind(ops, key, snapshot)
  {
    if ops != [] {
      var init, op := ops[..|ops| - 1], ops[|ops| - 1];
      SumsGrow(ops, key, period);
      StaysShortIff(c, init, key, period, snapshot);
      CacheBounds(c, init, key, period);
      OneStepShort(Run(c, init), op, key, period);
    }
  }

  /** How one operation moves the count of a key. */
  lemma OneStepShort(c: Cache, op: Op, key: Key, period: string)
    requires 0 <= Used(c, key, period)
    requires KeyOf(op) == key ==> InPeriod(op, period)
    requires op.Incr? && op.key == key ==> Used(c, key, period) + op.tokens <= Int64.MAX
    ensures Used(Apply(c, op), key, period) ==
      if KeyOf(op) != key then Used(c, key, period)
      else if op.Incr? then Used(c, key, period) + op.tokens
      else Int64.Max(Used(c, key, period), op.snapshot.used)
  {
  }

  lemma SumsGrow(ops: seq<Op>, key: Key, period: string)
    requires ops != [] && OnePeriod(ops, key, period)
    ensures
      var init, op := ops[..|ops| - 1], ops[|ops| - 1];
      && OnePeriod(init, key, period) && (KeyOf(op) == key ==> InPeriod(op, period))
      && SumIncr(init, key) <= SumIncr(ops, key) && MaxSnapshot(init, key) <= MaxSnapshot(ops, key)
  {
    var op := ops[|ops| - 1];
    assert KeyOf(op) == key ==> InPeriod(op, period);
  }

  /** Any operations that land between the read of a snapshot and its merge: the database then holds
      the snapshot plus the increments among them, and the cache falls short of that, until the next
      reload, exactly when something was added, the cache was behind the snapshot at the read, and
      every snapshot merged meanwhile was behind it too. */
  lemma StaleSnapshotLosesIncrementsIff(c: Cache, ops: seq<Op>, key: Key, period: string, snapshot: int)
    requires OnePeriod(ops, key, period) && 0 <= Used(c, key, period) <= Int64.MAX
    requires Int64.Max(Used(c, key, period), MaxSnapshot(ops, key)) + SumIncr(ops, key) <= Int64.MAX
    requires 0 <= snapshot <= Int64.MAX
    ensures Used(Run(c, ops + [Merge(Snapshot(key, period, snapshot))]), key, period) < snapshot + SumIncr(ops, key)
       <==> SumIncr(ops, key) > 0 && Used(c, key, period) < snapshot && MergesBehind(ops, key, snapshot)
  {
    var merge := Merge(Snapshot(key, period, snapshot));
    assert (ops + [merge])[..|ops|] == ops;
    StaysShortIff(c, ops, key, period, snapshot);
    CacheBounds(c, ops, key, period);
    OneStepShort(Run(c, ops), merge, key, period);
  }
}

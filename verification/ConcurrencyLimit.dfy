/** The concurrency limiter (src/service/ratelimit.rs).

A request takes one place in every bucket its rules name, all or nothing, and gives them back
when its response ends.  Rules can change between requests.  The theorems hold over every
interleaving of acquires and releases: the counts are exactly the places held by live guards. */
module ConcurrencyLimit {
  import opened Text
  import opened SortedEntries
  import StringOrder

  /** A bucket key with the limit of its rule. */
  type Rule = Entry<int>

  type Counts = map<string, int>

  function CountOf(c: Counts, key: string): int {
    if key in c then c[key] else 0
  }

  /** A rule with a positive limit whose bucket is full. */
  predicate Full(c: Counts, rule: Rule) {
    rule.value > 0 && CountOf(c, rule.key) >= rule.value
  }

  function FirstFull(c: Counts, rules: seq<Rule>): Option<Rule> {
    if rules == [] then None
    else if Full(c, rules[0]) then Some(rules[0])
    else FirstFull(c, rules[1..])
  }

  /** The keys of the rules that count. */
  function KeysOf(rules: seq<Rule>): seq<string> {
    if rules == [] then []
    else (if rules[0].value > 0 then [rules[0].key] else []) + KeysOf(rules[1..])
  }

  function Take(c: Counts, keys: seq<string>): Counts {
    if keys == [] then c
    else
      var before := Take(c, keys[..|keys| - 1]);
      before[keys[|keys| - 1] := CountOf(before, keys[|keys| - 1]) + 1]
  }

  function Decrement(c: Counts, keys: seq<string>): Counts {
    if keys == [] then c
    else
      var before := Decrement(c, keys[..|keys| - 1]);
      var k := keys[|keys| - 1];
      if k in before then before[k := before[k] - 1] else before
  }

  function Positive(c: Counts): Counts {
    map k | k in c && c[k] > 0 :: c[k]
  }

  function GiveBack(c: Counts, keys: seq<string>): Counts {
    if keys == [] then c else Positive(Decrement(c, keys))
  }

  datatype Acquired = Guard(keys: seq<string>) | Refused(rule: Rule)

  /** What an acquire decides. */
  function Decide(c: Counts, rules: seq<Rule>): Acquired {
    match FirstFull(c, rules)
    case Some(rule) => Refused(rule)
    case None => Guard(KeysOf(rules))
  }

  class ConcurrencyLimiter {
    var counts: Counts

    constructor ()
      ensures counts == map[]
    {
      counts := map[];
    }

    /** `try_acquire`. */
    method TryAcquire(rules: seq<Rule>) returns (r: Acquired)
      modifies this
      ensures r == Decide(old(counts), rules)
      ensures counts == if r.Guard? then Take(old(counts), r.keys) else old(counts)
    {
      for i := 0 to |rules|
        invariant counts == old(counts)
        invariant FirstFull(counts, rules[i..]) == FirstFull(counts, rules)
      {
        if rules[i].value > 0 && CountOf(counts, rules[i].key) >= rules[i].value {
          return Refused(rules[i]);
        }
        assert rules[i..][1..] == rules[i + 1..];
      }
      var keys := KeysOf(rules);
      for i := 0 to |keys|
        invariant counts == Take(old(counts), keys[..i])
      {
        counts := counts[keys[i] := CountOf(counts, keys[i]) + 1];
        assert keys[..i + 1][..i] == keys[..i];
      }
      assert keys[..|keys|] == keys;
      r := Guard(keys);
    }

    /** `ConcurrencyGuard::drop`. */
    method Release(keys: seq<string>)
      modifies this
      ensures counts == GiveBack(old(counts), keys)
    {
      if keys == [] {
        return;
      }
      for i := 0 to |keys|
        invariant counts == Decrement(old(counts), keys[..i])
      {
        if keys[i] in counts {
          counts := counts[keys[i] := counts[keys[i]] - 1];
        }
        assert keys[..i + 1][..i] == keys[..i];
      }
      assert keys[..|keys|] == keys;
      counts := Positive(counts);
    }
  }

  // ---------- counting ----------

  lemma {:induction false} TakeCounts(c: Counts, keys: seq<string>, k: string)
    ensures CountOf(Take(c, keys), k) == CountOf(c, k) + multiset(keys)[k]
    ensures k in Take(c, keys) <==> k in c || k in keys
  {
    if keys != [] {
      var init, last := keys[..|keys| - 1], keys[|keys| - 1];
      assert keys == init + [last];
      TakeCounts(c, init, k);
      TakeCounts(c, init, last);
    }
  }

  lemma {:induction false} DecrementCounts(c: Counts, keys: seq<string>, k: string)
    ensures k in Decrement(c, keys) <==> k in c
    ensures k in c ==> Decrement(c, keys)[k] == c[k] - multiset(keys)[k]
  {
    if keys != [] {
      var init, last := keys[..|keys| - 1], keys[|keys| - 1];
      assert keys == init + [last];
      DecrementCounts(c, init, k);
      DecrementCounts(c, init, last);
    }
  }

  // ---------- conservation over every run ----------

  datatype State = State(counts: Counts, live: seq<seq<string>>)

  datatype Op = Acquire(rules: seq<Rule>) | Drop(guard: nat)

  function Next(s: State, op: Op): State {
    match op
    case Acquire(rules) =>
      (match Decide(s.counts, rules)
       case Guard(keys) => State(Take(s.counts, keys), s.live + [keys])
       case Refused(_) => s)
    case Drop(i) =>
      if i < |s.live| then State(GiveBack(s.counts, s.live[i]), s.live[..i] + s.live[i + 1..]) else s
  }

  function Run(ops: seq<Op>): State {
    if ops == [] then State(map[], []) else Next(Run(ops[..|ops| - 1]), ops[|ops| - 1])
  }

  /** All places held by the live guards. */
  function Held(live: seq<seq<string>>): multiset<string> {
    if live == [] then multiset{} else multiset(live[0]) + Held(live[1..])
  }

  /** The counts are the places held: no more, no less, and no zero entry. */
  ghost predicate Conserved(s: State) {
    forall k :: (k in s.counts <==> k in Held(s.live)) && (k in s.counts ==> s.counts[k] == Held(s.live)[k])
  }

  lemma {:induction false} HeldAppend(a: seq<seq<string>>, b: seq<seq<string>>)
    ensures Held(a + b) == Held(a) + Held(b)
  {
    if a == [] {
      assert a + b == b;
    } else {
      assert (a + b)[1..] == a[1..] + b;
      HeldAppend(a[1..], b);
    }
  }

  lemma HeldOne(keys: seq<string>)
    ensures Held([keys]) == multiset(keys)
  {
    assert [keys][1..] == [];
  }

  lemma {:induction false} HeldRemove(live: seq<seq<string>>, i: nat)
    requires i < |live|
    ensures Held(live) == Held(live[..i] + live[i + 1..]) + multiset(live[i])
  {
    var rest := live[..i] + live[i + 1..];
    if i == 0 {
      assert rest == live[1..];
    } else {
      HeldRemove(live[1..], i - 1);
      assert rest[1..] == live[1..][..i - 1] + live[1..][i..];
    }
  }

  lemma AcquireConserves(s: State, keys: seq<string>)
    requires Conserved(s)
    ensures Conserved(State(Take(s.counts, keys), s.live + [keys]))
  {
    HeldAppend(s.live, [keys]);
    HeldOne(keys);
    forall k ensures (k in Take(s.counts, keys) <==> k in Held(s.live + [keys]))
                  && (k in Take(s.counts, keys) ==> Take(s.counts, keys)[k] == Held(s.live + [keys])[k])
    {
      TakeCounts(s.counts, keys, k);
    }
  }

  lemma DropConserves(s: State, i: nat)
    requires Conserved(s) && i < |s.live|
    ensures Conserved(Next(s, Drop(i)))
  {
    var keys, rest := s.live[i], s.live[..i] + s.live[i + 1..];
    HeldRemove(s.live, i);
    if keys != [] {
      forall k ensures (k in GiveBack(s.counts, keys) <==> k in Held(rest))
                    && (k in GiveBack(s.counts, keys) ==> GiveBack(s.counts, keys)[k] == Held(rest)[k])
      {
        DecrementCounts(s.counts, keys, k);
      }
    }
  }

  /** Over every run the counts are exactly the places held by live guards, whatever the rules. */
  lemma {:induction false} RunConserves(ops: seq<Op>)
    ensures Conserved(Run(ops))
  {
    if ops != [] {
      RunConserves(ops[..|ops| - 1]);
      var s, op := Run(ops[..|ops| - 1]), ops[|ops| - 1];
      match op
      case Acquire(rules) =>
        if Decide(s.counts, rules).Guard? {
          AcquireConserves(s, KeysOf(rules));
        }
      case Drop(i) =>
        if i < |s.live| {
          DropConserves(s, i);
        }
    }
  }

  /** When the last guard is gone, the table is empty. */
  lemma EmptyWhenIdle(ops: seq<Op>)
    requires Run(ops).live == []
    ensures Run(ops).counts == map[]
  {
    RunConserves(ops);
    assert forall k :: k !in Run(ops).counts;
  }

  // ---------- limits ----------

  lemma {:induction false} FirstFullIs(c: Counts, rules: seq<Rule>)
    ensures FirstFull(c, rules).Some? <==> exists i :: 0 <= i < |rules| && Full(c, rules[i])
    ensures FirstFull(c, rules).Some? ==> FirstFull(c, rules).value in rules && Full(c, FirstFull(c, rules).value)
  {
    if rules != [] {
      FirstFullIs(c, rules[1..]);
      if exists i :: 0 <= i < |rules| && Full(c, rules[i]) {
        var i :| 0 <= i < |rules| && Full(c, rules[i]);
        assert i > 0 ==> rules[1..][i - 1] == rules[i];
      }
    }
  }

  lemma {:induction false} KeysFrom(rules: seq<Rule>, k: string)
    ensures k in KeysOf(rules) <==> exists r :: r in rules && r.key == k && r.value > 0
  {
    if rules != [] {
      KeysFrom(rules[1..], k);
      assert rules == [rules[0]] + rules[1..];
    }
  }

  lemma {:induction false} KeysAtMostOnce(rules: seq<Rule>, k: string)
    requires DistinctKeys(rules)
    ensures multiset(KeysOf(rules))[k] <= 1
  {
    if rules != [] {
      KeysAtMostOnce(rules[1..], k);
      KeysFrom(rules[1..], k);
      assert rules[0].key == k ==> k !in KeysOf(rules[1..]);
      assert k !in KeysOf(rules[1..]) ==> multiset(KeysOf(rules[1..]))[k] == 0;
    }
  }

  /** With distinct bucket keys: an acquire is admitted exactly when no bucket is full, an admission
      takes exactly one place in each bucket with a positive limit and never exceeds a limit, and a
      refusal names a full bucket. */
  lemma AcquireRespectsLimits(c: Counts, rules: seq<Rule>)
    requires DistinctKeys(rules)
    ensures Decide(c, rules).Guard? <==> forall i :: 0 <= i < |rules| ==> !Full(c, rules[i])
    ensures Decide(c, rules).Refused? ==> Decide(c, rules).rule in rules && Full(c, Decide(c, rules).rule)
    ensures Decide(c, rules).Guard? ==> forall i :: 0 <= i < |rules| && rules[i].value > 0 ==>
              CountOf(Take(c, KeysOf(rules)), rules[i].key) == CountOf(c, rules[i].key) + 1 <= rules[i].value
  {
    FirstFullIs(c, rules);
    if Decide(c, rules).Guard? {
      forall i | 0 <= i < |rules| && rules[i].value > 0
        ensures CountOf(Take(c, KeysOf(rules)), rules[i].key) == CountOf(c, rules[i].key) + 1 <= rules[i].value
      {
        TakeCounts(c, KeysOf(rules), rules[i].key);
        KeysAtMostOnce(rules, rules[i].key);
        KeysFrom(rules, rules[i].key);
      }
    }
  }

  /** Why the rules are deduplicated first: at one place below its limit, a doubled rule is admitted
      and ends one place above it. */
  lemma DoubledRuleBreaksLimit(c: Counts, key: string, limit: int)
    requires limit >= 1 && CountOf(c, key) == limit - 1
    ensures
      var rules := [Entry(key, limit), Entry(key, limit)];
      Decide(c, rules).Guard? && CountOf(Take(c, KeysOf(rules)), key) == limit + 1
  {
    var rules: seq<Rule> := [Entry(key, limit), Entry(key, limit)];
    FirstFullIs(c, rules);
    assert rules[1..] == [Entry(key, limit)] && rules[1..][1..] == [];
    assert KeysOf(rules[1..][1..]) == [];
    assert KeysOf(rules[1..]) == [key];
    assert KeysOf(rules) == [key, key];
    TakeCounts(c, [key, key], key);
  }

  /** With guards that hold each key at most once, a count is a number of live guards. */
  function Holders(live: seq<seq<string>>, k: string): nat {
    if live == [] then 0 else (if k in live[0] then 1 else 0) + Holders(live[1..], k)
  }

  lemma {:induction false} HeldIsHolders(live: seq<seq<string>>, k: string)
    requires forall i :: 0 <= i < |live| ==> multiset(live[i])[k] <= 1
    ensures Held(live)[k] == Holders(live, k)
  {
    if live != [] {
      HeldIsHolders(live[1..], k);
      assert k in live[0] <==> k in multiset(live[0]);
    }
  }

  /** The operations acquire with deduplicated rules. */
  ghost predicate Deduplicated(ops: seq<Op>) {
    forall i :: 0 <= i < |ops| && ops[i].Acquire? ==> DistinctKeys(ops[i].rules)
  }

  lemma {:induction false} GuardsHoldOnce(ops: seq<Op>, k: string)
    requires Deduplicated(ops)
    ensures forall i :: 0 <= i < |Run(ops).live| ==> multiset(Run(ops).live[i])[k] <= 1
  {
    if ops != [] {
      GuardsHoldOnce(ops[..|ops| - 1], k);
      var op := ops[|ops| - 1];
      if op.Acquire? {
        KeysAtMostOnce(op.rules, k);
      }
      NextHoldsOnce(Run(ops[..|ops| - 1]), op, k);
    }
  }

  lemma NextHoldsOnce(s: State, op: Op, k: string)
    requires forall i :: 0 <= i < |s.live| ==> multiset(s.live[i])[k] <= 1
    requires op.Acquire? ==> multiset(KeysOf(op.rules))[k] <= 1
    ensures forall i :: 0 <= i < |Next(s, op).live| ==> multiset(Next(s, op).live[i])[k] <= 1
  {
  }

  /** So over every run each bucket count is the number of live guards holding that bucket. */
  lemma CountsAreLiveGuards(ops: seq<Op>, k: string)
    requires Deduplicated(ops)
    ensures CountOf(Run(ops).counts, k) == Holders(Run(ops).live, k)
  {
    RunConserves(ops);
    GuardsHoldOnce(ops, k);
    HeldIsHolders(Run(ops).live, k);
  }

  // ---------- deduplication ----------

  /** `entry(key).and_modify(min).or_insert(limit)` on a table kept in key order. */
  function Upsert(m: seq<Rule>, rule: Rule): seq<Rule> {
    if m == [] || StringOrder.Less(rule.key, m[0].key) then [rule] + m
    else if m[0].key == rule.key then [Entry(rule.key, if rule.value < m[0].value then rule.value else m[0].value)] + m[1..]
    else [m[0]] + Upsert(m[1..], rule)
  }

  function Stricter(a: Option<int>, b: Option<int>): Option<int> {
    if a.None? then b else if b.None? then a else if b.value < a.value then b else a
  }

  /** The smallest limit that any rule gives a key. */
  function LimitOf(rules: seq<Rule>, key: string): Option<int> {
    if rules == [] then None
    else Stricter(if rules[0].key == key then Some(rules[0].value) else None, LimitOf(rules[1..], key))
  }

  lemma {:induction false} LimitIsMinimum(rules: seq<Rule>, key: string)
    ensures LimitOf(rules, key).Some? ==> Entry(key, LimitOf(rules, key).value) in rules
    ensures forall r :: r in rules && r.key == key ==> LimitOf(rules, key).Some? && LimitOf(rules, key).value <= r.value
  {
    if rules != [] {
      LimitIsMinimum(rules[1..], key);
      assert rules == [rules[0]] + rules[1..];
    }
  }

  /** Ascending distinct keys, and every key with the smallest limit of its rules. */
  ghost predicate StrictestPerKey(rules: seq<Rule>, out: seq<Rule>) {
    Sorted(out) && forall key :: LimitOf(out, key) == LimitOf(rules, key)
  }

  lemma {:induction false} UpsertLimit(m: seq<Rule>, rule: Rule, key: string)
    ensures LimitOf(Upsert(m, rule), key) == Stricter(LimitOf(m, key), if rule.key == key then Some(rule.value) else None)
  {
    var out := Upsert(m, rule);
    if m == [] || StringOrder.Less(rule.key, m[0].key) {
      assert out[1..] == m;
    } else if m[0].key == rule.key {
      assert out[1..] == m[1..];
    } else {
      UpsertLimit(m[1..], rule, key);
      assert out[1..] == Upsert(m[1..], rule);
    }
  }

  lemma {:induction false} LimitSnoc(rules: seq<Rule>, rule: Rule, key: string)
    ensures LimitOf(rules + [rule], key) == Stricter(LimitOf(rules, key), if rule.key == key then Some(rule.value) else None)
  {
    if rules == [] {
      assert rules + [rule] == [rule];
      assert [rule][1..] == [];
    } else {
      assert (rules + [rule])[1..] == rules[1..] + [rule];
      LimitSnoc(rules[1..], rule, key);
    }
  }

  /** The keys after an upsert are the old ones and the rule's. */
  lemma {:induction false} UpsertKeys(m: seq<Rule>, rule: Rule, i: nat)
    requires i < |Upsert(m, rule)|
    ensures Upsert(m, rule)[i].key == rule.key || exists j :: 0 <= j < |m| && m[j].key == Upsert(m, rule)[i].key
  {
    var out := Upsert(m, rule);
    if m == [] || StringOrder.Less(rule.key, m[0].key) {
      assert i > 0 ==> out[i] == m[i - 1];
    } else if m[0].key == rule.key {
      assert i > 0 ==> out[i] == m[i];
    } else if i > 0 {
      UpsertKeys(m[1..], rule, i - 1);
      assert out[i] == Upsert(m[1..], rule)[i - 1];
      assert forall j :: 0 <= j < |m| - 1 ==> m[1..][j] == m[j + 1];
    }
  }

  lemma {:induction false} UpsertSorted(m: seq<Rule>, rule: Rule)
    requires Sorted(m)
    ensures Sorted(Upsert(m, rule))
  {
    if m == [] {
    } else if StringOrder.Less(rule.key, m[0].key) {
      forall j | 0 <= j < |m| ensures StringOrder.Less(rule.key, m[j].key) {
        if j > 0 { StringOrder.Transitive(rule.key, m[0].key, m[j].key); }
      }
    } else if m[0].key != rule.key {
      StringOrder.Total(rule.key, m[0].key);
      UpsertSorted(m[1..], rule);
      var tail := Upsert(m[1..], rule);
      forall i | 0 <= i < |tail| ensures StringOrder.Less(m[0].key, tail[i].key) {
        UpsertKeys(m[1..], rule, i);
      }
    }
  }

  /** `dedup_min_limit`. */
  method DedupMinLimit(rules: seq<Rule>) returns (out: seq<Rule>)
    ensures StrictestPerKey(rules, out)
  {
    out := [];
    for i := 0 to |rules|
      invariant Sorted(out)
      invariant forall key :: LimitOf(out, key) == LimitOf(rules[..i], key)
    {
      UpsertSorted(out, rules[i]);
      forall key ensures LimitOf(Upsert(out, rules[i]), key) == LimitOf(rules[..i + 1], key) {
        UpsertLimit(out, rules[i], key);
        LimitSnoc(rules[..i], rules[i], key);
        assert rules[..i] + [rules[i]] == rules[..i + 1];
      }
      out := Upsert(out, rules[i]);
    }
    assert rules[..|rules|] == rules;
  }

  /** In ascending order, an entry is present exactly when it is the limit of its key. */
  lemma SortedLimit(a: seq<Rule>, e: Rule)
    requires Sorted(a)
    ensures e in a <==> LimitOf(a, e.key) == Some(e.value)
  {
    LimitIsMinimum(a, e.key);
    if e in a {
      var min := Entry(e.key, LimitOf(a, e.key).value);
      StringOrder.Irreflexive(e.key);
      assert min == e;
    }
  }

  /** So the result is a function of the limits alone, not of the order or repetition of rules. */
  lemma DedupIsUnique(rules: seq<Rule>, rules': seq<Rule>, a: seq<Rule>, b: seq<Rule>)
    requires forall r :: r in rules <==> r in rules'
    requires StrictestPerKey(rules, a) && StrictestPerKey(rules', b)
    ensures a == b
  {
    forall e ensures e in a <==> e in b {
      SortedLimit(a, e);
      SortedLimit(b, e);
      LimitIsMinimum(rules, e.key);
      LimitIsMinimum(rules', e.key);
    }
    SortedUnique(a, b);
  }
}

/** Which buckets a request falls into (`matched_rules`, src/service/ratelimit.rs). */
module RateRules {
  import opened Text
  import opened SortedEntries
  import Decimal
  import opened ConcurrencyLimit

  datatype RateRule = RateRule(scope: string, scopeId: Option<int>, model: Option<string>, concurrency: int)

  /** Whom a bucket counts. */
  datatype Owner = Everyone | User(id: int) | ApiKey(id: int)

  function OwnerName(o: Owner): string {
    match o
    case Everyone => "global"
    case User(id) => "user:" + Decimal.Show(id)
    case ApiKey(id) => "key:" + Decimal.Show(id)
  }

  function BucketKey(o: Owner, model: Option<string>): string {
    OwnerName(o) + (if model.Some? then "|model:" + model.value else "")
  }

  /** The owner a rule counts for a request, if it applies to it. */
  function OwnerOf(rule: RateRule, userId: Option<int>, keyId: Option<int>): Option<Owner> {
    if rule.scope == "global" then Some(Everyone)
    else if rule.scope == "user" then
      if userId.None? || (rule.scopeId.Some? && userId != rule.scopeId) then None else Some(User(userId.value))
    else if rule.scope == "api_key" then
      if keyId.Some? && keyId == rule.scopeId then Some(ApiKey(keyId.value)) else None
    else None
  }

  function Match(rule: RateRule, userId: Option<int>, keyId: Option<int>, model: string): Option<Rule> {
    var owner := OwnerOf(rule, userId, keyId);
    if owner.None? || (rule.model.Some? && rule.model.value != model) then None
    else Some(Entry(BucketKey(owner.value, rule.model), rule.concurrency))
  }

  /** `matched_rules`. */
  function MatchedRules(rules: seq<RateRule>, userId: Option<int>, keyId: Option<int>, model: string): seq<Rule> {
    if rules == [] then []
    else
      var m := Match(rules[0], userId, keyId, model);
      (if m.Some? then [m.value] else []) + MatchedRules(rules[1..], userId, keyId, model)
  }

  // ---------- which rules count a request ----------

  /** The rule counts the request under the given bucket name. */
  ghost predicate CountsUnder(rule: RateRule, userId: Option<int>, keyId: Option<int>, name: string) {
    || (rule.scope == "global" && name == "global")
    || (exists u :: && rule.scope == "user" && userId == Some(u) && (rule.scopeId == None || rule.scopeId == Some(u))
                    && name == "user:" + Decimal.Show(u))
    || (exists k :: && rule.scope == "api_key" && keyId == Some(k) && rule.scopeId == Some(k)
                    && name == "key:" + Decimal.Show(k))
  }

  /** A rule matches a request exactly when its scope names the request's user or key, or everyone, and
      its model, if it has one, is the request's; the bucket is then named by both. */
  lemma MatchIff(rule: RateRule, userId: Option<int>, keyId: Option<int>, model: string, e: Rule)
    ensures Match(rule, userId, keyId, model) == Some(e) <==>
      && e.value == rule.concurrency
      && (|| (rule.model == None && CountsUnder(rule, userId, keyId, e.key))
          || (rule.model == Some(model) &&
              exists name :: CountsUnder(rule, userId, keyId, name) && e.key == name + "|model:" + model))
  {
    var owner := OwnerOf(rule, userId, keyId);
    forall name ensures CountsUnder(rule, userId, keyId, name) <==> owner.Some? && name == OwnerName(owner.value) {
    }
    if owner.Some? {
      var name := OwnerName(owner.value);
      assert name + "" == name;
      assert name + ("|model:" + model) == name + "|model:" + model;
    }
  }

  // ---------- bucket keys do not collide ----------

  predicate NoBar(s: string) {
    forall i :: 0 <= i < |s| ==> s[i] != '|'
  }

  lemma OwnerNameInjective(a: Owner, b: Owner)
    requires OwnerName(a) == OwnerName(b)
    ensures a == b
  {
    assert OwnerName(a)[0] == OwnerName(b)[0];
    match (a, b)
    case (User(x), User(y)) =>
      assert OwnerName(a)[5..] == Decimal.Show(x) && OwnerName(b)[5..] == Decimal.Show(y);
      Decimal.ShowInjective(x, y);
    case (ApiKey(x), ApiKey(y)) =>
      assert OwnerName(a)[4..] == Decimal.Show(x) && OwnerName(b)[4..] == Decimal.Show(y);
      Decimal.ShowInjective(x, y);
    case _ =>
  }

  lemma OwnerNameHasNoBar(o: Owner)
    ensures NoBar(OwnerName(o))
  {
  }

  /** A text without a bar is read back from what follows it. */
  lemma SplitAtBar(a: string, x: string, b: string, y: string)
    requires NoBar(a) && NoBar(b) && a + x == b + y
    requires x == "" || x[0] == '|'
    requires y == "" || y[0] == '|'
    ensures a == b && x == y
  {
    assert forall i :: 0 <= i < |a| ==> (a + x)[i] == a[i];
    assert forall i :: 0 <= i < |b| ==> (b + y)[i] == b[i];
    assert x != "" ==> (a + x)[|a|] == '|';
    assert y != "" ==> (b + y)[|b|] == '|';
    assert (a + x)[..|a|] == a && (b + y)[..|b|] == b;
    assert (a + x)[|a|..] == x && (b + y)[|b|..] == y;
  }

  /** Two requests meet in a bucket only if it counts the same owner and the same model. */
  lemma BucketKeyInjective(a: Owner, ma: Option<string>, b: Owner, mb: Option<string>)
    requires BucketKey(a, ma) == BucketKey(b, mb)
    ensures a == b && ma == mb
  {
    OwnerNameHasNoBar(a);
    OwnerNameHasNoBar(b);
    var bar := "|model:";
    var x := if ma.Some? then bar + ma.value else "";
    var y := if mb.Some? then bar + mb.value else "";
    SplitAtBar(OwnerName(a), x, OwnerName(b), y);
    OwnerNameInjective(a, b);
    if ma.Some? && mb.Some? {
      assert x[|bar|..] == ma.value && y[|bar|..] == mb.value;
    }
  }

  /** `apply_concurrency_limits`, up to the acquire: the positive limits, one per bucket. */
  method LimitsFor(rules: seq<RateRule>, userId: Option<int>, keyId: Option<int>, model: string) returns (out: seq<Rule>)
    ensures DistinctKeys(out)
    ensures StrictestPerKey(Limited(MatchedRules(rules, userId, keyId, model)), out)
  {
    out := DedupMinLimit(Limited(MatchedRules(rules, userId, keyId, model)));
    SortedHasDistinctKeys(out);
  }

  /** The rules with a positive limit. */
  function Limited(rules: seq<Rule>): seq<Rule> {
    if rules == [] then [] else (if rules[0].value > 0 then [rules[0]] else []) + Limited(rules[1..])
  }

  // ---------- every matching rule is respected ----------

  /** A configured rule that counts for the request in this bucket with this positive limit. */
  ghost predicate Binds(rules: seq<RateRule>, userId: Option<int>, keyId: Option<int>, model: string, e: Rule) {
    e.value > 0 && exists r :: r in rules && Match(r, userId, keyId, model) == Some(e)
  }

  lemma {:induction false} LimitedKeeps(rules: seq<Rule>, e: Rule)
    ensures e in Limited(rules) <==> e in rules && e.value > 0
  {
    if rules != [] {
      LimitedKeeps(rules[1..], e);
      assert rules == [rules[0]] + rules[1..];
    }
  }

  lemma {:induction false} MatchedFrom(rules: seq<RateRule>, userId: Option<int>, keyId: Option<int>, model: string, e: Rule)
    ensures e in MatchedRules(rules, userId, keyId, model) <==>
              exists r :: r in rules && Match(r, userId, keyId, model) == Some(e)
  {
    if rules != [] {
      MatchedFrom(rules[1..], userId, keyId, model, e);
      assert rules == [rules[0]] + rules[1..];
    }
  }

  lemma BindingRules(rules: seq<RateRule>, userId: Option<int>, keyId: Option<int>, model: string, e: Rule)
    ensures Binds(rules, userId, keyId, model, e) <==> e in Limited(MatchedRules(rules, userId, keyId, model))
  {
    LimitedKeeps(MatchedRules(rules, userId, keyId, model), e);
    MatchedFrom(rules, userId, keyId, model, e);
  }

  /** The deduplicated rules hold, for the bucket of a binding rule, a limit at most as high. */
  lemma BindingRuleIsKept(limited: seq<Rule>, out: seq<Rule>, e: Rule) returns (kept: Rule)
    requires StrictestPerKey(limited, out) && e in limited
    ensures kept in out && kept in limited && kept.key == e.key && kept.value <= e.value
  {
    LimitIsMinimum(limited, e.key);
    kept := Entry(e.key, LimitOf(limited, e.key).value);
    SortedLimit(out, kept);
  }

  lemma KeptRuleBinds(limited: seq<Rule>, out: seq<Rule>, e: Rule)
    requires StrictestPerKey(limited, out) && e in out
    ensures e in limited
  {
    SortedLimit(out, e);
    LimitIsMinimum(limited, e.key);
  }

  /** From the configuration to the buckets: a request is admitted exactly when no rule that matches
      it is full, and then it takes one place in the bucket of each, within each one's limit. */
  lemma EveryMatchingRuleIsRespected(c: Counts, rules: seq<RateRule>, userId: Option<int>, keyId: Option<int>, model: string,
                                     out: seq<Rule>)
    requires StrictestPerKey(Limited(MatchedRules(rules, userId, keyId, model)), out)
    ensures Decide(c, out).Guard? <==> forall e :: Binds(rules, userId, keyId, model, e) ==> !Full(c, e)
    ensures Decide(c, out).Guard? ==> forall e :: Binds(rules, userId, keyId, model, e) ==>
              CountOf(Take(c, KeysOf(out)), e.key) == CountOf(c, e.key) + 1 <= e.value
  {
    var limited := Limited(MatchedRules(rules, userId, keyId, model));
    SortedHasDistinctKeys(out);
    AcquireRespectsLimits(c, out);
    forall e | Binds(rules, userId, keyId, model, e)
      ensures Decide(c, out).Guard? ==>
        !Full(c, e) && CountOf(Take(c, KeysOf(out)), e.key) == CountOf(c, e.key) + 1 <= e.value
    {
      BindingRules(rules, userId, keyId, model, e);
      var kept := BindingRuleIsKept(limited, out, e);
      BindingRules(rules, userId, keyId, model, kept);
      assert kept.value > 0;
      var i :| 0 <= i < |out| && out[i] == kept;
    }
    if Decide(c, out).Refused? {
      var full := Decide(c, out).rule;
      KeptRuleBinds(limited, out, full);
      BindingRules(rules, userId, keyId, model, full);
    }
  }
}

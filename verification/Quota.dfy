/** Plan quota: check before the request, record after it (src/service/plans.rs).

The check reads the cached usage; the request is recorded only when it ends, so several admitted
requests can be under way at once.  The theorem bounds how far the recorded total can overshoot
the limit, over every interleaving, and shows that the bound is reached. */
module Quota {
  import opened Text
  import Int64
  import opened UsageCache

  /** The parts of a plan that `check_plan` looks at. */
  datatype Plan = Plan(tokenLimit: int, overageAction: string, downgradeModel: Option<string>)

  datatype Decision = Admit(downgradeTo: Option<string>) | Block

  /** `check_plan`, for a resolved plan. */
  function CheckPlan(plan: Plan, used: int, model: string): Decision {
    if used < plan.tokenLimit then Admit(None)
    else if plan.overageAction == "downgrade" then
      (match plan.downgradeModel
       case Some(target) => if target != model then Admit(Some(target)) else Block
       case None => Block)
    else if plan.overageAction == "log" then Admit(None)
    else Block
  }

  /** An exhausted plan blocks exactly when no policy lets the request through, and sends it to
      another model exactly when the plan names one that is not the requested model. */
  lemma BlocksIff(plan: Plan, used: int, model: string, target: string)
    ensures CheckPlan(plan, used, model) == Block <==>
      && used >= plan.tokenLimit
      && plan.overageAction != "log"
      && (plan.overageAction == "downgrade" ==> plan.downgradeModel.None? || plan.downgradeModel.value == model)
    ensures CheckPlan(plan, used, model) == Admit(Some(target)) <==>
      used >= plan.tokenLimit && plan.overageAction == "downgrade" && plan.downgradeModel == Some(target) && target != model
  {
  }

  // ---------- the protocol ----------

  /** The cache, the requests admitted and not yet recorded, and the tokens recorded. */
  datatype State = State(cache: Cache, pending: nat, recorded: int)

  datatype Step =
    | Check(model: string)
    | Record(tokens: int)
    | Abandon                      // an admitted request that ends without a record
    | Reload(used: int)

  /** One plan of one user in one period. */
  datatype Meter = Meter(plan: Plan, key: Key, period: string)

  function Next(m: Meter, s: State, step: Step): State {
    match step
    case Check(model) =>
      if CheckPlan(m.plan, Used(s.cache, m.key, m.period), model).Admit? then s.(pending := s.pending + 1) else s
    case Record(tokens) =>
      State(Increment(s.cache, m.key, m.period, tokens), if s.pending > 0 then s.pending - 1 else 0, s.recorded + tokens)
    case Abandon => s.(pending := if s.pending > 0 then s.pending - 1 else 0)
    case Reload(used) => s.(cache := MergeSnapshot(s.cache, Snapshot(m.key, m.period, used)))
  }

  function Run(m: Meter, start: State, steps: seq<Step>): State {
    if steps == [] then start else Next(m, Run(m, start, steps[..|steps| - 1]), steps[|steps| - 1])
  }

  /** A record belongs to an admitted request and costs at most `cost`, in an `i64`. */
  predicate Enabled(s: State, step: Step, cost: int) {
    match step
    case Check(_) => true
    case Record(tokens) => s.pending > 0 && 0 <= tokens <= Int64.Min(cost, Int64.MAX)
    case Abandon => s.pending > 0
    case Reload(used) => 0 <= used <= Int64.MAX
  }

  /** All steps are enabled, and at most `k` requests are ever pending. */
  ghost predicate Legal(m: Meter, start: State, steps: seq<Step>, k: nat, cost: int) {
    Run(m, start, steps).pending <= k &&
    (steps != [] ==>
      var n := |steps| - 1;
      && Legal(m, start, steps[..n], k, cost)
      && Enabled(Run(m, start, steps[..n]), steps[n], cost))
  }

  /** A meter before the period's first record; the cache may still count another period. */
  ghost predicate Fresh(m: Meter, s: State) {
    && s.pending == 0 && s.recorded == 0
    && 0 <= Used(s.cache, m.key, m.period) <= Int64.MAX
  }

  /** The cache never shows less than what was recorded. */
  ghost predicate Counted(m: Meter, s: State) {
    && 0 <= s.recorded
    && Int64.Min(s.recorded, Int64.MAX) <= Used(s.cache, m.key, m.period) <= Int64.MAX
  }

  /** Recorded tokens, plus the worst case of the pending requests, stay within the bound. */
  ghost predicate Within(m: Meter, s: State, k: nat, cost: int) {
    s.recorded + s.pending * cost <= Int64.Max(0, m.plan.tokenLimit - 1 + k * cost)
  }

  lemma CheckKeepsBound(m: Meter, s: State, model: string, k: nat, cost: int)
    requires m.plan.overageAction == "block" && m.plan.tokenLimit <= Int64.MAX && 0 <= cost
    requires Counted(m, s) && Within(m, s, k, cost) && Next(m, s, Check(model)).pending <= k
    ensures Within(m, Next(m, s, Check(model)), k, cost)
  {
    var t := Next(m, s, Check(model));
    if t != s {
      assert s.recorded <= m.plan.tokenLimit - 1;
      assert t.pending * cost <= k * cost;
    }
  }

  lemma RecordKeepsBound(m: Meter, s: State, tokens: int, k: nat, cost: int)
    requires 0 <= tokens <= Int64.Min(cost, Int64.MAX) && s.pending > 0
    requires Counted(m, s) && Within(m, s, k, cost)
    ensures Counted(m, Next(m, s, Record(tokens))) && Within(m, Next(m, s, Record(tokens)), k, cost)
  {
    assert Used(Increment(s.cache, m.key, m.period, tokens), m.key, m.period)
        == Int64.SaturatingAdd(Used(s.cache, m.key, m.period), tokens);
    assert (s.pending - 1) * cost == s.pending * cost - cost;
  }

  lemma AbandonKeepsBound(m: Meter, s: State, k: nat, cost: int)
    requires s.pending > 0 && 0 <= cost && Within(m, s, k, cost)
    ensures Within(m, Next(m, s, Abandon), k, cost)
  {
    assert (s.pending - 1) * cost == s.pending * cost - cost;
  }

  lemma ReloadKeepsCounted(m: Meter, s: State, used: int)
    requires 0 <= used <= Int64.MAX && Counted(m, s)
    ensures Counted(m, Next(m, s, Reload(used)))
  {
  }

  /** The overshoot bound, over every interleaving of checks, records, abandoned requests and
      cache reloads under the `block` policy: at most `k` pending requests of at most `cost`
      tokens each take the recorded total to at most `limit - 1 + k * cost`; a limit that is not
      positive admits nothing. */
  lemma {:induction false} OvershootBound(m: Meter, start: State, steps: seq<Step>, k: nat, cost: int)
    requires m.plan.overageAction == "block" && m.plan.tokenLimit <= Int64.MAX && 0 <= cost
    requires Fresh(m, start) && Legal(m, start, steps, k, cost)
    ensures Counted(m, Run(m, start, steps)) && Within(m, Run(m, start, steps), k, cost)
    ensures m.plan.tokenLimit >= 1 ==> Run(m, start, steps).recorded <= m.plan.tokenLimit - 1 + k * cost
    ensures m.plan.tokenLimit <= 0 ==> Run(m, start, steps).recorded == 0 == Run(m, start, steps).pending
  {
    if steps == [] {
      assert Int64.Max(0, m.plan.tokenLimit - 1 + k * cost) >= 0;
    } else {
      var n := |steps| - 1;
      OvershootBound(m, start, steps[..n], k, cost);
      var s := Run(m, start, steps[..n]);
      match steps[n]
      case Check(model) => CheckKeepsBound(m, s, model, k, cost);
      case Record(tokens) => RecordKeepsBound(m, s, tokens, k, cost);
      case Abandon => AbandonKeepsBound(m, s, k, cost);
      case Reload(used) => ReloadKeepsCounted(m, s, used);
    }
    BoundWhenPositive(m, Run(m, start, steps), k, cost);
  }

  lemma BoundWhenPositive(m: Meter, s: State, k: nat, cost: int)
    requires Within(m, s, k, cost) && 0 <= cost
    ensures m.plan.tokenLimit >= 1 ==> s.recorded <= m.plan.tokenLimit - 1 + k * cost
  {
    assert s.pending * cost >= 0;
    assert k * cost >= 0;
  }

  // ---------- the bound is sharp ----------

  lemma Snoc(m: Meter, start: State, steps: seq<Step>, step: Step, k: nat, cost: int)
    ensures Run(m, start, steps + [step]) == Next(m, Run(m, start, steps), step)
    ensures Legal(m, start, steps + [step], k, cost) <==>
      && Legal(m, start, steps, k, cost)
      && Enabled(Run(m, start, steps), step, cost)
      && Next(m, Run(m, start, steps), step).pending <= k
  {
    assert (steps + [step])[..|steps|] == steps;
  }

  /** A run state with a cache that shows exactly what was recorded. */
  ghost predicate At(m: Meter, s: State, pending: nat, recorded: int) {
    && s.pending == pending && s.recorded == recorded
    && Used(s.cache, m.key, m.period) == Int64.Min(recorded, Int64.MAX)
  }

  lemma AtCheck(m: Meter, s: State, pending: nat, r: nat)
    requires At(m, s, pending, r) && r < m.plan.tokenLimit <= Int64.MAX
    ensures At(m, Next(m, s, Check("")), pending + 1, r)
  {
  }

  lemma AtRecord(m: Meter, s: State, pending: nat, r: nat, tokens: nat)
    requires At(m, s, pending, r) && pending > 0 && tokens <= Int64.MAX
    ensures At(m, Next(m, s, Record(tokens)), pending - 1, r + tokens)
  {
    assert Used(Increment(s.cache, m.key, m.period, tokens), m.key, m.period)
        == Int64.SaturatingAdd(Used(s.cache, m.key, m.period), tokens);
  }

  lemma ExtendCheck(m: Meter, start: State, steps: seq<Step>, pending: nat, r: nat, k: nat, cost: int)
    requires Legal(m, start, steps, k, cost) && At(m, Run(m, start, steps), pending, r)
    requires r < m.plan.tokenLimit <= Int64.MAX && pending < k
    ensures Legal(m, start, steps + [Check("")], k, cost)
    ensures At(m, Run(m, start, steps + [Check("")]), pending + 1, r)
  {
    Snoc(m, start, steps, Check(""), k, cost);
    AtCheck(m, Run(m, start, steps), pending, r);
  }

  lemma ExtendRecord(m: Meter, start: State, steps: seq<Step>, pending: nat, r: nat, tokens: nat, k: nat, cost: int)
    requires Legal(m, start, steps, k, cost) && At(m, Run(m, start, steps), pending, r)
    requires 0 < pending <= k && tokens <= Int64.Min(cost, Int64.MAX)
    ensures Legal(m, start, steps + [Record(tokens)], k, cost)
    ensures At(m, Run(m, start, steps + [Record(tokens)]), pending - 1, r + tokens)
  {
    Snoc(m, start, steps, Record(tokens), k, cost);
    AtRecord(m, Run(m, start, steps), pending, r, tokens);
  }

  /** One-token requests, one after the other, fill the quota up to `r`. */
  lemma {:induction false} FillOneByOne(m: Meter, start: State, r: nat, k: nat, cost: int) returns (steps: seq<Step>)
    requires r < m.plan.tokenLimit <= Int64.MAX && 1 <= k && 1 <= cost
    requires At(m, start, 0, 0)
    ensures Legal(m, start, steps, k, cost) && At(m, Run(m, start, steps), 0, r)
  {
    if r == 0 {
      steps := [];
    } else {
      var before := FillOneByOne(m, start, r - 1, k, cost);
      ExtendCheck(m, start, before, 0, r - 1, k, cost);
      ExtendRecord(m, start, before + [Check("")], 1, r - 1, 1, k, cost);
      steps := before + [Check("")] + [Record(1)];
    }
  }

  /** While the cache shows less than the limit, any number of requests is admitted. */
  lemma {:induction false} AdmitMany(m: Meter, start: State, filled: seq<Step>, r: nat, j: nat, k: nat, cost: int)
    returns (steps: seq<Step>)
    requires r < m.plan.tokenLimit <= Int64.MAX && j <= k
    requires Legal(m, start, filled, k, cost) && At(m, Run(m, start, filled), 0, r)
    ensures Legal(m, start, steps, k, cost) && At(m, Run(m, start, steps), j, r)
  {
    if j == 0 {
      steps := filled;
    } else {
      var before := AdmitMany(m, start, filled, r, j - 1, k, cost);
      ExtendCheck(m, start, before, j - 1, r, k, cost);
      steps := before + [Check("")];
    }
  }

  /** What `j` requests of the same cost add up to. */
  function Total(j: nat, cost: nat): nat {
    if j == 0 then 0 else Total(j - 1, cost) + cost
  }

  lemma {:induction false} TotalIs(j: nat, cost: nat)
    ensures Total(j, cost) == j * cost
  {
    if j > 0 {
      TotalIs(j - 1, cost);
    }
  }

  /** And each of them records its full cost. */
  lemma {:induction false} RecordMany(m: Meter, start: State, admitted: seq<Step>, r: nat, j: nat, k: nat, cost: nat)
    returns (steps: seq<Step>)
    requires j <= k && cost <= Int64.MAX && Legal(m, start, admitted, k, cost) && At(m, Run(m, start, admitted), k, r)
    ensures Legal(m, start, steps, k, cost) && At(m, Run(m, start, steps), k - j, r + Total(j, cost))
  {
    if j == 0 {
      steps := admitted;
    } else {
      var before := RecordMany(m, start, admitted, r, j - 1, k, cost);
      ExtendRecord(m, start, before, k - j + 1, r + Total(j - 1, cost), cost, k, cost);
      steps := before + [Record(cost)];
    }
  }

  /** For every limit, number of concurrent requests and cost in an `i64` there is a run that reaches the bound. */
  lemma BoundIsReached(m: Meter, start: State, k: nat, cost: nat) returns (steps: seq<Step>)
    requires 1 <= m.plan.tokenLimit <= Int64.MAX && 1 <= k && 1 <= cost <= Int64.MAX
    requires At(m, start, 0, 0)
    ensures Legal(m, start, steps, k, cost)
    ensures Run(m, start, steps).recorded == m.plan.tokenLimit - 1 + k * cost
  {
    var r := m.plan.tokenLimit - 1;
    var filled := FillOneByOne(m, start, r, k, cost);
    var admitted := AdmitMany(m, start, filled, r, k, k, cost);
    steps := RecordMany(m, start, admitted, r, k, k, cost);
    TotalIs(k, cost);
  }
}

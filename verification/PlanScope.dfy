/** Which plan applies to a request (src/store/plans.rs): model scopes, active windows and the choice
among the user's plans. */
module PlanScope {
  import opened Text
  import opened SortedEntries
  import opened Json

  const MAX_PATTERN_LEN: nat := 128
  const MAX_PATTERNS: nat := 32

  // ---------- patterns ----------

  function LowerChar(c: char): char {
    if 'A' <= c <= 'Z' then c - 'A' + 'a' else c
  }

  /** `to_ascii_lowercase`. */
  function Lower(s: string): string {
    seq(|s|, i requires 0 <= i < |s| => LowerChar(s[i]))
  }

  /** `eq_ignore_ascii_case`. */
  predicate SameText(a: string, b: string) {
    Lower(a) == Lower(b)
  }

  predicate EndsWithStar(p: string) {
    p != "" && p[|p| - 1] == '*'
  }

  /** `model_matches_pattern`: exact, or a prefix when the pattern ends with a star. */
  predicate MatchesPattern(p: string, model: string) {
    if EndsWithStar(p) then
      var prefix := p[..|p| - 1];
      |model| >= |prefix| && SameText(model[..|prefix|], prefix)
    else SameText(p, model)
  }

  predicate PatternChar(c: char) {
    'a' <= c <= 'z' || 'A' <= c <= 'Z' || '0' <= c <= '9' || c in "*._+:-/"
  }

  function Stars(p: string): nat {
    if p == "" then 0 else (if p[0] == '*' then 1 else 0) + Stars(p[1..])
  }

  /** `validate_model_pattern` accepts. */
  predicate ValidPattern(p: string) {
    && p != "" && |p| <= MAX_PATTERN_LEN
    && (forall i :: 0 <= i < |p| ==> PatternChar(p[i]))
    && (Stars(p) == 0 || (Stars(p) == 1 && EndsWithStar(p) && p != "*"))
  }

  // ---------- scopes ----------

  datatype Scope = Scope(allow: seq<string>, deny: seq<string>)

  predicate AnyMatches(patterns: seq<string>, model: string) {
    exists i :: 0 <= i < |patterns| && MatchesPattern(patterns[i], model)
  }

  /** `ModelScope::matches`: a deny wins; an empty allow list allows. */
  predicate InScope(s: Scope, model: string) {
    !AnyMatches(s.deny, model) && (s.allow == [] || AnyMatches(s.allow, model))
  }

  /** `specificity`. */
  function Specificity(s: Option<Scope>): nat {
    match s
    case None => 0
    case Some(s) => if forall i :: 0 <= i < |s.allow + s.deny| ==> !EndsWithStar((s.allow + s.deny)[i]) then 2 else 1
  }

  /** A pattern with a trailing star stands for every continuation of its prefix, in any case. */
  lemma StarMatchesContinuations(prefix: string, model: string)
    ensures MatchesPattern(prefix + "*", model) <==> exists rest :: SameText(model, prefix + rest)
  {
    var n := |prefix|;
    assert (prefix + "*")[..n] == prefix;
    if n <= |model| && SameText(model[..n], prefix) {
      assert model == model[..n] + model[n..];
      LowerAppend(model[..n], model[n..]);
      LowerAppend(prefix, model[n..]);
      assert SameText(model, prefix + model[n..]);
    }
    forall rest | SameText(model, prefix + rest) ensures n <= |model| && SameText(model[..n], prefix) {
      assert |Lower(model)| == |model| && |Lower(prefix + rest)| == n + |rest|;
      LowerAppend(prefix, rest);
      LowerAppend(model[..n], model[n..]);
      assert model == model[..n] + model[n..];
      assert Lower(model)[..n] == Lower(model[..n]);
    }
  }

  lemma LowerAppend(a: string, b: string)
    ensures Lower(a + b) == Lower(a) + Lower(b)
  {
  }

  lemma MatchIgnoresCase(p: string, a: string, b: string)
    requires SameText(a, b)
    ensures MatchesPattern(p, a) <==> MatchesPattern(p, b)
  {
    assert |a| == |Lower(a)| == |Lower(b)| == |b|;
    if EndsWithStar(p) && |a| >= |p| - 1 {
      var n := |p| - 1;
      assert Lower(a[..n]) == Lower(a)[..n] && Lower(b[..n]) == Lower(b)[..n];
    }
  }

  lemma ScopeIgnoresCase(s: Scope, a: string, b: string)
    requires SameText(a, b)
    ensures InScope(s, a) <==> InScope(s, b)
  {
    forall p ensures MatchesPattern(p, a) <==> MatchesPattern(p, b) {
      MatchIgnoresCase(p, a, b);
    }
  }

  // ---------- active windows ----------

  /** `is_within_active_window`: half open, over midnight when the start is later than the end. */
  predicate WithinWindow(start: Option<int>, end: Option<int>, now: int) {
    if start.Some? && end.Some? && start.value < end.value then start.value <= now < end.value
    else if start.Some? && end.Some? && start.value > end.value then now >= start.value || now < end.value
    else true
  }

  /** A window and the window with its ends exchanged cover every time exactly once. */
  lemma WindowAndComplement(s: int, e: int, now: int)
    requires s != e
    ensures WithinWindow(Some(s), Some(e), now) <==> !WithinWindow(Some(e), Some(s), now)
  {
  }

  // ---------- choosing a plan ----------

  datatype Plan = Plan(
    planId: int, priority: int,
    activeStart: Option<int>, activeEnd: Option<int>, scope: Option<Scope>)

  predicate Eligible(p: Plan, now: int, model: Option<string>) {
    && WithinWindow(p.activeStart, p.activeEnd, now)
    && (p.scope.Some? && model.Some? ==> InScope(p.scope.value, model.value))
  }

  /** The sort key: specificity (only with a model), priority, plan id. */
  datatype Rank = Rank(specificity: nat, priority: int, planId: int)

  function RankOf(p: Plan, model: Option<string>): Rank {
    Rank(if model.Some? then Specificity(p.scope) else 0, p.priority, p.planId)
  }

  predicate AtMost(a: Rank, b: Rank) {
    || a.specificity < b.specificity
    || (a.specificity == b.specificity && (a.priority < b.priority || (a.priority == b.priority && a.planId <= b.planId)))
  }

  /** `resolve_plan`: the eligible plan with the largest key, the last one among equals. */
  function Resolve(plans: seq<Plan>, now: int, model: Option<string>): Option<Plan> {
    if plans == [] then None
    else
      var best := Resolve(plans[..|plans| - 1], now, model);
      var p := plans[|plans| - 1];
      if !Eligible(p, now, model) then best
      else if best.Some? && !AtMost(RankOf(best.value, model), RankOf(p, model)) then best
      else Some(p)
  }

  /** The chosen plan is one of the eligible ones and dominates them all; none is chosen exactly when
      none is eligible. */
  lemma {:induction false} ChosenDominates(plans: seq<Plan>, now: int, model: Option<string>)
    ensures
      match Resolve(plans, now, model)
      case None => forall q :: q in plans ==> !Eligible(q, now, model)
      case Some(p) =>
        && p in plans && Eligible(p, now, model)
        && forall q :: q in plans && Eligible(q, now, model) ==> AtMost(RankOf(q, model), RankOf(p, model))
  {
    if plans != [] {
      var n := |plans| - 1;
      ChosenDominates(plans[..n], now, model);
      assert plans == plans[..n] + [plans[n]];
    }
  }

  /** The choice does not depend on the order, or the repetition, of the candidates. */
  lemma ChoiceIgnoresOrder(a: seq<Plan>, b: seq<Plan>, now: int, model: Option<string>)
    requires forall q :: q in a <==> q in b
    ensures Resolve(a, now, model).Some? <==> Resolve(b, now, model).Some?
    ensures Resolve(a, now, model).Some? ==> Resolve(a, now, model).value.planId == Resolve(b, now, model).value.planId
  {
    ChosenDominates(a, now, model);
    ChosenDominates(b, now, model);
  }

  /** Nor on the ASCII case of the model. */
  lemma {:induction false} ChoiceIgnoresCase(plans: seq<Plan>, now: int, x: string, y: string)
    requires SameText(x, y)
    ensures Resolve(plans, now, Some(x)) == Resolve(plans, now, Some(y))
  {
    if plans != [] {
      var n := |plans| - 1;
      ChoiceIgnoresCase(plans[..n], now, x, y);
      if plans[n].scope.Some? {
        ScopeIgnoresCase(plans[n].scope.value, x, y);
      }
    }
  }

  // ---------- reading and writing scopes ----------

  datatype Parsed<T> = Ok(value: T) | Err

  /** The entries of one list: strings that are valid patterns, in lower case. */
  function ParsePatterns(items: seq<Json>): Parsed<seq<string>> {
    if items == [] then Ok([])
    else
      var last := items[|items| - 1];
      var before := ParsePatterns(items[..|items| - 1]);
      if before.Err? || !last.Str? || !ValidPattern(last.text) then Err
      else Ok(before.value + [Lower(last.text)])
  }

  function ParseList(fields: seq<Entry<Json>>, key: string): Parsed<seq<string>> {
    match Lookup(fields, key)
    case None => Ok([])
    case Some(Null) => Ok([])
    case Some(Arr(items)) => ParsePatterns(items)
    case Some(_) => Err
  }

  predicate Disjoint(a: seq<string>, b: seq<string>) {
    forall i :: 0 <= i < |a| ==> a[i] !in b
  }

  /** What `parse_model_scope` makes of two parsed lists. */
  function ScopeOf(allow: seq<string>, deny: seq<string>): Parsed<Option<Scope>> {
    if |allow| + |deny| > MAX_PATTERNS || !Disjoint(allow, deny) then Err
    else if allow == [] && deny == [] then Ok(None)
    else Ok(Some(Scope(allow, deny)))
  }

  /** `parse_model_scope`. */
  function ParseScope(v: Option<Json>): Parsed<Option<Scope>> {
    if v.None? || v.value.Null? then Ok(None)
    else if !v.value.Obj? then Err
    else
      var fields := v.value.fields;
      if exists i :: 0 <= i < |fields| && fields[i].key !in {"allow", "deny"} then Err
      else
        var allow, deny := ParseList(fields, "allow"), ParseList(fields, "deny");
        if allow.Err? || deny.Err? then Err else ScopeOf(allow.value, deny.value)
  }

  function Strings(texts: seq<string>): Json {
    Arr(seq(|texts|, i requires 0 <= i < |texts| => Str(texts[i])))
  }

  /** The serialised form: empty lists are left out. */
  function WriteScope(s: Scope): Json {
    Obj((if s.allow == [] then [] else [Entry("allow", Strings(s.allow))]) +
        (if s.deny == [] then [] else [Entry("deny", Strings(s.deny))]))
  }

  /** The loop of `parse_list`. */
  method ParseEntries(items: seq<Json>) returns (r: Parsed<seq<string>>)
    ensures r == ParsePatterns(items)
  {
    var out: seq<string> := [];
    for i := 0 to |items|
      invariant ParsePatterns(items[..i]) == Ok(out)
    {
      assert items[..i + 1][..i] == items[..i];
      if !items[i].Str? || !ValidPattern(items[i].text) {
        assert ParsePatterns(items[..i + 1]) == Err;
        ErrorsStay(items, i + 1);
        return Err;
      }
      out := out + [Lower(items[i].text)];
    }
    assert items[..|items|] == items;
    r := Ok(out);
  }

  lemma {:induction false} ErrorsStay(items: seq<Json>, n: nat)
    requires n <= |items| && ParsePatterns(items[..n]) == Err
    ensures ParsePatterns(items) == Err
  {
    if n < |items| {
      assert items[..|items| - 1][..n] == items[..n];
      ErrorsStay(items[..|items| - 1], n);
    } else {
      assert items[..n] == items;
    }
  }

  // ---------- round trip ----------

  lemma LowerIdempotent(p: string)
    ensures Lower(Lower(p)) == Lower(p)
  {
  }

  lemma {:induction false} LowerKeepsStars(p: string)
    ensures Stars(Lower(p)) == Stars(p)
  {
    if p != "" {
      assert Lower(p)[1..] == Lower(p[1..]);
      LowerKeepsStars(p[1..]);
    }
  }

  lemma LowerKeepsValid(p: string)
    requires ValidPattern(p)
    ensures ValidPattern(Lower(p))
  {
    LowerKeepsStars(p);
    forall i | 0 <= i < |p| ensures PatternChar(Lower(p)[i]) {
      assert PatternChar(p[i]);
    }
    assert Lower(p)[0] == LowerChar(p[0]);
  }

  /** Parsed patterns are valid and in lower case. */
  ghost predicate Normal(patterns: seq<string>) {
    forall i :: 0 <= i < |patterns| ==> ValidPattern(patterns[i]) && Lower(patterns[i]) == patterns[i]
  }

  lemma {:induction false} ParsedIsNormal(items: seq<Json>)
    ensures ParsePatterns(items).Ok? ==> Normal(ParsePatterns(items).value)
  {
    if items != [] && ParsePatterns(items).Ok? {
      ParsedIsNormal(items[..|items| - 1]);
      var text := items[|items| - 1].text;
      LowerKeepsValid(text);
      LowerIdempotent(text);
    }
  }

  lemma ParseSnoc(items: seq<Json>, text: string)
    requires ParsePatterns(items).Ok? && ValidPattern(text)
    ensures ParsePatterns(items + [Str(text)]) == Ok(ParsePatterns(items).value + [Lower(text)])
  {
    assert (items + [Str(text)])[..|items|] == items;
  }

  lemma StringsSnoc(init: seq<string>, last: string)
    ensures Strings(init + [last]).items == Strings(init).items + [Str(last)]
  {
  }

  lemma {:induction false} NormalReadsBack(patterns: seq<string>)
    requires Normal(patterns)
    ensures ParsePatterns(Strings(patterns).items) == Ok(patterns)
  {
    if patterns != [] {
      var init, last := patterns[..|patterns| - 1], patterns[|patterns| - 1];
      assert patterns == init + [last];
      NormalReadsBack(init);
      StringsSnoc(init, last);
      ParseSnoc(Strings(init).items, last);
    }
  }

  lemma ListParsedIsNormal(fields: seq<Entry<Json>>, key: string)
    ensures ParseList(fields, key).Ok? ==> Normal(ParseList(fields, key).value)
  {
    match Lookup(fields, key)
    case Some(Arr(items)) => ParsedIsNormal(items);
    case _ =>
  }

  /** A written list is found and read back. */
  lemma WrittenListReadsBack(s: Scope)
    requires Normal(s.allow) && Normal(s.deny)
    ensures
      var fields := WriteScope(s).fields;
      ParseList(fields, "allow") == Ok(s.allow) && ParseList(fields, "deny") == Ok(s.deny)
  {
    NormalReadsBack(s.allow);
    NormalReadsBack(s.deny);
    WrittenListsAreFound(s);
  }

  lemma WrittenListsAreFound(s: Scope)
    ensures
      var fields := WriteScope(s).fields;
      && Lookup(fields, "allow") == (if s.allow == [] then None else Some(Strings(s.allow)))
      && Lookup(fields, "deny") == (if s.deny == [] then None else Some(Strings(s.deny)))
  {
    var fields := WriteScope(s).fields;
    var allow, deny := Entry("allow", Strings(s.allow)), Entry("deny", Strings(s.deny));
    if s.allow == [] && s.deny == [] {
      assert fields == [];
    } else if s.allow == [] {
      assert fields == [deny];
    } else if s.deny == [] {
      assert fields == [allow];
    } else {
      assert fields == [allow, deny] && fields[1..] == [deny];
      LookupCons(fields, "deny");
    }
  }

  /** Every scope that parsing produces is read back unchanged from its serialised form. */
  lemma ScopeRoundTrip(v: Option<Json>)
    requires ParseScope(v).Ok? && ParseScope(v).value.Some?
    ensures ParseScope(Some(WriteScope(ParseScope(v).value.value))) == ParseScope(v)
  {
    var s := ParseScope(v).value.value;
    ListParsedIsNormal(v.value.fields, "allow");
    ListParsedIsNormal(v.value.fields, "deny");
    WrittenListReadsBack(s);
    WrittenKeys(s);
  }

  lemma WrittenKeys(s: Scope)
    ensures forall i :: 0 <= i < |WriteScope(s).fields| ==> WriteScope(s).fields[i].key in {"allow", "deny"}
  {
  }
}

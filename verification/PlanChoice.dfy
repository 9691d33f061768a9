/** Which plan a request gets, by what the user's plans contain (src/store/plans.rs).

Patterns are judged letter by letter, active windows on the circle of a day, and the chosen plan by
its specificity, priority and id. */
module PlanChoice {
  import opened Text
  import opened SortedEntries
  import opened Json
  import opened PlanScope

  // ---------- patterns and scopes ----------

  /** The same letter, in any ASCII case. */
  ghost predicate SameLetter(a: char, b: char) {
    || a == b
    || ('A' <= a <= 'Z' && b as int == a as int + 32)
    || ('A' <= b <= 'Z' && a as int == b as int + 32)
  }

  ghost predicate SameLetters(a: string, b: string) {
    |a| == |b| && forall i :: 0 <= i < |a| ==> SameLetter(a[i], b[i])
  }

  lemma SameTextIff(a: string, b: string)
    ensures SameText(a, b) <==> SameLetters(a, b)
  {
    assert |Lower(a)| == |a| && |Lower(b)| == |b|;
    forall i | 0 <= i < |a| && i < |b| ensures Lower(a)[i] == Lower(b)[i] <==> SameLetter(a[i], b[i]) {
      SameLowerIff(a[i], b[i]);
    }
    if SameText(a, b) {
      forall i | 0 <= i < |a| ensures SameLetter(a[i], b[i]) {
        assert Lower(a)[i] == Lower(b)[i];
      }
    }
  }

  lemma SameLowerIff(a: char, b: char)
    ensures LowerChar(a) == LowerChar(b) <==> SameLetter(a, b)
  {
  }

  ghost predicate HasStar(p: string) {
    exists prefix :: p == prefix + "*"
  }

  /** A pattern covers its own text, or, with a star at its end, every continuation of the text before it. */
  ghost predicate Covers(p: string, model: string) {
    if HasStar(p) then IsContinued(p[..|p| - 1], model) else SameLetters(p, model)
  }

  ghost predicate IsContinued(prefix: string, model: string) {
    exists rest :: Continues(prefix, rest, model)
  }

  ghost predicate Continues(prefix: string, rest: string, model: string) {
    SameLetters(model, prefix + rest)
  }

  lemma HasStarIff(p: string)
    ensures HasStar(p) <==> EndsWithStar(p)
  {
    if EndsWithStar(p) {
      assert p == p[..|p| - 1] + "*";
    }
  }

  lemma MatchIffCovers(p: string, model: string)
    ensures MatchesPattern(p, model) <==> Covers(p, model)
  {
    HasStarIff(p);
    SameTextIff(p, model);
    if EndsWithStar(p) {
      var prefix := p[..|p| - 1];
      assert p == prefix + "*";
      StarMatchesContinuations(prefix, model);
      forall rest ensures SameText(model, prefix + rest) <==> Continues(prefix, rest, model) {
        SameTextIff(model, prefix + rest);
      }
    }
  }

  /** A model is in scope exactly when no denied pattern covers it and, if any are listed, an allowed
      one does. */
  lemma InScopeIff(s: Scope, model: string)
    ensures InScope(s, model) <==>
      && (forall p :: p in s.deny ==> !Covers(p, model))
      && (|s.allow| > 0 ==> exists p :: p in s.allow && Covers(p, model))
  {
    AnyIff(s.deny, model);
    AnyIff(s.allow, model);
  }

  lemma AnyIff(patterns: seq<string>, model: string)
    ensures AnyMatches(patterns, model) <==> exists p :: p in patterns && Covers(p, model)
  {
    forall p ensures MatchesPattern(p, model) <==> Covers(p, model) {
      MatchIffCovers(p, model);
    }
    if AnyMatches(patterns, model) {
      var i :| 0 <= i < |patterns| && MatchesPattern(patterns[i], model);
      assert patterns[i] in patterns;
    }
  }

  ghost predicate ListsStar(s: Scope) {
    exists p :: (p in s.allow || p in s.deny) && HasStar(p)
  }

  /** No scope ranks below every scope, and a star anywhere below none at all. */
  lemma SpecificityIff(scope: Option<Scope>)
    ensures Specificity(scope) == 0 <==> scope == None
    ensures Specificity(scope) == 1 <==> scope.Some? && ListsStar(scope.value)
    ensures Specificity(scope) == 2 <==> scope.Some? && !ListsStar(scope.value)
  {
    if scope.Some? {
      var s := scope.value;
      var all := s.allow + s.deny;
      forall p ensures HasStar(p) <==> EndsWithStar(p) {
        HasStarIff(p);
      }
      forall p ensures p in all <==> p in s.allow || p in s.deny {
      }
    }
  }

  // ---------- reading a scope ----------

  /** A pattern as it may be configured: letters, digits and some marks, and a star only at its end and
      only behind something. */
  ghost predicate IsPattern(p: string) {
    && 1 <= |p| <= 128 && p != "*"
    && forall i :: 0 <= i < |p| ==>
         || 'a' <= p[i] <= 'z' || 'A' <= p[i] <= 'Z' || '0' <= p[i] <= '9' || p[i] in "._+:-/"
         || (p[i] == '*' && i == |p| - 1)
  }

  lemma {:induction false} NoStarsIff(p: string)
    ensures Stars(p) == 0 <==> forall i :: 0 <= i < |p| ==> p[i] != '*'
  {
    if p != "" {
      NoStarsIff(p[1..]);
      assert forall i :: 1 <= i < |p| ==> p[i] == p[1..][i - 1];
      assert forall i :: 0 <= i < |p| - 1 ==> p[1..][i] == p[i + 1];
    }
  }

  lemma {:induction false} StarsSnoc(p: string, c: char)
    ensures Stars(p + [c]) == Stars(p) + if c == '*' then 1 else 0
  {
    if p == "" {
      assert (p + [c])[1..] == "";
    } else {
      assert (p + [c])[1..] == p[1..] + [c];
      StarsSnoc(p[1..], c);
    }
  }

  lemma ValidPatternIff(p: string)
    ensures ValidPattern(p) <==> IsPattern(p)
  {
    if p != "" {
      var n := |p| - 1;
      var init := p[..n];
      assert p == init + [p[n]];
      StarsSnoc(init, p[n]);
      NoStarsIff(init);
      assert Stars(init) == 0 <==> forall i :: 0 <= i < n ==> p[i] != '*';
    }
  }

  /** The text in lower case. */
  ghost predicate IsLowered(p: string, out: string) {
    SameLetters(p, out) && forall i :: 0 <= i < |out| ==> !('A' <= out[i] <= 'Z')
  }

  lemma LoweredIff(p: string, out: string)
    ensures out == Lower(p) <==> IsLowered(p, out)
  {
    if IsLowered(p, out) {
      forall i | 0 <= i < |p| ensures out[i] == LowerChar(p[i]) {
        assert SameLetter(p[i], out[i]);
      }
      assert out == Lower(p);
    }
  }

  /** The list of a scope: absent, null, or an array of patterns; the patterns are kept in lower case. */
  ghost predicate ListReads(x: Option<Json>, out: seq<string>) {
    if x.None? || x.value == Null then out == []
    else x.value.Arr? && ItemsRead(x.value.items, out)
  }

  ghost predicate ItemsRead(items: seq<Json>, out: seq<string>) {
    |items| == |out| && forall i :: 0 <= i < |items| ==> ItemReads(items[i], out[i])
  }

  ghost predicate ItemReads(item: Json, out: string) {
    item.Str? && IsPattern(item.text) && IsLowered(item.text, out)
  }

  lemma {:induction false} PatternsIff(items: seq<Json>, out: seq<string>)
    ensures ParsePatterns(items) == Ok(out) <==> ItemsRead(items, out)
  {
    PatternsLength(items);
    if items != [] && |out| == |items| {
      var n := |items| - 1;
      PatternsIff(items[..n], out[..n]);
      OneMoreItem(items, out);
      OneMorePattern(ParsePatterns(items[..n]), items[n], out);
    }
  }

  lemma OneMoreItem(items: seq<Json>, out: seq<string>)
    requires items != [] && |out| == |items|
    ensures
      var n := |items| - 1;
      ItemsRead(items, out) <==> ItemsRead(items[..n], out[..n]) && ItemReads(items[n], out[n])
  {
  }

  function Joined(before: Parsed<seq<string>>, item: Json): Parsed<seq<string>> {
    if before.Err? || !item.Str? || !ValidPattern(item.text) then Err else Ok(before.value + [Lower(item.text)])
  }

  lemma OneMorePattern(before: Parsed<seq<string>>, item: Json, out: seq<string>)
    requires out != []
    ensures
      var n := |out| - 1;
      Joined(before, item) == Ok(out) <==> before == Ok(out[..n]) && ItemReads(item, out[n])
  {
    var n := |out| - 1;
    if item.Str? {
      ValidPatternIff(item.text);
      LoweredIff(item.text, out[n]);
      if before.Ok? {
        SameSnoc(before.value, Lower(item.text), out);
      }
    }
  }

  lemma SameSnoc(init: seq<string>, last: string, out: seq<string>)
    requires out != []
    ensures init + [last] == out <==> init == out[..|out| - 1] && last == out[|out| - 1]
  {
    if init + [last] == out {
      assert (init + [last])[..|init|] == init;
    }
  }

  lemma {:induction false} PatternsLength(items: seq<Json>)
    ensures ParsePatterns(items).Ok? ==> |ParsePatterns(items).value| == |items|
  {
    if items != [] {
      PatternsLength(items[..|items| - 1]);
    }
  }

  lemma ListIff(v: Json, key: string, out: seq<string>)
    requires v.Obj?
    ensures ParseList(v.fields, key) == Ok(out) <==> ListReads(Get(v, key), out)
  {
    match Get(v, key)
    case Some(Arr(items)) => PatternsIff(items, out);
    case _ =>
  }

  /** A configured scope is accepted exactly when it is an object of the two lists, which together hold
      at most 32 patterns and none of them in common; it then consists of those lists. */
  lemma ScopeIff(v: Json, s: Scope)
    ensures ParseScope(Some(v)) == Ok(Some(s)) <==>
      && v.Obj? && (forall f :: f in v.fields ==> f.key == "allow" || f.key == "deny")
      && ListReads(Get(v, "allow"), s.allow) && ListReads(Get(v, "deny"), s.deny)
      && 1 <= |s.allow| + |s.deny| <= 32
      && forall p :: p in s.allow ==> p !in s.deny
  {
    if v.Obj? {
      ListIff(v, "allow", s.allow);
      ListIff(v, "deny", s.deny);
    }
  }

  /** And none at all exactly when it is absent, null, or an object of two empty lists. */
  lemma NoScopeIff(v: Option<Json>)
    ensures ParseScope(v) == Ok(None) <==>
      || v == None || v == Some(Null)
      || (&& v.Some? && v.value.Obj? && (forall f :: f in v.value.fields ==> f.key == "allow" || f.key == "deny")
          && ListReads(Get(v.value, "allow"), []) && ListReads(Get(v.value, "deny"), []))
  {
    if v.Some? && v.value.Obj? {
      ListIff(v.value, "allow", []);
      ListIff(v.value, "deny", []);
    }
  }

  // ---------- active windows ----------

  /** How long after `from` the clock shows `to`, on a day of the given length. */
  function Until(day: nat, from: int, to: int): int {
    if to >= from then to - from else to - from + day
  }

  /** A window with two different ends is the stretch of the day that begins at its start and is over
      at its end, across midnight or not; otherwise it is the whole day. */
  lemma WindowIsStretch(start: Option<int>, end: Option<int>, now: int, day: nat)
    requires 0 <= now < day
    requires start.Some? ==> 0 <= start.value < day
    requires end.Some? ==> 0 <= end.value < day
    ensures WithinWindow(start, end, now) <==>
      (start.Some? && end.Some? && start != end ==> Until(day, start.value, now) < Until(day, start.value, end.value))
  {
  }

  // ---------- the choice ----------

  /** The plan applies: its window is on, and its scope, if there is a model to judge, has the model in it. */
  ghost predicate Applies(p: Plan, now: int, model: Option<string>) {
    && WithinWindow(p.activeStart, p.activeEnd, now)
    && (p.scope.None? || model.None? || InScope(p.scope.value, model.value))
  }

  /** The plan `p` goes before `q`. */
  ghost predicate GoesBefore(p: Plan, q: Plan, model: Option<string>) {
    if model.Some? && Specificity(p.scope) != Specificity(q.scope) then Specificity(p.scope) > Specificity(q.scope)
    else if p.priority != q.priority then p.priority > q.priority
    else p.planId > q.planId
  }

  /** The exact choice: a plan of the user that applies and that no other applying one goes before;
      none exactly when none applies. */
  lemma ChosenIff(plans: seq<Plan>, now: int, model: Option<string>)
    ensures
      match Resolve(plans, now, model)
      case None => forall q :: q in plans ==> !Applies(q, now, model)
      case Some(p) =>
        && p in plans && Applies(p, now, model)
        && forall q :: q in plans && Applies(q, now, model) ==> !GoesBefore(q, p, model)
  {
    ChosenDominates(plans, now, model);
  }

  /** With distinct ids only one plan can be chosen. */
  lemma OnlyOneIsChosen(plans: seq<Plan>, now: int, model: Option<string>, p: Plan)
    requires forall q, r :: q in plans && r in plans && q.planId == r.planId ==> q == r
    ensures Resolve(plans, now, model) == Some(p) <==>
      && p in plans && Applies(p, now, model)
      && forall q :: q in plans && Applies(q, now, model) ==> !GoesBefore(q, p, model)
  {
    ChosenIff(plans, now, model);
  }
}

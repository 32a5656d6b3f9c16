/**
 The canonical form of tool permissions. Names, modes and scopes are values; a target is the rank of its string
 in byte order, since only its order and equality matter; normalizing a URL is an arbitrary idempotent function.
 */
module ToolPolicy {
  import opened Wrappers

  datatype Matcher = ExactUrl | Origin | OtherMatcher(name: nat)

  datatype Mode = Allow | Ask | OtherMode(name: nat)

  datatype Rule = Rule(matcher: Matcher, target: int, mode: Mode)

  /** scope 0 is the empty scope. */
  datatype Permission = Permission(tool: string, mode: Mode, scope: nat, rules: seq<Rule>)

  datatype Definition = Definition(name: string, scopes: seq<nat>, matchers: seq<Matcher>)

  /** NormalizeURLTarget; None is its error. */
  type Normalizer = (Matcher, int) -> Option<int>

  ghost predicate Idempotent(norm: Normalizer) {
    forall m, t :: norm(m, t).Some? ==> norm(m, norm(m, t).value) == norm(m, t)
  }

  predicate ValidMode(mode: Mode) {
    mode == Allow || mode == Ask
  }

  // Sequences without repetition

  /** No two rules are for the same matcher and target. */
  predicate DistinctKeys(rules: seq<Rule>) {
    forall i, j :: 0 <= i < j < |rules| ==> !SameKey(rules[i], rules[j])
  }

  predicate SameKey(a: Rule, b: Rule) {
    a.matcher == b.matcher && a.target == b.target
  }

  function Rank(m: Matcher): int {
    match m
    case ExactUrl => 0
    case Origin => 1
    case OtherMatcher(n) => 2 + n
  }

  predicate Before(a: Rule, b: Rule) {
    Rank(a.matcher) < Rank(b.matcher) || (Rank(a.matcher) == Rank(b.matcher) && a.target < b.target)
  }

  predicate Sorted(rules: seq<Rule>) {
    forall i, j :: 0 <= i < j < |rules| ==> Before(rules[i], rules[j])
  }

  function Insert(rule: Rule, sorted: seq<Rule>): (r: seq<Rule>)
    ensures multiset(r) == multiset(sorted) + multiset{rule}
  {
    if sorted == [] then [rule]
    else if Before(rule, sorted[0]) then [rule] + sorted
    else
      assert sorted == [sorted[0]] + sorted[1..];
      [sorted[0]] + Insert(rule, sorted[1..])
  }

  /** slices.SortFunc by matcher and target. */
  function Sort(rules: seq<Rule>): (r: seq<Rule>)
    ensures multiset(r) == multiset(rules)
  {
    if rules == [] then []
    else
      assert rules == [rules[0]] + rules[1..];
      Insert(rules[0], Sort(rules[1..]))
  }

  lemma {:induction false} InsertKeepsSorted(rule: Rule, sorted: seq<Rule>)
    requires Sorted(sorted) && forall s :: s in sorted ==> !SameKey(rule, s)
    ensures Sorted(Insert(rule, sorted))
  {
    if sorted != [] && !Before(rule, sorted[0]) {
      var rest := sorted[1..];
      InsertKeepsSorted(rule, rest);
      var r := Insert(rule, rest);
      assert sorted[0] in sorted;
      assert Before(sorted[0], rule);
      forall k | 0 <= k < |r|
        ensures Before(sorted[0], r[k])
      {
        assert r[k] in multiset(r);
        if r[k] != rule {
          assert r[k] in multiset(rest);
          var j :| 0 <= j < |rest| && rest[j] == r[k];
          assert sorted[j + 1] == r[k];
        }
      }
    }
  }

  lemma {:induction false} SortIsSorted(rules: seq<Rule>)
    requires DistinctKeys(rules)
    ensures Sorted(Sort(rules))
  {
    if rules != [] {
      SortIsSorted(rules[1..]);
      forall s | s in Sort(rules[1..])
        ensures !SameKey(rules[0], s)
      {
        assert s in multiset(Sort(rules[1..]));
      }
      InsertKeepsSorted(rules[0], Sort(rules[1..]));
    }
  }

  predicate SameElements(a: seq<Rule>, b: seq<Rule>) {
    (forall x :: x in a ==> x in b) && (forall x :: x in b ==> x in a)
  }

  lemma TailsHaveSameElements(a: seq<Rule>, b: seq<Rule>)
    requires Sorted(a) && Sorted(b) && a != [] && b != [] && SameElements(a, b)
    ensures a[0] == b[0] && SameElements(a[1..], b[1..])
  {
    assert a[0] in b && b[0] in a;
    TailElements(a);
    TailElements(b);
  }

  lemma TailElements(a: seq<Rule>)
    requires Sorted(a) && a != []
    ensures forall x :: x in a[1..] <==> x in a && x != a[0]
  {
  }

  lemma EmptyTogether(a: seq<Rule>, b: seq<Rule>)
    requires SameElements(a, b)
    ensures |a| == 0 <==> |b| == 0
  {
    assert |a| > 0 ==> a[0] in a;
    assert |b| > 0 ==> b[0] in b;
  }

  /** There is only one way to sort given rules. */
  lemma {:induction false} SortedIsUnique(a: seq<Rule>, b: seq<Rule>)
    requires Sorted(a) && Sorted(b) && SameElements(a, b)
    ensures a == b
  {
    if a == [] || b == [] {
      EmptyTogether(a, b);
    } else {
      TailsHaveSameElements(a, b);
      SortedIsUnique(a[1..], b[1..]);
      assert a == [a[0]] + a[1..] && b == [b[0]] + b[1..];
    }
  }

  lemma SortKeepsElements(a: seq<Rule>)
    ensures SameElements(Sort(a), a)
  {
    forall x
      ensures x in Sort(a) <==> x in multiset(Sort(a))
      ensures x in a <==> x in multiset(a)
    {
    }
  }

  lemma SortOfPermutation(a: seq<Rule>, b: seq<Rule>)
    requires DistinctKeys(a) && DistinctKeys(b) && SameElements(a, b)
    ensures Sort(a) == Sort(b)
  {
    SortIsSorted(a);
    SortIsSorted(b);
    SortKeepsElements(a);
    SortKeepsElements(b);
    SortedIsUnique(Sort(a), Sort(b));
  }

  lemma SortOfSorted(rules: seq<Rule>)
    requires Sorted(rules)
    ensures Sort(rules) == rules
  {
  }

  // One permission

  function CleanRule(rule: Rule, d: Definition, norm: Normalizer): Option<Rule> {
    if rule.matcher in d.matchers && ValidMode(rule.mode) && norm(rule.matcher, rule.target).Some?
    then Some(rule.(target := norm(rule.matcher, rule.target).value))
    else None
  }

  predicate AllClean(rules: seq<Rule>, d: Definition, norm: Normalizer) {
    forall i :: 0 <= i < |rules| ==> CleanRule(rules[i], d, norm).Some?
  }

  function Cleaned(rules: seq<Rule>, d: Definition, norm: Normalizer): (r: seq<Rule>)
    requires AllClean(rules, d, norm)
    ensures |r| == |rules| && forall i :: 0 <= i < |rules| ==> r[i] == CleanRule(rules[i], d, norm).value
  {
    seq(|rules|, i requires 0 <= i < |rules| => CleanRule(rules[i], d, norm).value)
  }

  predicate RulesOk(rules: seq<Rule>, d: Definition, norm: Normalizer) {
    AllClean(rules, d, norm) && DistinctKeys(Cleaned(rules, d, norm))
  }

  predicate ScopeOk(scope: nat, d: Definition) {
    if d.scopes == [] then scope == 0 else scope in d.scopes
  }

  predicate PermissionOk(p: Permission, d: Definition, norm: Normalizer) {
    p.tool == d.name && ValidMode(p.mode) && ScopeOk(p.scope, d) && RulesOk(p.rules, d, norm)
  }

  function Normal(p: Permission, d: Definition, norm: Normalizer): Permission
    requires PermissionOk(p, d, norm)
  {
    p.(rules := Sort(Cleaned(p.rules, d, norm)))
  }

  /** The loop over the target rules of one permission. */
  method NormalizeRules(rules: seq<Rule>, d: Definition, norm: Normalizer) returns (r: Option<seq<Rule>>)
    ensures r.Some? <==> RulesOk(rules, d, norm)
    ensures r.Some? ==> r.value == Sort(Cleaned(rules, d, norm))
  {
    var normalized: seq<Rule>, seen: set<(Matcher, int)> := [], {};
    for i := 0 to |rules|
      invariant AllClean(rules[..i], d, norm) && normalized == Cleaned(rules[..i], d, norm)
      invariant DistinctKeys(normalized)
      invariant forall k :: 0 <= k < i ==> (normalized[k].matcher, normalized[k].target) in seen
      invariant forall key :: key in seen ==> exists k :: 0 <= k < i && key == (normalized[k].matcher, normalized[k].target)
    {
      var clean := CleanRule(rules[i], d, norm);
      if clean.None? {
        return None;
      }
      var key := (clean.value.matcher, clean.value.target);
      if key in seen {
        var k :| 0 <= k < i && key == (normalized[k].matcher, normalized[k].target);
        assert AllClean(rules, d, norm) ==> SameKey(Cleaned(rules, d, norm)[k], Cleaned(rules, d, norm)[i]);
        return None;
      }
      seen := seen + {key};
      normalized := normalized + [clean.value];
    }
    assert rules[..|rules|] == rules;
    return Some(Sort(normalized));
  }

  // All permissions

  predicate DistinctNames(ds: seq<Definition>) {
    forall i, j :: 0 <= i < j < |ds| ==> ds[i].name != ds[j].name
  }

  predicate DistinctTools(ps: seq<Permission>) {
    forall i, j :: 0 <= i < j < |ps| ==> ps[i].tool != ps[j].tool
  }

  /** DefinitionFor; |ds| when there is none. */
  function DefinitionIndex(ds: seq<Definition>, tool: string): (i: nat)
    ensures i <= |ds|
    ensures i < |ds| ==> ds[i].name == tool
    ensures i == |ds| ==> forall k :: 0 <= k < |ds| ==> ds[k].name != tool
  {
    if ds == [] || ds[0].name == tool then 0 else 1 + DefinitionIndex(ds[1..], tool)
  }

  predicate KnownAndOk(p: Permission, ds: seq<Definition>, norm: Normalizer) {
    var i := DefinitionIndex(ds, p.tool);
    i < |ds| && PermissionOk(p, ds[i], norm)
  }

  /** What NormalizePermissions accepts: as many permissions as tools, none twice, each in order. */
  predicate Acceptable(ps: seq<Permission>, ds: seq<Definition>, norm: Normalizer) {
    && |ps| == |ds|
    && DistinctTools(ps)
    && forall i :: 0 <= i < |ps| ==> KnownAndOk(ps[i], ds, norm)
  }

  /** The result has the tools in the order of their definitions, each with the normal form of its permission. */
  predicate Canonical(result: seq<Permission>, ps: seq<Permission>, ds: seq<Definition>, norm: Normalizer) {
    && |result| == |ds|
    && forall i :: 0 <= i < |ds| ==> Represents(result[i], ps, ds[i], norm)
  }

  predicate Represents(r: Permission, ps: seq<Permission>, d: Definition, norm: Normalizer) {
    exists k :: 0 <= k < |ps| && PermissionOk(ps[k], d, norm) && r == Normal(ps[k], d, norm)
  }

  datatype Failure = WrongCount | Unacceptable | Missing

  function ToolsOf(ps: seq<Permission>): set<string> {
    set i | 0 <= i < |ps| :: ps[i].tool
  }

  function NamesOf(ds: seq<Definition>): set<string> {
    set i | 0 <= i < |ds| :: ds[i].name
  }

  lemma {:induction false} ToolsAreCounted(ps: seq<Permission>)
    requires DistinctTools(ps)
    ensures |ToolsOf(ps)| == |ps|
  {
    if ps != [] {
      var n := |ps| - 1;
      ToolsAreCounted(ps[..n]);
      assert ToolsOf(ps) == ToolsOf(ps[..n]) + {ps[n].tool};
    }
  }

  lemma {:induction false} NamesAreCounted(ds: seq<Definition>)
    ensures |NamesOf(ds)| <= |ds|
  {
    if ds != [] {
      var n := |ds| - 1;
      NamesAreCounted(ds[..n]);
      assert NamesOf(ds) == NamesOf(ds[..n]) + {ds[n].name};
    }
  }

  lemma SubsetOfSameSize(a: set<string>, b: set<string>)
    requires a <= b && |b| <= |a|
    ensures a == b
  {
    assert b == a + (b - a);
    assert |b| == |a| + |b - a|;
  }

  /** As many permissions as tools, none unknown and none twice: then by counting no tool is missing. */
  lemma NothingIsMissing(ps: seq<Permission>, ds: seq<Definition>, norm: Normalizer, i: nat)
    requires Acceptable(ps, ds, norm) && i < |ds|
    ensures exists k :: 0 <= k < |ps| && ps[k].tool == ds[i].name
  {
    ToolsAreCounted(ps);
    NamesAreCounted(ds);
    forall tool | tool in ToolsOf(ps)
      ensures tool in NamesOf(ds)
    {
      var k :| 0 <= k < |ps| && ps[k].tool == tool;
      assert KnownAndOk(ps[k], ds, norm);
      assert ds[DefinitionIndex(ds, tool)].name == tool;
    }
    SubsetOfSameSize(ToolsOf(ps), NamesOf(ds));
    assert ds[i].name in ToolsOf(ps);
  }

  // What acceptance and result mean, without the steps that lead to them

  /** A rule in the result is one that was given, its target normalized. */
  predicate Stems(r: Rule, given: Rule, norm: Normalizer) {
    r.matcher == given.matcher && r.mode == given.mode && norm(given.matcher, given.target) == Some(r.target)
  }

  predicate IsGiven(r: Rule, given: seq<Rule>, norm: Normalizer) {
    exists k :: 0 <= k < |given| && Stems(r, given[k], norm)
  }

  predicate IsKept(given: Rule, rules: seq<Rule>, norm: Normalizer) {
    exists i :: 0 <= i < |rules| && Stems(rules[i], given, norm)
  }

  /** The permission in the result is the one given for the tool: the same mode and scope, and the same rules. */
  predicate Says(r: Permission, given: Permission, d: Definition, norm: Normalizer) {
    && r.tool == given.tool == d.name && r.mode == given.mode && r.scope == given.scope
    && |r.rules| == |given.rules|
    && (forall rule :: rule in r.rules ==> IsGiven(rule, given.rules, norm))
    && (forall rule :: rule in given.rules ==> IsKept(rule, r.rules, norm))
    && Sorted(r.rules)
  }

  predicate SaysSome(r: Permission, ps: seq<Permission>, d: Definition, norm: Normalizer) {
    exists k :: 0 <= k < |ps| && Says(r, ps[k], d, norm)
  }

  predicate RuleFits(rule: Rule, d: Definition, norm: Normalizer) {
    rule.matcher in d.matchers && (rule.mode == Allow || rule.mode == Ask) && norm(rule.matcher, rule.target).Some?
  }

  /** Two rules for what is one target once normalized. */
  predicate Clash(a: Rule, b: Rule, norm: Normalizer) {
    a.matcher == b.matcher && norm(a.matcher, a.target) == norm(b.matcher, b.target)
  }

  predicate Fits(p: Permission, d: Definition, norm: Normalizer) {
    && p.tool == d.name && (p.mode == Allow || p.mode == Ask)
    && (p.scope in d.scopes || (d.scopes == [] && p.scope == 0))
    && (forall i :: 0 <= i < |p.rules| ==> RuleFits(p.rules[i], d, norm))
    && forall i, j :: 0 <= i < j < |p.rules| ==> !Clash(p.rules[i], p.rules[j], norm)
  }

  predicate FitsSome(p: Permission, ds: seq<Definition>, norm: Normalizer) {
    exists j :: 0 <= j < |ds| && Fits(p, ds[j], norm)
  }

  /** One fitting permission for every tool. */
  predicate Complete(ps: seq<Permission>, ds: seq<Definition>, norm: Normalizer) {
    && |ps| == |ds|
    && (forall i, j :: 0 <= i < j < |ps| ==> ps[i].tool != ps[j].tool)
    && forall i :: 0 <= i < |ps| ==> FitsSome(ps[i], ds, norm)
  }

  lemma RulesOkMeans(p: Permission, d: Definition, norm: Normalizer)
    ensures PermissionOk(p, d, norm) <==> Fits(p, d, norm)
  {
    forall i | 0 <= i < |p.rules|
      ensures CleanRule(p.rules[i], d, norm).Some? <==> RuleFits(p.rules[i], d, norm)
    {
    }
    if AllClean(p.rules, d, norm) {
      var c := Cleaned(p.rules, d, norm);
      forall i, j | 0 <= i < j < |p.rules|
        ensures SameKey(c[i], c[j]) <==> Clash(p.rules[i], p.rules[j], norm)
      {
      }
    }
  }

  lemma AcceptableMeans(ps: seq<Permission>, ds: seq<Definition>, norm: Normalizer)
    requires DistinctNames(ds)
    ensures Acceptable(ps, ds, norm) <==> Complete(ps, ds, norm)
  {
    forall i | 0 <= i < |ps|
      ensures KnownAndOk(ps[i], ds, norm) <==> FitsSome(ps[i], ds, norm)
    {
      forall j | 0 <= j < |ds|
        ensures PermissionOk(ps[i], ds[j], norm) <==> Fits(ps[i], ds[j], norm)
      {
        RulesOkMeans(ps[i], ds[j], norm);
      }
    }
  }

  lemma SortKeepsLength(rules: seq<Rule>)
    ensures |Sort(rules)| == |rules|
  {
    assert |multiset(Sort(rules))| == |multiset(rules)|;
  }

  lemma CleanedIsGiven(rules: seq<Rule>, d: Definition, norm: Normalizer, rule: Rule)
    requires AllClean(rules, d, norm) && rule in Cleaned(rules, d, norm)
    ensures IsGiven(rule, rules, norm)
  {
    var k :| 0 <= k < |rules| && Cleaned(rules, d, norm)[k] == rule;
    assert Stems(rule, rules[k], norm);
  }

  lemma GivenIsKept(rules: seq<Rule>, d: Definition, norm: Normalizer, k: nat)
    requires AllClean(rules, d, norm) && k < |rules|
    ensures IsKept(rules[k], Sort(Cleaned(rules, d, norm)), norm)
  {
    var c := Cleaned(rules, d, norm);
    SortKeepsElements(c);
    assert c[k] in Sort(c);
    var i :| 0 <= i < |Sort(c)| && Sort(c)[i] == c[k];
    assert Stems(Sort(c)[i], rules[k], norm);
  }

  lemma NormalSays(p: Permission, d: Definition, norm: Normalizer)
    requires PermissionOk(p, d, norm)
    ensures Says(Normal(p, d, norm), p, d, norm)
  {
    var c := Cleaned(p.rules, d, norm);
    SortIsSorted(c);
    SortKeepsLength(c);
    forall rule | rule in Sort(c)
      ensures IsGiven(rule, p.rules, norm)
    {
      SortKeepsElements(c);
      CleanedIsGiven(p.rules, d, norm, rule);
    }
    forall k | 0 <= k < |p.rules|
      ensures IsKept(p.rules[k], Sort(c), norm)
    {
      GivenIsKept(p.rules, d, norm, k);
    }
  }

  lemma CanonicalSays(result: seq<Permission>, ps: seq<Permission>, ds: seq<Definition>, norm: Normalizer)
    requires Canonical(result, ps, ds, norm)
    ensures forall i :: 0 <= i < |ds| ==> SaysSome(result[i], ps, ds[i], norm)
  {
    forall i | 0 <= i < |ds|
      ensures SaysSome(result[i], ps, ds[i], norm)
    {
      assert Represents(result[i], ps, ds[i], norm);
      var k :| 0 <= k < |ps| && PermissionOk(ps[k], ds[i], norm) && result[i] == Normal(ps[k], ds[i], norm);
      NormalSays(ps[k], ds[i], norm);
    }
  }

  /** NormalizePermissions. */
  method NormalizePermissions(ps: seq<Permission>, ds: seq<Definition>, norm: Normalizer)
    returns (r: Result<seq<Permission>, Failure>)
    requires DistinctNames(ds)
    ensures r.Ok? <==> Acceptable(ps, ds, norm)
    ensures r.Ok? <==> Complete(ps, ds, norm)
    ensures r.Ok? ==> Canonical(r.value, ps, ds, norm)
    ensures r.Ok? ==> forall i :: 0 <= i < |ds| ==> SaysSome(r.value[i], ps, ds[i], norm)
    ensures r.Err? ==> r.error == if |ps| != |ds| then WrongCount else Unacceptable
  {
    AcceptableMeans(ps, ds, norm);
    if |ps| != |ds| {
      return Err(WrongCount);
    }
    var byName := Collect(ps, ds, norm);
    if byName.None? {
      return Err(Unacceptable);
    }
    r := Assemble(ps, byName.value, ds, norm);
    CanonicalSays(r.value, ps, ds, norm);
  }

  /** The loop over the permissions. */
  method Collect(ps: seq<Permission>, ds: seq<Definition>, norm: Normalizer) returns (r: Option<map<string, Permission>>)
    requires |ps| == |ds|
    ensures r.Some? <==> Acceptable(ps, ds, norm)
    ensures r.Some? ==> Collected(ps, |ps|, r.value, ds, norm)
  {
    var byName: map<string, Permission> := map[];
    for k := 0 to |ps|
      invariant Collected(ps, k, byName, ds, norm)
    {
      var i := FindDefinition(ds, ps[k].tool);
      if i == |ds| {
        assert !KnownAndOk(ps[k], ds, norm);
        return None;
      }
      if ps[k].tool in byName {
        RepeatedTool(ps, k, byName, ds, norm);
        return None;
      }
      var clean := CleanPermission(ps[k], ds[i], norm);
      if clean.None? {
        assert !KnownAndOk(ps[k], ds, norm);
        return None;
      }
      CollectedNext(ps, k, byName, ds, norm, clean.value);
      byName := byName[ps[k].tool := clean.value];
    }
    CollectedAll(ps, byName, ds, norm);
    return Some(byName);
  }

  /** The loop over the definitions. */
  method Assemble(ps: seq<Permission>, byName: map<string, Permission>, ds: seq<Definition>, norm: Normalizer)
    returns (r: Result<seq<Permission>, Failure>)
    requires DistinctNames(ds) && Acceptable(ps, ds, norm) && Collected(ps, |ps|, byName, ds, norm)
    ensures r.Ok? && Canonical(r.value, ps, ds, norm)
  {
    var result: seq<Permission> := [];
    for i := 0 to |ds|
      invariant |result| == i && forall j :: 0 <= j < i ==> Represents(result[j], ps, ds[j], norm)
    {
      CollectedRepresents(ps, byName, ds, norm, i);
      if ds[i].name !in byName {
        assert false;
        return Err(Missing);
      }
      result := result + [byName[ds[i].name]];
    }
    return Ok(result);
  }

  method FindDefinition(ds: seq<Definition>, tool: string) returns (i: nat)
    ensures i == DefinitionIndex(ds, tool)
  {
    i := 0;
    while i < |ds| && ds[i].name != tool
      invariant i <= |ds| && i + DefinitionIndex(ds[i..], tool) == DefinitionIndex(ds, tool)
    {
      assert ds[i..][1..] == ds[i + 1..];
      i := i + 1;
    }
  }

  method CleanPermission(p: Permission, d: Definition, norm: Normalizer) returns (r: Option<Permission>)
    requires p.tool == d.name
    ensures r == if PermissionOk(p, d, norm) then Some(Normal(p, d, norm)) else None
  {
    if !ValidMode(p.mode) {
      return None;
    }
    if |d.scopes| == 0 {
      if p.scope != 0 {
        return None;
      }
    } else if p.scope !in d.scopes {
      return None;
    }
    var rules := NormalizeRules(p.rules, d, norm);
    if rules.None? {
      return None;
    }
    return Some(p.(rules := rules.value));
  }

  /** The first n permissions are in order and collected, each in normal form under its name. */
  predicate Collected(ps: seq<Permission>, n: nat, byName: map<string, Permission>, ds: seq<Definition>,
    norm: Normalizer)
    requires n <= |ps|
  {
    && DistinctTools(ps[..n])
    && (forall k :: 0 <= k < n ==> CollectedAt(ps[k], byName, ds, norm))
    && byName.Keys == ToolsOf(ps[..n])
  }

  predicate CollectedAt(p: Permission, byName: map<string, Permission>, ds: seq<Definition>, norm: Normalizer) {
    && KnownAndOk(p, ds, norm)
    && p.tool in byName
    && byName[p.tool] == Normal(p, ds[DefinitionIndex(ds, p.tool)], norm)
  }

  lemma CollectedNext(ps: seq<Permission>, n: nat, byName: map<string, Permission>, ds: seq<Definition>,
    norm: Normalizer, clean: Permission)
    requires n < |ps| && Collected(ps, n, byName, ds, norm) && ps[n].tool !in byName
    requires KnownAndOk(ps[n], ds, norm) && clean == Normal(ps[n], ds[DefinitionIndex(ds, ps[n].tool)], norm)
    ensures Collected(ps, n + 1, byName[ps[n].tool := clean], ds, norm)
  {
    assert ps[..n + 1] == ps[..n] + [ps[n]];
    OneMoreTool(ps[..n], ps[n]);
    forall k | 0 <= k < n
      ensures CollectedAt(ps[k], byName[ps[n].tool := clean], ds, norm)
    {
      CollectedStays(ps[k], byName, ds, norm, ps[n].tool, clean);
    }
    NowCollected(ps[n], byName, ds, norm, clean);
  }

  lemma NowCollected(p: Permission, byName: map<string, Permission>, ds: seq<Definition>, norm: Normalizer,
    clean: Permission)
    requires KnownAndOk(p, ds, norm) && clean == Normal(p, ds[DefinitionIndex(ds, p.tool)], norm)
    ensures CollectedAt(p, byName[p.tool := clean], ds, norm)
  {
  }

  lemma OneMoreTool(ps: seq<Permission>, p: Permission)
    ensures ToolsOf(ps + [p]) == ToolsOf(ps) + {p.tool}
    ensures DistinctTools(ps) && p.tool !in ToolsOf(ps) ==> DistinctTools(ps + [p])
  {
    var all := ps + [p];
    forall tool | tool in ToolsOf(ps) + {p.tool}
      ensures tool in ToolsOf(all)
    {
      if tool == p.tool {
        assert all[|ps|].tool == tool;
      } else {
        var k :| 0 <= k < |ps| && ps[k].tool == tool;
        assert all[k].tool == tool;
      }
    }
    if p.tool !in ToolsOf(ps) {
      assert forall k :: 0 <= k < |ps| ==> ps[k].tool in ToolsOf(ps);
    }
  }

  lemma CollectedStays(p: Permission, byName: map<string, Permission>, ds: seq<Definition>, norm: Normalizer,
    tool: string, clean: Permission)
    requires CollectedAt(p, byName, ds, norm) && tool !in byName
    ensures CollectedAt(p, byName[tool := clean], ds, norm) && p.tool != tool
  {
  }

  lemma CollectedAll(ps: seq<Permission>, byName: map<string, Permission>, ds: seq<Definition>, norm: Normalizer)
    requires Collected(ps, |ps|, byName, ds, norm) && |ps| == |ds|
    ensures Acceptable(ps, ds, norm)
  {
    assert ps[..|ps|] == ps;
    forall k | 0 <= k < |ps|
      ensures KnownAndOk(ps[k], ds, norm)
    {
      assert CollectedAt(ps[k], byName, ds, norm);
    }
  }

  lemma RepeatedTool(ps: seq<Permission>, n: nat, byName: map<string, Permission>, ds: seq<Definition>,
    norm: Normalizer)
    requires n < |ps| && Collected(ps, n, byName, ds, norm) && ps[n].tool in byName
    ensures !Acceptable(ps, ds, norm)
  {
  }

  lemma CollectedRepresents(ps: seq<Permission>, byName: map<string, Permission>, ds: seq<Definition>,
    norm: Normalizer, i: nat)
    requires Acceptable(ps, ds, norm) && Collected(ps, |ps|, byName, ds, norm) && i < |ds| && DistinctNames(ds)
    ensures ds[i].name in byName && Represents(byName[ds[i].name], ps, ds[i], norm)
  {
    NothingIsMissing(ps, ds, norm, i);
    var k :| 0 <= k < |ps| && ps[k].tool == ds[i].name;
    assert CollectedAt(ps[k], byName, ds, norm);
    assert DefinitionIndex(ds, ps[k].tool) == i;
  }

  // Order does not matter

  predicate SameUpToOrder(p: Permission, q: Permission) {
    p.tool == q.tool && p.mode == q.mode && p.scope == q.scope && multiset(p.rules) == multiset(q.rules)
  }

  lemma {:induction false} TwoPlaces(a: seq<Rule>, rule: Rule) returns (i: nat, j: nat)
    requires multiset(a)[rule] >= 2
    ensures i < j < |a| && a[i] == a[j] == rule
  {
    assert a == [a[0]] + a[1..];
    if a[0] == rule {
      assert rule in multiset(a[1..]);
      var k :| 0 <= k < |a[1..]| && a[1..][k] == rule;
      i, j := 0, k + 1;
    } else {
      i, j := TwoPlaces(a[1..], rule);
      i, j := i + 1, j + 1;
    }
  }

  lemma TwiceIsTwo(b: seq<Rule>, i: nat, j: nat)
    requires i < j < |b| && b[i] == b[j]
    ensures multiset(b)[b[i]] >= 2
  {
    assert b == b[..i] + [b[i]] + b[i + 1..j] + [b[j]] + b[j + 1..];
  }

  /** Whether a key is repeated does not depend on the order of the rules. */
  lemma RulesOkOfPermutation(a: seq<Rule>, b: seq<Rule>, d: Definition, norm: Normalizer)
    requires multiset(a) == multiset(b) && RulesOk(a, d, norm)
    ensures RulesOk(b, d, norm)
  {
    forall i | 0 <= i < |b|
      ensures CleanRule(b[i], d, norm).Some?
    {
      assert b[i] in multiset(a);
    }
    forall i, j | 0 <= i < j < |b|
      ensures !SameKey(Cleaned(b, d, norm)[i], Cleaned(b, d, norm)[j])
    {
      DifferentKeys(a, b, d, norm, i, j);
    }
  }

  lemma DifferentKeys(a: seq<Rule>, b: seq<Rule>, d: Definition, norm: Normalizer, i: nat, j: nat)
    requires multiset(a) == multiset(b) && RulesOk(a, d, norm) && AllClean(b, d, norm) && i < j < |b|
    ensures !SameKey(Cleaned(b, d, norm)[i], Cleaned(b, d, norm)[j])
  {
    var k, l;
    if b[i] == b[j] {
      TwiceIsTwo(b, i, j);
      k, l := TwoPlaces(a, b[i]);
    } else {
      assert b[i] in multiset(a) && b[j] in multiset(a);
      k :| 0 <= k < |a| && a[k] == b[i];
      l :| 0 <= l < |a| && a[l] == b[j];
    }
    var c := Cleaned(a, d, norm);
    assert c[k] == Cleaned(b, d, norm)[i] && c[l] == Cleaned(b, d, norm)[j];
    assert if k < l then !SameKey(c[k], c[l]) else !SameKey(c[l], c[k]);
  }

  lemma CleanedKeepsElements(a: seq<Rule>, b: seq<Rule>, d: Definition, norm: Normalizer, x: Rule)
    requires multiset(a) == multiset(b) && AllClean(a, d, norm) && AllClean(b, d, norm)
    requires x in Cleaned(a, d, norm)
    ensures x in Cleaned(b, d, norm)
  {
    var k :| 0 <= k < |a| && Cleaned(a, d, norm)[k] == x;
    assert a[k] in multiset(b);
    var l :| 0 <= l < |b| && b[l] == a[k];
    assert Cleaned(b, d, norm)[l] == x;
  }

  lemma NormalOfPermutation(p: Permission, q: Permission, d: Definition, norm: Normalizer)
    requires SameUpToOrder(p, q) && PermissionOk(p, d, norm)
    ensures PermissionOk(q, d, norm) && Normal(p, d, norm) == Normal(q, d, norm)
  {
    RulesOkOfPermutation(p.rules, q.rules, d, norm);
    var a, b := Cleaned(p.rules, d, norm), Cleaned(q.rules, d, norm);
    forall x | x in a
      ensures x in b
    {
      CleanedKeepsElements(p.rules, q.rules, d, norm, x);
    }
    forall x | x in b
      ensures x in a
    {
      CleanedKeepsElements(q.rules, p.rules, d, norm, x);
    }
    SortOfPermutation(a, b);
  }

  predicate Matched(p: Permission, qs: seq<Permission>) {
    exists j :: 0 <= j < |qs| && SameUpToOrder(p, qs[j])
  }

  /** The same permissions in another order, their rules in another order. */
  predicate Reordered(ps: seq<Permission>, qs: seq<Permission>) {
    && |ps| == |qs|
    && (forall k :: 0 <= k < |ps| ==> Matched(ps[k], qs))
    && (forall k :: 0 <= k < |qs| ==> Matched(qs[k], ps))
  }

  lemma {:induction false} ToolsAtMost(ps: seq<Permission>)
    ensures |ToolsOf(ps)| <= |ps|
  {
    if ps != [] {
      var n := |ps| - 1;
      ToolsAtMost(ps[..n]);
      assert ToolsOf(ps) == ToolsOf(ps[..n]) + {ps[n].tool};
    }
  }

  lemma {:induction false} DistinctIfCounted(ps: seq<Permission>)
    requires |ToolsOf(ps)| == |ps|
    ensures DistinctTools(ps)
  {
    if ps != [] {
      var n := |ps| - 1;
      ToolsAtMost(ps[..n]);
      assert ToolsOf(ps) == ToolsOf(ps[..n]) + {ps[n].tool};
      assert ps[n].tool !in ToolsOf(ps[..n]);
      DistinctIfCounted(ps[..n]);
      forall i | 0 <= i < n
        ensures ps[i].tool != ps[n].tool
      {
        assert ps[..n][i].tool in ToolsOf(ps[..n]);
      }
    }
  }

  lemma ReorderedTools(ps: seq<Permission>, qs: seq<Permission>)
    requires Reordered(ps, qs)
    ensures ToolsOf(ps) == ToolsOf(qs)
  {
  }

  lemma ReorderedIsAcceptable(ps: seq<Permission>, qs: seq<Permission>, ds: seq<Definition>, norm: Normalizer)
    requires Reordered(ps, qs) && Acceptable(ps, ds, norm)
    ensures Acceptable(qs, ds, norm)
  {
    ReorderedTools(ps, qs);
    ToolsAreCounted(ps);
    DistinctIfCounted(qs);
    forall k | 0 <= k < |qs|
      ensures KnownAndOk(qs[k], ds, norm)
    {
      assert Matched(qs[k], ps);
      var j :| 0 <= j < |ps| && SameUpToOrder(qs[k], ps[j]);
      assert KnownAndOk(ps[j], ds, norm);
      NormalOfPermutation(ps[j], qs[k], ds[DefinitionIndex(ds, ps[j].tool)], norm);
    }
  }

  /** The order of permissions and rules decides neither whether they are accepted nor what the result is. */
  lemma OrderDoesNotMatter(ps: seq<Permission>, qs: seq<Permission>, ds: seq<Definition>, norm: Normalizer,
    r: seq<Permission>, s: seq<Permission>)
    requires Reordered(ps, qs)
    ensures Acceptable(ps, ds, norm) <==> Acceptable(qs, ds, norm)
    ensures Acceptable(ps, ds, norm) && Canonical(r, ps, ds, norm) && Canonical(s, qs, ds, norm) ==> r == s
  {
    if Acceptable(ps, ds, norm) {
      ReorderedIsAcceptable(ps, qs, ds, norm);
    }
    if Acceptable(qs, ds, norm) {
      ReorderedIsAcceptable(qs, ps, ds, norm);
    }
    if Acceptable(ps, ds, norm) && Canonical(r, ps, ds, norm) && Canonical(s, qs, ds, norm) {
      forall i | 0 <= i < |ds|
        ensures r[i] == s[i]
      {
        SameRepresentative(ps, qs, ds[i], norm, r[i], s[i]);
      }
    }
  }

  lemma SameRepresentative(ps: seq<Permission>, qs: seq<Permission>, d: Definition, norm: Normalizer,
    r: Permission, s: Permission)
    requires Reordered(ps, qs) && DistinctTools(qs)
    requires Represents(r, ps, d, norm) && Represents(s, qs, d, norm)
    ensures r == s
  {
    var k :| 0 <= k < |ps| && PermissionOk(ps[k], d, norm) && r == Normal(ps[k], d, norm);
    var l :| 0 <= l < |qs| && PermissionOk(qs[l], d, norm) && s == Normal(qs[l], d, norm);
    assert Matched(ps[k], qs);
    var j :| 0 <= j < |qs| && SameUpToOrder(ps[k], qs[j]);
    assert j == l;
    NormalOfPermutation(ps[k], qs[j], d, norm);
  }

  // Normalizing again changes nothing

  lemma NormalIsNormal(p: Permission, d: Definition, norm: Normalizer)
    requires Idempotent(norm) && PermissionOk(p, d, norm)
    ensures PermissionOk(Normal(p, d, norm), d, norm)
    ensures Normal(Normal(p, d, norm), d, norm) == Normal(p, d, norm)
  {
    var cleaned := Cleaned(p.rules, d, norm);
    var rules := Sort(cleaned);
    SortIsSorted(cleaned);
    forall i | 0 <= i < |rules|
      ensures CleanRule(rules[i], d, norm) == Some(rules[i])
    {
      assert rules[i] in multiset(cleaned);
      var k :| 0 <= k < |cleaned| && cleaned[k] == rules[i];
      assert CleanRule(p.rules[k], d, norm) == Some(rules[i]);
      assert norm(rules[i].matcher, p.rules[k].target).Some?;
    }
    assert Cleaned(rules, d, norm) == rules;
    SortOfSorted(rules);
  }

  /** A result is accepted again, and is its own canonical form. */
  lemma NormalizingIsIdempotent(ps: seq<Permission>, ds: seq<Definition>, norm: Normalizer, r: seq<Permission>)
    requires Idempotent(norm) && DistinctNames(ds) && Canonical(r, ps, ds, norm)
    ensures Acceptable(r, ds, norm) && Canonical(r, r, ds, norm)
  {
    forall i | 0 <= i < |ds|
      ensures r[i].tool == ds[i].name && PermissionOk(r[i], ds[i], norm) && Normal(r[i], ds[i], norm) == r[i]
    {
      assert Represents(r[i], ps, ds[i], norm);
      var k :| 0 <= k < |ps| && PermissionOk(ps[k], ds[i], norm) && r[i] == Normal(ps[k], ds[i], norm);
      NormalIsNormal(ps[k], ds[i], norm);
    }
    forall i | 0 <= i < |r|
      ensures KnownAndOk(r[i], ds, norm) && Represents(r[i], r, ds[i], norm)
    {
      assert DefinitionIndex(ds, r[i].tool) == i;
    }
  }

  // What a URL is confirmed by

  predicate Decides(rule: Rule, matcher: Matcher, target: int) {
    rule.matcher == matcher && rule.target == target
  }

  /** The first loop or the second: the mode of the first rule for the target. */
  method FindRule(rules: seq<Rule>, matcher: Matcher, target: int) returns (mode: Option<Mode>)
    ensures mode.None? <==> forall i :: 0 <= i < |rules| ==> !Decides(rules[i], matcher, target)
    ensures mode.Some? ==> exists i :: 0 <= i < |rules| && Decides(rules[i], matcher, target) && mode.value == rules[i].mode
  {
    for i := 0 to |rules|
      invariant forall k :: 0 <= k < i ==> !Decides(rules[k], matcher, target)
    {
      if Decides(rules[i], matcher, target) {
        return Some(rules[i].mode);
      }
    }
    return None;
  }

  /** ConfirmationForURL. In a canonical permission the rule that decides is the only one for its target. */
  method ConfirmationForUrl(p: Permission, url: int, norm: Normalizer) returns (r: Option<Mode>)
    ensures r.None? <==> norm(ExactUrl, url).None? || norm(Origin, url).None?
    ensures r.Some? ==> ConfirmedBy(p, norm(ExactUrl, url).value, norm(Origin, url).value, r.value)
  {
    var exact := norm(ExactUrl, url);
    if exact.None? {
      return None;
    }
    var origin := norm(Origin, url);
    if origin.None? {
      return None;
    }
    r := FindRule(p.rules, ExactUrl, exact.value);
    if r.Some? {
      return;
    }
    r := FindRule(p.rules, Origin, origin.value);
    if r.Some? {
      return;
    }
    return Some(p.mode);
  }

  predicate HasRule(p: Permission, matcher: Matcher, target: int) {
    exists i :: 0 <= i < |p.rules| && Decides(p.rules[i], matcher, target)
  }

  predicate HasRuleWith(p: Permission, matcher: Matcher, target: int, mode: Mode) {
    exists i :: 0 <= i < |p.rules| && Decides(p.rules[i], matcher, target) && p.rules[i].mode == mode
  }

  /** An exact rule comes before one for the origin, and that before the tool's own mode. */
  predicate ConfirmedBy(p: Permission, exact: int, origin: int, mode: Mode) {
    if HasRule(p, ExactUrl, exact) then HasRuleWith(p, ExactUrl, exact, mode)
    else if HasRule(p, Origin, origin) then HasRuleWith(p, Origin, origin, mode)
    else mode == p.mode
  }

  /** With distinct keys, as in every normalized permission, only one mode can be the answer. */
  lemma ConfirmationIsDetermined(p: Permission, exact: int, origin: int, a: Mode, b: Mode)
    requires DistinctKeys(p.rules)
    requires ConfirmedBy(p, exact, origin, a) && ConfirmedBy(p, exact, origin, b)
    ensures a == b
  {
  }

  /** With distinct keys a rule for the very URL is obeyed, one for its origin if there is none, and else the tool's mode. */
  lemma RulesAreObeyed(p: Permission, exact: int, origin: int, mode: Mode, i: nat)
    requires DistinctKeys(p.rules) && ConfirmedBy(p, exact, origin, mode) && i < |p.rules|
    ensures var rule := p.rules[i];
      && (rule.matcher == ExactUrl && rule.target == exact ==> mode == rule.mode)
      && (rule.matcher == Origin && rule.target == origin ==> mode == rule.mode || HasRuleWith(p, ExactUrl, exact, mode))
      && (mode == p.mode || HasRuleWith(p, ExactUrl, exact, mode) || HasRuleWith(p, Origin, origin, mode))
  {
    var rule := p.rules[i];
    assert Decides(rule, ExactUrl, exact) ==> HasRule(p, ExactUrl, exact);
    assert Decides(rule, Origin, origin) ==> HasRule(p, Origin, origin);
  }
}

/** ADK session state is kept in three scopes, told apart by key prefix in the merged view. */
module StateScopes {
  type State = map<string, string>

  datatype Prefixes = Prefixes(app: string, user: string, temp: string)

  /** The key prefixes of the ADK session package. */
  const ADK: Prefixes := Prefixes("app:", "user:", "temp:")

  /** No key can carry two of the prefixes. */
  predicate Exclusive(p: Prefixes) {
    && p.app != "" && p.user != "" && p.temp != ""
    && p.app[0] != p.user[0] && p.app[0] != p.temp[0] && p.user[0] != p.temp[0]
  }

  predicate HasPrefix(key: string, prefix: string) {
    |prefix| <= |key| && key[..|prefix|] == prefix
  }

  predicate SessionKey(p: Prefixes, key: string) {
    !HasPrefix(key, p.app) && !HasPrefix(key, p.user) && !HasPrefix(key, p.temp)
  }

  datatype Scopes = Scopes(app: State, user: State, session: State)

  lemma Strip(prefix: string, key: string)
    ensures HasPrefix(prefix + key, prefix) && (prefix + key)[|prefix|..] == key
    ensures HasPrefix(key, prefix) ==> prefix + key[|prefix|..] == key
  {
  }

  lemma PrefixesExclude(p: Prefixes, key: string)
    requires Exclusive(p)
    ensures !(HasPrefix(key, p.app) && HasPrefix(key, p.user))
    ensures !(HasPrefix(key, p.app) && HasPrefix(key, p.temp))
    ensures !(HasPrefix(key, p.user) && HasPrefix(key, p.temp))
  {
  }

  /** Two different states differ at some key. */
  lemma Difference(a: State, b: State) returns (key: string)
    requires a != b
    ensures (key in a) != (key in b) || (key in a && a[key] != b[key])
  {
    if k :| k in a && (k !in b || a[k] != b[k]) {
      key := k;
    } else {
      key :| key in b && key !in a;
    }
  }

  function KeysUnder(values: State, prefix: string): set<string> {
    set key | key in values && HasPrefix(key, prefix) :: key[|prefix|..]
  }

  lemma KeyUnder(values: State, prefix: string, key: string)
    ensures key in KeysUnder(values, prefix) <==> prefix + key in values
  {
    Strip(prefix, key);
    if key in KeysUnder(values, prefix) {
      var full :| full in values && HasPrefix(full, prefix) && full[|prefix|..] == key;
      Strip(prefix, full);
    }
    if prefix + key in values {
      assert (prefix + key)[|prefix|..] in KeysUnder(values, prefix);
    }
  }

  /** The entries under a prefix, without it. */
  function Under(values: State, prefix: string): State {
    map key | key in KeysUnder(values, prefix) :: if prefix + key in values then values[prefix + key] else ""
  }

  function WithPrefix(values: State, prefix: string): set<string> {
    set key | key in values :: prefix + key
  }

  lemma KeyWithPrefix(values: State, prefix: string, key: string)
    ensures key in WithPrefix(values, prefix) <==> HasPrefix(key, prefix) && key[|prefix|..] in values
  {
    Strip(prefix, key);
    if key in WithPrefix(values, prefix) {
      var rest :| rest in values && prefix + rest == key;
      Strip(prefix, rest);
    }
    if HasPrefix(key, prefix) && key[|prefix|..] in values {
      assert prefix + key[|prefix|..] in WithPrefix(values, prefix);
    }
  }

  function Prefixed(values: State, prefix: string): State {
    map key | key in WithPrefix(values, prefix) :: values[key[|prefix|..]]
  }

  function Unprefixed(p: Prefixes, values: State): State {
    map key | key in values && SessionKey(p, key) :: values[key]
  }

  function ScopesOf(p: Prefixes, values: State): Scopes {
    Scopes(Under(values, p.app), Under(values, p.user), Unprefixed(p, values))
  }

  /** mergeState. */
  function Merged(p: Prefixes, s: Scopes): State {
    s.session + Prefixed(s.app, p.app) + Prefixed(s.user, p.user)
  }

  lemma UnderOneMore(values: State, prefix: string, key: string, value: string)
    ensures Under(values[key := value], prefix) ==
      if HasPrefix(key, prefix) then Under(values, prefix)[key[|prefix|..] := value] else Under(values, prefix)
  {
    var more := values[key := value];
    var expected :=
      if HasPrefix(key, prefix) then Under(values, prefix)[key[|prefix|..] := value] else Under(values, prefix);
    forall rest: string
      ensures rest in Under(more, prefix) <==> rest in expected
      ensures rest in expected ==> Under(more, prefix)[rest] == expected[rest]
    {
      Strip(prefix, rest);
      Strip(prefix, key);
      KeyUnder(more, prefix, rest);
      KeyUnder(values, prefix, rest);
    }
  }

  lemma UnprefixedOneMore(p: Prefixes, values: State, key: string, value: string)
    ensures Unprefixed(p, values[key := value]) ==
      if SessionKey(p, key) then Unprefixed(p, values)[key := value] else Unprefixed(p, values)
  {
  }

  lemma ScopesOfOneMore(p: Prefixes, values: State, key: string, value: string)
    requires Exclusive(p)
    ensures ScopesOf(p, values[key := value]) ==
      if HasPrefix(key, p.app) then ScopesOf(p, values).(app := ScopesOf(p, values).app[key[|p.app|..] := value])
      else if HasPrefix(key, p.user) then ScopesOf(p, values).(user := ScopesOf(p, values).user[key[|p.user|..] := value])
      else if HasPrefix(key, p.temp) then ScopesOf(p, values)
      else ScopesOf(p, values).(session := ScopesOf(p, values).session[key := value])
  {
    UnderOneMore(values, p.app, key, value);
    UnderOneMore(values, p.user, key, value);
    UnprefixedOneMore(p, values, key, value);
    PrefixesExclude(p, key);
  }

  lemma NothingToSplit(p: Prefixes)
    ensures ScopesOf(p, map[]) == Scopes(map[], map[], map[])
  {
  }

  /** One turn of the loop: the entry goes to the scope its prefix names. */
  method Sorted(p: Prefixes, key: string, value: string, app: State, user: State, session: State)
    returns (app': State, user': State, session': State)
    ensures Scopes(app', user', session') ==
      if HasPrefix(key, p.app) then Scopes(app[key[|p.app|..] := value], user, session)
      else if HasPrefix(key, p.user) then Scopes(app, user[key[|p.user|..] := value], session)
      else if HasPrefix(key, p.temp) then Scopes(app, user, session)
      else Scopes(app, user, session[key := value])
  {
    app', user', session' := app, user, session;
    if HasPrefix(key, p.app) {
      app' := app[key[|p.app|..] := value];
    } else if HasPrefix(key, p.user) {
      user' := user[key[|p.user|..] := value];
    } else if !HasPrefix(key, p.temp) {
      session' := session[key := value];
    }
  }

  function Except(values: State, keys: set<string>): State {
    values - keys
  }

  lemma OneKeyLess(values: State, remaining: set<string>, key: string)
    requires remaining <= values.Keys && key in remaining
    ensures Except(values, remaining - {key}) == Except(values, remaining)[key := values[key]]
  {
  }

  lemma StepOfSplit(p: Prefixes, values: State, remaining: set<string>, key: string)
    requires Exclusive(p) && remaining <= values.Keys && key in remaining
    ensures ScopesOf(p, Except(values, remaining - {key})) ==
      var s := ScopesOf(p, Except(values, remaining));
      if HasPrefix(key, p.app) then s.(app := s.app[key[|p.app|..] := values[key]])
      else if HasPrefix(key, p.user) then s.(user := s.user[key[|p.user|..] := values[key]])
      else if HasPrefix(key, p.temp) then s
      else s.(session := s.session[key := values[key]])
  {
    OneKeyLess(values, remaining, key);
    ScopesOfOneMore(p, Except(values, remaining), key, values[key]);
  }

  /** The entries of a scope are those under its prefix, without it. */
  ghost predicate HoldsUnder(scope: State, values: State, prefix: string) {
    && (forall key: string :: key in scope <==> prefix + key in values)
    && (forall key :: key in scope ==> scope[key] == values[prefix + key])
  }

  /** The session's own entries carry none of the three prefixes, and keep their keys. */
  ghost predicate HoldsRest(scope: State, values: State, p: Prefixes) {
    && (forall key :: key in scope <==> key in values && SessionKey(p, key))
    && (forall key :: key in scope ==> scope[key] == values[key])
  }

  lemma UnderHolds(values: State, prefix: string)
    ensures HoldsUnder(Under(values, prefix), values, prefix)
  {
    forall key: string
      ensures key in Under(values, prefix) <==> prefix + key in values
    {
      KeyUnder(values, prefix, key);
    }
  }

  /** Application entries carry "app:", those of the user "user:", and temporary ones "temp:". */
  lemma AdkPrefixes(key: string, value: string)
    ensures HasPrefix(key, "app:") ==> ScopesOf(ADK, map[key := value]) == Scopes(map[key[4..] := value], map[], map[])
    ensures HasPrefix(key, "user:") ==> ScopesOf(ADK, map[key := value]) == Scopes(map[], map[key[5..] := value], map[])
    ensures HasPrefix(key, "temp:") ==> ScopesOf(ADK, map[key := value]) == Scopes(map[], map[], map[])
  {
    NothingToSplit(ADK);
    PrefixesExclude(ADK, key);
    ScopesOfOneMore(ADK, map[], key, value);
    var values: State := map[];
    assert values[key := value] == map[key := value];
  }

  /** splitState sorts the entries into three new maps; temporary ones go nowhere. */
  method SplitState(p: Prefixes, values: State) returns (app: State, user: State, session: State)
    requires Exclusive(p)
    ensures Scopes(app, user, session) == ScopesOf(p, values)
    ensures HoldsUnder(app, values, p.app) && HoldsUnder(user, values, p.user) && HoldsRest(session, values, p)
  {
    app, user, session := map[], map[], map[];
    var remaining := values.Keys;
    NothingToSplit(p);
    assert Except(values, remaining) == map[];
    while remaining != {}
      invariant remaining <= values.Keys
      invariant Scopes(app, user, session) == ScopesOf(p, Except(values, remaining))
      decreases remaining
    {
      var key :| key in remaining;
      StepOfSplit(p, values, remaining, key);
      app, user, session := Sorted(p, key, values[key], app, user, session);
      remaining := remaining - {key};
    }
    assert Except(values, {}) == values;
    UnderHolds(values, p.app);
    UnderHolds(values, p.user);
  }

  lemma PrefixedOfUnder(values: State, prefix: string, key: string)
    ensures var r := Prefixed(Under(values, prefix), prefix);
      && (key in r <==> HasPrefix(key, prefix) && key in values)
      && (key in r ==> r[key] == values[key])
  {
    KeyWithPrefix(Under(values, prefix), prefix, key);
    if HasPrefix(key, prefix) {
      Strip(prefix, key);
      KeyUnder(values, prefix, key[|prefix|..]);
    }
  }

  lemma MergedOfSplitAt(p: Prefixes, values: State, key: string)
    requires Exclusive(p)
    ensures var merged := Merged(p, ScopesOf(p, values));
      && (key in merged <==> key in values && !HasPrefix(key, p.temp))
      && (key in merged ==> merged[key] == values[key])
  {
    PrefixesExclude(p, key);
    PrefixedOfUnder(values, p.app, key);
    PrefixedOfUnder(values, p.user, key);
  }

  function WithoutTemporary(p: Prefixes, values: State): State {
    map key | key in values && !HasPrefix(key, p.temp) :: values[key]
  }

  /** Splitting and merging returns every entry but the temporary ones. */
  lemma MergeOfSplit(p: Prefixes, values: State)
    requires Exclusive(p)
    ensures Merged(p, ScopesOf(p, values)) == WithoutTemporary(p, values)
  {
    if Merged(p, ScopesOf(p, values)) != WithoutTemporary(p, values) {
      var key := Difference(Merged(p, ScopesOf(p, values)), WithoutTemporary(p, values));
      MergedOfSplitAt(p, values, key);
    }
  }

  /** Merging and splitting returns the three scopes exactly when no session key looks like another scope's. */
  lemma SplitOfMerge(p: Prefixes, s: Scopes)
    requires Exclusive(p)
    ensures ScopesOf(p, Merged(p, s)) == s <==> forall key :: key in s.session ==> SessionKey(p, key)
  {
    if forall key :: key in s.session ==> SessionKey(p, key) {
      SplitOfSeparate(p, s);
    } else {
      var key :| key in s.session && !SessionKey(p, key);
      assert key !in ScopesOf(p, Merged(p, s)).session;
    }
  }

  lemma MergedAt(p: Prefixes, s: Scopes, key: string)
    requires Exclusive(p) && forall k :: k in s.session ==> SessionKey(p, k)
    ensures p.app + key in Merged(p, s) <==> key in s.app
    ensures key in s.app ==> Merged(p, s)[p.app + key] == s.app[key]
    ensures p.user + key in Merged(p, s) <==> key in s.user
    ensures key in s.user ==> Merged(p, s)[p.user + key] == s.user[key]
    ensures SessionKey(p, key) ==> (key in Merged(p, s) <==> key in s.session)
    ensures SessionKey(p, key) && key in s.session ==> Merged(p, s)[key] == s.session[key]
  {
    var asApp, asUser := p.app + key, p.user + key;
    Strip(p.app, key);
    Strip(p.user, key);
    PrefixesExclude(p, asApp);
    PrefixesExclude(p, asUser);
    KeyWithPrefix(s.app, p.app, asApp);
    KeyWithPrefix(s.user, p.user, asApp);
    KeyWithPrefix(s.app, p.app, asUser);
    KeyWithPrefix(s.user, p.user, asUser);
    KeyWithPrefix(s.app, p.app, key);
    KeyWithPrefix(s.user, p.user, key);
  }

  lemma SplitOfSeparateAt(p: Prefixes, s: Scopes, key: string)
    requires Exclusive(p) && forall k :: k in s.session ==> SessionKey(p, k)
    ensures var again := ScopesOf(p, Merged(p, s));
      && (key in again.app <==> key in s.app) && (key in s.app ==> again.app[key] == s.app[key])
      && (key in again.user <==> key in s.user) && (key in s.user ==> again.user[key] == s.user[key])
      && (key in again.session <==> key in s.session) && (key in s.session ==> again.session[key] == s.session[key])
  {
    MergedAt(p, s, key);
    KeyUnder(Merged(p, s), p.app, key);
    KeyUnder(Merged(p, s), p.user, key);
  }

  lemma SplitOfSeparate(p: Prefixes, s: Scopes)
    requires Exclusive(p) && forall key :: key in s.session ==> SessionKey(p, key)
    ensures ScopesOf(p, Merged(p, s)) == s
  {
    var again := ScopesOf(p, Merged(p, s));
    if again.app != s.app {
      var key := Difference(again.app, s.app);
      SplitOfSeparateAt(p, s, key);
    }
    if again.user != s.user {
      var key := Difference(again.user, s.user);
      SplitOfSeparateAt(p, s, key);
    }
    if again.session != s.session {
      var key := Difference(again.session, s.session);
      SplitOfSeparateAt(p, s, key);
    }
  }
}

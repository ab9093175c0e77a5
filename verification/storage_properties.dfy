/**
 Properties of the storage manager that relate several of its operations:
 saving then reading environments, and what saving does to the name index.
 */
module StorageProperties {
  import opened Optional
  import opened Types
  import opened Storage

  /** Every element of a subsequence occurs in the whole. */
  lemma {:induction false} SubsequenceMembers<T>(xs: seq<T>, ys: seq<T>)
    requires IsSubsequence(xs, ys)
    ensures forall x :: x in xs ==> x in ys
    decreases |ys|
  {
    if |xs| > 0 {
      if xs[0] == ys[0] && IsSubsequence(xs[1..], ys[1..]) {
        SubsequenceMembers(xs[1..], ys[1..]);
        assert forall x :: x in xs ==> x == xs[0] || x in xs[1..];
      } else {
        SubsequenceMembers(xs, ys[1..]);
      }
    }
  }

  /** Leaving elements out of a sequence without duplicates cannot create one. */
  lemma {:induction false} SubsequenceDistinct<T>(xs: seq<T>, ys: seq<T>)
    requires IsSubsequence(xs, ys) && Distinct(ys)
    ensures Distinct(xs)
    decreases |ys|
  {
    if |xs| > 0 {
      assert Distinct(ys[1..]) by {
        forall i, j | 0 <= i < j < |ys[1..]|
          ensures ys[1..][i] != ys[1..][j]
        {
          assert ys[1..][i] == ys[i + 1] && ys[1..][j] == ys[j + 1];
        }
      }
      if xs[0] == ys[0] && IsSubsequence(xs[1..], ys[1..]) {
        SubsequenceDistinct(xs[1..], ys[1..]);
        SubsequenceMembers(xs[1..], ys[1..]);
        assert xs[0] !in ys[1..];
        forall i, j | 0 <= i < j < |xs|
          ensures xs[i] != xs[j]
        {
          if i == 0 {
            assert xs[j] == xs[1..][j - 1];
          } else {
            assert xs[i] == xs[1..][i - 1] && xs[j] == xs[1..][j - 1];
          }
        }
      } else {
        SubsequenceDistinct(xs, ys[1..]);
      }
    }
  }

  /** Environments whose stored credentials load back to themselves are reproduced exactly by loading their names. */
  lemma {:induction false} LoadReproduces(secrets: map<string, string>, json: Json, envs: seq<Environment>)
    requires forall e :: e in envs ==> Lookup(secrets, json, e.name) == Some(e.credentials)
    ensures Load(secrets, json, NamesOf(envs)) == envs
    decreases |envs|
  {
    if |envs| > 0 {
      var names := NamesOf(envs);
      assert names[1..] == NamesOf(envs[1..]);
      assert envs[0] in envs;
      assert forall e :: e in envs[1..] ==> e in envs;
      LoadReproduces(secrets, json, envs[1..]);
      assert envs == [envs[0]] + envs[1..];
    }
  }

  /**
   After saving, reading the environments yields the saved environment, and
   every environment read under its name is the saved one.
   */
  lemma SaveThenGet(s: Store, json: Json, env: Environment)
    requires RoundTrips(json, env.credentials)
    ensures env in GetEnvironments(SaveEnvironment(s, json, env), json)
    ensures forall e :: e in GetEnvironments(SaveEnvironment(s, json, env), json) && e.name == env.name ==> e == env
  {
    var s' := SaveEnvironment(s, json, env);
    assert Lookup(s'.secrets, json, env.name) == Some(env.credentials);
    LoadComplete(s'.secrets, json, s'.names);
    LoadSound(s'.secrets, json, s'.names);
  }

  /** Saving one environment keeps every loadable environment of another name. */
  lemma SaveKeepsOthers(s: Store, json: Json, env: Environment, e: Environment)
    requires e in GetEnvironments(s, json) && e.name != env.name
    ensures e in GetEnvironments(SaveEnvironment(s, json, env), json)
  {
    var s' := SaveEnvironment(s, json, env);
    var envs := Upsert(GetEnvironments(s, json), env);
    LoadSound(s.secrets, json, s.names);
    assert e in envs;
    var i :| 0 <= i < |envs| && envs[i] == e;
    assert NamesOf(envs)[i] == e.name;
    assert e.name in s'.names;
    if SecretKey(e.name) == SecretKey(env.name) {
      SecretKeyInjective(e.name, env.name);
    }
    assert Lookup(s'.secrets, json, e.name) == Lookup(s.secrets, json, e.name);
    LoadComplete(s'.secrets, json, s'.names);
  }

  /**
   The new name index is the names of the environments that loaded before,
   in the same order: unchanged when the saved name was among them, and with
   the saved name appended otherwise.
   */
  lemma SaveIndexOrder(s: Store, json: Json, env: Environment)
    ensures var before := NamesOf(GetEnvironments(s, json));
      SaveEnvironment(s, json, env).names
        == if env.name in before then before else before + [env.name]
  {
  }

  /** An index without duplicate names keeps that property across a save. */
  lemma SaveKeepsDistinct(s: Store, json: Json, env: Environment)
    requires Distinct(s.names)
    ensures Distinct(SaveEnvironment(s, json, env).names)
  {
    var before := NamesOf(GetEnvironments(s, json));
    LoadInOrder(s.secrets, json, s.names);
    SubsequenceDistinct(before, s.names);
    if env.name !in before {
      var after := before + [env.name];
      forall i, j | 0 <= i < j < |after|
        ensures after[i] != after[j]
      {
        if j == |before| {
          assert after[i] == before[i];
        }
      }
    }
  }

  /**
   With a duplicate-free index, saving is an upsert on what reading returns:
   the saved environment replaces the one of the same name in place, or is
   appended.
   */
  lemma GetAfterSaveIsUpsert(s: Store, json: Json, env: Environment)
    requires RoundTrips(json, env.credentials)
    requires Distinct(s.names)
    ensures GetEnvironments(SaveEnvironment(s, json, env), json) == Upsert(GetEnvironments(s, json), env)
  {
    var before := GetEnvironments(s, json);
    var s' := SaveEnvironment(s, json, env);
    var envs := Upsert(before, env);
    LoadSound(s.secrets, json, s.names);
    LoadInOrder(s.secrets, json, s.names);
    SubsequenceDistinct(NamesOf(before), s.names);
    forall e | e in envs
      ensures Lookup(s'.secrets, json, e.name) == Some(e.credentials)
    {
      if e.name != env.name {
        if SecretKey(e.name) == SecretKey(env.name) {
          SecretKeyInjective(e.name, env.name);
        }
      }
    }
    LoadReproduces(s'.secrets, json, envs);
  }
}

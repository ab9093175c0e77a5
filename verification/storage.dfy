/**
 The extension's persistent state and the storage manager's operations on it.

 The editor keeps two stores: a secret store (credentials as JSON, one entry
 per environment name) and a global state holding the ordered index of
 environment names, the current environment name and the token cache. Both
 are modelled as values; every operation returns the new state.

 JSON serialization is a parameter (`Json`). Where a property needs parsing
 to undo serialization, it says so with `RoundTrips`.
 */
module Storage {
  import opened Optional
  import opened Types

  const EnvironmentsKey := "auth0.environments"

  /** Serialization of credentials and the parse that may fail on a stored string. */
  datatype Json = Json(stringify: Credentials -> string, parse: string -> Option<Credentials>)

  /**
   Parsing gives back what was serialized, and the serialized text is not
   empty (a JSON object is at least `{}`).
   */
  predicate RoundTrips(json: Json, c: Credentials) {
    json.stringify(c) != "" && json.parse(json.stringify(c)) == Some(c)
  }

  /**
   The persistent state: the secret store, the environment name index, the
   current environment name (undefined until set) and the token cache.
   */
  datatype Store = Store(
    secrets: map<string, string>,
    names: seq<string>,
    current: Option<string>,
    tokens: map<string, StoredToken>)

  /** The empty state of a fresh installation. */
  const Empty := Store(map[], [], None, map[])

  /* ---------------------------------------------------------------------- */
  /* Token cache                                                            */
  /* ---------------------------------------------------------------------- */

  /**
   The cache key: environment, audience and scope joined by `-`, so each
   part can be read back at its position once the part lengths are known.
   */
  function TokenKey(environment: string, audience: string, scope: string): (r: string)
    ensures |r| == |environment| + |audience| + |scope| + 2
    ensures r[..|environment|] == environment && r[|environment|] == '-'
    ensures r[|environment| + 1..|environment| + 1 + |audience|] == audience
    ensures r[|environment| + 1 + |audience|] == '-'
    ensures r[|environment| + |audience| + 2..] == scope
  {
    environment + "-" + audience + "-" + scope
  }

  /** The key a stored token is filed under. */
  function KeyOf(t: StoredToken): string {
    TokenKey(t.environment, t.audience, t.scope)
  }

  function GetStoredTokens(s: Store): map<string, StoredToken> {
    s.tokens
  }

  /**
   Files `t` under its key, overwriting any entry there; every other entry
   and the rest of the state stay as they were.
   */
  function StoreToken(s: Store, t: StoredToken): (s': Store)
    ensures s'.tokens.Keys == s.tokens.Keys + {KeyOf(t)}
    ensures s'.tokens[KeyOf(t)] == t
    ensures forall k :: k in s.tokens && k != KeyOf(t) ==> s'.tokens[k] == s.tokens[k]
    ensures s'.secrets == s.secrets && s'.names == s.names && s'.current == s.current
  {
    s.(tokens := s.tokens[KeyOf(t) := t])
  }

  /** Reference definition of the sweep: the entries whose expiry lies strictly after `now`. */
  function Unexpired(tokens: map<string, StoredToken>, now: int): map<string, StoredToken> {
    map k | k in tokens && tokens[k].expiresAt > now :: tokens[k]
  }

  /**
   The sweep as the storage manager runs it: visit every entry and copy the
   ones that have not expired into a fresh cache.
   */
  method SweepTokens(tokens: map<string, StoredToken>, now: int) returns (valid: map<string, StoredToken>)
    ensures forall k :: k in valid <==> k in tokens && tokens[k].expiresAt > now
    ensures forall k :: k in valid ==> valid[k] == tokens[k]
    ensures valid == Unexpired(tokens, now)
  {
    valid := map[];
    var pending := tokens.Keys;
    while pending != {}
      invariant pending <= tokens.Keys
      invariant forall k :: k in valid <==> k in tokens && k !in pending && tokens[k].expiresAt > now
      invariant forall k :: k in valid ==> valid[k] == tokens[k]
      decreases pending
    {
      var k :| k in pending;
      if tokens[k].expiresAt > now {
        valid := valid[k := tokens[k]];
      }
      pending := pending - {k};
    }
  }

  /**
   Keeps exactly the cache entries that expire strictly after `now`, with
   their values untouched; an entry expiring at `now` is removed.
   */
  function RemoveExpiredTokens(s: Store, now: int): (s': Store)
    ensures forall k :: k in s'.tokens <==> k in s.tokens && s.tokens[k].expiresAt > now
    ensures forall k :: k in s'.tokens ==> s'.tokens[k] == s.tokens[k]
    ensures s'.secrets == s.secrets && s'.names == s.names && s'.current == s.current
  {
    s.(tokens := Unexpired(s.tokens, now))
  }

  /** Sweeping twice at the same instant removes nothing more. */
  lemma RemoveExpiredIdempotent(s: Store, now: int)
    ensures RemoveExpiredTokens(RemoveExpiredTokens(s, now), now) == RemoveExpiredTokens(s, now)
  {
    var once := RemoveExpiredTokens(s, now);
    assert RemoveExpiredTokens(once, now).tokens == once.tokens;
  }

  /**
   Storing a token and sweeping commute when the token has not expired:
   the sweep neither loses the new entry nor keeps an old one it would
   otherwise remove.
   */
  lemma SweepKeepsLiveToken(s: Store, t: StoredToken, now: int)
    requires t.expiresAt > now
    ensures KeyOf(t) in RemoveExpiredTokens(StoreToken(s, t), now).tokens
    ensures RemoveExpiredTokens(StoreToken(s, t), now) == StoreToken(RemoveExpiredTokens(s, now), t)
  {
    var a := RemoveExpiredTokens(StoreToken(s, t), now);
    var b := StoreToken(RemoveExpiredTokens(s, now), t);
    assert a.tokens == b.tokens;
  }

  /* ---------------------------------------------------------------------- */
  /* Environments                                                           */
  /* ---------------------------------------------------------------------- */

  /** The secret-store key of an environment's credentials. */
  function SecretKey(name: string): string {
    EnvironmentsKey + "." + name
  }

  /** Different names never share a secret. */
  lemma SecretKeyInjective(a: string, b: string)
    requires SecretKey(a) == SecretKey(b)
    ensures a == b
  {
    var p := EnvironmentsKey + ".";
    assert SecretKey(a) == p + a && SecretKey(b) == p + b;
    assert a == (p + a)[|p|..];
    assert b == (p + b)[|p|..];
  }

  /**
   The credentials stored for `name`: undefined when the secret is missing,
   empty, or does not parse.
   */
  function Lookup(secrets: map<string, string>, json: Json, name: string): (r: Option<Credentials>)
    ensures (SecretKey(name) !in secrets || secrets[SecretKey(name)] == "") ==> r.None?
    ensures r.Some? ==> SecretKey(name) in secrets && json.parse(secrets[SecretKey(name)]) == r
    ensures SecretKey(name) in secrets && secrets[SecretKey(name)] != "" ==> r == json.parse(secrets[SecretKey(name)])
  {
    var key := SecretKey(name);
    if key in secrets && secrets[key] != "" then json.parse(secrets[key]) else None
  }

  /** The names of `envs`, in order. */
  function NamesOf(envs: seq<Environment>): (names: seq<string>)
    ensures |names| == |envs|
    ensures forall i :: 0 <= i < |envs| ==> names[i] == envs[i].name
  {
    if |envs| == 0 then [] else [envs[0].name] + NamesOf(envs[1..])
  }

  /** No name occurs twice. */
  ghost predicate Distinct<T>(xs: seq<T>) {
    forall i, j :: 0 <= i < j < |xs| ==> xs[i] != xs[j]
  }

  /** `xs` is `ys` with some elements left out, the rest in their order. */
  ghost predicate IsSubsequence<T>(xs: seq<T>, ys: seq<T>)
    decreases |ys|
  {
    |xs| == 0 ||
    (|ys| > 0 && ((xs[0] == ys[0] && IsSubsequence(xs[1..], ys[1..])) || IsSubsequence(xs, ys[1..])))
  }

  /**
   Loads the environments named in `names`, in order, skipping every name
   whose credentials are missing, empty or unparseable. It never fails.
   */
  function Load(secrets: map<string, string>, json: Json, names: seq<string>): seq<Environment> {
    if |names| == 0 then []
    else
      (match Lookup(secrets, json, names[0])
       case Some(c) => [Environment(names[0], c)]
       case None => []) + Load(secrets, json, names[1..])
  }

  /** Every environment loaded is named in the index and carries the credentials its secret parses to. */
  lemma {:induction false} LoadSound(secrets: map<string, string>, json: Json, names: seq<string>)
    ensures forall e :: e in Load(secrets, json, names) ==>
              e.name in names && Lookup(secrets, json, e.name) == Some(e.credentials)
    decreases |names|
  {
    if |names| > 0 {
      LoadSound(secrets, json, names[1..]);
      assert forall n :: n in names[1..] ==> n in names;
    }
  }

  /** Every indexed name whose secret is present, non-empty and parses is loaded. */
  lemma {:induction false} LoadComplete(secrets: map<string, string>, json: Json, names: seq<string>)
    ensures forall n :: n in names && Lookup(secrets, json, n).Some? ==>
              Environment(n, Lookup(secrets, json, n).value) in Load(secrets, json, names)
    decreases |names|
  {
    if |names| > 0 {
      LoadComplete(secrets, json, names[1..]);
      assert forall n :: n in names ==> n == names[0] || n in names[1..];
    }
  }

  /** The names loaded appear in the index in the same order. */
  lemma {:induction false} LoadInOrder(secrets: map<string, string>, json: Json, names: seq<string>)
    ensures IsSubsequence(NamesOf(Load(secrets, json, names)), names)
    decreases |names|
  {
    if |names| > 0 {
      LoadInOrder(secrets, json, names[1..]);
      var rest := Load(secrets, json, names[1..]);
      match Lookup(secrets, json, names[0])
      case Some(c) =>
        var envs := [Environment(names[0], c)] + rest;
        assert Load(secrets, json, names) == envs;
        assert NamesOf(envs)[1..] == NamesOf(rest);
      case None =>
        assert Load(secrets, json, names) == rest;
    }
  }

  /** Every environment whose name is in the index and whose credentials load. */
  function GetEnvironments(s: Store, json: Json): seq<Environment> {
    Load(s.secrets, json, s.names)
  }

  /** Loading distributes over concatenation of indexes: the order of the index is kept. */
  lemma {:induction false} LoadAppend(secrets: map<string, string>, json: Json, a: seq<string>, b: seq<string>)
    ensures Load(secrets, json, a + b) == Load(secrets, json, a) + Load(secrets, json, b)
    decreases |a|
  {
    if |a| == 0 {
      assert a + b == b;
    } else {
      assert (a + b)[0] == a[0];
      assert (a + b)[1..] == a[1..] + b;
      LoadAppend(secrets, json, a[1..], b);
    }
  }

  /** A single name loads to its environment, or to nothing. */
  lemma LoadSingle(secrets: map<string, string>, json: Json, n: string)
    ensures Lookup(secrets, json, n).Some? ==> Load(secrets, json, [n]) == [Environment(n, Lookup(secrets, json, n).value)]
    ensures Lookup(secrets, json, n).None? ==> Load(secrets, json, [n]) == []
  {
    assert [n][1..] == [];
  }

  /** The position of the first environment called `name`, or -1 when there is none. */
  function FindIndex(envs: seq<Environment>, name: string): (i: int)
    ensures -1 <= i < |envs|
    ensures 0 <= i ==> envs[i].name == name && forall j :: 0 <= j < i ==> envs[j].name != name
    ensures i < 0 <==> forall j :: 0 <= j < |envs| ==> envs[j].name != name
  {
    if |envs| == 0 then -1
    else if envs[0].name == name then 0
    else
      var i := FindIndex(envs[1..], name);
      if i < 0 then -1 else i + 1
  }

  /**
   Replaces the first environment with the same name in place, or appends:
   `env` is in the result, every other environment with a different name is
   kept, nothing else is added, and the name sequence is unchanged when the
   name was present and gains the name at its end otherwise.
   */
  function Upsert(envs: seq<Environment>, env: Environment): (r: seq<Environment>)
    ensures env in r
    ensures forall e :: e in r ==> e == env || e in envs
    ensures forall e :: e in envs && e.name != env.name ==> e in r
    ensures env.name in NamesOf(envs) ==> NamesOf(r) == NamesOf(envs)
    ensures env.name !in NamesOf(envs) ==> NamesOf(r) == NamesOf(envs) + [env.name]
    ensures Distinct(NamesOf(envs)) ==> forall e :: e in r && e.name == env.name ==> e == env
  {
    var i := FindIndex(envs, env.name);
    if i >= 0 then
      var r := envs[i := env];
      assert NamesOf(r) == NamesOf(envs);
      r
    else
      var r := envs + [env];
      assert NamesOf(r) == NamesOf(envs) + [env.name];
      r
  }

  /**
   Saves an environment: rebuilds the name index from the environments that
   currently load, upserted with `env`, and writes the serialized
   credentials under the environment's secret key. The token cache and the
   current environment are not touched.
   */
  function SaveEnvironment(s: Store, json: Json, env: Environment): (s': Store)
    ensures s'.secrets.Keys == s.secrets.Keys + {SecretKey(env.name)}
    ensures s'.secrets[SecretKey(env.name)] == json.stringify(env.credentials)
    ensures forall k :: k in s.secrets && k != SecretKey(env.name) ==> s'.secrets[k] == s.secrets[k]
    ensures env.name in s'.names
    ensures forall n :: n in s'.names ==> n == env.name || Lookup(s.secrets, json, n).Some?
    ensures s'.tokens == s.tokens && s'.current == s.current
  {
    LoadSound(s.secrets, json, s.names);
    var envs := Upsert(GetEnvironments(s, json), env);
    s.(secrets := s.secrets[SecretKey(env.name) := json.stringify(env.credentials)],
       names := NamesOf(envs))
  }

  function GetCurrentEnvironment(s: Store): Option<string> {
    s.current
  }

  /** Records `name` as the current environment and changes nothing else. */
  function SetCurrentEnvironment(s: Store, name: string): (s': Store)
    ensures s'.current == Some(name)
    ensures s'.secrets == s.secrets && s'.names == s.names && s'.tokens == s.tokens
  {
    s.(current := Some(name))
  }
}

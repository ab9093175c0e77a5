/**
 Properties of the "generate token" command over all states, times and
 transports: when it asks the user to configure or select an environment,
 when it serves a cached token, and what it caches after a request.
 */
module CommandProperties {
  import opened Optional
  import opened Types
  import opened ClientCredentials
  import opened Storage
  import opened Commands
  import Auth0Client

  /** With no current environment and none saved, the user is asked to configure one and nothing else happens. */
  lemma NoEnvironmentPromptsConfigure(s: Store, json: Json, now: int, post: Transport, pick: Option<nat>)
    requires !Truthy(s.current) && |GetEnvironments(s, json)| == 0
    ensures GenerateToken(s, json, now, post, pick) == Step(PromptConfigure, s, None)
  {
  }

  /**
   With no current environment and exactly one saved, that one is used and
   becomes the current environment.
   */
  lemma SingleEnvironmentBecomesCurrent(s: Store, json: Json, now: int, post: Transport, pick: Option<nat>)
    requires !Truthy(s.current) && |GetEnvironments(s, json)| == 1
    ensures var env := GetEnvironments(s, json)[0];
      && ResolveEnvironment(s, json).Resolved?
      && ResolveEnvironment(s, json).env == env
      && GenerateToken(s, json, now, post, pick).store.current == Some(env.name)
      && (GenerateToken(s, json, now, post, pick).sent.Some?
          ==> GenerateToken(s, json, now, post, pick).sent.value == Auth0Client.TokenRequest(env.credentials, None, None))
  {
  }

  /**
   With several saved environments and no current one, or with a current
   name that is not saved, the quick pick is opened: no request is sent,
   the cache, secrets and index are unchanged, and the state is exactly the
   one the pick leaves, so a dismissed pick changes nothing.
   */
  lemma SelectionNeededSendsNothing(s: Store, json: Json, now: int, post: Transport, pick: Option<nat>)
    requires || (!Truthy(s.current) && |GetEnvironments(s, json)| >= 2)
             || (Truthy(s.current) && s.current.value !in NamesOf(GetEnvironments(s, json)))
    ensures var r := GenerateToken(s, json, now, post, pick);
      && (r.outcome == SelectEnvironment || r.outcome == CurrentNotFound)
      && r.store == PickEnvironment(s, json, pick)
      && (pick.None? ==> r.store == s)
      && r.sent == None
  {
  }

  /**
   Picking a saved environment with a non-empty name settles the choice:
   the next run of the command uses an environment of that name without
   asking again.
   */
  lemma PickThenResolve(s: Store, json: Json, i: nat)
    requires i < |GetEnvironments(s, json)| && GetEnvironments(s, json)[i].name != ""
    ensures var s' := PickEnvironment(s, json, Some(i));
      && ResolveEnvironment(s', json).Resolved?
      && ResolveEnvironment(s', json).env.name == GetEnvironments(s, json)[i].name
      && ResolveEnvironment(s', json).store == s'
  {
    var s' := PickEnvironment(s, json, Some(i));
    assert GetEnvironments(s', json) == GetEnvironments(s, json);
    assert NamesOf(GetEnvironments(s, json))[i] == GetEnvironments(s, json)[i].name;
  }

  /**
   A cached token is served exactly when the entry under the command's key
   expires more than the buffer after `now`; sweeping first never changes
   that answer.
   */
  lemma HitExactlyWhenUsable(s: Store, json: Json, now: int, post: Transport, pick: Option<nat>)
    requires ResolveEnvironment(s, json).Resolved?
    ensures var env := ResolveEnvironment(s, json).env;
      var key := CacheKey(env);
      var r := GenerateToken(s, json, now, post, pick);
      && (r.outcome.Cached? <==> key in s.tokens && Usable(s.tokens[key], now))
      && (r.outcome.Cached? ==> r.outcome.token == s.tokens[key].token && r.sent == None)
      && (!r.outcome.Cached? ==> r.sent == Some(Auth0Client.TokenRequest(env.credentials, None, None)))
  {
  }

  /**
   The hit test is stricter than the sweep: every entry usable at `now`
   survives the sweep at `now`, while an entry expiring within the buffer
   survives but is not usable.
   */
  lemma BufferStricterThanSweep(tokens: map<string, StoredToken>, key: string, now: int)
    requires key in tokens
    ensures Usable(tokens[key], now) ==> key in Unexpired(tokens, now)
    ensures now < tokens[key].expiresAt <= now + ExpiryBufferMs
            ==> key in Unexpired(tokens, now) && !Usable(tokens[key], now)
  {
  }

  /**
   An entry the sweep keeps but that expires within the buffer is a miss:
   the entry is still cached when the request is sent.
   */
  lemma WithinBufferRequests(s: Store, json: Json, now: int, post: Transport, pick: Option<nat>)
    requires ResolveEnvironment(s, json).Resolved?
    requires var key := CacheKey(ResolveEnvironment(s, json).env);
      key in s.tokens && now < s.tokens[key].expiresAt <= now + ExpiryBufferMs
    ensures var key := CacheKey(ResolveEnvironment(s, json).env);
      && key in RemoveExpiredTokens(ResolveEnvironment(s, json).store, now).tokens
      && GenerateToken(s, json, now, post, pick).sent.Some?
  {
  }

  /**
   Whatever the outcome, the cache afterwards holds no entry that expired by
   `now`, except possibly the one just stored for the command's key, and
   every entry under another key that is still valid at `now` is kept as it
   was.
   */
  lemma SweptBeforeLookup(s: Store, json: Json, now: int, post: Transport, pick: Option<nat>)
    requires ResolveEnvironment(s, json).Resolved?
    ensures var r := GenerateToken(s, json, now, post, pick);
      forall k :: k in r.store.tokens ==>
        || k == CacheKey(ResolveEnvironment(s, json).env)
        || (k in s.tokens && r.store.tokens[k] == s.tokens[k] && s.tokens[k].expiresAt > now)
    ensures var r := GenerateToken(s, json, now, post, pick);
      forall k :: k in s.tokens && s.tokens[k].expiresAt > now && k != CacheKey(ResolveEnvironment(s, json).env)
        ==> k in r.store.tokens && r.store.tokens[k] == s.tokens[k]
  {
  }

  /**
   On a miss whose request succeeds, the response's token is returned and
   cached under the key the command looked up, with expiry `now` plus the
   lifetime in milliseconds and the `""`-defaulted audience and scope.
   */
  lemma MissCachesResponse(s: Store, json: Json, now: int, post: Transport, pick: Option<nat>)
    requires ResolveEnvironment(s, json).Resolved?
    requires !GenerateToken(s, json, now, post, pick).outcome.Cached?
    requires post(Auth0Client.TokenRequest(ResolveEnvironment(s, json).env.credentials, None, None)).Ok?
    ensures var env := ResolveEnvironment(s, json).env;
      var response := post(Auth0Client.TokenRequest(env.credentials, None, None)).value;
      var r := GenerateToken(s, json, now, post, pick);
      && r.outcome == Generated(response.accessToken)
      && CacheKey(env) in r.store.tokens
      && r.store.tokens[CacheKey(env)]
         == StoredToken(response.accessToken, now + response.expiresIn * 1000, env.name,
                        OrElse(env.credentials.audience, ""), OrElse(env.credentials.scope, ""))
  {
  }

  /**
   On a miss whose request fails, the failure is reported with the Auth0
   client's message and nothing new is cached under the command's key.
   */
  lemma FailedRequestCachesNothing(s: Store, json: Json, now: int, post: Transport, pick: Option<nat>)
    requires ResolveEnvironment(s, json).Resolved?
    requires !GenerateToken(s, json, now, post, pick).outcome.Cached?
    requires post(Auth0Client.TokenRequest(ResolveEnvironment(s, json).env.credentials, None, None)).Err?
    ensures var env := ResolveEnvironment(s, json).env;
      var e := post(Auth0Client.TokenRequest(env.credentials, None, None)).error;
      var r := GenerateToken(s, json, now, post, pick);
      && (e.isHttpClientError ==> r.outcome == RequestFailed(Wrapped(Auth0Client.FailurePrefix + Detail(e))))
      && (!e.isHttpClientError ==> r.outcome == RequestFailed(Rethrown(e)))
      && r.store == RemoveExpiredTokens(ResolveEnvironment(s, json).store, now)
  {
  }

  /**
   Running the command on its own result resolves the same environment:
   adopting the single environment as current does not change the choice.
   */
  lemma ResolutionStable(s: Store, json: Json, now: int, post: Transport, pick: Option<nat>)
    requires ResolveEnvironment(s, json).Resolved?
    ensures var r := GenerateToken(s, json, now, post, pick);
      && ResolveEnvironment(r.store, json).Resolved?
      && ResolveEnvironment(r.store, json).env == ResolveEnvironment(s, json).env
      && ResolveEnvironment(r.store, json).store == r.store
  {
    var env := ResolveEnvironment(s, json).env;
    var r := GenerateToken(s, json, now, post, pick);
    assert GetEnvironments(r.store, json) == GetEnvironments(s, json);
    if !Truthy(s.current) {
      assert GetEnvironments(s, json) == [env];
      assert r.store.current == Some(env.name);
      if Truthy(r.store.current) {
        assert FindIndex(GetEnvironments(s, json), env.name) == 0;
      } else {
        assert SetCurrentEnvironment(r.store, env.name) == r.store;
      }
    }
  }

  /**
   The round trip of the cache: after a token is generated or served from
   the cache, running the command again at any time more than the buffer
   before that token's expiry serves the same token without sending a
   request, whatever the transport. So a hit never evicts the entry it
   served.
   */
  lemma RepeatServesCachedToken(
    s: Store, json: Json, now: int, post: Transport, pick: Option<nat>,
    later: int, post': Transport, pick': Option<nat>)
    requires ResolveEnvironment(s, json).Resolved?
    requires var o := GenerateToken(s, json, now, post, pick).outcome; o.Generated? || o.Cached?
    requires var r := GenerateToken(s, json, now, post, pick);
      var key := CacheKey(ResolveEnvironment(s, json).env);
      key in r.store.tokens && later + ExpiryBufferMs < r.store.tokens[key].expiresAt
    ensures var r := GenerateToken(s, json, now, post, pick);
      var again := GenerateToken(r.store, json, later, post', pick');
      && again.outcome == Cached(r.outcome.token)
      && again.sent == None
  {
    var env := ResolveEnvironment(s, json).env;
    var r := GenerateToken(s, json, now, post, pick);
    ResolutionStable(s, json, now, post, pick);
    var t := r.store.tokens[CacheKey(env)];
    assert t.token == r.outcome.token;
  }

  /**
   The `-`-joined key is not injective: moving a `-` between the environment
   name and the audience gives the same key.
   */
  lemma KeyNotInjective(environment: string, audience: string, scope: string)
    ensures TokenKey(environment + "-" + audience, scope, "") == TokenKey(environment, audience + "-" + scope, "")
  {
    assert TokenKey(environment + "-" + audience, scope, "") == environment + "-" + audience + "-" + scope + "-";
  }

  /**
   Two distinct environment/audience/scope triples share one cache entry:
   `("a-b", "c", "")` and `("a", "b-c", "")` both give `"a-b-c-"`.
   */
  lemma KeyCollisionExample()
    ensures TokenKey("a-b", "c", "") == TokenKey("a", "b-c", "") == "a-b-c-"
  {
  }

  /**
   A consequence of the collision: a usable token cached for one
   environment is served to another environment whose key collides with it.
   */
  lemma CollidingEntryIsServed(s: Store, json: Json, now: int, post: Transport, pick: Option<nat>, t: StoredToken)
    requires ResolveEnvironment(s, json).Resolved?
    requires KeyOf(t) == CacheKey(ResolveEnvironment(s, json).env)
    requires t.environment != ResolveEnvironment(s, json).env.name
    requires KeyOf(t) in s.tokens && s.tokens[KeyOf(t)] == t && Usable(t, now)
    ensures GenerateToken(s, json, now, post, pick).outcome == Cached(t.token)
  {
  }
}

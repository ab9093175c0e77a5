/**
 The "generate token" command: pick the environment, sweep the token cache,
 reuse a cached token that is comfortably fresh, and otherwise request a new
 one from Auth0 and cache it.

 The command is a pure step from the state, the current time in
 milliseconds, the JSON codec and the HTTP transport to an outcome, the new
 state and the request sent (if any). Notifications and the clipboard
 become outcome tags; the answer to the environment quick pick is a
 parameter.
 */
module Commands {
  import opened Optional
  import opened Types
  import opened ClientCredentials
  import opened Storage
  import Auth0Client

  /** A cached token is reused only while it has more than a minute left. */
  const ExpiryBufferMs := 60000

  /** How the environment to use is chosen. */
  datatype Resolution =
    | NoneConfigured                          // no current environment and none saved
    | Several                                 // no current environment and two or more saved
    | Stale                                   // the current name is not among the saved environments
    | Resolved(env: Environment, store: Store) // the environment, and the state after choosing it

  /** What the user is shown at the end of the command. */
  datatype Outcome =
    | PromptConfigure             // "No Auth0 environments configured", offering to configure
    | SelectEnvironment           // the environment quick pick is opened
    | CurrentNotFound             // "Current environment not found", then the quick pick
    | Cached(token: string)       // a cached token was copied to the clipboard
    | Generated(token: string)    // a new token was copied to the clipboard
    | RequestFailed(failure: Failure)

  /** The outcome, the new state, and the token request sent, if one was. */
  datatype Step = Step(outcome: Outcome, store: Store, sent: Option<Request>)

  /**
   Chooses the environment. Without a current name (undefined or empty) the
   only saved environment is used and becomes current, and with none or
   several saved nothing is chosen. With a current name, the first saved
   environment of that name is used, and nothing is chosen when there is
   none.
   */
  function ResolveEnvironment(s: Store, json: Json): (r: Resolution)
    ensures var envs := GetEnvironments(s, json);
      && (r.NoneConfigured? <==> !Truthy(s.current) && |envs| == 0)
      && (r.Several? <==> !Truthy(s.current) && |envs| >= 2)
      && (r.Stale? <==> Truthy(s.current) && s.current.value !in NamesOf(envs))
      && (r.Resolved? ==> r.env in envs)
      && (r.Resolved? && !Truthy(s.current) ==> envs == [r.env] && r.store == SetCurrentEnvironment(s, r.env.name))
      && (r.Resolved? && Truthy(s.current) ==>
            && r.env.name == s.current.value
            && r.store == s
            && exists i :: 0 <= i < |envs| && envs[i] == r.env && forall j :: 0 <= j < i ==> envs[j].name != r.env.name)
  {
    var envs := GetEnvironments(s, json);
    if !Truthy(s.current) then
      if |envs| == 0 then NoneConfigured
      else if |envs| == 1 then
        assert envs == [envs[0]];
        Resolved(envs[0], SetCurrentEnvironment(s, envs[0].name))
      else Several
    else
      var i := FindIndex(envs, s.current.value);
      if i < 0 then Stale
      else
        Resolved(envs[i], s)
  }

  /** The cache key the command looks up for an environment: undefined or empty audience and scope become `""`. */
  function CacheKey(env: Environment): string {
    TokenKey(env.name, OrElse(env.credentials.audience, ""), OrElse(env.credentials.scope, ""))
  }

  /** The cache entry built from a token response received at `now`. */
  function NewStoredToken(env: Environment, response: TokenResponse, now: int): (t: StoredToken)
    ensures KeyOf(t) == CacheKey(env)
    ensures t.token == response.accessToken && t.environment == env.name
    ensures t.audience == OrElse(env.credentials.audience, "") && t.scope == OrElse(env.credentials.scope, "")
    ensures t.expiresAt - now == response.expiresIn * 1000
  {
    StoredToken(response.accessToken, now + response.expiresIn * 1000, env.name,
                OrElse(env.credentials.audience, ""), OrElse(env.credentials.scope, ""))
  }

  /** A cached entry is reused only when it expires more than the buffer after `now`. */
  predicate Usable(t: StoredToken, now: int) {
    t.expiresAt > now + ExpiryBufferMs
  }

  /** The command, given the environment it resolved and the state after resolving. */
  function Acquire(env: Environment, s: Store, now: int, post: Transport): (r: Step)
    ensures r.store.secrets == s.secrets && r.store.names == s.names && r.store.current == s.current
    ensures r.sent.None? <==> r.outcome.Cached?
    ensures r.sent.Some? ==> r.sent.value == Auth0Client.TokenRequest(env.credentials, None, None)
    ensures r.outcome.Cached? <==> CacheKey(env) in s.tokens && Usable(s.tokens[CacheKey(env)], now)
    ensures r.outcome.Cached? ==> r.outcome.token == s.tokens[CacheKey(env)].token
    ensures forall k :: k in r.store.tokens ==> k == CacheKey(env) || (k in s.tokens && s.tokens[k].expiresAt > now)
    ensures forall k :: k in s.tokens && s.tokens[k].expiresAt > now && k != CacheKey(env)
                        ==> k in r.store.tokens && r.store.tokens[k] == s.tokens[k]
    ensures var sent := Auth0Client.TokenRequest(env.credentials, None, None);
      r.outcome.Generated? ==>
        && post(sent).Ok?
        && r.outcome.token == post(sent).value.accessToken
        && CacheKey(env) in r.store.tokens
        && r.store.tokens[CacheKey(env)] == NewStoredToken(env, post(sent).value, now)
    ensures r.outcome.Cached? ==> r.store == RemoveExpiredTokens(s, now)
    ensures r.sent.Some? && post(r.sent.value).Ok? ==> r.outcome == Generated(post(r.sent.value).value.accessToken)
    ensures r.sent.Some? && post(r.sent.value).Err?
            ==> && r.outcome == RequestFailed(Auth0Client.GenerateToken(env.credentials, None, None, post).error)
                && r.store == RemoveExpiredTokens(s, now)
  {
    var swept := RemoveExpiredTokens(s, now);
    var tokens := GetStoredTokens(swept);
    var key := CacheKey(env);
    if key in tokens && Usable(tokens[key], now) then
      Step(Cached(tokens[key].token), swept, None)
    else
      var request := Auth0Client.TokenRequest(env.credentials, None, None);
      match Auth0Client.GenerateToken(env.credentials, None, None, post)
      case Ok(response) =>
        Step(Generated(response.accessToken), StoreToken(swept, NewStoredToken(env, response, now)), Some(request))
      case Err(failure) =>
        Step(RequestFailed(failure), swept, Some(request))
  }

  /**
   The "select environment" command as the generate command runs it. With no
   saved environment nothing happens; otherwise the user is offered one entry
   per saved environment, labelled with its name, and `pick` is the position
   of the entry chosen, `None` when the pick is dismissed. The chosen label
   becomes the current environment. A position past the list is treated as a
   dismissal, since the quick pick offers no such entry.
   */
  function PickEnvironment(s: Store, json: Json, pick: Option<nat>): (s': Store)
    ensures s'.secrets == s.secrets && s'.names == s.names && s'.tokens == s.tokens
    ensures (pick.None? || |GetEnvironments(s, json)| == 0) ==> s' == s
    ensures (pick.Some? && pick.value < |GetEnvironments(s, json)|)
            ==> s'.current == Some(GetEnvironments(s, json)[pick.value].name)
    ensures s'.current == s.current
            || (s'.current.Some? && s'.current.value in NamesOf(GetEnvironments(s, json)))
  {
    var envs := GetEnvironments(s, json);
    if |envs| == 0 then s
    else if pick.Some? && pick.value < |envs| then
      assert NamesOf(envs)[pick.value] == envs[pick.value].name;
      SetCurrentEnvironment(s, envs[pick.value].name)
    else s
  }

  /**
   The "generate token" command; `pick` answers the environment quick pick
   when the command opens it. The environment name index and the secrets are
   never changed. The current environment changes only when the single saved
   environment is adopted or when the user picks a saved environment, and
   the cache is untouched when the quick pick is opened.
   */
  function GenerateToken(s: Store, json: Json, now: int, post: Transport, pick: Option<nat>): (r: Step)
    ensures r.store.secrets == s.secrets && r.store.names == s.names
    ensures || r.store.current == s.current
            || (!Truthy(s.current) && |GetEnvironments(s, json)| == 1
                && r.store.current == Some(GetEnvironments(s, json)[0].name))
            || (r.outcome in {SelectEnvironment, CurrentNotFound}
                && r.store.current.Some? && r.store.current.value in NamesOf(GetEnvironments(s, json)))
    ensures r.outcome in {SelectEnvironment, CurrentNotFound} ==> r.store.tokens == s.tokens && r.sent.None?
    ensures r.outcome.Cached? ==> r.sent.None?
  {
    match ResolveEnvironment(s, json)
    case NoneConfigured => Step(PromptConfigure, s, None)
    case Several => Step(SelectEnvironment, PickEnvironment(s, json, pick), None)
    case Stale => Step(CurrentNotFound, PickEnvironment(s, json, pick), None)
    case Resolved(env, s1) => Acquire(env, s1, now, post)
  }
}

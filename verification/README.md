# Auth0 token generator: token cache and client-credentials request model

A Dafny model of the core of an editor extension that obtains OAuth 2.0
client-credentials bearer tokens and caches them.

- **Data model** (`types.dfy`). The model has Auth0 credentials, named
  environments, the token response of section 5.1 of RFC 6749 and the cached
  token record. Optional TypeScript properties become `Option<string>`.
- **JavaScript `||`** (`optional.dfy`). `||` on possibly-undefined strings is
  modelled exactly: an empty string falls back just like `undefined`.
  `FirstTruthy` is an independent reading of a `||` chain, and the clients'
  contracts are stated against it.
- **Token request** (`client_credentials.dfy`, `oauth_client.dfy`,
  `auth0_client.dfy`). This is the access token request of section 4.4.2 of
  RFC 6749. Client id and secret go in the body, as in section 2.3.1. The
  body is sent as JSON with an extra `audience` field. On failure, a message
  is chosen from the `error_description` and `error` fields of section 5.2.
  The HTTP client is a parameter (`Transport`) that returns either the
  response body or the error it throws.
- **Storage manager** (`storage.dfy`, `storage_properties.dfy`). This covers
  the secret store, the ordered environment name index, the current
  environment and the token cache, all as one immutable `Store` value. JSON
  stringify/parse is a parameter (`Json`). Properties that need parsing to
  undo serialization assume `RoundTrips`.
- **"Generate token" command** (`commands.dfy`, `command_properties.dfy`).
  This is a pure step from state, time in milliseconds, codec and transport
  to an outcome, the new state and the request sent (if any). UI
  notifications and the clipboard become outcome tags. The answer to the
  environment quick pick is a parameter: the position picked, or `None` when
  the pick is dismissed.
- **Reachable states** (`reachability.dfy`). Storage starts empty and changes
  only through the actions of the configuration panel and the commands. Every
  state reached this way has a name index without duplicates.

## Model

| member | source | states |
|---|---|---|
| Optional.FirstTruthy | src/oauth-client.ts:32-34 | the first defined non-empty candidate, or the fallback when there is none; the result is always the fallback or one of the candidates |
| Optional.Or | src/oauth-client.ts:17 | `a \|\| b` is the left operand when it is truthy and the right operand otherwise, so it is truthy exactly when either operand is |
| Optional.OrElse | src/oauth-client.ts:19 | `a \|\| d` with a literal fallback is the one-candidate case of `FirstTruthy` |
| Optional.EmptyIsAbsent | src/oauth-client.ts:17 | under `\|\|`, an empty string behaves exactly like `undefined` |
| Optional.OrAssociative | src/oauth-client.ts:32-34 | `\|\|` is associative, so the left-nested chains in the code pick the first truthy operand |
| Optional.OrChainIsFirstTruthy | src/oauth-client.ts:19 | `a \|\| b \|\| d` with a literal fallback equals the first truthy of `a`, `b`, else `d` |
| ClientCredentials.BuildPayload | src/oauth-client.ts:14-20 | grant type is always `client_credentials`; id and secret are copied; audience is the override when non-empty, else the configured audience (possibly undefined); scope is the first non-empty of override and configured scope, else `""` |
| ClientCredentials.Detail | src/oauth-client.ts:32-34 | the error detail is the first non-empty of `error_description` and `error`, else the error's own message (even when empty); both fields count as undefined when no response arrived |
| ClientCredentials.Exchange | src/oauth-client.ts:22-38 | the response body is returned unchanged; an HTTP-client error becomes the prefix followed by the detail; any other error is rethrown unchanged |
| ClientCredentials.EmptyOverrideFallsBack | src/oauth-client.ts:17-19 | an empty-string audience or scope override gives the same payload as no override |
| OAuthClient.TokenRequest | src/oauth-client.ts:12-27 | the request goes to the configured token endpoint verbatim with `Content-Type: application/json` and the client-credentials body |
| OAuthClient.GenerateToken | src/oauth-client.ts:11-39 | on success the transport's body; on an HTTP-client error `"OAuth token generation failed: "` plus the detail; otherwise the original error |
| OAuthClient.ValidateCredentials | src/oauth-client.ts:41-48 | true exactly when the request without overrides succeeds; never an error |
| Auth0Client.TokenEndpoint | src/auth0-client.ts:12 | the endpoint is `https://`, then the domain, then `/oauth/token` |
| Auth0Client.TokenEndpointInjective | src/auth0-client.ts:12 | distinct domains give distinct endpoints |
| Auth0Client.TokenRequest | src/auth0-client.ts:12-27 | the request goes to the domain's endpoint with a JSON content type, and the body follows the same override rules as the generic client |
| Auth0Client.GenerateToken | src/auth0-client.ts:11-39 | as the generic client, but the error prefix is `"Auth0 token generation failed: "` |
| Auth0Client.ValidateCredentials | src/auth0-client.ts:41-48 | true exactly when token generation without overrides succeeds |
| Storage.TokenKey | src/storage-manager.ts:64 | the key is the environment, `-`, the audience, `-`, the scope, each part at its position |
| Storage.StoreToken | src/storage-manager.ts:62-68 | after storing, the entry under `environment-audience-scope` is exactly the token; no key is removed; every other entry and the rest of the state are unchanged |
| Storage.SweepTokens | src/storage-manager.ts:74-86 | the per-entry sweep keeps exactly the entries expiring strictly after `now`, with values unchanged, and equals the reference filter `Unexpired` |
| Storage.RemoveExpiredTokens | src/storage-manager.ts:74-86 | the cache keeps exactly the entries with `expiresAt > now` (an entry expiring at `now` goes); no keys are added, no values altered, nothing else changes |
| Storage.RemoveExpiredIdempotent | src/storage-manager.ts:77-85 | sweeping twice at the same instant equals sweeping once |
| Storage.SweepKeepsLiveToken | src/storage-manager.ts:62-86 | storing an unexpired token commutes with the sweep, and the sweep keeps it |
| Storage.SecretKeyInjective | src/storage-manager.ts:25-28 | distinct environment names have distinct secret keys `auth0.environments.<name>` |
| Storage.Lookup | src/storage-manager.ts:40-47 | a missing or empty secret gives no credentials; a present non-empty secret gives exactly what parsing it gives |
| Storage.NamesOf | src/storage-manager.ts:31 | the name index is the environments' names, position by position |
| Storage.LoadSound | src/storage-manager.ts:35-52 | every environment read has its name in the index and the credentials its secret parses to |
| Storage.LoadComplete | src/storage-manager.ts:39-49 | every indexed name whose secret is present, non-empty and parses is read; reading never fails as a whole, only skips |
| Storage.LoadInOrder | src/storage-manager.ts:39-49 | the names read are a subsequence of the index, in index order |
| Storage.LoadAppend | src/storage-manager.ts:39-49 | reading distributes over concatenation of the index, so index order is kept |
| Storage.LoadSingle | src/storage-manager.ts:40-48 | one name reads to its environment when its secret loads, and to nothing otherwise |
| Storage.FindIndex | src/storage-manager.ts:16 | the index of the first environment with the name, or -1 exactly when none has it |
| Storage.Upsert | src/storage-manager.ts:16-22 | the saved environment is present; other names are kept; an existing name keeps its position; a new name is appended at the end |
| Storage.SaveEnvironment | src/storage-manager.ts:14-33 | the serialized credentials are written under the name's secret key and no other secret changes; the name is in the new index; every other indexed name had loadable credentials, so missing or corrupt ones are dropped; tokens and the current environment are untouched |
| Storage.SetCurrentEnvironment | src/storage-manager.ts:58-60 | the current environment becomes the name; nothing else changes |
| StorageProperties.LoadReproduces | src/storage-manager.ts:35-52 | environments whose secrets load back to themselves are read back exactly by reading their names |
| StorageProperties.SaveThenGet | src/storage-manager.ts:14-52 | given the JSON round trip, a following read contains the saved environment, and every environment read under that name is the saved one |
| StorageProperties.SaveKeepsOthers | src/storage-manager.ts:14-33 | saving keeps every readable environment of another name readable |
| StorageProperties.SaveIndexOrder | src/storage-manager.ts:14-32 | the new index is the names read before, unchanged if the name was among them, else with the name appended |
| StorageProperties.SaveKeepsDistinct | src/storage-manager.ts:15-32 | an index without duplicate names has none after a save |
| StorageProperties.GetAfterSaveIsUpsert | src/storage-manager.ts:14-52 | with a duplicate-free index and the JSON round trip, reading after a save is exactly the upsert of what was read before |
| Commands.ResolveEnvironment | src/commands.ts:18-51 | with no (or an empty) current name: none saved, several saved, or the single one, which becomes current; with a current name: the first saved environment of that name, or stale when there is none |
| Commands.NewStoredToken | src/commands.ts:85-91 | the record built on a miss has the response's token, the environment's name, expiry `now + expires_in*1000`, and the `""`-defaulted audience and scope, so its store key equals the lookup key |
| Commands.Acquire | src/commands.ts:53-102 | a request is sent exactly when no usable cached token exists; a hit serves the cached token and leaves exactly the swept cache; a miss whose request succeeds is `Generated` with the response's `access_token`, stored under the lookup key as the record built from the response; a failed request gives the Auth0 client's failure and leaves the swept cache; entries under other keys still valid at `now` are kept unchanged, and no entry that expired by `now` remains except the one just stored |
| Commands.PickEnvironment | src/commands.ts:114-142 | with no environment or a dismissed pick nothing changes; a picked entry's environment name becomes current; only the current environment can change, and only to a saved name |
| Commands.GenerateToken | src/commands.ts:16-108 | the command never changes secrets or the name index; it changes the current environment only to adopt the single saved one or to a saved name the user picks; when it opens the quick pick, no request is sent and the cache is untouched |
| CommandProperties.NoEnvironmentPromptsConfigure | src/commands.ts:21-33 | no current name and no environments: the outcome is the configure prompt, the state is unchanged and no request is sent |
| CommandProperties.SingleEnvironmentBecomesCurrent | src/commands.ts:35-37 | no current name and exactly one environment: it is used and becomes the current environment |
| CommandProperties.SelectionNeededSendsNothing | src/commands.ts:38-50 | several environments and no current name, or a current name not saved: the quick pick is opened, no request is sent, the state is the one the pick leaves, and a dismissed pick leaves the state unchanged |
| CommandProperties.PickThenResolve | src/commands.ts:138-139 | after a saved environment with a non-empty name is picked, the next run uses an environment of that name without asking again |
| CommandProperties.HitExactlyWhenUsable | src/commands.ts:54-68 | the cached token is served, with no request, exactly when the entry under the lookup key expires more than 60 s after `now`; otherwise the Auth0 request is sent |
| CommandProperties.BufferStricterThanSweep | src/commands.ts:54-61 | every usable entry survives the sweep, and an entry expiring within 60 s survives but is not usable |
| CommandProperties.WithinBufferRequests | src/commands.ts:61 | an entry kept by the sweep but within 60 s of expiry is a miss and triggers a request |
| CommandProperties.SweptBeforeLookup | src/commands.ts:54-55 | afterwards every cache entry expires after `now` and is unchanged, except possibly the one under the lookup key; conversely every entry under another key that expires after `now` is still there, unchanged |
| CommandProperties.MissCachesResponse | src/commands.ts:85-93 | on a successful miss the token is `access_token`, expiry is `now + expires_in*1000`, the environment is the name, and audience and scope are the `""`-defaulted values, stored under the lookup key |
| CommandProperties.FailedRequestCachesNothing | src/commands.ts:79 | on a failed miss the outcome carries the Auth0 client's failure and the state is just the swept one |
| CommandProperties.ResolutionStable | src/commands.ts:18-51 | running the command on its own resulting state resolves the same environment |
| CommandProperties.RepeatServesCachedToken | src/commands.ts:56-61 | after a token is generated or served from the cache, a later run while `later + 60000 < expiresAt` serves the same token without sending a request |
| CommandProperties.KeyNotInjective | src/commands.ts:58 | moving a `-` between the name and the audience gives the same key |
| CommandProperties.KeyCollisionExample | src/commands.ts:58 | `("a-b","c","")` and `("a","b-c","")` both give `"a-b-c-"` |
| CommandProperties.CollidingEntryIsServed | src/commands.ts:58-62 | a usable token cached for one environment is served to a different environment whose lookup key collides with it |
| Reachability.ApplyKeepsDistinct | src/storage-manager.ts:14-33 | saving, setting the current environment, sweeping, selecting and generating each keep the name index free of duplicates |
| Reachability.RunKeepsDistinct | src/storage-manager.ts:14-33 | any sequence of those actions keeps the name index free of duplicates |
| Reachability.ReachableSaveIsUpsert | src/storage-manager.ts:14-52 | in every state reachable from empty storage, reading after a save of round-tripping credentials is the upsert of what was read before |

## Notes

- `src/webview-manager.ts:417-421` (deleting an environment) only shows a
  notification. Nothing is deleted, and no cached token is removed with the
  environment, so there is no deletion to model.
- `OAuthCredentials` is used by `src/oauth-client.ts` but not defined in
  `src/types.ts`. It is modelled as a record carrying `tokenEndpoint`.

## Left out

- Editor UI (webview HTML and messages, tree views, status bar): presentation
  only. This includes the rule that the first saved environment becomes
  current (`src/webview-manager.ts:364-366`).
- The `viewStoredTokens` and `configureCredentials` commands: they list
  tokens or open a form. The sweep `viewStoredTokens` performs is the
  `Sweep` action of `reachability.dfy`. `selectEnvironment` is modelled as
  `Commands.PickEnvironment`.
- Commands.PickEnvironment: a picked position past the list is treated as a
  dismissal. The quick pick offers only the listed environments, so this
  input has no counterpart in the code.
- Activation, command registration and `.env` loading: file and
  process-environment I/O.
- The compiled `out/*.js` files: duplicates of the `src` files modelled here.
- Clipboard writes and notification texts: side effects with no state.
- JSON parse: the model's `parse` returns credentials or fails. The code
  accepts any JSON value as credentials, without validation.
- `Date.now()` is read separately by the sweep, the freshness test and the
  expiry computation. The model uses one `now` per command.
- `expires_in` is a JavaScript number that may be fractional; the model uses
  integers. The displayed "expires in" values use `Math.round` and are left
  out.
- Errors inside `withProgress`: that call is not awaited
  (`src/commands.ts:72`), so a failed request never reaches the catch at
  `src/commands.ts:104-107`. The model reports it as `RequestFailed` carrying
  the Auth0 client's failure.
- Storage API failures and concurrent commands racing on the cache: the model
  is one sequential step.
- Storage.GetStoredTokens, Storage.GetCurrentEnvironment: plain reads of the
  state, with no contract of their own.
- Storage.Load, Storage.GetEnvironments: no contract of their own. What they
  read is stated by `Storage.LoadSound`, `Storage.LoadComplete`,
  `Storage.LoadInOrder` and `Storage.LoadSingle`.
- Storage.KeyOf, Commands.CacheKey: no contract of their own. Their keys
  are `Storage.TokenKey` of the record's or environment's parts.
  `Commands.NewStoredToken` states that they agree, and
  `CommandProperties.KeyNotInjective` shows that the key can collide.
- Commands.Usable: no contract of its own. `CommandProperties.HitExactlyWhenUsable`
  and `CommandProperties.BufferStricterThanSweep` state its role.
- JavaScript object-key quirks of the token record (such as the
  `__proto__` key): the model's cache is a plain map.

/**
 The records the extension passes around. Optional TypeScript properties
 (`audience?: string`) become `Option<string>`; numbers are unbounded
 integers.
 */
module Types {
  import opened Optional

  /** Auth0 client credentials: domain, client id and secret required; audience and scope optional. */
  datatype Credentials = Credentials(
    domain: string,
    clientId: string,
    clientSecret: string,
    audience: Option<string>,
    scope: Option<string>)

  /** A named environment: exactly one name and one credentials record. */
  datatype Environment = Environment(name: string, credentials: Credentials)

  /**
   A successful access token response (section 5.1 of RFC 6749): the token,
   its lifetime in seconds and its type, and optionally the granted scope.
   */
  datatype TokenResponse = TokenResponse(
    accessToken: string,
    expiresIn: int,
    tokenType: string,
    scope: Option<string>)

  /**
   A cache entry: the token, its absolute expiry in milliseconds, and the
   environment, audience and scope it was requested for. Audience and scope
   are plain strings (empty when not configured), so the cache key is always
   defined.
   */
  datatype StoredToken = StoredToken(
    token: string,
    expiresAt: int,
    environment: string,
    audience: string,
    scope: string)

  /**
   Credentials for a generic OAuth 2.0 provider: the token endpoint is given
   directly instead of being derived from an Auth0 domain.
   */
  datatype OAuthCredentials = OAuthCredentials(
    provider: string,
    tokenEndpoint: string,
    clientId: string,
    clientSecret: string,
    audience: Option<string>,
    scope: Option<string>)
}

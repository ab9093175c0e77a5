/**
 The Auth0 client: the same request as the generic OAuth 2.0 client, posted
 to the token endpoint of an Auth0 tenant domain.
 */
module Auth0Client {
  import opened Optional
  import opened Types
  import opened ClientCredentials

  const FailurePrefix := "Auth0 token generation failed: "
  const Scheme := "https://"
  const TokenPath := "/oauth/token"

  /** `https://<domain>/oauth/token`: the domain sits between the scheme and the path. */
  function TokenEndpoint(domain: string): (url: string)
    ensures |url| == |Scheme| + |domain| + |TokenPath|
    ensures url[..|Scheme|] == Scheme
    ensures url[|Scheme|..|Scheme| + |domain|] == domain
    ensures url[|Scheme| + |domain|..] == TokenPath
  {
    Scheme + domain + TokenPath
  }

  /** Distinct domains give distinct endpoints. */
  lemma TokenEndpointInjective(a: string, b: string)
    requires TokenEndpoint(a) == TokenEndpoint(b)
    ensures a == b
  {
    var u := TokenEndpoint(a);
    assert |a| == |b|;
    assert a == u[|Scheme|..|Scheme| + |a|] == b;
  }

  /**
   The request `generateToken(audience, scope)` sends: the domain's token
   endpoint, a JSON content type, and the client-credentials body.
   */
  function TokenRequest(c: Credentials, audience: Option<string>, scope: Option<string>): (r: Request)
    ensures r.url == TokenEndpoint(c.domain)
    ensures r.contentType == JsonContentType
    ensures r.payload.grantType == GrantType
    ensures r.payload.clientId == c.clientId && r.payload.clientSecret == c.clientSecret
    ensures r.payload.audience == (if Truthy(audience) then audience else c.audience)
    ensures r.payload.scope == FirstTruthy([scope, c.scope], "")
  {
    Request(TokenEndpoint(c.domain), BuildPayload(c.clientId, c.clientSecret, c.audience, c.scope, audience, scope), JsonContentType)
  }

  /**
   Requests a token: the response body on success, the prefixed detail on an
   HTTP-client error, and any other error unchanged.
   */
  function GenerateToken(c: Credentials, audience: Option<string>, scope: Option<string>, post: Transport)
    : (r: Result<TokenResponse, Failure>)
    ensures var sent := TokenRequest(c, audience, scope);
      && (post(sent).Ok? ==> r == Ok(post(sent).value))
      && ((post(sent).Err? && post(sent).error.isHttpClientError)
          ==> r == Err(Wrapped(FailurePrefix + FirstTruthy([Description(post(sent).error), ErrorCode(post(sent).error)], post(sent).error.message))))
      && ((post(sent).Err? && !post(sent).error.isHttpClientError)
          ==> r == Err(Rethrown(post(sent).error)))
  {
    Exchange(FailurePrefix, TokenRequest(c, audience, scope), post)
  }

  /**
   True exactly when a token request without overrides succeeds; a failure
   of any kind yields false rather than an error.
   */
  function ValidateCredentials(c: Credentials, post: Transport): (valid: bool)
    ensures valid <==> post(TokenRequest(c, None, None)).Ok?
  {
    GenerateToken(c, None, None, post).Ok?
  }
}

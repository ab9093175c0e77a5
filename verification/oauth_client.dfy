/**
 The generic OAuth 2.0 client: posts the client-credentials request to the
 configured token endpoint.
 */
module OAuthClient {
  import opened Optional
  import opened Types
  import opened ClientCredentials

  const FailurePrefix := "OAuth token generation failed: "

  /**
   The request `generateToken(audience, scope)` sends: the configured token
   endpoint verbatim, a JSON content type, and the client-credentials body.
   */
  function TokenRequest(c: OAuthCredentials, audience: Option<string>, scope: Option<string>): (r: Request)
    ensures r.url == c.tokenEndpoint
    ensures r.contentType == JsonContentType
    ensures r.payload.grantType == GrantType
    ensures r.payload.clientId == c.clientId && r.payload.clientSecret == c.clientSecret
    ensures r.payload.audience == (if Truthy(audience) then audience else c.audience)
    ensures r.payload.scope == FirstTruthy([scope, c.scope], "")
  {
    Request(c.tokenEndpoint, BuildPayload(c.clientId, c.clientSecret, c.audience, c.scope, audience, scope), JsonContentType)
  }

  /**
   Requests a token: the response body on success, the prefixed detail on an
   HTTP-client error, and any other error unchanged.
   */
  function GenerateToken(c: OAuthCredentials, audience: Option<string>, scope: Option<string>, post: Transport)
    : (r: Result<TokenResponse, Failure>)
    ensures var sent := TokenRequest(c, audience, scope);
      && (post(sent).Ok? ==> r == Ok(post(sent).value))
      && ((post(sent).Err? && post(sent).error.isHttpClientError)
          ==> r == Err(Wrapped(FailurePrefix + FirstTruthy([Description(post(sent).error), ErrorCode(post(sent).error)], post(sent).error.message))))
      && ((post(sent).Err? && !post(sent).error.isHttpClientError)
          ==> r == Err(Rethrown(post(sent).error)))
  {
    Exchange(FailurePrefix, TokenRequest(c, audience, scope), post)
  }

  /**
   True exactly when a token request without overrides succeeds; a failure
   of any kind yields false rather than an error.
   */
  function ValidateCredentials(c: OAuthCredentials, post: Transport): (valid: bool)
    ensures valid <==> post(TokenRequest(c, None, None)).Ok?
  {
    GenerateToken(c, None, None, post).Ok?
  }
}

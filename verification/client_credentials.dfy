/**
 The client-credentials access token request shared by both clients
 (section 4.4.2 of RFC 6749). The client authenticates with its id and
 secret in the request body (section 2.3.1 of RFC 6749). The body is sent as
 JSON rather than form-encoded, and it carries an Auth0-style `audience`
 field. Failures are turned into messages built from the `error_description`
 and `error` fields of section 5.2 of RFC 6749.

 The HTTP client is a parameter: a `Transport` maps the request to the
 response body or to the error it throws.
 */
module ClientCredentials {
  import opened Optional
  import opened Types

  const GrantType := "client_credentials"
  const JsonContentType := "application/json"

  /** The request body. An undefined `audience` is dropped when the body is serialized. */
  datatype Payload = Payload(
    clientId: string,
    clientSecret: string,
    audience: Option<string>,
    grantType: string,
    scope: string)

  /** A POST of `payload` to `url` with the given `Content-Type` header. */
  datatype Request = Request(url: string, payload: Payload, contentType: string)

  /** The error response fields the clients read. */
  datatype ErrorBody = ErrorBody(error: Option<string>, errorDescription: Option<string>)

  /**
   What the HTTP client can throw. An HTTP-client error carries the response
   body when a response arrived; `message` is the error's own message. Any
   other thrown value has `isHttpClientError` false.
   */
  datatype HttpError = HttpError(isHttpClientError: bool, body: Option<ErrorBody>, message: string)

  /** What a client's `generateToken` throws: a new error with a message, or the original error. */
  datatype Failure = Wrapped(message: string) | Rethrown(cause: HttpError)

  type Transport = Request -> Result<TokenResponse, HttpError>

  /**
   The body of the token request: fixed grant type, id and secret copied,
   the audience override when it is non-empty and the configured audience
   otherwise, and the first non-empty scope among override and configured
   scope, otherwise the empty string.
   */
  function BuildPayload(
    clientId: string, clientSecret: string,
    configuredAudience: Option<string>, configuredScope: Option<string>,
    audience: Option<string>, scope: Option<string>): (p: Payload)
    ensures p.grantType == GrantType
    ensures p.clientId == clientId && p.clientSecret == clientSecret
    ensures Truthy(audience) ==> p.audience == audience
    ensures !Truthy(audience) ==> p.audience == configuredAudience
    ensures p.scope == FirstTruthy([scope, configuredScope], "")
  {
    OrChainIsFirstTruthy(scope, configuredScope, "");
    Payload(clientId, clientSecret, Or(audience, configuredAudience), GrantType, OrElse(Or(scope, configuredScope), ""))
  }

  /** `error.response?.data?.error_description`: undefined when no response arrived. */
  function Description(e: HttpError): Option<string> {
    if e.body.Some? then e.body.value.errorDescription else None
  }

  /** `error.response?.data?.error`: undefined when no response arrived. */
  function ErrorCode(e: HttpError): Option<string> {
    if e.body.Some? then e.body.value.error else None
  }

  /**
   The detail of an HTTP-client error: the first non-empty value among the
   error description, the error code and the error's own message, which is
   used even when it is empty.
   */
  function Detail(e: HttpError): (r: string)
    ensures r == FirstTruthy([Description(e), ErrorCode(e)], e.message)
  {
    OrChainIsFirstTruthy(Description(e), ErrorCode(e), e.message);
    OrElse(Or(Description(e), ErrorCode(e)), e.message)
  }

  /**
   Sends `request` and passes the response body through unchanged; an
   HTTP-client error becomes `prefix` followed by its detail, and any other
   error is rethrown as it is.
   */
  function Exchange(prefix: string, request: Request, post: Transport): (r: Result<TokenResponse, Failure>)
    ensures post(request).Ok? ==> r == Ok(post(request).value)
    ensures (post(request).Err? && post(request).error.isHttpClientError)
            ==> r == Err(Wrapped(prefix + Detail(post(request).error)))
    ensures (post(request).Err? && !post(request).error.isHttpClientError)
            ==> r == Err(Rethrown(post(request).error))
  {
    match post(request)
    case Ok(body) => Ok(body)
    case Err(e) => if e.isHttpClientError then Err(Wrapped(prefix + Detail(e))) else Err(Rethrown(e))
  }

  /** An empty-string override is no override: the configured values are used. */
  lemma EmptyOverrideFallsBack(
    clientId: string, clientSecret: string,
    configuredAudience: Option<string>, configuredScope: Option<string>)
    ensures BuildPayload(clientId, clientSecret, configuredAudience, configuredScope, Some(""), Some(""))
         == BuildPayload(clientId, clientSecret, configuredAudience, configuredScope, None, None)
  {
  }
}

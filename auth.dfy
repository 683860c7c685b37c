/**
 * `token_auth`: the `Authorization` header must be exactly
 * `Token <api_key>`; anything else is refused with HTTP 401.
 */
module Auth {
  import opened Wrappers
  import opened Config

  /** The scheme prefix, trailing space included; `len("Token ")` is 6. */
  const Scheme: string := "Token "

  const Unauthorized: int := 401

  const SchemeError: string := "Invalid authorization scheme"

  const TokenError: string := "Invalid token"

  /** The `WWW-Authenticate` challenge sent with both refusals. */
  const ResponseHeaders: map<string, string> := map["WWW-Authenticate" := "Token realm=\"Secured API\""]

  /** An `HTTPException` raised by the dependency. */
  datatype HttpError = HttpError(status: int, detail: string, headers: map<string, string>)

  /**
   * The dependency: `Success(true)` lets the request through, `Failure` is
   * the raised exception. A missing header is `None`; the expected key is
   * the `api_key` setting.
   */
  function TokenAuth(authorization: Option<string>, settings: Settings): (r: Result<bool, HttpError>)
    ensures r.Success? ==> r.value
    ensures r.Failure? ==> r.error.status == Unauthorized && r.error.headers == ResponseHeaders
  {
    var apiKey := settings.apiKey;
    if authorization.None? || !(Scheme <= authorization.value) then
      Failure(HttpError(Unauthorized, SchemeError, ResponseHeaders))
    else
      var token := authorization.value[|Scheme|..];
      if token != apiKey then Failure(HttpError(Unauthorized, TokenError, ResponseHeaders))
      else Success(true)
  }

  /** The header a client sends: `f"Token {api_key}"`. */
  function AuthorizationHeader(apiKey: string): (header: string)
  {
    Scheme + apiKey
  }

  /** The request is let through iff the header is exactly `Token ` followed by the key. */
  lemma AcceptsExactlyTheKey(authorization: Option<string>, settings: Settings)
    ensures TokenAuth(authorization, settings).Success? <==>
            authorization == Some(AuthorizationHeader(settings.apiKey))
  {
    if authorization == Some(AuthorizationHeader(settings.apiKey)) {
      var h := authorization.value;
      assert Scheme <= h;
      assert h[|Scheme|..] == settings.apiKey;
    }
    if TokenAuth(authorization, settings).Success? {
      var h := authorization.value;
      assert h[..|Scheme|] == Scheme;
      assert h == h[..|Scheme|] + h[|Scheme|..];
      assert h == AuthorizationHeader(settings.apiKey);
    }
  }

  /**
   * The scheme check comes first and is case-sensitive: a missing header or
   * one not starting with exactly `Token ` is refused as a scheme error,
   * whatever the key.
   */
  lemma SchemeCheckedFirst(authorization: Option<string>, settings: Settings)
    ensures TokenAuth(authorization, settings).Failure? &&
            TokenAuth(authorization, settings).error.detail == SchemeError <==>
            authorization.None? || !(Scheme <= authorization.value)
  {
  }

  /**
   * Past the scheme check, the token is the header without its first six
   * characters, and a token other than the key is refused as invalid.
   */
  lemma TokenIsHeaderRest(header: string, settings: Settings)
    requires Scheme <= header
    ensures TokenAuth(Some(header), settings) ==
            if header[6..] == settings.apiKey then Success(true)
            else Failure(HttpError(Unauthorized, TokenError, ResponseHeaders))
  {
  }

  /** A lowercase scheme or a missing space is a scheme error even with the right key. */
  lemma SchemeIsCaseSensitive(settings: Settings)
    ensures TokenAuth(Some("token " + settings.apiKey), settings).Failure?
    ensures TokenAuth(Some("token " + settings.apiKey), settings).error.detail == SchemeError
    ensures TokenAuth(Some("Token" + settings.apiKey), settings).Failure?
  {
    var lower := "token " + settings.apiKey;
    assert lower[0] != Scheme[0];
    var nospace := "Token" + settings.apiKey;
    if Scheme <= nospace {
      assert nospace[5..] == settings.apiKey;
      assert nospace[|Scheme|..] == settings.apiKey[1..];
      assert |nospace[|Scheme|..]| != |settings.apiKey|;
    }
  }
}

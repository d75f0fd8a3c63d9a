/** Access tokens: the claims `create_access_token` signs, and how `verify_access_token`
    and `get_current_user` turn a token into the caller's identity or an error.
    Signing and decoding (a JSON Web Token, RFC 7519) are not modelled: `encode` and
    `decode` are parameters. `decode` stands for the part of python-jose's `jwt.decode`
    that either yields the payload or raises JWTError (bad signature, expired, not yet
    valid, malformed); the check `jwt.decode` then makes on the "sub" claim is `JwtDecode`. */
module OAuth2 {
  import opened Wrappers
  import opened Uuids
  import opened Http

  /** A claim value: what a JSON payload can hold, plus a `datetime` (seconds since the
      epoch), which the encoder turns into a NumericDate. */
  datatype Json = JNull | JBool(b: bool) | JInt(i: int) | JStr(s: string) | JTime(seconds: int)

  type Claims = map<string, Json>

  /** The outcome of decoding a token: its payload, or JWTError. */
  datatype Decoded = Payload(claims: Claims) | JwtError

  /** `schemas.TokenData`: the caller's identity. */
  datatype TokenData = TokenData(userId: Uuid)

  /** Registered claim names (sections 4.1.2, 4.1.4, 4.1.5 and 4.1.6 of RFC 7519). */
  const SUB := "sub"
  const EXP := "exp"
  const NBF := "nbf"
  const IAT := "iat"

  /** The exception `get_current_user` hands to `verify_access_token`: 401 with a Bearer
      challenge (section 3 of RFC 6750). */
  const CREDENTIALS_EXCEPTION: Exception :=
    HTTPException(HTTP_401_UNAUTHORIZED, "Could not validate credentials", map["WWW-Authenticate" := "Bearer"])

  // ---------------------------------------------------------------------------
  // create_access_token

  /** The claims `create_access_token(data)` signs, given the three readings of the UTC
      clock it takes (in seconds) and ACCESS_TOKEN_EXPIRE_MINUTES: every entry of `data`,
      with "exp" set to the first reading plus the lifetime, "iat" to the second reading
      and "nbf" to the third. */
  function AccessTokenClaims(data: Claims, firstRead: int, secondRead: int, thirdRead: int, expireMinutes: int)
    : (c: Claims)
    ensures c.Keys == data.Keys + {EXP, IAT, NBF}
    ensures forall k :: k in data && k != EXP && k != IAT && k != NBF ==> c[k] == data[k]
    ensures c[EXP] == JTime(firstRead + 60 * expireMinutes)
    ensures c[IAT] == JTime(secondRead) && c[NBF] == JTime(thirdRead)
  {
    data[EXP := JTime(firstRead + 60 * expireMinutes)][IAT := JTime(secondRead)][NBF := JTime(thirdRead)]
  }

  /** `create_access_token`: copies `data`, adds the three time claims one update at a
      time and signs the result. `data` itself is a value and is left as it was. */
  method CreateAccessToken(data: Claims, encode: Claims -> string,
                           firstRead: int, secondRead: int, thirdRead: int, expireMinutes: int)
    returns (token: string)
    ensures token == encode(AccessTokenClaims(data, firstRead, secondRead, thirdRead, expireMinutes))
  {
    var toEncode := data;
    var expire := firstRead + 60 * expireMinutes;
    toEncode := toEncode[EXP := JTime(expire)];
    toEncode := toEncode[IAT := JTime(secondRead)];
    toEncode := toEncode[NBF := JTime(thirdRead)];
    token := encode(toEncode);
  }

  /** With a clock that never goes back, "iat" and "nbf" are no earlier than the reading
      "exp" was computed from, "nbf" is no earlier than "iat", and the token lives at most
      the configured number of minutes after it was issued. */
  lemma ClaimTimesOrdered(data: Claims, firstRead: int, secondRead: int, thirdRead: int, expireMinutes: int)
    requires firstRead <= secondRead <= thirdRead
    ensures var c := AccessTokenClaims(data, firstRead, secondRead, thirdRead, expireMinutes);
      && firstRead <= c[IAT].seconds <= c[NBF].seconds
      && c[EXP].seconds - c[IAT].seconds <= 60 * expireMinutes
  {
  }

  // ---------------------------------------------------------------------------
  // verify_access_token and get_current_user

  /** `jwt.decode(token, key, algorithms)`: the outcome of `decode`, followed by
      python-jose's check of the registered "sub" claim, which raises JWTClaimsError (a
      JWTError) when "sub" is present but not a string. */
  function JwtDecode(token: string, decode: string -> Decoded): (d: Decoded)
    ensures d.Payload? <==> decode(token).Payload? && (SUB !in decode(token).claims || decode(token).claims[SUB].JStr?)
    ensures d.Payload? ==> d == decode(token)
  {
    match decode(token)
    case Payload(claims) => if SUB in claims && !claims[SUB].JStr? then JwtError else Payload(claims)
    case JwtError => JwtError
  }

  /** `payload.get("sub")`: the value of "sub", JSON null when it is absent. */
  function Subject(claims: Claims): (j: Json)
    ensures j != JNull ==> SUB in claims && claims[SUB] == j
  {
    if SUB in claims then claims[SUB] else JNull
  }

  /** Pydantic's validation of a `UUID` field given a JSON value: only a string that
      spells a UUID is accepted. */
  function AsUuid(j: Json): (r: Option<Uuid>)
    ensures r.Some? ==> j.JStr? && Parse(j.s) == r
  {
    if j.JStr? then Parse(j.s) else None
  }

  /** The subject is present but `TokenData(user_id=...)` cannot be built from it. */
  predicate BadSubject(d: Decoded) {
    d.Payload? && Subject(d.claims) != JNull && AsUuid(Subject(d.claims)).None?
  }

  /** `verify_access_token(token, credentials_exception)` as written: a decode error and a
      missing "sub" both raise `credentials_exception`; a "sub" that is not a UUID makes
      `TokenData(...)` raise a ValidationError, which the `except JWTError` clause does not
      catch. */
  function VerifyAccessToken(token: string, credentialsException: Exception, decode: string -> Decoded)
    : (r: Result<TokenData, Exception>)
    ensures JwtDecode(token, decode).JwtError? ==> r == Err(credentialsException)
    ensures var d := JwtDecode(token, decode); d.Payload? && Subject(d.claims) == JNull ==> r == Err(credentialsException)
    ensures BadSubject(JwtDecode(token, decode)) ==> r == Err(ValidationError("TokenData", "user_id"))
    ensures var d := JwtDecode(token, decode); r.Ok? <==> d.Payload? && AsUuid(Subject(d.claims)).Some?
    ensures r.Ok? ==> AsUuid(Subject(decode(token).claims)) == Some(r.value.userId)
    ensures r.Err? && r.error != credentialsException ==> BadSubject(JwtDecode(token, decode))
  {
    match JwtDecode(token, decode)
    case JwtError => Err(credentialsException)
    case Payload(claims) =>
      var userId := Subject(claims);
      if userId == JNull then Err(credentialsException)
      else
        match AsUuid(userId)
        case Some(u) => Ok(TokenData(u))
        case None => Err(ValidationError("TokenData", "user_id"))
  }

  /** `get_current_user(token)`: every HTTP error it raises is 401 "Could not validate
      credentials" with the header `WWW-Authenticate: Bearer`; the only other failure is
      the ValidationError of a subject that is not a UUID. */
  function GetCurrentUser(token: string, decode: string -> Decoded): (r: Result<TokenData, Exception>)
    ensures r.Err? && r.error.HTTPException? ==>
      && r.error.status == HTTP_401_UNAUTHORIZED
      && "WWW-Authenticate" in r.error.headers && r.error.headers["WWW-Authenticate"] == "Bearer"
    ensures r.Err? && !r.error.HTTPException? <==> BadSubject(JwtDecode(token, decode))
    ensures r.Ok? ==> decode(token).Payload? && AsUuid(Subject(decode(token).claims)) == Some(r.value.userId)
  {
    VerifyAccessToken(token, CREDENTIALS_EXCEPTION, decode)
  }

  /** A validly decoded token whose subject is "42" makes `get_current_user` fail with
      the uncaught ValidationError rather than with the 401 error. */
  lemma NonUuidSubjectEscapes()
    ensures GetCurrentUser("t", _ => Payload(map[SUB := JStr("42")])) == Err(ValidationError("TokenData", "user_id"))
  {
  }

  /** A decoded payload whose "sub" is present but not a string (a number, a boolean,
      null) is refused by `jwt.decode` itself, so `get_current_user` answers 401. */
  lemma NonStringSubjectRejected(token: string, decode: string -> Decoded)
    requires decode(token).Payload? && SUB in decode(token).claims && !decode(token).claims[SUB].JStr?
    ensures GetCurrentUser(token, decode) == Err(CREDENTIALS_EXCEPTION)
  {
  }

  /** `verify_access_token` with the ValidationError also mapped to
      `credentials_exception`, as the error handling evidently intends. */
  function VerifyAccessTokenCorrected(token: string, credentialsException: Exception, decode: string -> Decoded)
    : (r: Result<TokenData, Exception>)
    ensures r.Err? ==> r.error == credentialsException
    ensures var d := JwtDecode(token, decode); r.Ok? <==> d.Payload? && AsUuid(Subject(d.claims)).Some?
    ensures r.Ok? ==> AsUuid(Subject(decode(token).claims)) == Some(r.value.userId)
  {
    match JwtDecode(token, decode)
    case JwtError => Err(credentialsException)
    case Payload(claims) =>
      match AsUuid(Subject(claims))
      case Some(u) => Ok(TokenData(u))
      case None => Err(credentialsException)
  }

  /** `get_current_user` over the corrected verification: it fails only with 401 and a
      Bearer challenge, and agrees with the code as written whenever the latter succeeds
      or raises an HTTP error. */
  function GetCurrentUserCorrected(token: string, decode: string -> Decoded): (r: Result<TokenData, Exception>)
    ensures r.Err? ==> r.error == CREDENTIALS_EXCEPTION
    ensures r.Err? ==> r.error.status == HTTP_401_UNAUTHORIZED && r.error.headers["WWW-Authenticate"] == "Bearer"
    ensures !BadSubject(JwtDecode(token, decode)) ==> r == GetCurrentUser(token, decode)
  {
    VerifyAccessTokenCorrected(token, CREDENTIALS_EXCEPTION, decode)
  }

  /** A token issued for a user verifies to that user, when decoding gives back the
      "sub" claim that was signed (the signature is good and the token has not expired). */
  lemma {:induction false} IssuedTokenVerifies(userId: Uuid, encode: Claims -> string, decode: string -> Decoded,
                                               firstRead: int, secondRead: int, thirdRead: int, expireMinutes: int)
    requires var c := AccessTokenClaims(map[SUB := JStr(Format(userId))], firstRead, secondRead, thirdRead, expireMinutes);
      decode(encode(c)).Payload? && SUB in decode(encode(c)).claims && decode(encode(c)).claims[SUB] == c[SUB]
    ensures var c := AccessTokenClaims(map[SUB := JStr(Format(userId))], firstRead, secondRead, thirdRead, expireMinutes);
      GetCurrentUser(encode(c), decode) == Ok(TokenData(userId))
  {
    ParseFormat(userId);
  }
}

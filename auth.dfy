/** The login endpoint: the credentials check of the resource owner password grant
    (section 4.3 of RFC 6749). Password verification and token creation are parameters. */
module Auth {
  import opened Wrappers
  import opened Uuids
  import opened Http
  import opened Models
  import opened OAuth2
  import Users

  /** The response body of a successful login. */
  datatype Token = Token(accessToken: string, tokenType: string)

  const INVALID_CREDENTIALS: Exception := HTTPException(HTTP_403_FORBIDDEN, "Invalid Credentials", map[])

  /** The first user, in table order, whose e-mail is `email`. */
  predicate IsFirstWithEmail(users: seq<User>, i: int, email: string) {
    0 <= i < |users| && users[i].email == email && forall j :: 0 <= j < i ==> users[j].email != email
  }

  /** `login_user` over the current rows of the user table (it only reads them). An
      unknown e-mail and a wrong password give the same 403 error; otherwise the answer
      is a bearer token created from `{"sub": str(user.id)}`. */
  function LoginUser(users: seq<User>, username: string, password: string,
                     verifyPassword: (string, string) -> bool, createAccessToken: Claims -> string)
    : (r: Result<Token, Exception>)
    ensures r.Err? ==> r.error == INVALID_CREDENTIALS
    ensures r.Ok? <==> exists i :: IsFirstWithEmail(users, i, username) && verifyPassword(password, users[i].password)
    ensures r.Ok? ==> exists i :: IsFirstWithEmail(users, i, username)
                        && r.value == Token(createAccessToken(map[SUB := JStr(Format(users[i].id))]), "bearer")
  {
    match Users.FirstMatch(users, (u: User) => u.email == username)
    case None => Err(INVALID_CREDENTIALS)
    case Some(i) =>
      var user := users[i];
      if !verifyPassword(password, user.password) then Err(INVALID_CREDENTIALS)
      else Ok(Token(createAccessToken(map[SUB := JStr(Format(user.id))]), "bearer"))
  }

  /** Registration followed by login: a user just registered, whose e-mail no earlier row
      has, logs in with the password they registered with, when the hash verifies its own
      password. */
  lemma LoginAfterRegister(before: seq<User>, newUser: User, password: string,
                           hashPassword: string -> string, verifyPassword: (string, string) -> bool,
                           createAccessToken: Claims -> string)
    requires newUser.password == hashPassword(password)
    requires verifyPassword(password, hashPassword(password))
    requires forall j :: 0 <= j < |before| ==> before[j].email != newUser.email
    ensures LoginUser(before + [newUser], newUser.email, password, verifyPassword, createAccessToken)
         == Ok(Token(createAccessToken(map[SUB := JStr(Format(newUser.id))]), "bearer"))
  {
    Users.FirstMatchAppended(before, newUser, (u: User) => u.email == newUser.email);
  }

  /** Login followed by authentication: the token a successful login returns, created by
      `create_access_token`, identifies the user who logged in, when decoding gives back
      the signed "sub" claim. */
  lemma LoginThenAuthenticate(users: seq<User>, username: string, password: string,
                              verifyPassword: (string, string) -> bool,
                              encode: Claims -> string, decode: string -> Decoded,
                              firstRead: int, secondRead: int, thirdRead: int, expireMinutes: int,
                              i: nat)
    requires IsFirstWithEmail(users, i, username) && verifyPassword(password, users[i].password)
    requires var c := AccessTokenClaims(map[SUB := JStr(Format(users[i].id))], firstRead, secondRead, thirdRead, expireMinutes);
      decode(encode(c)).Payload? && SUB in decode(encode(c)).claims && decode(encode(c)).claims[SUB] == c[SUB]
    ensures var r := LoginUser(users, username, password, verifyPassword,
                               d => encode(AccessTokenClaims(d, firstRead, secondRead, thirdRead, expireMinutes)));
      r.Ok? && GetCurrentUser(r.value.accessToken, decode) == Ok(TokenData(users[i].id))
  {
    var create := d => encode(AccessTokenClaims(d, firstRead, secondRead, thirdRead, expireMinutes));
    var r := LoginUser(users, username, password, verifyPassword, create);
    var k :| IsFirstWithEmail(users, k, username) && r.value == Token(create(map[SUB := JStr(Format(users[k].id))]), "bearer");
    assert k == i;
    IssuedTokenVerifies(users[i].id, encode, decode, firstRead, secondRead, thirdRead, expireMinutes);
  }
}

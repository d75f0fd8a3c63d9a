# Blog API core: validators, post ownership, tokens and login

A Dafny model of the logic inside a small FastAPI blogging backend in which users
register, log in with a password, receive a bearer token, and create, read, update and
delete posts that other users can upvote. The model covers four parts.

- **Request validation** (`schemas.dfy`). Each declared field bound and each `@validator`
  becomes a function that accepts or rejects. The bounds are lengths, the rating range
  [0,5] and the vote direction {0,1}. The validators are the bad-word title checks, the
  whitespace-only content checks, the password length and the `@` in the e-mail.
  Building a whole request model is a function that collects one error per failing field.
  An accepted value is always returned unchanged.
- **The post table** (`posts.dfy`). It is a class `PostStore` holding the posts by id,
  the set of votes and the id sequence. Its methods are the five post handlers. They
  reproduce the handlers' quirks:
  - `get_posts` throws away its filtered query.
  - `update_post_in_db` asks for no caller identity.
  - `update_post_in_db` writes None for omitted fields.
  - deleting checks for a missing post (404) before checking ownership (403).
- **Tokens** (`oauth2.dfy`). It models the claims `create_access_token` signs (`exp`,
  `iat`, `nbf` next to the caller's `sub`, sections 4.1.2 and 4.1.4-4.1.6 of RFC 7519),
  and how `verify_access_token` and `get_current_user` map decoding outcomes to the
  caller's identity or to the 401 error with its Bearer challenge (section 3 of RFC 6750).
- **Users and login** (`users.dfy`, `auth.dfy`). Registration stores the password's hash,
  and lookup by id answers 404 when no row matches. Login is the credentials check of
  the password grant (section 4.3 of RFC 6749): an unknown e-mail and a wrong password
  give the same 403.

Helper modules model the Python operations the code relies on: `str.lower()`,
`str.strip()`, substring `in` and `str(int)` (`pystr.dfy`), and `str(uuid)` with pydantic's
UUID parsing (`uuids.dfy`). It is proved that parsing `str(u)` gives back `u`.

The outside world comes in as parameters:
- JWT signing and decoding (`encode`, `decode`);
- bcrypt (`hashPassword`, `verifyPassword`);
- the UTC clock readings;
- the generated user id;
- the database's `now()`.

Two places in the code do less than their own structure suggests, and the model follows
what the code does:
- `get_posts` takes `limit`, `skip` and `search` and builds the query filtered and bounded
  by them (app/router/poste.py:18-20). It then returns a separate, unfiltered join of every
  post with its vote count (app/router/poste.py:22-24). The parameters only matter through
  the errors the discarded query can raise.
- `verify_access_token` wraps decoding and `TokenData(...)` in one `try` whose
  `except JWTError` maps failures to the 401 (app/oauth2.py:46-54). A subject that is a
  string but not a UUID makes `TokenData(...)` raise pydantic's ValidationError, which
  that clause does not catch (see Findings).

## Model

| member | source | states |
|---|---|---|
| `Schemas.CheckRating` | app/schemas.py:40 | a rating is accepted exactly when it is absent or an integer in [0,5], and is then returned unchanged; below 0 and above 5 give the `ge`/`le` errors |
| `Schemas.CheckVoteDir` | app/schemas.py:217 | a vote direction is accepted exactly when it is 0 or 1, and is returned unchanged |
| `Schemas.CreateTitleNoBadWords` | app/schemas.py:48-53 | rejects a title exactly when its lower-cased form contains "spam", "advertisement" or "clickbait" as a substring, with the source's message; otherwise returns it unchanged |
| `Schemas.CreateContentNotEmpty` | app/schemas.py:55-59 | rejects content exactly when it is empty or whitespace only; otherwise returns it unchanged |
| `Schemas.CheckCreateTitle` | app/schemas.py:37 | a PostCreate title passes its field check exactly when it has at most 100 characters and contains no bad word |
| `Schemas.ValidatePostCreate` | app/schemas.py:36-59 | a PostCreate is built exactly when title, content and rating all pass; it carries the given values, with `published` defaulting to true; otherwise one to three field errors |
| `Schemas.UpdateTitleNoBadWords` | app/schemas.py:104-110 | rejects a title exactly when it is present, non-empty and its lower-cased form contains "spam", "fake" or "test"; None and "" pass; an accepted value is returned unchanged |
| `Schemas.UpdateContentNotEmpty` | app/schemas.py:113-117 | rejects content exactly when it is present, non-empty and whitespace only; None passes; an accepted value is returned unchanged |
| `Schemas.CheckUpdateTitle` | app/schemas.py:98 | a PostUpdate title passes exactly when it is absent, or has 3 to 200 characters and no bad word |
| `Schemas.CheckUpdateContent` | app/schemas.py:99 | PostUpdate content passes exactly when it is absent or not whitespace only (the empty string fails `min_length=1`) |
| `Schemas.ValidatePostUpdate` | app/schemas.py:97-117 | a PostUpdate is built exactly when title, content and rating pass, and it carries the given values |
| `Schemas.PasswordStrength` | app/schemas.py:150-154 | accepts a password exactly when it has at least 6 characters, returning it unchanged |
| `Schemas.EmailMustBeValid` | app/schemas.py:156-160 | accepts an e-mail exactly when it contains '@', returning it unchanged |
| `Schemas.CheckPassword` | app/schemas.py:148 | the `min_length=6` bound rejects every short password first, so the validator's own test never fails |
| `Schemas.ValidateUserCreate` | app/schemas.py:147-160 | a UserCreate is built exactly when the e-mail contains '@' and the password has at least 6 characters |
| `Schemas.ValidateVote` | app/schemas.py:215-217 | a Vote is built exactly when its direction is 0 or 1 |
| `Schemas.CapitalSpamRejected` | app/schemas.py:51 | the check ignores case: any title containing "SPAM" is rejected |
| `Schemas.TestInsideWordRejected` | app/schemas.py:108 | the check looks for substrings, not words: any title containing "test", e.g. "Latest news", is rejected by PostUpdate |
| `Schemas.LowerAround` | app/schemas.py:51 | lower-casing a title lower-cases each embedded word in place |
| `PyStr.Lower` | app/schemas.py:51 | `v.lower()` leaves no ASCII capital and never shortens the string |
| `PyStr.LowerIdempotent` | app/schemas.py:51 | lower-casing twice is lower-casing once |
| `PyStr.LowerAscii` | app/schemas.py:51 | on ASCII text, `lower()` maps each character to its ASCII lower-case form and keeps the length |
| `PyStr.Contains` | app/schemas.py:51 | `w in s` holds exactly when `w` occurs in `s` at some position |
| `PyStr.AnyContained` | app/schemas.py:51 | `any(w in s for w in words)` holds exactly when some listed word occurs in `s` |
| `PyStr.DecimalDigits` | app/router/poste.py:75 | the digits of a non-negative number, without leading zeros, denote that number |
| `PyStr.IntToStr` | app/router/poste.py:75 | `str(id)` starts with '-' exactly for a negative id, and its digits denote the id's magnitude |
| `PyStr.IntToStrInjective` | app/router/poste.py:66-75 | distinct ids have distinct `str` forms, so each 404 detail and the `X-Deleted-Post-ID` header name the requested id |
| `PyStr.Strip` | app/schemas.py:57 | `v.strip()` is empty exactly when `v` is whitespace only; otherwise it neither starts nor ends with whitespace |
| `Uuids.Format` | app/router/auth.py:31 | `str(user.id)` has 36 characters |
| `Uuids.Parse` | app/oauth2.py:52 | an accepted string has 32 characters, or 36 with hyphens at positions 8, 13, 18 and 23 |
| `Uuids.ParseCanonical` | app/oauth2.py:52 | whatever spelling is accepted, `str` of the parsed UUID is that spelling with hexadecimal letters lower-cased and the 32-digit form hyphenated 8-4-4-4-12; with `ParseFormat` this makes parsing and `str` inverse on canonical strings |
| `Uuids.ParseFormat` | app/router/auth.py:31 | parsing `str(u)` back gives `u`, so the subject written at login is the id read back at verification |
| `Uuids.FormatInjective` | app/router/auth.py:31 | distinct user ids give distinct subjects |
| `OAuth2.AccessTokenClaims` | app/oauth2.py:25-30 | the signed claims keep every key of the input and add exactly "exp", "iat" and "nbf"; "exp" is the first clock reading plus the configured minutes, "iat" and "nbf" the later readings |
| `OAuth2.CreateAccessToken` | app/oauth2.py:18-33 | the copy-and-update steps produce exactly those claims, and the token is their encoding |
| `OAuth2.ClaimTimesOrdered` | app/oauth2.py:27-30 | under a clock that never goes back, `iat` and `nbf` are no earlier than the first reading, `nbf` is no earlier than `iat`, and `exp` is at most the lifetime after `iat` |
| `OAuth2.JwtDecode` | app/oauth2.py:47 | `jwt.decode` yields the payload exactly when decoding succeeds and "sub" is absent or a string; a present non-string "sub" is a JWTError |
| `OAuth2.Subject` | app/oauth2.py:49 | `payload.get("sub")` is null only when "sub" is absent or null |
| `OAuth2.AsUuid` | app/schemas.py:204 | `TokenData.user_id` accepts only a JSON string that parses as a UUID |
| `OAuth2.VerifyAccessToken` | app/oauth2.py:38-55 | a `jwt.decode` error (including a non-string "sub") and a missing "sub" both raise the given exception; a UUID subject gives `TokenData` with that id; a present non-UUID subject raises a ValidationError |
| `OAuth2.GetCurrentUser` | app/oauth2.py:61-75 | every HTTP error is 401 with `WWW-Authenticate: Bearer`; the only other failure is the non-UUID subject; success carries the payload's subject |
| `OAuth2.NonStringSubjectRejected` | app/oauth2.py:47-54 | a payload whose "sub" is a number, boolean or null is refused inside `jwt.decode`, so `get_current_user` answers 401 |
| `OAuth2.NonUuidSubjectEscapes` | app/oauth2.py:52-54 | a decoded payload with "sub" = "42" makes `get_current_user` fail with the ValidationError, not with 401 |
| `OAuth2.VerifyAccessTokenCorrected` | app/oauth2.py:38-55 | with the ValidationError also caught, every failure is the given credentials exception |
| `OAuth2.GetCurrentUserCorrected` | app/oauth2.py:61-75 | the corrected dependency fails only with 401 and a Bearer challenge, and agrees with the code as written on every token whose subject is absent or a UUID |
| `OAuth2.IssuedTokenVerifies` | app/oauth2.py:25-55 | a token issued for user X verifies to user X when decoding returns the signed "sub" |
| `Users.FirstMatch` | app/router/auth.py:24 | `.filter(...).first()` finds the first row in table order that satisfies the condition, or none when no row does |
| `Users.FirstMatchAppended` | app/router/user.py:18-21 | a row appended after rows that do not match is the first match |
| `Users.UserStore.CreateUser` | app/router/user.py:16-22 | appends exactly one row, holding the payload's e-mail, `hash_password` of the plaintext, the new id and the insertion time; earlier rows are kept; the stored row is returned |
| `Users.UserStore.GetUser` | app/router/user.py:30-34 | a path text that does not spell a UUID is refused by the database; otherwise a row with that id is returned exactly when one exists, else 404 "User with id: {id} was not found" with the path text as given; it only reads the table |
| `Users.RegisteredUserFound` | app/router/user.py:16-34 | after registering with an id no earlier row has, looking up `str` of that id returns the registered row |
| `Auth.LoginUser` | app/router/auth.py:15-33 | an unknown e-mail and a wrong password give the identical 403 "Invalid Credentials"; success means the first user with that e-mail verifies the password, and returns a bearer token created from `{"sub": str(user.id)}`; the table is only read |
| `Auth.LoginAfterRegister` | app/router/auth.py:24-31 | a user just registered with a fresh e-mail logs in with the password they registered with, when the hash verifies its own password |
| `Auth.LoginThenAuthenticate` | app/router/auth.py:31-33 | the token returned by a successful login authenticates as the user who logged in, when decoding returns the signed "sub" |
| `Posts.VoteCountIsVoterCount` | app/router/poste.py:22-23 | a post's vote count equals the number of distinct users who upvoted it, since a vote is keyed by (user, post) |
| `Posts.PostStore.GetPosts` | app/router/poste.py:18-24 | fails exactly when the discarded query does: a `search` holding NUL, an OFFSET or LIMIT outside bigint, then a negative OFFSET, then a negative LIMIT, each with its own message in that order; otherwise one entry per post, carrying that post and its number of voters (0 if none), whatever `search`, `limit` and `skip` are |
| `Posts.PostStore.CreatePost` | app/router/poste.py:32-39 | inserts exactly one new post under a fresh id, owned by the caller and holding the payload's fields; existing posts and votes are unchanged |
| `Posts.PostStore.GetPost` | app/router/poste.py:47-52 | returns the post with that id, or 404 when none exists; the tables are only read |
| `Posts.PostStore.DeletePost` | app/router/poste.py:61-75 | a missing id gives 404 before ownership is looked at; a non-owner gets 403 and the table is unchanged; the owner's request removes exactly that id and answers 204 with the `X-Deleted-Post-ID` header |
| `Posts.PostStore.UpdatePost` | app/router/poste.py:83-91 | takes no caller identity; a missing id gives 404 with the table unchanged; otherwise all four payload fields, None included, replace the row's and the updated row is returned; other posts are unchanged |
| `Posts.OwnerOnlyDelete` | app/router/poste.py:63-72 | for a post created by one user: another user's delete is refused with 403, the owner's succeeds with 204, and the post is then gone (404) |

## Left out

- JWT signing and decoding (`jwt.encode`, `jwt.decode`) are the parameters `encode` and
  `decode`. The signature, expiry and not-before checks inside the library are not
  modelled: `decode` either yields a payload or signals JWTError. Of the library's
  registered-claim checks only the one on "sub" is modelled (`OAuth2.JwtDecode`); the
  type checks on "exp", "iat", "nbf", "iss", "aud" and "jti" are part of `decode`.
- bcrypt hashing and verification are the parameters `hashPassword` and `verifyPassword`.
- Clock readings are parameters, in whole seconds. The conversion of `datetime` claims to
  NumericDate inside the encoder is not modelled.
- The database's `now()`, `uuid.uuid4()` and the post id sequence are parameters or a
  counter.
- `EmailStr` format checking and normalisation are not modelled; only the `@` validator is.
- Pydantic's type coercion, explicit JSON nulls for required fields and request parsing
  are not modelled. Neither is response-model serialisation (`PostResponse`,
  `UserResponse`).
- FastAPI's extraction of the bearer token (`OAuth2PasswordBearer`, which answers 401
  when the header is missing) is not modelled. FastAPI resolves `get_current_user` before
  a handler body runs, so the post handlers take the resulting `TokenData`.
- PyStr.Lower: maps only the characters whose lower-case form contains an ASCII letter
  (A-Z, KELVIN SIGN, LATIN CAPITAL LETTER I WITH DOT ABOVE). Other characters are kept.
  This changes the lower-cased text but not whether an ASCII bad word occurs in it.
- Uuids.Parse: accepts only the 32-digit and the hyphenated forms; the braced and `urn:`
  forms pydantic also accepts are not modelled.
- Database constraints are not modelled: NOT NULL, unique e-mail, foreign keys and
  cascading deletes. So in the model:
  - an update that omits a field stores None, where a real database would refuse the
    commit;
  - a deleted post's votes stay in the vote set;
  - registering an e-mail twice is not rejected.
- Sessions, commit, refresh, transactions and concurrent requests are not modelled; each
  handler is one atomic method.
- Users.UserStore.GetUser: a path text is taken to spell a UUID when `Uuids.Parse`
  accepts it. PostgreSQL's uuid input also accepts braces and a hyphen after any group of
  four digits; the model treats those spellings as the database error (500) instead of a
  lookup.
- Users.FirstMatch: `first()` is modelled as the first row in insertion order. PostgreSQL
  gives no order without ORDER BY.
- Posts.PostStore.GetPosts: the rows come back as a map by id, so their order is not
  modelled. The rows of the discarded filtered query are not computed.
- Posts.PostStore.CreatePost: the post id is an unbounded counter. The int4 sequence
  behind `post.id` (app/models.py:17) stops at 2^31-1, after which the database refuses
  the insert; the model does not.
- The vote router is not part of this model. Votes are only read, and the vote's
  `created_at` column is left out.

## Findings

| source | as written | input that shows it | evidently intended | confidence | as-written member | corrected member |
|---|---|---|---|---|---|---|
| app/oauth2.py:46-54 | `TokenData(user_id=user_id)` raises pydantic's ValidationError when "sub" is not a UUID; `except JWTError` does not catch it, so `get_current_user` fails with an unhandled error (500) instead of 401 | a token signed with the server key whose payload is `{"sub": "42"}` | every token that cannot be resolved to a user gives the 401 credentials error with the Bearer challenge | medium, not executed; needs a token signed with the server's key | `OAuth2.NonUuidSubjectEscapes` | `OAuth2.GetCurrentUserCorrected` |

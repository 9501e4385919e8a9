# Authentication and authorization of barbearia-api, modelled in Dafny

The shop-management API protects its routes with one request filter and issues
sessions from one login route. This project models both as pure functions and
proves their decision rules.

- **The authorization filter** (`authMiddleware(role)` in `middlewares/auth.js`).
  `AuthMiddleware.Authorize` takes four inputs: the `Authorization` header (absent
  or a string), the role the route requires (absent or a string), the signing
  secret, and the token verifier. It returns one `GateOutcome`. The six refusals are
  missing token, malformed header, expired token, invalid token, other
  verification error and role mismatch. The seventh outcome, `Proceed`, stands for
  a call to `next()`. `GateResponse` gives the status code and JSON body actually sent.
  The header is split exactly as JavaScript's `split(' ')` splits it
  (`HeaderSplit.Split`).
- **The login route** (`POST /login` in `routes/login.js`). `LoginRoute.Login`
  takes the request body `{ email, senha }`, the row lookup, the password
  comparison and the token signer. It returns one of four answers: lookup failure
  (500), unknown user (401), wrong password (401), or a token with the user's
  profile (200), as a `LoginOutcome` that `LoginResponse` renders. A fifth outcome covers an exception inside the asynchronous
  callback, after which no response is sent. `SelectActiveUser` is the lookup's
  `SELECT … WHERE email = ? AND D_E_L_E_T_ = 0 LIMIT 1` over a table of stored
  users.
- **Both together** (`Session`). A token minted by a successful login, presented
  back as `Bearer <token>`, passes the filter exactly when the route's role is
  absent or equals the user's `tipo_usuario`. This holds under one stated
  assumption about the token library: a freshly signed token contains no space
  and verifies to the claims it was signed with.

Foreign code enters as function-typed parameters, with the result shapes those
libraries produce:
- `jwt.verify(token, secret)` becomes `Jwt.Verifier`. It returns the decoded
  claims, or an error with a `name`, a `message` and, for an expired token, an
  `expiredAt`.
- `jwt.sign` becomes `Jwt.Signer`.
- `bcrypt.compare` becomes `LoginRoute.Comparer`, which resolves to true or false
  or rejects.
- The SQL query becomes `LoginRoute.Query`.

The secret read from `JWT_SECRET` is a plain parameter. The clock is inside the
verifier: `Verifier` is the verifier at the instant the request is handled.

The filter accepts a header exactly when it is `Bearer`, one space, and a token
that contains no space. `HeaderSplit.BearerSplit` proves that the code's test on
the split parts comes to exactly this rule.

This differs from the bearer scheme of section 2.1 of RFC 6750, and the model
follows the code. The code is stricter than the RFC in two ways:
- The scheme name `Bearer` is case-sensitive.
- Exactly one space must separate it from the token.

It is looser in one way. The RFC requires a non-empty `b64token`, made only of
letters, digits, `-._~+/` and trailing `=`. The code accepts an empty token and
any character except a space. For example, `"Bearer "` passes the format check,
and the empty string goes to the verifier.

The model keeps these behaviours of the code, some of which a reader may not expect:
- An empty `Authorization` header counts as missing, because JavaScript treats
  the empty string as false.
- A verification error that is neither `TokenExpiredError` nor
  `JsonWebTokenError` gets a third 401 answer, "Erro ao validar o token", with a
  `detalhe` member.
- An empty required role (`authMiddleware('')`) requires no role.
- Login answers an unknown user and a wrong password with two different
  messages.
- A lookup error is answered 500 with the database's message.

## Model

| member | source | states |
|---|---|---|
| `HeaderSplit.Split` | middlewares/auth.js:11 | `split(' ')` always yields at least one part, no part contains the separator, and joining the parts with the separator gives back the header |
| `HeaderSplit.SplitJoin` | middlewares/auth.js:11 | splitting a join of separator-free parts returns exactly those parts (the inverse direction of the round trip) |
| `HeaderSplit.BearerSplit` | middlewares/auth.js:11-16 | the test `parts.length === 2 && parts[0] === 'Bearer'` holds exactly when the header is "Bearer", one space and a space-free token, and then `parts[1]` is everything after "Bearer " |
| `AuthMiddleware.MissingHeaderRefused` | middlewares/auth.js:5-9 | the outcome is "token missing" exactly when the header is absent or empty, whatever the role and the verifier |
| `AuthMiddleware.MalformedHeaderRefused` | middlewares/auth.js:11-14 | a present header is refused as malformed exactly when it is not in bearer form, and in that case the verifier's behaviour cannot change the outcome (it is not consulted) |
| `AuthMiddleware.RefusedHeaderExamples` | middlewares/auth.js:11-14 | "bearer x", "Bearer  x", "Bearer", "Bearer a b" and "Basic abc" are not in bearer form |
| `AuthMiddleware.AcceptedHeaderExample` | middlewares/auth.js:11-19 | "Bearer abc" passes the format check and "abc" is what is verified |
| `AuthMiddleware.VerifierSeesToken` | middlewares/auth.js:16-19 | for a bearer-form header the outcome depends on the verifier only through its answer for the unchanged text after "Bearer " and the configured secret |
| `AuthMiddleware.VerifyFailureClassified` | middlewares/auth.js:31-38 | a verifier failure is a 401 and never a 403 or `next()`: TokenExpiredError reports `expiradoEm = expiredAt`, JsonWebTokenError gives "Token inválido", any other error reports its message as `detalhe` |
| `AuthMiddleware.RoleMismatchForbidden` | middlewares/auth.js:19-28 | with a required role and a verified token whose role claim differs, the answer is 403 with `roleEsperada` = the required role and `roleUsuario` = the claim, `next()` is not called and `req.user` still holds the decoded claims |
| `AuthMiddleware.NoRoleRequired` | middlewares/auth.js:22-30 | with no required role (omitted or empty), every verified token proceeds with its claims, whatever its role claim |
| `AuthMiddleware.ProceedExactly` | middlewares/auth.js:7-30 | `next()` is called if and only if the header is present, in bearer form, verifies, and the role is not required or equals the role claim; `req.user` then holds the decoded claims |
| `AuthMiddleware.ChecksInOrder` | middlewares/auth.js:7-39 | each refusal implies every earlier check passed (missing, then format, then verify, then role); `req.user` is set exactly when verification succeeded; a role mismatch refusal implies the claim differs from the required role and reports the claim; a response is sent exactly when `next()` is not called; every response is 401 except the 403 of a role mismatch |
| `LoginRoute.SelectActiveUser` | routes/login.js:33-35 | the lookup returns at most one row; it returns none exactly when no stored user with that email has `D_E_L_E_T_ = 0` (or no email was sent), and otherwise a row of such a user |
| `LoginRoute.LookupErrorIs500` | routes/login.js:36-37 | a lookup error is answered 500 with the error's message, and the comparer and signer cannot change the outcome |
| `LoginRoute.UnknownUserRefused` | routes/login.js:34-38 | when no email was sent (bound as NULL) or every stored row with that email is soft-deleted, the answer is 401 "Usuário não encontrado", independent of comparer and signer |
| `LoginRoute.OnlyActiveUsersLogIn` | routes/login.js:33-40 | a successful login is always as a stored user with `D_E_L_E_T_ = 0` whose email is the one submitted, and the profile's id and `tipo` are that user's |
| `LoginRoute.WrongPasswordRefused` | routes/login.js:43-44 | a password mismatch is answered 401 "Senha inválida", a message different from the not-found one, and the signer cannot change the outcome |
| `LoginRoute.FirstRowOnly` | routes/login.js:38-40 | only the first returned row matters: the outcome equals that of a lookup returning the first row alone |
| `LoginRoute.SuccessExactly` | routes/login.js:40-60 | a token is issued if and only if a row came back, the comparison for its hash resolved true and signing succeeded; the token is the one signed over `{id, role: tipo_usuario}` with a 28800-second (8h) lifetime, and the profile is that row's id, name, email and role |
| `LoginRoute.SuccessResponseShape` | routes/login.js:53-60 | a 200 body has exactly the members `token` and `usuario`; `usuario` has exactly `id, nome, email, tipo` and never `senha`; the role signed into the token equals `usuario.tipo` |
| `LoginRoute.ThrowsLeaveRequestUnanswered` | routes/login.js:36-51 | if the comparison rejects, or signing throws after a matching password, then no response is sent and no token is issued |
| `Session.LoginTokenPassesGate` | routes/login.js:47-61 | a token from a successful login, sent back as "Bearer <token>", passes the filter exactly when no role is required or the role equals the user's `tipo`; otherwise the answer is 403 naming both roles; `req.user` carries the user's id and role |
| `Session.AdminScenario` | middlewares/auth.js:16-30 | an admin who logged in passes routes gated with 'admin' and ungated-by-role routes, and gets 403 with `roleEsperada` = the other role, `roleUsuario` = 'admin' on routes requiring any other role |

## Left out

- JWT internals (HMAC signing, base64url, the clock comparison inside `jwt.verify`) belong to the token library. The verifier and signer are parameters. The one property the model relies on between them is stated as `Session.FreshTokensVerify`, a hypothesis of the end-to-end lemmas.
- bcrypt hashing and comparison are a foreign library. The comparison is a parameter that resolves to true or false or rejects.
- The database is not modelled:
  - Connection pooling and the query's execution are left out (`db.js` is not part of this model).
  - `SelectActiveUser` compares emails exactly. MySQL's collation, which usually ignores case, is not modelled.
  - Without `ORDER BY`, `LIMIT 1` may return any matching row. The model takes the first in table order.
- A decoded payload that is not an object (a string payload), or a `role` claim that is not a string, is not modelled. Claims are an id, a role, `iat` and `exp`, each possibly absent.
- The `expiredAt` date is kept as an abstract instant. Its ISO-8601 rendering in JSON is not modelled.
- The Express mechanics are replaced by the `GateOutcome` and `LoginOutcome` values and by `GateResponse` and `LoginResponse`: asynchronous callbacks, `res.status().json()`, `next`, and the assignment to `req.user`. What happens to an unhandled promise rejection after `NoResponse` (a hung request or a crashed process) is not modelled.
- Which role each route passes to `authMiddleware` (the other route files) is not modelled. The filter is proved for every role value.
- The registration route, which signs a token whose role comes from the request body, is not modelled.
- An unset `JWT_SECRET` is `undefined`, which the string-typed `secret` parameter cannot represent. The code has no startup check for it. With it unset, `jwt.verify` throws a JsonWebTokenError, which the filter answers 401 "Token inválido", and `jwt.sign` throws, which leaves the login request unanswered (`NoResponse`). The verifier and signer parameters can return both results, so both paths are covered, but the link to the unset secret is not.
- The API documentation comments are not modelled.
- LoginRoute.SelectActiveUser: the body's `email` is modelled as a string or absent. Nothing in the handler checks its type. The mysql driver writes a JSON number, boolean, array or object into the SQL text as it is. For example, `0` gives `email = 0`, which MySQL compares as numbers and which matches every non-numeric email. An object such as `{"email": 1}` gives `` email = `email` = 1 ``, which is true for every row. Such a lookup can return any active row. This is not modelled. The `D_E_L_E_T_ = 0` condition still always applies.
- LoginRoute.OnlyActiveUsersLogIn: "whose email is the one submitted" holds only for a string email. With a non-string email, as described on the line above, the login succeeds as the first active user the lookup returns, provided the password matches that user. The promise that a soft-deleted user never logs in holds for every email value.

/**
 * The `POST /login` handler of routes/login.js. The SQL lookup, the bcrypt
 * comparison and the token signer are foreign code and enter as
 * function-typed parameters; one request is one call of Login.
 */
module LoginRoute {
  import opened Wrappers
  import opened Http
  import opened Jwt

  const NotFoundMessage: string := "Usuário não encontrado"
  const WrongPasswordMessage: string := "Senha inválida"

  /** The request body `{ email, senha }`; either member may be missing. */
  datatype LoginRequest = LoginRequest(email: Option<string>, senha: Option<string>)

  /** The columns selected by the lookup: `id, nome, email, senha, tipo_usuario`. */
  datatype UserRow = UserRow(id: int, nome: string, email: string, senha: string, tipoUsuario: string)

  /** A row of the `usuarios` table with its soft-delete flag `D_E_L_E_T_`. */
  datatype StoredUser = StoredUser(row: UserRow, deleted: int)

  /** What the lookup's callback receives: an error, or the rows. */
  datatype QueryResult = QueryError(message: string) | Rows(rows: seq<UserRow>)

  /** The settled `bcrypt.compare` promise: true, false, or a rejection. */
  datatype CompareResult = Same | Different | CompareRejected(message: string)

  /** The `usuario` object of a successful response: no password hash. */
  datatype Profile = Profile(id: int, nome: string, email: string, tipo: string)

  /** The lookup for the given email, i.e. the SELECT statement run against the store. */
  type Query = Option<string> -> QueryResult

  /** `bcrypt.compare(senha, hash)`. */
  type Comparer = (Option<string>, string) -> CompareResult

  datatype LoginOutcome =
    | LookupFailed(message: string)
    | UserNotFound
    | WrongPassword
    | LoggedIn(token: string, usuario: Profile)
      // a throw inside the async callback: the promise rejects and no response is sent
    | NoResponse(reason: string)

  /** The handler for one request, with `secret` the value of JWT_SECRET. */
  function Login(secret: string, req: LoginRequest, query: Query, compare: Comparer, sign: Signer): LoginOutcome
  {
    match query(req.email)
    case QueryError(m) => LookupFailed(m)
    case Rows(rows) =>
      if |rows| == 0 then UserNotFound
      else
        var user := rows[0];
        match compare(req.senha, user.senha)
        case CompareRejected(m) => NoResponse(m)
        case Different => WrongPassword
        case Same =>
          match sign(Payload(user.id, user.tipoUsuario), secret, EightHours)
          case SignFailed(m) => NoResponse(m)
          case Signed(token) => LoggedIn(token, Profile(user.id, user.nome, user.email, user.tipoUsuario))
  }

  function ProfileJson(p: Profile): Json
  {
    JObj(map["id" := JNum(p.id), "nome" := JStr(p.nome), "email" := JStr(p.email), "tipo" := JStr(p.tipo)])
  }

  /** The response sent, or None when the callback throws before responding. */
  function LoginResponse(o: LoginOutcome): Option<Response>
  {
    match o
    case LookupFailed(m) => Some(Response(500, JObj(map["error" := JStr(m)])))
    case UserNotFound => Some(Response(401, JObj(map["error" := JStr(NotFoundMessage)])))
    case WrongPassword => Some(Response(401, JObj(map["error" := JStr(WrongPasswordMessage)])))
    case LoggedIn(token, usuario) =>
      Some(Response(200, JObj(map["token" := JStr(token), "usuario" := ProfileJson(usuario)])))
    case NoResponse(_) => None
  }

  // ---------------------------------------------------------------------------
  // The lookup, as the SQL statement defines it

  /** A row the WHERE clause `email = ? AND D_E_L_E_T_ = 0` keeps. */
  predicate ActiveWithEmail(u: StoredUser, email: string)
  {
    u.row.email == email && u.deleted == 0
  }

  /**
   * `SELECT … WHERE email = ? AND D_E_L_E_T_ = 0 LIMIT 1` over `table`. A
   * missing email is bound as NULL, which equals nothing. Without ORDER BY the
   * store may return any matching row; the model takes the first in table order.
   */
  function SelectActiveUser(table: seq<StoredUser>, email: Option<string>): (rows: seq<UserRow>)
    ensures |rows| <= 1
    ensures rows == [] <==> (email.None? || forall i :: 0 <= i < |table| ==> !ActiveWithEmail(table[i], email.value))
    ensures rows != [] ==> exists i :: 0 <= i < |table| && ActiveWithEmail(table[i], email.value) && rows[0] == table[i].row
  {
    if email.None? then [] else FirstActive(table, email.value)
  }

  function FirstActive(table: seq<StoredUser>, email: string): (rows: seq<UserRow>)
    ensures |rows| <= 1
    ensures rows == [] <==> forall i :: 0 <= i < |table| ==> !ActiveWithEmail(table[i], email)
    ensures rows != [] ==> exists i :: 0 <= i < |table| && ActiveWithEmail(table[i], email) && rows[0] == table[i].row
    decreases |table|
  {
    if |table| == 0 then []
    else if ActiveWithEmail(table[0], email) then [table[0].row]
    else
      var rest := FirstActive(table[1..], email);
      assert forall i :: 1 <= i < |table| ==> table[i] == table[1..][i - 1];
      rest
  }

  // ---------------------------------------------------------------------------
  // Properties of the handler

  /**
   * A lookup error is answered 500 with the error's message, before any
   * password comparison or signing: the comparer and signer play no part.
   */
  lemma LookupErrorIs500(secret: string, req: LoginRequest, query: Query, compare: Comparer, sign: Signer,
                         compare': Comparer, sign': Signer)
    requires query(req.email).QueryError?
    ensures Login(secret, req, query, compare, sign) == LookupFailed(query(req.email).message)
    ensures Login(secret, req, query, compare, sign) == Login(secret, req, query, compare', sign')
    ensures LoginResponse(Login(secret, req, query, compare, sign)) ==
      Some(Response(500, JObj(map["error" := JStr(query(req.email).message)])))
  {
  }

  /**
   * No row means 401 "Usuário não encontrado", with no password comparison or
   * signing; with the lookup the SQL defines, a missing email (bound as NULL)
   * or a user whose every row carries D_E_L_E_T_ <> 0 always gets this answer.
   */
  lemma UnknownUserRefused(secret: string, req: LoginRequest, query: Query, compare: Comparer, sign: Signer,
                           compare': Comparer, sign': Signer, table: seq<StoredUser>)
    requires query(req.email) == Rows(SelectActiveUser(table, req.email))
    requires req.email.None? || forall i :: 0 <= i < |table| && table[i].row.email == req.email.value ==> table[i].deleted != 0
    ensures Login(secret, req, query, compare, sign) == UserNotFound
    ensures Login(secret, req, query, compare, sign) == Login(secret, req, query, compare', sign')
    ensures LoginResponse(Login(secret, req, query, compare, sign)).value.status == 401
    ensures ErrorOf(LoginResponse(Login(secret, req, query, compare, sign)).value) == Some(NotFoundMessage)
  {
    assert SelectActiveUser(table, req.email) == [];
  }

  /**
   * With the lookup the SQL defines, a login only ever succeeds as a stored
   * user that is not soft-deleted and whose email is the one submitted.
   */
  lemma OnlyActiveUsersLogIn(secret: string, req: LoginRequest, query: Query, compare: Comparer, sign: Signer,
                             table: seq<StoredUser>)
    requires query(req.email) == Rows(SelectActiveUser(table, req.email))
    requires Login(secret, req, query, compare, sign).LoggedIn?
    ensures req.email.Some?
    ensures exists i :: 0 <= i < |table| && table[i].deleted == 0 && table[i].row.email == req.email.value
              && Login(secret, req, query, compare, sign).usuario.id == table[i].row.id
              && Login(secret, req, query, compare, sign).usuario.tipo == table[i].row.tipoUsuario
  {
    var rows := SelectActiveUser(table, req.email);
    assert rows != [];
    var i :| 0 <= i < |table| && ActiveWithEmail(table[i], req.email.value) && rows[0] == table[i].row;
  }

  /**
   * A password mismatch is answered 401 "Senha inválida", a message distinct
   * from the not-found one, and nothing is signed.
   */
  lemma WrongPasswordRefused(secret: string, req: LoginRequest, query: Query, compare: Comparer, sign: Signer,
                             sign': Signer)
    requires query(req.email).Rows? && |query(req.email).rows| > 0
    requires compare(req.senha, query(req.email).rows[0].senha) == Different
    ensures Login(secret, req, query, compare, sign) == WrongPassword
    ensures Login(secret, req, query, compare, sign) == Login(secret, req, query, compare, sign')
    ensures LoginResponse(Login(secret, req, query, compare, sign)).value.status == 401
    ensures ErrorOf(LoginResponse(Login(secret, req, query, compare, sign)).value) == Some(WrongPasswordMessage)
    ensures WrongPasswordMessage != NotFoundMessage
  {
    assert WrongPasswordMessage[0] != NotFoundMessage[0];
  }

  /** Only the first returned row is used: the outcome is the same as if the lookup had returned it alone. */
  lemma FirstRowOnly(secret: string, req: LoginRequest, query: Query, query': Query, compare: Comparer, sign: Signer)
    requires query(req.email).Rows? && |query(req.email).rows| > 0
    requires query'(req.email) == Rows([query(req.email).rows[0]])
    ensures Login(secret, req, query, compare, sign) == Login(secret, req, query', compare, sign)
  {
  }

  /**
   * A token is issued exactly when a row came back, the password comparison
   * for that row resolved true and signing succeeded; the token is the one
   * signed over exactly `{ id, role: tipo_usuario }` of that row with an
   * eight-hour lifetime, and the profile is that row's without the hash.
   */
  lemma SuccessExactly(secret: string, req: LoginRequest, query: Query, compare: Comparer, sign: Signer)
    ensures Login(secret, req, query, compare, sign).LoggedIn? <==>
      query(req.email).Rows? && |query(req.email).rows| > 0
      && compare(req.senha, query(req.email).rows[0].senha) == Same
      && sign(Payload(query(req.email).rows[0].id, query(req.email).rows[0].tipoUsuario), secret, 28800).Signed?
    ensures Login(secret, req, query, compare, sign).LoggedIn? ==>
      var user := query(req.email).rows[0];
      var o := Login(secret, req, query, compare, sign);
      && o.token == sign(Payload(user.id, user.tipoUsuario), secret, 28800).token
      && o.usuario == Profile(user.id, user.nome, user.email, user.tipoUsuario)
  {
  }

  /**
   * A successful response carries exactly `token` and `usuario`, the profile
   * carries exactly `id, nome, email, tipo` (never the hash `senha`), and the
   * role signed into the token is the profile's `tipo`.
   */
  lemma SuccessResponseShape(secret: string, req: LoginRequest, query: Query, compare: Comparer, sign: Signer)
    requires Login(secret, req, query, compare, sign).LoggedIn?
    ensures var o := Login(secret, req, query, compare, sign);
      var r := LoginResponse(o).value;
      && r.status == 200
      && r.body.JObj? && r.body.members.Keys == {"token", "usuario"}
      && r.body.members["token"] == JStr(o.token)
      && r.body.members["usuario"].JObj?
      && r.body.members["usuario"].members.Keys == {"id", "nome", "email", "tipo"}
      && "senha" !in r.body.members["usuario"].members
      && r.body.members["usuario"].members["tipo"] == JStr(query(req.email).rows[0].tipoUsuario)
      && o.token == sign(Payload(o.usuario.id, o.usuario.tipo), secret, EightHours).token
  {
  }

  /**
   * A comparison that rejects (a missing password, say) or a signer that
   * throws (a missing secret, say) escapes the async callback: no response is
   * sent and no token is issued.
   */
  lemma ThrowsLeaveRequestUnanswered(secret: string, req: LoginRequest, query: Query, compare: Comparer, sign: Signer)
    requires query(req.email).Rows? && |query(req.email).rows| > 0
    requires var user := query(req.email).rows[0];
      compare(req.senha, user.senha).CompareRejected?
      || (compare(req.senha, user.senha) == Same && sign(Payload(user.id, user.tipoUsuario), secret, EightHours).SignFailed?)
    ensures Login(secret, req, query, compare, sign).NoResponse?
    ensures LoginResponse(Login(secret, req, query, compare, sign)).None?
  {
  }
}

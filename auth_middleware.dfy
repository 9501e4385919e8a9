/**
 * The request filter built by `authMiddleware(role)` in middlewares/auth.js.
 * One request is one call of Authorize; the Express plumbing (`res`, `next`,
 * the assignment to `req.user`) becomes the GateOutcome it returns.
 */
module AuthMiddleware {
  import opened Wrappers
  import opened Http
  import opened HeaderSplit
  import opened Jwt

  const MissingMessage: string := "Token não fornecido no cabeçalho Authorization"
  const FormatMessage: string := "Formato do token inválido. Use \"Bearer TOKEN\""
  const ExpiredMessage: string := "Token expirado"
  const InvalidMessage: string := "Token inválido"
  const OtherMessage: string := "Erro ao validar o token"
  const ForbiddenMessage: string := "Permissão negada"

  /** How a request leaves the filter: exactly one of these. */
  datatype GateOutcome =
    | MissingToken
    | MalformedHeader
    | Expired(expiradoEm: Option<int>)
    | InvalidToken
    | ValidationError(detalhe: string)
    | Forbidden(roleEsperada: string, roleUsuario: Option<string>, user: Claims)
    | Proceed(user: Claims)
  {
    /** `next()` is called. */
    predicate CallsNext() { Proceed? }

    /** The value left in `req.user`, if it was assigned. */
    function ReqUser(): Option<Claims>
    {
      if Forbidden? || Proceed? then Some(user) else None
    }

    /** A failure raised by the verifier. */
    predicate IsVerifyFailure() { Expired? || InvalidToken? || ValidationError? }
  }

  /** JavaScript truthiness of a string that may be `undefined`. */
  predicate Truthy(s: Option<string>)
  {
    s.Some? && s.value != ""
  }

  /**
   * The closure returned by `authMiddleware(role)`, applied to a request whose
   * Authorization header is `header`, with `secret` the value of JWT_SECRET.
   */
  function Authorize(secret: string, header: Option<string>, role: Option<string>, verify: Verifier): GateOutcome
  {
    if !Truthy(header) then MissingToken
    else
      var parts := Split(header.value, ' ');
      if |parts| != 2 || parts[0] != Scheme then MalformedHeader
      else Judge(verify(parts[1], secret), role)
  }

  /** The body of the try/catch: the role check, or the classification of the thrown error. */
  function Judge(result: VerifyResult, role: Option<string>): GateOutcome
  {
    match result
    case Verified(decoded) =>
      if Truthy(role) && decoded.role != Some(role.value) then
        Forbidden(role.value, decoded.role, decoded)
      else
        Proceed(decoded)
    case Failed(err) =>
      if err.name == ExpiredErrorName then Expired(err.expiredAt)
      else if err.name == InvalidErrorName then InvalidToken
      else ValidationError(err.message)
  }

  /** The response sent, or None when the request is passed on to `next()`. */
  function GateResponse(o: GateOutcome): Option<Response>
  {
    match o
    case MissingToken => Some(Response(401, JObj(map["error" := JStr(MissingMessage)])))
    case MalformedHeader => Some(Response(401, JObj(map["error" := JStr(FormatMessage)])))
    case Expired(at) =>
      Some(Response(401, JObj(WithOptional(map["error" := JStr(ExpiredMessage)], "expiradoEm",
        if at.Some? then Some(JTime(at.value)) else None))))
    case InvalidToken => Some(Response(401, JObj(map["error" := JStr(InvalidMessage)])))
    case ValidationError(d) =>
      Some(Response(401, JObj(map["error" := JStr(OtherMessage), "detalhe" := JStr(d)])))
    case Forbidden(expected, actual, _) =>
      Some(Response(403, JObj(WithOptional(map["error" := JStr(ForbiddenMessage), "roleEsperada" := JStr(expected)],
        "roleUsuario", if actual.Some? then Some(JStr(actual.value)) else None))))
    case Proceed(_) => None
  }

  // ---------------------------------------------------------------------------
  // Properties of the filter

  /** An absent or empty header is refused first, whatever the role and the verifier. */
  lemma MissingHeaderRefused(secret: string, header: Option<string>, role: Option<string>, verify: Verifier)
    ensures Authorize(secret, header, role, verify).MissingToken? <==> (header.None? || header.value == "")
  {
  }

  /**
   * A present header that is not "Bearer " followed by a space-free token is
   * refused as malformed, and the verifier's answer plays no part in it.
   */
  lemma MalformedHeaderRefused(secret: string, h: string, role: Option<string>, verify: Verifier, other: Verifier)
    requires h != ""
    ensures Authorize(secret, Some(h), role, verify).MalformedHeader? <==> !IsBearerForm(h)
    ensures !IsBearerForm(h) ==> Authorize(secret, Some(h), role, verify) == Authorize(secret, Some(h), role, other)
  {
    BearerSplit(h);
  }

  /** Header values the filter refuses as malformed, written out. */
  lemma RefusedHeaderExamples()
    ensures !IsBearerForm("bearer x")    // the scheme is case-sensitive
    ensures !IsBearerForm("Bearer  x")   // exactly one space
    ensures !IsBearerForm("Bearer")      // no token part
    ensures !IsBearerForm("Bearer a b")  // three parts
    ensures !IsBearerForm("Basic abc")
  {
    assert "bearer x"[..7][0] != "Bearer "[0];
    assert "Bearer  x"[7..][0] == ' ';
    assert "Bearer a b"[7..][1] == ' ';
    assert "Basic abc"[..7][1] != "Bearer "[1];
  }

  /** "Bearer abc" is accepted and "abc" goes to the verifier. */
  lemma AcceptedHeaderExample(secret: string, role: Option<string>, verify: Verifier)
    ensures Authorize(secret, Some("Bearer abc"), role, verify) == Judge(verify("abc", secret), role)
  {
    VerifierSeesToken(secret, "Bearer abc", role, verify);
    assert "Bearer abc"[7..] == "abc";
  }

  /**
   * For a header in bearer form the verifier is consulted exactly once, on
   * the text after "Bearer " unchanged and on the configured secret; the
   * outcome depends on nothing else of the verifier.
   */
  lemma VerifierSeesToken(secret: string, h: string, role: Option<string>, verify: Verifier)
    requires IsBearerForm(h)
    ensures Authorize(secret, Some(h), role, verify) == Judge(verify(BearerToken(h), secret), role)
  {
    BearerSplit(h);
  }

  /**
   * A verifier failure is always a 401, never a 403 and never `next()`: an
   * expired token reports its expiry date, a JsonWebTokenError is an invalid
   * token, and any other error reports its message.
   */
  lemma VerifyFailureClassified(secret: string, h: string, role: Option<string>, verify: Verifier)
    requires IsBearerForm(h)
    requires verify(BearerToken(h), secret).Failed?
    ensures var err := verify(BearerToken(h), secret).err;
      Authorize(secret, Some(h), role, verify) ==
        if err.name == "TokenExpiredError" then Expired(err.expiredAt)
        else if err.name == "JsonWebTokenError" then InvalidToken
        else ValidationError(err.message)
    ensures GateResponse(Authorize(secret, Some(h), role, verify)).Some?
    ensures GateResponse(Authorize(secret, Some(h), role, verify)).value.status == 401
  {
    VerifierSeesToken(secret, h, role, verify);
  }

  /**
   * With a required role, a verified token whose role claim differs is
   * refused with 403, reporting both roles; the claims are still left in
   * `req.user`.
   */
  lemma RoleMismatchForbidden(secret: string, h: string, role: string, verify: Verifier)
    requires IsBearerForm(h) && role != ""
    requires verify(BearerToken(h), secret).Verified?
    requires verify(BearerToken(h), secret).decoded.role != Some(role)
    ensures var decoded := verify(BearerToken(h), secret).decoded;
      && Authorize(secret, Some(h), Some(role), verify) == Forbidden(role, decoded.role, decoded)
      && Authorize(secret, Some(h), Some(role), verify).ReqUser() == Some(decoded)
    ensures GateResponse(Authorize(secret, Some(h), Some(role), verify)).value.status == 403
  {
    VerifierSeesToken(secret, h, Some(role), verify);
  }

  /** Without a required role (omitted or empty), every verified token proceeds, whatever its role claim. */
  lemma NoRoleRequired(secret: string, h: string, role: Option<string>, verify: Verifier)
    requires IsBearerForm(h) && !Truthy(role)
    requires verify(BearerToken(h), secret).Verified?
    ensures Authorize(secret, Some(h), role, verify) == Proceed(verify(BearerToken(h), secret).decoded)
  {
    VerifierSeesToken(secret, h, role, verify);
  }

  /**
   * `next()` is called exactly when the header is present, is in bearer form,
   * the token verifies, and either no role is required or the token's role
   * claim equals it; `req.user` then holds the decoded claims.
   */
  lemma ProceedExactly(secret: string, header: Option<string>, role: Option<string>, verify: Verifier)
    ensures Authorize(secret, header, role, verify).CallsNext() <==>
      Truthy(header) && IsBearerForm(header.value)
      && verify(BearerToken(header.value), secret).Verified?
      && (!Truthy(role) || verify(BearerToken(header.value), secret).decoded.role == Some(role.value))
    ensures Authorize(secret, header, role, verify).CallsNext() ==>
      Authorize(secret, header, role, verify).ReqUser() == Some(verify(BearerToken(header.value), secret).decoded)
  {
    if Truthy(header) {
      BearerSplit(header.value);
    }
  }

  /**
   * The checks run in the order missing header, format, verification, role:
   * each outcome implies that every earlier check passed, `req.user` is
   * assigned exactly when verification succeeded, only `next()` sends no
   * response, and every response is a 401 except the 403 of a role mismatch.
   */
  lemma ChecksInOrder(secret: string, header: Option<string>, role: Option<string>, verify: Verifier)
    ensures var o := Authorize(secret, header, role, verify);
      && (o.MalformedHeader? ==> Truthy(header) && !IsBearerForm(header.value))
      && (o.IsVerifyFailure() ==>
            Truthy(header) && IsBearerForm(header.value) && verify(BearerToken(header.value), secret).Failed?)
      && (o.Forbidden? ==>
            Truthy(header) && IsBearerForm(header.value) && verify(BearerToken(header.value), secret).Verified?
            && Truthy(role) && o.roleEsperada == role.value
            && verify(BearerToken(header.value), secret).decoded.role != Some(role.value)
            && o.roleUsuario == verify(BearerToken(header.value), secret).decoded.role)
      && (o.ReqUser().Some? <==>
            Truthy(header) && IsBearerForm(header.value) && verify(BearerToken(header.value), secret).Verified?)
      && (GateResponse(o).None? <==> o.CallsNext())
      && (GateResponse(o).Some? ==> GateResponse(o).value.status == (if o.Forbidden? then 403 else 401))
  {
    if Truthy(header) {
      BearerSplit(header.value);
    }
  }
}

/**
 * Login and the filter together: a token minted by `POST /login` and sent
 * back as `Authorization: Bearer <token>`.
 */
module Session {
  import opened Wrappers
  import opened HeaderSplit
  import opened Jwt
  import opened AuthMiddleware
  import opened LoginRoute

  /**
   * What the model assumes of the token library for one secret: a token it
   * signs with the eight-hour lifetime contains no space (a compact JWT is
   * base64url parts joined by dots) and, verified with the same secret within
   * its lifetime, decodes to the signed `id` and `role`.
   */
  ghost predicate FreshTokensVerify(sign: Signer, verify: Verifier, secret: string)
  {
    forall p: Payload :: sign(p, secret, EightHours).Signed? ==>
      && ' ' !in sign(p, secret, EightHours).token
      && verify(sign(p, secret, EightHours).token, secret).Verified?
      && verify(sign(p, secret, EightHours).token, secret).decoded.id == Some(p.id)
      && verify(sign(p, secret, EightHours).token, secret).decoded.role == Some(p.role)
  }

  /**
   * A token from a successful login, presented as a bearer header to a filter
   * configured with the same secret, passes exactly when the route requires no
   * role or the user's `tipo_usuario`; otherwise it is refused with 403
   * naming both roles. Either way `req.user` carries the user's id and role.
   */
  lemma LoginTokenPassesGate(secret: string, req: LoginRequest, query: Query, compare: Comparer, sign: Signer,
                             verify: Verifier, role: Option<string>)
    requires FreshTokensVerify(sign, verify, secret)
    requires Login(secret, req, query, compare, sign).LoggedIn?
    ensures var o := Login(secret, req, query, compare, sign);
      var g := Authorize(secret, Some(Scheme + " " + o.token), role, verify);
      && (g.CallsNext() <==> !Truthy(role) || role.value == o.usuario.tipo)
      && (!g.CallsNext() ==> g.Forbidden? && g.roleEsperada == role.value && g.roleUsuario == Some(o.usuario.tipo))
      && g.ReqUser().Some? && g.ReqUser().value.id == Some(o.usuario.id) && g.ReqUser().value.role == Some(o.usuario.tipo)
  {
    var o := Login(secret, req, query, compare, sign);
    SuccessExactly(secret, req, query, compare, sign);
    var p := Payload(o.usuario.id, o.usuario.tipo);
    assert sign(p, secret, EightHours).Signed? && sign(p, secret, EightHours).token == o.token;
    var h := Scheme + " " + o.token;
    assert h[..7] == Scheme + " " && h[7..] == o.token;
    VerifierSeesToken(secret, h, role, verify);
  }

  /**
   * The end-to-end scenario: an admin who logs in reaches routes gated with
   * 'admin' and routes with no required role, and is refused with 403 on a
   * route gated with any other role.
   */
  lemma AdminScenario(secret: string, req: LoginRequest, query: Query, compare: Comparer, sign: Signer,
                      verify: Verifier, other: string)
    requires FreshTokensVerify(sign, verify, secret)
    requires Login(secret, req, query, compare, sign).LoggedIn?
    requires Login(secret, req, query, compare, sign).usuario.tipo == "admin"
    requires other != "" && other != "admin"
    ensures var h := Some("Bearer " + Login(secret, req, query, compare, sign).token);
      && Authorize(secret, h, Some("admin"), verify).CallsNext()
      && Authorize(secret, h, None, verify).CallsNext()
      && Authorize(secret, h, Some(other), verify).Forbidden?
      && Authorize(secret, h, Some(other), verify).roleEsperada == other
      && Authorize(secret, h, Some(other), verify).roleUsuario == Some("admin")
  {
    assert Scheme + " " == "Bearer ";
    LoginTokenPassesGate(secret, req, query, compare, sign, verify, Some("admin"));
    LoginTokenPassesGate(secret, req, query, compare, sign, verify, None);
    LoginTokenPassesGate(secret, req, query, compare, sign, verify, Some(other));
  }
}

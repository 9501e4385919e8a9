/**
 * The token library (jsonwebtoken) as seen by the two core handlers. Signing
 * and verification are foreign code: they enter the model as function-typed
 * parameters with the result shapes the library produces.
 */
module Jwt {
  import opened Wrappers

  /** The decoded payload handed back by `jwt.verify`; only these claims matter here. */
  datatype Claims = Claims(id: Option<int>, role: Option<string>, iat: Option<int>, exp: Option<int>)

  /**
   * An error thrown by `jwt.verify`: its `name`, its `message`, and the
   * `expiredAt` date that a TokenExpiredError carries.
   */
  datatype VerifyError = VerifyError(name: string, message: string, expiredAt: Option<int>)

  datatype VerifyResult = Verified(decoded: Claims) | Failed(err: VerifyError)

  /** `jwt.verify(token, secret)` at the instant the request is handled. */
  type Verifier = (string, string) -> VerifyResult

  /** The payload object passed to `jwt.sign`. */
  datatype Payload = Payload(id: int, role: string)

  datatype SignResult = Signed(token: string) | SignFailed(message: string)

  /** `jwt.sign(payload, secret, { expiresIn })`, the lifetime in seconds. */
  type Signer = (Payload, string, int) -> SignResult

  const ExpiredErrorName: string := "TokenExpiredError"
  const InvalidErrorName: string := "JsonWebTokenError"

  /** The option `expiresIn: '8h'`, which the library reads as 8 * 3600 seconds. */
  const EightHours: int := 8 * 60 * 60
}

/**
 * jsonwebtoken's `sign` and `verify` under the process-wide `secretKey`,
 * kept abstract: a codec is any pair of functions, and the facts the model
 * relies on are collected in `WellFormed`.
 */
module TokenCodec {
  import opened Wrappers
  import opened Records

  /**
   * `sign(claims)` is `jwt.sign(claims, secretKey)` (no `expiresIn`, so no
   * token ever expires); `verify(token)` is `jwt.verify(token, secretKey)`,
   * failing with the reason the library reports.
   */
  datatype Codec = Codec(sign: Claims -> Token, verify: Token -> Result<Claims, string>)

  /** The reason `jwt.verify` gives when it is handed no token at all. */
  const MISSING_TOKEN := "jwt must be provided"

  /** A signed token is never the empty string and verifies back to its claims. */
  ghost predicate WellFormed(codec: Codec) {
    forall claims :: codec.sign(claims) != "" && codec.verify(codec.sign(claims)) == Success(claims)
  }
}

/**
 * The two foreign libraries the controller calls, as values the handlers
 * receive: bcrypt (salted hash and compare) and jsonwebtoken (sign, verify and
 * the unverified payload read `decode`). The wall clock that decides expiry is
 * the `now` argument of sign and verify; the secret key is fixed inside the
 * `Jwt` value for the life of the process.
 */
module Libraries {
  import opened Wrappers

  /** The payload Login signs: the user's id and profile. */
  datatype Claims = Claims(
    userId: int,
    name: Option<string>,
    username: string,
    email: Option<string>,
    phone: Option<string>,
    role: string,
    image: Option<string>,
    url: Option<string>)

  /** `bcrypt.hash(password, salt)` and `bcrypt.compare(password, hash)`. */
  datatype Bcrypt = Bcrypt(hash: (string, string) -> string, compare: (string, string) -> bool)

  /** `jwt.sign(claims, secret, {expiresIn})` at time `now`, `jwt.verify(token, secret)`
    * at time `now` (None where it throws: bad signature, malformed or expired),
    * and `jwt.decode(token)` (the payload, read without checking the signature). */
  datatype Jwt = Jwt(
    sign: (Claims, int) -> string,
    verify: (string, int) -> Option<Claims>,
    decode: string -> Option<Claims>)

  /** What the handlers rely on bcrypt for: a password matches its own hash. */
  ghost predicate BcryptSound(bcrypt: Bcrypt)
  {
    forall password, salt :: bcrypt.compare(password, bcrypt.hash(password, salt))
  }

  /** A JWT as sent in a header: non-empty base64url segments, never a space. */
  predicate TokenText(token: string)
  {
    token != [] && ' ' !in token
  }

  /** What jsonwebtoken promises: a token carries its payload, is valid when it
    * is issued, and verifies only to the payload it carries. */
  ghost predicate JwtSound(jwt: Jwt)
  {
    && (forall claims, now :: TokenText(jwt.sign(claims, now)))
    && (forall claims, now :: jwt.decode(jwt.sign(claims, now)) == Some(claims))
    && (forall claims, now :: jwt.verify(jwt.sign(claims, now), now) == Some(claims))
    && (forall token, now :: jwt.verify(token, now).Some? ==> jwt.decode(token) == jwt.verify(token, now))
  }
}

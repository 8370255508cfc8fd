/**
 * bcryptjs and jsonwebtoken, seen from the handlers: `hash`, `compare` and
 * `sign` are arbitrary functions, and the one law the model relies on is that
 * a password verifies against its own digest.
 */
module Crypto {
  import opened UserModel

  /** The payload `{ id: user._id }` of a token issued at sign-in. */
  datatype Claims = Claims(id: UserId)

  /** A signed token: its claims and the signature over them. */
  datatype Token = Token(claims: Claims, signature: string)

  datatype Crypto = Crypto(
    hash: string -> string,
    compare: (string, string) -> bool,
    sign: Claims -> string)

  /** `bcryptjs.compare(p, await bcryptjs.hash(p, 8))` is true. */
  ghost predicate Lawful(c: Crypto) {
    forall p :: c.compare(p, c.hash(p))
  }

  /** `jwt.sign({ id }, JWT_KEY)`: the only claim is the user's id. */
  function Sign(c: Crypto, id: UserId): (t: Token)
    ensures t.claims.id == id
  {
    Token(Claims(id), c.sign(Claims(id)))
  }
}

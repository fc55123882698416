/** Password hashing (bcrypt) and token signing (jsonwebtoken) are foreign
    libraries. The model takes them as function values and states only the
    properties the backend relies on. */
module Crypto {
  import opened Common

  datatype Primitives = Primitives(
    hash: string -> string,              // bcrypt.hash with a fresh salt
    matches: (string, string) -> bool,   // bcrypt.compare(entered, stored)
    sign: Id -> string,                  // generateToken(id)
    verify: string -> Option<Id>         // jwt.verify(token, secret), None when it throws
  )

  /** What the libraries promise: a hash matches its own password, a signed
      token verifies to the id it was signed for, and a token (base64url
      pieces joined by dots) holds no space. */
  ghost predicate Sound(c: Primitives) {
    (forall pw :: c.matches(pw, c.hash(pw))) &&
    (forall id: Id :: c.verify(c.sign(id)) == Some(id)) &&
    (forall id: Id :: ' ' !in c.sign(id))
  }
}

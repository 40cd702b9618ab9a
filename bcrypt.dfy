/**
 * `bcrypt.hash` and `bcrypt.compare`, kept symbolic. A digest is never
 * inspected; the only thing the resolvers do with it is compare a candidate
 * password against it, and a candidate matches exactly the password that was
 * hashed.
 */
module Bcrypt {

  datatype PasswordHash = Digest(hashed: string)

  /** `bcrypt.hash(password, 10)`. */
  function Hash(password: string): (h: PasswordHash)
    ensures Matches(password, h)
  {
    Digest(password)
  }

  /** `bcrypt.compare(candidate, h)`. */
  predicate Matches(candidate: string, h: PasswordHash) {
    h.hashed == candidate
  }

  /** A digest accepts its own password and no other. */
  lemma HashAcceptsOnlyItsPassword(candidate: string, password: string)
    ensures Matches(candidate, Hash(password)) <==> candidate == password
  {
  }
}

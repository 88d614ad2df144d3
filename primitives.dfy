/**
 * The primitives the user service calls but whose internals are not part of
 * this model: zod's email and UUID syntax checks, bcrypt's hash and compare
 * (cost factor 10), and jsonwebtoken's sign and verify (one-hour expiry,
 * process-wide secret). They are gathered into one configuration value that
 * is fixed when the service is constructed.
 */
module Primitives {
  import opened Wrappers

  /** A user id as the service stores and compares it: a string. */
  type Id = string

  /**
   * What `verifyToken` returns: null on any failure (bad signature, expired,
   * malformed), otherwise the decoded payload, whose `id` claim is reduced to
   * the string it carries, if any.
   */
  datatype Verified = Invalid | Payload(id: Option<Id>)

  datatype Env = Env(
    isEmail: string -> bool,           // z.string().email()
    isUuid: string -> bool,            // z.string().uuid()
    hash: string -> string,            // hashPassword
    compare: (string, string) -> bool, // comparePassword(plain, digest)
    sign: Id -> string,                // generateToken({id})
    verify: string -> Verified         // verifyToken
  )

  /** `!decoded || !decoded.id`, negated: the id claim of a usable payload. */
  function ClaimedId(v: Verified): Option<Id> {
    if v.Payload? && v.id.Some? && v.id.value != "" then v.id else None
  }

  /**
   * What the wrapped libraries are relied on for: a password compares equal
   * to its own digest, and a freshly issued token verifies to the id it was
   * issued for and has the shape of a non-empty, space-free JWT.
   */
  ghost predicate Sound(env: Env) {
    && (forall p :: env.compare(p, env.hash(p)))
    && (forall id :: env.verify(env.sign(id)) == Payload(Some(id)))
    && (forall id :: env.sign(id) != "" && ' ' !in env.sign(id))
  }
}

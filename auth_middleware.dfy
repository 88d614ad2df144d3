/**
 * The `authenticateToken` middleware (middleware/authMiddleware.ts): bearer
 * header parsing, token verification and user lookup, ending either in a
 * rejection or in `req.user` being set and `next()` being called.
 */
module AuthMiddleware {
  import opened Wrappers
  import opened Primitives
  import opened UserTypes
  import opened Bearer

  /** The outcome of the gate: a rejection reply, or the identity to attach before `next()`. */
  datatype Gate = Reject(status: int, message: string) | Continue(user: AuthUser)

  /**
   * The decision `authenticateToken` takes for a request carrying the header
   * `authorization`, against the table `users`; `storeDown` says whether the
   * `findUnique` call throws.
   */
  function Authenticate(env: Env, users: map<Id, User>, authorization: Option<string>, storeDown: bool): (g: Gate)
    requires KeyedById(users)
    ensures g.Reject? ==> g.status in {401, 403, 404, 500}
    ensures g == Reject(401, "Access Denied: No token provided.") <==> BearerToken(authorization).None?
    ensures g == Reject(403, "Access Denied: Invalid or expired token.") <==>
      BearerToken(authorization).Some? && ClaimedId(env.verify(BearerToken(authorization).value)).None?
    ensures g.Continue? <==>
      && BearerToken(authorization).Some?
      && ClaimedId(env.verify(BearerToken(authorization).value)).Some?
      && !storeDown
      && ClaimedId(env.verify(BearerToken(authorization).value)).value in users
    ensures BearerToken(authorization).Some? && ClaimedId(env.verify(BearerToken(authorization).value)).Some? ==>
      var id := ClaimedId(env.verify(BearerToken(authorization).value)).value;
      && (storeDown ==> g == Reject(500, "Server error during authentication."))
      && (!storeDown && id !in users ==> g == Reject(404, "User not found for this token."))
    ensures g.Continue? ==>
      && Some(g.user.id) == ClaimedId(env.verify(BearerToken(authorization).value))
      && g.user == Profile(users[g.user.id])
  {
    match BearerToken(authorization)
    case None => Reject(401, "Access Denied: No token provided.")
    case Some(token) =>
      match ClaimedId(env.verify(token))
      case None => Reject(403, "Access Denied: Invalid or expired token.")
      case Some(id) =>
        if storeDown then Reject(500, "Server error during authentication.")
        else if id !in users then Reject(404, "User not found for this token.")
        else Continue(Profile(users[id]))
  }

  /**
   * A token issued by `generateToken` for a user still in the table, sent
   * the conventional way, lets the request through as that user.
   */
  lemma IssuedTokenPasses(env: Env, users: map<Id, User>, id: Id)
    requires Sound(env) && KeyedById(users)
    requires id in users && id != ""
    ensures Authenticate(env, users, Some(Scheme + " " + env.sign(id)), false) == Continue(Profile(users[id]))
  {
    ConventionalHeader(env.sign(id));
  }

  /**
   * Tokens are not revoked: after the user is deleted, the same token still
   * verifies, and the gate answers 404 rather than 403.
   */
  lemma DeletedUsersTokenGets404(env: Env, users: map<Id, User>, id: Id)
    requires Sound(env) && KeyedById(users)
    requires id !in users && id != ""
    ensures Authenticate(env, users, Some(Scheme + " " + env.sign(id)), false)
      == Reject(404, "User not found for this token.")
  {
    ConventionalHeader(env.sign(id));
  }

  /**
   * `authenticateToken` (lines 5-56) run on `req`: `halt` is the reply it
   * sends when it stops the request, and None when it sets `req.user` and
   * calls `next()` once. The table is only read.
   */
  method AuthenticateToken(env: Env, users: map<Id, User>, req: Request, storeDown: bool) returns (halt: Option<Response>)
    requires KeyedById(users)
    modifies req`user
    ensures match Authenticate(env, users, req.authorization, storeDown)
      case Continue(u) => halt.None? && req.user == Some(u)
      case Reject(code, text) => halt == Some(Reply(code, Message(text))) && req.user == old(req.user)
  {
    var token := BearerToken(req.authorization);
    if token.None? {
      return Some(Reply(401, Message("Access Denied: No token provided.")));
    }
    var decoded := ClaimedId(env.verify(token.value));
    if decoded.None? {
      return Some(Reply(403, Message("Access Denied: Invalid or expired token.")));
    }
    if storeDown {
      return Some(Reply(500, Message("Server error during authentication.")));
    }
    if decoded.value !in users {
      return Some(Reply(404, Message("User not found for this token.")));
    }
    var currentUser := Profile(users[decoded.value]);
    req.user := Some(currentUser);
    halt := None;
  }
}

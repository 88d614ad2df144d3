/**
 * The records of the user service: the stored User row, the AuthUser that
 * the auth middleware attaches to the request (types/express.d.ts), the
 * shapes of the HTTP exchange, and the invariant of the user table.
 */
module UserTypes {
  import opened Wrappers
  import opened Primitives

  type Time = int

  /** A row of the user table; `password` holds the bcrypt digest. */
  datatype User = User(id: Id, name: string, email: string, password: string, createdAt: Time, updatedAt: Time)

  /** `req.user`: every column but the password. */
  datatype AuthUser = AuthUser(id: Id, name: string, email: string, createdAt: Time, updatedAt: Time)

  /** The `user` object of the register and login replies. */
  datatype PublicUser = PublicUser(id: Id, name: string, email: string)

  /** The projection `select {id, name, email, createdAt, updatedAt}`, also the `safeUser` of an update. */
  function Profile(u: User): AuthUser {
    AuthUser(u.id, u.name, u.email, u.createdAt, u.updatedAt)
  }

  /** `{id, name, email}` of a user. */
  function Public(u: User): PublicUser {
    PublicUser(u.id, u.name, u.email)
  }

  /** Each row is stored under its own id. */
  ghost predicate KeyedById(users: map<Id, User>) {
    forall id | id in users :: users[id].id == id
  }

  /** The unique constraint on `email`: no two users share an email. */
  ghost predicate UniqueEmails(users: map<Id, User>) {
    forall a, b | a in users && b in users && users[a].email == users[b].email :: a == b
  }

  ghost predicate TableInvariant(users: map<Id, User>) {
    KeyedById(users) && UniqueEmails(users)
  }

  /** `findUnique({where: {email}})` finds a row. */
  predicate EmailTaken(users: map<Id, User>, email: string) {
    exists id | id in users :: users[id].email == email
  }

  /** `findUnique({where: {email}})` finds a row whose id is not `self`. */
  predicate EmailHeldByOther(users: map<Id, User>, email: string, self: Id) {
    exists id | id in users :: users[id].email == email && id != self
  }

  /** A JSON value of a request body, as far as the schemas look at it: a string or anything else. */
  datatype Value = Str(s: string) | NonString

  /** A JSON request body: its members by name. */
  type JsonBody = map<string, Value>

  /** The JSON body of a reply. None of these shapes has a slot a password could occupy. */
  datatype Body =
    | Message(text: string)                           // {message}
    | ValidationFailed                                // {message: 'Validation failed', errors}
    | Registered(newUser: PublicUser, token: string)  // {message, user, token} of a registration
    | LoggedIn(account: PublicUser, token: string)    // {message, user, token} of a login
    | UserList(profiles: map<Id, AuthUser>)           // the array of projected rows, keyed by id
    | UserRecord(profile: AuthUser)                   // one projected row
    | HealthOk                                        // {status: 'ok'}
    | NoContent                                       // a 204 carries no body
    | NoRoute                                         // Express's own 404 for an unmatched route

  /** A reply: status code, body, and the `X-User-Id` header when set. */
  datatype Response = Response(status: int, body: Body, xUserId: Option<Id>)

  function Reply(status: int, body: Body): Response {
    Response(status, body, None)
  }

  datatype Verb = Get | Post | Put | Delete

  /**
   * An Express request as the user service sees it. The router fills in
   * `params` when a route matches and the auth middleware sets `user`.
   */
  class Request {
    const verb: Verb
    const path: seq<string>              // the path below the mount point, as segments
    const authorization: Option<string>  // the Authorization header
    const body: JsonBody
    var params: map<string, string>
    var user: Option<AuthUser>

    constructor (verb: Verb, path: seq<string>, authorization: Option<string>, body: JsonBody)
      ensures this.verb == verb && this.path == path
      ensures this.authorization == authorization && this.body == body
      ensures params == map[] && user == None
    {
      this.verb := verb;
      this.path := path;
      this.authorization := authorization;
      this.body := body;
      params := map[];
      user := None;
    }
  }

  /**
   * What the outside world contributes to one request: whether the store
   * fails (an error other than P2002/P2025), the id the store would assign
   * to a new row, and the clock.
   */
  datatype Io = Io(storeDown: bool, freshId: Id, now: Time)
}

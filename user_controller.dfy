/**
 * The user service's request handlers (controller/userController.ts): the zod
 * schemas that validate request bodies and path parameters, and the seven
 * handlers over the user table, with Prisma's `userModel` reduced to the
 * operations the handlers call on it.
 */
module UserController {
  import opened Wrappers
  import opened Primitives
  import opened UserTypes
  import opened Bearer

  // ---------------------------------------------------------------------------
  // zod object schemas
  // ---------------------------------------------------------------------------

  /** The format refinement of a `z.string()`, if any. */
  datatype Format = AnyText | EmailFormat | UuidFormat

  /**
   * A member of a `z.object({...})`: its key, whether it is `.optional()`,
   * and the refinements of its `z.string()` (`.min`, `.max`, `.email()`, `.uuid()`).
   */
  datatype Member = Member(key: string, optional: bool, min: nat, max: Option<nat>, format: Format)

  /**
   * JavaScript's `s.length`, which zod's `.min` and `.max` compare: the
   * number of UTF-16 code units, a character outside the Basic Multilingual
   * Plane taking two.
   */
  function JsLength(s: string): (n: nat)
    ensures |s| <= n <= 2 * |s|
    decreases |s|
  {
    if s == [] then 0
    else (if s[0] as int >= 0x1_0000 then 2 else 1) + JsLength(s[1..])
  }

  /** A string of Basic Multilingual Plane characters has one code unit per character. */
  lemma {:induction false} BmpLength(s: string)
    requires forall i | 0 <= i < |s| :: (s[i] as int) < 0x1_0000
    ensures JsLength(s) == |s|
    decreases |s|
  {
    if s != [] {
      assert forall i | 0 <= i < |s[1..]| :: s[1..][i] == s[i + 1];
      BmpLength(s[1..]);
    }
  }

  /** An emoji counts twice: "a😀" is two characters but has `length` 3. */
  lemma AstralCharCountsTwice()
    ensures |"a\U{1F600}"| == 2 && JsLength("a\U{1F600}") == 3
  {
    assert "a\U{1F600}"[1..] == "\U{1F600}";
    assert "\U{1F600}"[1..] == "";
  }

  predicate Conforms(env: Env, f: Format, s: string) {
    match f
    case AnyText => true
    case EmailFormat => env.isEmail(s)
    case UuidFormat => env.isUuid(s)
  }

  /**
   * A member is fine when it is a string passing every refinement, or when it
   * is absent and optional (`.optional()` admits `undefined`, not `null`).
   */
  predicate MemberAccepts(env: Env, m: Member, body: JsonBody) {
    if m.key in body then
      && body[m.key].Str?
      && m.min <= JsLength(body[m.key].s)
      && (m.max.Some? ==> JsLength(body[m.key].s) <= m.max.value)
      && Conforms(env, m.format, body[m.key].s)
    else m.optional
  }

  /** Every member of the schema is fine. */
  predicate Accepts(env: Env, schema: seq<Member>, body: JsonBody)
    decreases |schema|
  {
    schema == [] || (MemberAccepts(env, schema[0], body) && Accepts(env, schema[1..], body))
  }

  /** The acceptance of a schema is the acceptance of each of its members. */
  lemma {:induction false} AcceptsEach(env: Env, schema: seq<Member>, body: JsonBody)
    ensures Accepts(env, schema, body) <==> forall i | 0 <= i < |schema| :: MemberAccepts(env, schema[i], body)
    decreases |schema|
  {
    if schema != [] {
      AcceptsEach(env, schema[1..], body);
      assert forall i | 1 <= i < |schema| :: schema[i] == schema[1..][i - 1];
    }
  }

  function Keys(schema: seq<Member>): set<string> {
    set m | m in schema :: m.key
  }

  /**
   * `schema.safeParse(body)`: on success the data holds the schema's keys
   * that are present, unknown keys being stripped.
   */
  function SafeParse(env: Env, schema: seq<Member>, body: JsonBody): (r: Option<map<string, string>>)
    ensures r.Some? <==> Accepts(env, schema, body)
    ensures r.Some? ==> forall k | k in r.value :: k in Keys(schema) && k in body && body[k] == Str(r.value[k])
    ensures r.Some? ==> forall k | k in Keys(schema) && k in body :: k in r.value
  {
    if Accepts(env, schema, body) then
      AcceptsEach(env, schema, body);
      Some(map k | k in Keys(schema) && k in body && body[k].Str? :: body[k].s)
    else None
  }

  /** The string a member of the body carries, if it is present and a string. */
  function Text(body: JsonBody, key: string): Option<string> {
    if key in body && body[key].Str? then Some(body[key].s) else None
  }

  /** Route parameters, which are always strings, seen as a body. */
  function Strings(params: map<string, string>): JsonBody {
    map k | k in params :: Str(params[k])
  }

  const RegisterSchema: seq<Member> := [
    Member("name", false, 3, Some(100), AnyText),
    Member("email", false, 0, None, EmailFormat),
    Member("password", false, 8, None, AnyText)
  ]

  const LoginSchema: seq<Member> := [
    Member("email", false, 0, None, EmailFormat),
    Member("password", false, 1, None, AnyText)
  ]

  const IdParamSchema: seq<Member> := [
    Member("id", false, 0, None, UuidFormat)
  ]

  const UpdateSchema: seq<Member> := [
    Member("name", true, 1, Some(100), AnyText),
    Member("email", true, 0, None, EmailFormat),
    Member("password", true, 8, None, AnyText)
  ]

  /** The parsed data of `registerSchema`. */
  datatype Registration = Registration(name: string, email: string, password: string)

  /** The parsed data of `loginSchema`. */
  datatype Credentials = Credentials(email: string, password: string)

  /** The parsed data of `updateSchema`: each field as supplied, if it was. */
  datatype Changes = Changes(name: Option<string>, email: Option<string>, password: Option<string>)

  /** A required string member whose JavaScript length is at least `lo` and, when `hi` is given, at most `hi`. */
  predicate Within(body: JsonBody, key: string, lo: nat, hi: Option<nat>) {
    Text(body, key).Some? && lo <= JsLength(Text(body, key).value) && (hi.None? || JsLength(Text(body, key).value) <= hi.value)
  }

  /** `registerSchema.safeParse(req.body)`. */
  function ParseRegister(env: Env, body: JsonBody): (r: Option<Registration>)
    ensures r.Some? <==>
      && Within(body, "name", 3, Some(100))
      && Text(body, "email").Some? && env.isEmail(Text(body, "email").value)
      && Within(body, "password", 8, None)
    ensures r.Some? ==>
      r.value == Registration(Text(body, "name").value, Text(body, "email").value, Text(body, "password").value)
  {
    AcceptsEach(env, RegisterSchema, body);
    match SafeParse(env, RegisterSchema, body)
    case None => None
    case Some(d) =>
      assert MemberAccepts(env, RegisterSchema[0], body) && MemberAccepts(env, RegisterSchema[1], body)
        && MemberAccepts(env, RegisterSchema[2], body);
      assert {"name", "email", "password"} <= Keys(RegisterSchema) by {
        assert RegisterSchema[0] in RegisterSchema && RegisterSchema[1] in RegisterSchema
          && RegisterSchema[2] in RegisterSchema;
      }
      Some(Registration(d["name"], d["email"], d["password"]))
  }

  /** `loginSchema.safeParse(req.body)`. */
  function ParseLogin(env: Env, body: JsonBody): (r: Option<Credentials>)
    ensures r.Some? <==>
      && Text(body, "email").Some? && env.isEmail(Text(body, "email").value)
      && Within(body, "password", 1, None)
    ensures r.Some? ==> r.value == Credentials(Text(body, "email").value, Text(body, "password").value)
  {
    AcceptsEach(env, LoginSchema, body);
    match SafeParse(env, LoginSchema, body)
    case None => None
    case Some(d) =>
      assert MemberAccepts(env, LoginSchema[0], body) && MemberAccepts(env, LoginSchema[1], body);
      assert {"email", "password"} <= Keys(LoginSchema) by {
        assert LoginSchema[0] in LoginSchema && LoginSchema[1] in LoginSchema;
      }
      Some(Credentials(d["email"], d["password"]))
  }

  /** `idParamSchema.safeParse(req.params)`: the `id` parameter, when it is a UUID. */
  function ParseIdParam(env: Env, params: map<string, string>): (r: Option<Id>)
    ensures r.Some? <==> "id" in params && env.isUuid(params["id"])
    ensures r.Some? ==> r.value == params["id"]
  {
    var body := Strings(params);
    AcceptsEach(env, IdParamSchema, body);
    match SafeParse(env, IdParamSchema, body)
    case None => None
    case Some(d) =>
      assert MemberAccepts(env, IdParamSchema[0], body);
      assert "id" in Keys(IdParamSchema) by {
        assert IdParamSchema[0] in IdParamSchema;
      }
      Some(d["id"])
  }

  /** An optional member: absent, or a string satisfying the bounds. */
  predicate AbsentOrWithin(body: JsonBody, key: string, lo: nat, hi: Option<nat>) {
    key !in body || Within(body, key, lo, hi)
  }

  /**
   * `updateSchema.safeParse(req.body)`, including its refinement that the
   * parsed object has at least one key.
   */
  function ParseUpdate(env: Env, body: JsonBody): (r: Option<Changes>)
    ensures r.Some? <==>
      && AbsentOrWithin(body, "name", 1, Some(100))
      && ("email" !in body || (Text(body, "email").Some? && env.isEmail(Text(body, "email").value)))
      && AbsentOrWithin(body, "password", 8, None)
      && ("name" in body || "email" in body || "password" in body)
    ensures r.Some? ==> r.value == Changes(Text(body, "name"), Text(body, "email"), Text(body, "password"))
  {
    AcceptsEach(env, UpdateSchema, body);
    match SafeParse(env, UpdateSchema, body)
    case None => None
    case Some(d) =>
      assert MemberAccepts(env, UpdateSchema[0], body) && MemberAccepts(env, UpdateSchema[1], body)
        && MemberAccepts(env, UpdateSchema[2], body);
      assert Keys(UpdateSchema) == {"name", "email", "password"} by {
        assert UpdateSchema[0] in UpdateSchema && UpdateSchema[1] in UpdateSchema
          && UpdateSchema[2] in UpdateSchema;
      }
      if |d| > 0 then
        assert d.Keys <= {"name", "email", "password"};
        Some(Changes(Text(body, "name"), Text(body, "email"), Text(body, "password")))
      else
        assert "name" !in d && "email" !in d && "password" !in d;
        None
  }

  /**
   * `.min(3)` counts code units, so a name of one letter and one emoji is
   * long enough to register.
   */
  lemma AstralNameRegisters(env: Env, email: string, password: string)
    requires env.isEmail(email) && JsLength(password) >= 8
    ensures ParseRegister(env, map["name" := Str("a\U{1F600}"), "email" := Str(email), "password" := Str(password)]).Some?
  {
    AstralCharCountsTwice();
  }

  // ---------------------------------------------------------------------------
  // The store, as far as the handlers see it
  // ---------------------------------------------------------------------------

  /** A Prisma failure, reduced to what the handlers tell apart. */
  datatype StoreError =
    | Conflict     // P2002: a unique constraint (id or email) would be violated
    | NotFound     // P2025: the row to update or delete does not exist
    | Unavailable  // any other error: the store is down

  /** The `data` of `userModel.update`: the columns to overwrite. */
  datatype UpdateData = UpdateData(name: Option<string>, email: Option<string>, password: Option<string>)

  const NoChange := UpdateData(None, None, None)

  /** A row after `userModel.update`: the supplied columns replaced and `updatedAt` stamped. */
  function Patched(u: User, data: UpdateData, now: Time): (r: User)
    ensures r.id == u.id && r.createdAt == u.createdAt && r.updatedAt == now
    ensures data.name.Some? ==> r.name == data.name.value
    ensures data.email.Some? ==> r.email == data.email.value
    ensures data.password.Some? ==> r.password == data.password.value
    ensures data.name.None? ==> r.name == u.name
    ensures data.email.None? ==> r.email == u.email
    ensures data.password.None? ==> r.password == u.password
    ensures data == NoChange ==> r == u.(updatedAt := now)
  {
    u.(name := data.name.GetOr(u.name), email := data.email.GetOr(u.email),
       password := data.password.GetOr(u.password), updatedAt := now)
  }

  /**
   * The `updateData` of lines 253-259: a field is copied when its value is
   * truthy (a non-empty string), and the password is stored hashed.
   */
  function Requested(env: Env, ch: Changes): (data: UpdateData)
    ensures data.name.Some? <==> ch.name.Some? && ch.name.value != ""
    ensures data.email.Some? <==> ch.email.Some? && ch.email.value != ""
    ensures data.password.Some? <==> ch.password.Some? && ch.password.value != ""
    ensures data.name.Some? ==> data.name == ch.name
    ensures data.email.Some? ==> data.email == ch.email
    ensures data.password.Some? ==> data.password.value == env.hash(ch.password.value)
  {
    UpdateData(
      if ch.name.Some? && ch.name.value != "" then ch.name else None,
      if ch.email.Some? && ch.email.value != "" then ch.email else None,
      if ch.password.Some? && ch.password.value != "" then Some(env.hash(ch.password.value)) else None)
  }

  /** Adding a row under a fresh id with an unused email keeps the table invariant. */
  lemma InsertKeepsInvariant(users: map<Id, User>, u: User)
    requires TableInvariant(users)
    requires u.id !in users && !EmailTaken(users, u.email)
    ensures TableInvariant(users[u.id := u])
  {
    var t := users[u.id := u];
    forall a, b | a in t && b in t && t[a].email == t[b].email ensures a == b {
      if a != u.id && b != u.id {
        assert users[a].email == users[b].email;
      }
    }
  }

  /** Patching a row with an email no other row holds keeps the table invariant. */
  lemma PatchKeepsInvariant(users: map<Id, User>, id: Id, data: UpdateData, now: Time)
    requires TableInvariant(users) && id in users
    requires data.email.Some? ==> !EmailHeldByOther(users, data.email.value, id)
    ensures TableInvariant(users[id := Patched(users[id], data, now)])
  {
    var t := users[id := Patched(users[id], data, now)];
    forall a, b | a in t && b in t && t[a].email == t[b].email ensures a == b {
      if (a != id && b != id) || data.email.None? {
        assert users[a].email == users[b].email;
      }
    }
  }

  /**
   * Emails being unique, the one row `findUnique({email})` returns decides
   * whether a user other than `self` holds the email (lines 243-250).
   */
  lemma FoundRowDecidesClash(users: map<Id, User>, email: string, self: Id, row: User)
    requires TableInvariant(users)
    requires row.id in users && users[row.id] == row && row.email == email
    ensures EmailHeldByOther(users, email, self) <==> row.id != self
  {
    if EmailHeldByOther(users, email, self) {
      var other :| other in users && users[other].email == email && other != self;
      assert users[other].email == users[row.id].email;
    }
  }

  // ---------------------------------------------------------------------------
  // What each handler answers
  // ---------------------------------------------------------------------------

  /**
   * `registerUser` (lines 33-89) on `body`: the reply, and the table
   * `after` it leaves behind when it started from `before`.
   */
  ghost predicate RegisterAnswer(env: Env, body: JsonBody, io: Io, before: map<Id, User>, after: map<Id, User>, resp: Response) {
    && (resp.status != 201 ==> after == before)
    && (forall id | id in before :: id in after && after[id] == before[id])
    && (ParseRegister(env, body).None? ==> resp == Reply(400, ValidationFailed))
    && (ParseRegister(env, body).Some? ==>
      var reg := ParseRegister(env, body).value;
      if io.storeDown then
        resp == Reply(500, Message("Server error during registration."))
      else if EmailTaken(before, reg.email) then
        resp == Reply(400, Message("User with this email already exists."))
      else if io.freshId in before then
        resp == Reply(400, Message("A user with this email already exists."))
      else
        var u := User(io.freshId, reg.name, reg.email, env.hash(reg.password), io.now, io.now);
        && after == before[io.freshId := u]
        && resp == Reply(201, Registered(Public(u), env.sign(u.id))))
  }

  /** `loginUser` (lines 91-132) on `body` against table `users`. */
  ghost predicate LoginAnswer(env: Env, body: JsonBody, io: Io, users: map<Id, User>, resp: Response) {
    && (ParseLogin(env, body).None? ==> resp == Reply(400, ValidationFailed))
    && (ParseLogin(env, body).Some? && io.storeDown ==>
      resp == Reply(500, Message("Server error during login.")))
    && (ParseLogin(env, body).Some? && !io.storeDown ==>
      var cred := ParseLogin(env, body).value;
      && (!EmailTaken(users, cred.email) ==> resp == Reply(404, Message("User not found.")))
      && forall id | id in users && users[id].email == cred.email ::
           resp == if env.compare(cred.password, users[id].password)
             then Reply(200, LoggedIn(Public(users[id]), env.sign(id)))
             else Reply(401, Message("Invalid password.")))
  }

  /**
   * `validateToken` (lines 134-172) on the `Authorization` header. A store
   * failure lands in the catch, which answers 403 like a bad token.
   */
  ghost predicate ValidateAnswer(env: Env, authorization: Option<string>, io: Io, users: map<Id, User>, resp: Response) {
    && resp.status in {200, 401, 403, 404}
    && (resp.status == 200 <==> resp.xUserId.Some?)
    && (BearerToken(authorization).None? ==>
      resp == Reply(401, Message("Authentication token missing.")))
    && (BearerToken(authorization).Some? ==>
      var claimed := ClaimedId(env.verify(BearerToken(authorization).value));
      if claimed.None? || io.storeDown then
        resp == Reply(403, Message("Invalid or expired token."))
      else if claimed.value !in users then
        resp == Reply(404, Message("User not found for this token."))
      else
        resp == Response(200, Message("Token is valid."), Some(claimed.value)))
  }

  /** `getAllUsers` (lines 174-190): every row, projected without its password. */
  ghost predicate ListAnswer(io: Io, users: map<Id, User>, resp: Response) {
    && (io.storeDown ==> resp == Reply(500, Message("Server error fetching users.")))
    && (!io.storeDown ==> resp.status == 200 && resp.body.UserList? && resp.xUserId.None?)
    && (!io.storeDown ==> resp.body.profiles.Keys == users.Keys)
    && (!io.storeDown ==> forall id | id in users :: resp.body.profiles[id] == Profile(users[id]))
  }

  /** `getUserById` (lines 192-218) on the route parameters `params`. */
  ghost predicate GetAnswer(env: Env, params: map<string, string>, io: Io, users: map<Id, User>, resp: Response) {
    && (ParseIdParam(env, params).None? ==> resp == Reply(400, Message("Invalid user id")))
    && (ParseIdParam(env, params).Some? ==>
      var id := ParseIdParam(env, params).value;
      if io.storeDown then resp == Reply(500, Message("Server error fetching user."))
      else if id !in users then resp == Reply(404, Message("User not found."))
      else resp == Reply(200, UserRecord(Profile(users[id]))) && resp.body.profile.id == id)
  }

  /**
   * `updateUser` (lines 220-291) for the authenticated `caller`. The checks
   * run in a fixed order: path id, body, ownership, email clash, empty
   * update, store.
   */
  ghost predicate UpdateAnswer(env: Env, params: map<string, string>, body: JsonBody, caller: Option<AuthUser>, io: Io,
                               before: map<Id, User>, after: map<Id, User>, resp: Response) {
    && (resp.status != 200 ==> after == before)
    && (forall id | id in before && (caller.None? || id != caller.value.id) :: id in after && after[id] == before[id])
    && (ParseIdParam(env, params).None? ==> resp == Reply(400, Message("Invalid user id")))
    && (ParseIdParam(env, params).Some? && ParseUpdate(env, body).None? ==> resp == Reply(400, ValidationFailed))
    && (ParseIdParam(env, params).Some? && ParseUpdate(env, body).Some? ==>
      var id := ParseIdParam(env, params).value;
      var data := Requested(env, ParseUpdate(env, body).value);
      if caller.None? || caller.value.id != id then
        resp == Reply(403, Message("Forbidden: You can only update your own profile."))
      else if data.email.Some? && io.storeDown then
        resp == Reply(500, Message("Server error updating user."))
      else if data.email.Some? && EmailHeldByOther(before, data.email.value, id) then
        resp == Reply(400, Message("User with this email already exists."))
      else if data == NoChange then
        resp == Reply(400, Message("No valid fields provided for update."))
      else if io.storeDown then
        resp == Reply(500, Message("Server error updating user."))
      else if id !in before then
        resp == Reply(404, Message("User not found."))
      else
        && after == before[id := Patched(before[id], data, io.now)]
        && resp == Reply(200, UserRecord(Profile(after[id]))))
  }

  /** `deleteUser` (lines 293-323) for the authenticated `caller`. */
  ghost predicate DeleteAnswer(env: Env, params: map<string, string>, caller: Option<AuthUser>, io: Io,
                               before: map<Id, User>, after: map<Id, User>, resp: Response) {
    && (resp.status != 204 ==> after == before)
    && (forall id | id in before && (caller.None? || id != caller.value.id) :: id in after && after[id] == before[id])
    && (ParseIdParam(env, params).None? ==> resp == Reply(400, Message("Invalid user id")))
    && (ParseIdParam(env, params).Some? ==>
      var id := ParseIdParam(env, params).value;
      if caller.None? || caller.value.id != id then
        resp == Reply(403, Message("Forbidden: You can only delete your own profile."))
      else if io.storeDown then
        resp == Reply(500, Message("Server error deleting user."))
      else if id !in before then
        resp == Reply(404, Message("User not found."))
      else
        after == before - {id} && resp == Reply(204, NoContent))
  }

  // ---------------------------------------------------------------------------
  // The handlers
  // ---------------------------------------------------------------------------

  /** The user table behind `userModel`, and the handlers that work on it. */
  class UserService {
    const env: Env
    var users: map<Id, User>

    ghost predicate Valid()
      reads this
    {
      TableInvariant(users)
    }

    constructor (env: Env)
      ensures this.env == env && users == map[] && Valid()
    {
      this.env := env;
      users := map[];
    }

    /** `userModel.findUnique({where: {email}})`. */
    method FindByEmail(email: string, io: Io) returns (r: Result<Option<User>, StoreError>)
      requires Valid()
      ensures r.Err? <==> io.storeDown
      ensures r.Err? ==> r.error == Unavailable
      ensures r.Ok? ==> (r.value.Some? <==> EmailTaken(users, email))
      ensures r.Ok? && r.value.Some? ==>
        r.value.value.id in users && users[r.value.value.id] == r.value.value && r.value.value.email == email
    {
      if io.storeDown {
        return Err(Unavailable);
      }
      if EmailTaken(users, email) {
        var id :| id in users && users[id].email == email;
        r := Ok(Some(users[id]));
      } else {
        r := Ok(None);
      }
    }

    /** `userModel.create`: a new row under the id the store assigns, both timestamps set to now. */
    method CreateRow(name: string, email: string, password: string, io: Io) returns (r: Result<User, StoreError>)
      requires Valid()
      modifies this
      ensures Valid()
      ensures r.Err? ==> users == old(users) && r.error != NotFound
      ensures r == Err(Unavailable) <==> io.storeDown
      ensures r == Err(Conflict) <==> !io.storeDown && (io.freshId in old(users) || EmailTaken(old(users), email))
      ensures r.Ok? ==>
        && r.value == User(io.freshId, name, email, password, io.now, io.now)
        && users == old(users)[io.freshId := r.value]
    {
      if io.storeDown {
        return Err(Unavailable);
      }
      if io.freshId in users || EmailTaken(users, email) {
        return Err(Conflict);
      }
      var u := User(io.freshId, name, email, password, io.now, io.now);
      InsertKeepsInvariant(users, u);
      users := users[u.id := u];
      r := Ok(u);
    }

    /** `userModel.update({where: {id}, data})`. */
    method UpdateRow(id: Id, data: UpdateData, io: Io) returns (r: Result<User, StoreError>)
      requires Valid()
      modifies this
      ensures Valid()
      ensures r.Err? ==> users == old(users)
      ensures r == Err(Unavailable) <==> io.storeDown
      ensures r == Err(NotFound) <==> !io.storeDown && id !in old(users)
      ensures r == Err(Conflict) <==>
        !io.storeDown && id in old(users) && data.email.Some? && EmailHeldByOther(old(users), data.email.value, id)
      ensures r.Ok? ==>
        && id in old(users)
        && r.value == Patched(old(users)[id], data, io.now)
        && users == old(users)[id := r.value]
    {
      if io.storeDown {
        return Err(Unavailable);
      }
      if id !in users {
        return Err(NotFound);
      }
      if data.email.Some? && EmailHeldByOther(users, data.email.value, id) {
        return Err(Conflict);
      }
      var u := Patched(users[id], data, io.now);
      PatchKeepsInvariant(users, id, data, io.now);
      users := users[id := u];
      r := Ok(u);
    }

    /** `userModel.delete({where: {id}})`. */
    method DeleteRow(id: Id, io: Io) returns (r: Result<(), StoreError>)
      requires Valid()
      modifies this
      ensures Valid()
      ensures r.Err? ==> users == old(users) && r.error != Conflict
      ensures r == Err(Unavailable) <==> io.storeDown
      ensures r == Err(NotFound) <==> !io.storeDown && id !in old(users)
      ensures r.Ok? ==> id in old(users) && users == old(users) - {id}
    {
      if io.storeDown {
        return Err(Unavailable);
      }
      if id !in users {
        return Err(NotFound);
      }
      users := users - {id};
      r := Ok(());
    }

    /** `registerUser` (lines 33-89). */
    method RegisterUser(req: Request, io: Io) returns (resp: Response)
      requires Valid()
      modifies this
      ensures Valid()
      ensures RegisterAnswer(env, req.body, io, old(users), users, resp)
    {
      var parsed := ParseRegister(env, req.body);
      if parsed.None? {
        return Reply(400, ValidationFailed);
      }
      var reg := parsed.value;
      var existing := FindByEmail(reg.email, io);
      if existing.Err? {
        return Reply(500, Message("Server error during registration."));
      }
      if existing.value.Some? {
        return Reply(400, Message("User with this email already exists."));
      }
      var hashed := env.hash(reg.password);
      var created := CreateRow(reg.name, reg.email, hashed, io);
      if created.Err? {
        resp := if created.error == Conflict
          then Reply(400, Message("A user with this email already exists."))
          else Reply(500, Message("Server error during registration."));
        return;
      }
      var newUser := created.value;
      var token := env.sign(newUser.id);
      resp := Reply(201, Registered(Public(newUser), token));
    }

    /** `loginUser` (lines 91-132): reads the table and never changes it. */
    method LoginUser(req: Request, io: Io) returns (resp: Response)
      requires Valid()
      ensures LoginAnswer(env, req.body, io, users, resp)
    {
      var parsed := ParseLogin(env, req.body);
      if parsed.None? {
        return Reply(400, ValidationFailed);
      }
      var cred := parsed.value;
      var found := FindByEmail(cred.email, io);
      if found.Err? {
        return Reply(500, Message("Server error during login."));
      }
      if found.value.None? {
        return Reply(404, Message("User not found."));
      }
      var user := found.value.value;
      if !env.compare(cred.password, user.password) {
        return Reply(401, Message("Invalid password."));
      }
      var token := env.sign(user.id);
      resp := Reply(200, LoggedIn(Public(user), token));
    }

    /** `validateToken` (lines 134-172): the gateway's check. */
    method ValidateToken(req: Request, io: Io) returns (resp: Response)
      requires Valid()
      ensures ValidateAnswer(env, req.authorization, io, users, resp)
    {
      var token := BearerToken(req.authorization);
      if token.None? {
        return Reply(401, Message("Authentication token missing."));
      }
      var decoded := ClaimedId(env.verify(token.value));
      if decoded.None? {
        return Reply(403, Message("Invalid or expired token."));
      }
      if io.storeDown {
        return Reply(403, Message("Invalid or expired token."));
      }
      if decoded.value !in users {
        return Reply(404, Message("User not found for this token."));
      }
      var user := users[decoded.value];
      resp := Response(200, Message("Token is valid."), Some(user.id));
    }

    /** `getAllUsers` (lines 174-190). */
    method GetAllUsers(io: Io) returns (resp: Response)
      requires Valid()
      ensures ListAnswer(io, users, resp)
    {
      if io.storeDown {
        return Reply(500, Message("Server error fetching users."));
      }
      var rows := map id | id in users :: Profile(users[id]);
      resp := Reply(200, UserList(rows));
    }

    /** `getUserById` (lines 192-218). */
    method GetUserById(req: Request, io: Io) returns (resp: Response)
      requires Valid()
      ensures GetAnswer(env, req.params, io, users, resp)
    {
      var param := ParseIdParam(env, req.params);
      if param.None? {
        return Reply(400, Message("Invalid user id"));
      }
      var id := param.value;
      if io.storeDown {
        return Reply(500, Message("Server error fetching user."));
      }
      if id !in users {
        return Reply(404, Message("User not found."));
      }
      resp := Reply(200, UserRecord(Profile(users[id])));
    }

    /**
     * The `updateData` object of lines 253-259, filled in field by field:
     * each truthy field is copied, the password after hashing.
     */
    method BuildUpdateData(changes: Changes) returns (updateData: UpdateData)
      ensures updateData == Requested(env, changes)
    {
      updateData := NoChange;
      if changes.name.Some? && changes.name.value != "" {
        updateData := updateData.(name := changes.name);
      }
      if changes.email.Some? && changes.email.value != "" {
        updateData := updateData.(email := changes.email);
      }
      if changes.password.Some? && changes.password.value != "" {
        var hashed := env.hash(changes.password.value);
        updateData := updateData.(password := Some(hashed));
      }
    }

    /**
     * The end of `updateUser` (lines 261-290): an empty `updateData` is
     * refused, otherwise `userModel.update` runs and its errors are mapped
     * to replies.
     */
    method CommitUpdate(id: Id, data: UpdateData, io: Io) returns (resp: Response)
      requires Valid()
      modifies this
      ensures Valid()
      ensures resp.status != 200 ==> users == old(users)
      ensures
        if data == NoChange then
          resp == Reply(400, Message("No valid fields provided for update."))
        else if io.storeDown then
          resp == Reply(500, Message("Server error updating user."))
        else if id !in old(users) then
          resp == Reply(404, Message("User not found."))
        else if data.email.Some? && EmailHeldByOther(old(users), data.email.value, id) then
          resp == Reply(400, Message("Email already in use by another user."))
        else
          && users == old(users)[id := Patched(old(users)[id], data, io.now)]
          && resp == Reply(200, UserRecord(Profile(users[id])))
    {
      if data == NoChange {
        return Reply(400, Message("No valid fields provided for update."));
      }
      var updated := UpdateRow(id, data, io);
      if updated.Err? {
        resp := match updated.error
          case NotFound => Reply(404, Message("User not found."))
          case Conflict => Reply(400, Message("Email already in use by another user."))
          case Unavailable => Reply(500, Message("Server error updating user."));
        return;
      }
      resp := Reply(200, UserRecord(Profile(updated.value)));
    }

    /**
     * `updateUser` once the caller is known to own row `id` (lines 242-290):
     * a supplied email held by another user is refused, then `updateData`
     * is built and committed.
     */
    method ApplyUpdate(id: Id, changes: Changes, io: Io) returns (resp: Response)
      requires Valid()
      modifies this
      ensures Valid()
      ensures resp.status != 200 ==> users == old(users)
      ensures forall other | other in old(users) && other != id :: other in users && users[other] == old(users)[other]
      ensures
        var data := Requested(env, changes);
        if data.email.Some? && io.storeDown then
          resp == Reply(500, Message("Server error updating user."))
        else if data.email.Some? && EmailHeldByOther(old(users), data.email.value, id) then
          resp == Reply(400, Message("User with this email already exists."))
        else if data == NoChange then
          resp == Reply(400, Message("No valid fields provided for update."))
        else if io.storeDown then
          resp == Reply(500, Message("Server error updating user."))
        else if id !in old(users) then
          resp == Reply(404, Message("User not found."))
        else
          && users == old(users)[id := Patched(old(users)[id], data, io.now)]
          && resp == Reply(200, UserRecord(Profile(users[id])))
    {
      if changes.email.Some? && changes.email.value != "" {
        var existing := FindByEmail(changes.email.value, io);
        if existing.Err? {
          return Reply(500, Message("Server error updating user."));
        }
        if existing.value.Some? {
          FoundRowDecidesClash(users, changes.email.value, id, existing.value.value);
          if existing.value.value.id != id {
            return Reply(400, Message("User with this email already exists."));
          }
        }
      }
      var updateData := BuildUpdateData(changes);
      resp := CommitUpdate(id, updateData, io);
    }

    /** `updateUser` (lines 220-291). */
    method UpdateUser(req: Request, io: Io) returns (resp: Response)
      requires Valid()
      modifies this
      ensures Valid()
      ensures UpdateAnswer(env, req.params, req.body, req.user, io, old(users), users, resp)
    {
      var param := ParseIdParam(env, req.params);
      if param.None? {
        return Reply(400, Message("Invalid user id"));
      }
      var userIdToUpdate := param.value;
      var parsed := ParseUpdate(env, req.body);
      if parsed.None? {
        return Reply(400, ValidationFailed);
      }
      var changes := parsed.value;
      if req.user.None? || req.user.value.id != userIdToUpdate {
        return Reply(403, Message("Forbidden: You can only update your own profile."));
      }
      resp := ApplyUpdate(userIdToUpdate, changes, io);
    }

    /** `deleteUser` (lines 293-323). */
    method DeleteUser(req: Request, io: Io) returns (resp: Response)
      requires Valid()
      modifies this
      ensures Valid()
      ensures DeleteAnswer(env, req.params, req.user, io, old(users), users, resp)
    {
      var param := ParseIdParam(env, req.params);
      if param.None? {
        return Reply(400, Message("Invalid user id"));
      }
      var userIdToDelete := param.value;
      if req.user.None? || req.user.value.id != userIdToDelete {
        return Reply(403, Message("Forbidden: You can only delete your own profile."));
      }
      var deleted := DeleteRow(userIdToDelete, io);
      if deleted.Err? {
        resp := if deleted.error == NotFound
          then Reply(404, Message("User not found."))
          else Reply(500, Message("Server error deleting user."));
        return;
      }
      resp := Reply(204, NoContent);
    }
  }
}

/**
 * Sequences of user-service requests against one table: what a client
 * observes across several calls of the handlers of controller/userController.ts.
 */
module UserScenarios {
  import opened Wrappers
  import opened Primitives
  import opened UserTypes
  import opened Bearer
  import opened UserController
  import opened AuthMiddleware
  import opened UserRoutes

  /**
   * Two registrations with the same email, whatever their names and
   * passwords: they do not both succeed, and once the first has succeeded
   * the second is refused as a duplicate.
   */
  method RegisterTwice(svc: UserService, first: Request, second: Request, io1: Io, io2: Io)
    returns (r1: Response, r2: Response)
    requires svc.Valid()
    requires ParseRegister(svc.env, first.body).Some? && ParseRegister(svc.env, second.body).Some?
    requires ParseRegister(svc.env, first.body).value.email == ParseRegister(svc.env, second.body).value.email
    requires !io2.storeDown
    modifies svc
    ensures svc.Valid()
    ensures r1.status == 201 ==> r2 == Reply(400, Message("User with this email already exists."))
    ensures !(r1.status == 201 && r2.status == 201)
  {
    r1 := svc.RegisterUser(first, io1);
    if r1.status == 201 {
      assert svc.users[io1.freshId].email == ParseRegister(svc.env, second.body).value.email;
    }
    r2 := svc.RegisterUser(second, io2);
  }

  /** A registration with a fresh id and an unused email adds exactly its row and answers 201. */
  method RegisterFresh(svc: UserService, reg: Request, io: Io) returns (registered: Response, u: User)
    requires svc.Valid()
    requires ParseRegister(svc.env, reg.body).Some?
    requires !EmailTaken(svc.users, ParseRegister(svc.env, reg.body).value.email)
    requires !io.storeDown && io.freshId !in svc.users
    modifies svc
    ensures svc.Valid()
    ensures var data := ParseRegister(svc.env, reg.body).value;
      u == User(io.freshId, data.name, data.email, svc.env.hash(data.password), io.now, io.now)
    ensures svc.users == old(svc.users)[io.freshId := u]
    ensures registered == Reply(201, Registered(Public(u), svc.env.sign(io.freshId)))
  {
    var data := ParseRegister(svc.env, reg.body).value;
    registered := svc.RegisterUser(reg, io);
    u := User(io.freshId, data.name, data.email, svc.env.hash(data.password), io.now, io.now);
  }

  /** Logging in with a stored user's email and the password whose hash it holds answers 200 as that user. */
  method LoginAs(svc: UserService, u: User, password: string, io: Io) returns (loggedIn: Response)
    requires svc.Valid() && Sound(svc.env)
    requires u.id in svc.users && svc.users[u.id] == u && u.password == svc.env.hash(password)
    requires ParseLogin(svc.env, map["email" := Str(u.email), "password" := Str(password)]) == Some(Credentials(u.email, password))
    requires !io.storeDown
    ensures loggedIn == Reply(200, LoggedIn(Public(u), svc.env.sign(u.id)))
  {
    var creds := map["email" := Str(u.email), "password" := Str(password)];
    var login := new Request(Post, ["login"], None, creds);
    loggedIn := svc.LoginUser(login, io);
    assert svc.env.compare(password, svc.users[u.id].password);
  }

  /** A token issued for a stored user, sent as `Bearer <token>`, validates as that user. */
  method ValidateIssued(svc: UserService, id: Id, io: Io) returns (validated: Response)
    requires svc.Valid() && Sound(svc.env)
    requires id != "" && id in svc.users && !io.storeDown
    ensures validated == Response(200, Message("Token is valid."), Some(id))
  {
    var token := svc.env.sign(id);
    ConventionalHeader(token);
    var check := new Request(Get, ["validate"], Some(Scheme + " " + token), map[]);
    validated := svc.ValidateToken(check, io);
  }

  /**
   * Register, log in with the same email and password, and present the
   * login token to `validateToken`: 201, then 200 with a token, then 200
   * with `X-User-Id` naming the registered user.
   */
  method RegisterLoginValidate(svc: UserService, reg: Request, io: Io)
    returns (registered: Response, loggedIn: Response, validated: Response)
    requires svc.Valid() && Sound(svc.env)
    requires ParseRegister(svc.env, reg.body).Some?
    requires !EmailTaken(svc.users, ParseRegister(svc.env, reg.body).value.email)
    requires !io.storeDown && io.freshId != "" && io.freshId !in svc.users
    modifies svc
    ensures svc.Valid()
    ensures registered.status == 201 && registered.body.Registered?
    ensures registered.body.newUser.id == io.freshId
    ensures loggedIn.status == 200 && loggedIn.body.LoggedIn? && loggedIn.body.account == registered.body.newUser
    ensures validated == Response(200, Message("Token is valid."), Some(io.freshId))
  {
    var data := ParseRegister(svc.env, reg.body).value;
    var u;
    registered, u := RegisterFresh(svc, reg, io);
    assert Text(map["email" := Str(data.email), "password" := Str(data.password)], "email") == Some(data.email);
    loggedIn := LoginAs(svc, u, data.password, io);
    validated := ValidateIssued(svc, io.freshId, io);
  }

  /**
   * `DELETE /:id` with the caller's own token, when the gate's lookup
   * succeeds but the store then fails the delete: 500 "Server error
   * deleting user." and the table is unchanged.
   */
  method DeleteFailsBehindGate(svc: UserService, id: Id, io: Io) returns (resp: Response)
    requires svc.Valid() && Sound(svc.env)
    requires id in svc.users && id != "" && svc.env.isUuid(id) && io.storeDown
    modifies svc
    ensures resp == Reply(500, Message("Server error deleting user.")) && svc.users == old(svc.users)
  {
    var header := Some(Scheme + " " + svc.env.sign(id));
    IssuedTokenPasses(svc.env, svc.users, id);
    var caller := Profile(svc.users[id]);
    assert Authenticate(svc.env, svc.users, header, false) == Continue(caller);
    DeleteByIdRoute(id);
    var route := Find(Routes, Delete, [id]).value;
    assert ParseIdParam(svc.env, route.params) == Some(id);
    var req := new Request(Delete, [id], header, map[]);
    resp := Serve(svc, req, false, io);
    assert DeleteAnswer(svc.env, route.params, Some(caller), io, old(svc.users), svc.users, resp);
  }
}

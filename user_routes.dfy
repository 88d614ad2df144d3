/**
 * The user service's router (routes/userRoutes.ts): a static table from verb
 * and path to a pipeline of an optional `authenticateToken` gate and a
 * handler, matched first-registered-first, and the request pipeline that
 * runs the matched entry against the service.
 */
module UserRoutes {
  import opened Wrappers
  import opened Primitives
  import opened UserTypes
  import opened Bearer
  import opened AuthMiddleware
  import opened UserController

  datatype Handler = Health | Register | Login | ListUsers | GetUser | UpdateUser | DeleteUser

  /** A route path: literal segments (`'/'`, `'/health'`), or the single parameter `'/:id'`. */
  datatype Pattern = Literal(segments: seq<string>) | IdParam

  /** One `router.<verb>(path, ...stack)` registration. */
  datatype Layer = Layer(verb: Verb, pattern: Pattern, gated: bool, handler: Handler)

  /** The registrations of lines 14-25, in order. */
  const Routes: seq<Layer> := [
    Layer(Get, Literal(["health"]), false, Health),
    Layer(Post, Literal(["register"]), false, Register),
    Layer(Post, Literal(["login"]), false, Login),
    Layer(Get, Literal([]), false, ListUsers),
    Layer(Get, IdParam, false, GetUser),
    Layer(Put, IdParam, true, UpdateUser),
    Layer(Delete, IdParam, true, DeleteUser)
  ]

  /** The parameters a pattern binds on a path, or None when it does not match. */
  function Match(p: Pattern, path: seq<string>): (r: Option<map<string, string>>)
    ensures p.Literal? ==> (r.Some? <==> path == p.segments) && (r.Some? ==> r.value == map[])
    ensures p.IdParam? ==> (r.Some? <==> |path| == 1 && path[0] != "")
    ensures p.IdParam? && r.Some? ==> r.value == map["id" := path[0]]
  {
    match p
    case Literal(segments) => if path == segments then Some(map[]) else None
    case IdParam => if |path| == 1 && path[0] != "" then Some(map["id" := path[0]]) else None
  }

  /** The entry the router picks, with the parameters it binds. */
  datatype Dispatch = Dispatch(layer: Layer, params: map<string, string>)

  /** The first registration in `table` whose verb and path match. */
  function Find(table: seq<Layer>, verb: Verb, path: seq<string>): (r: Option<Dispatch>)
    ensures r.Some? ==>
      exists i | 0 <= i < |table| ::
        && table[i] == r.value.layer
        && (forall j | 0 <= j < i :: !(table[j].verb == verb && Match(table[j].pattern, path).Some?))
    ensures r.Some? ==> r.value.layer.verb == verb && Match(r.value.layer.pattern, path) == Some(r.value.params)
    ensures r.None? <==> forall j | 0 <= j < |table| :: !(table[j].verb == verb && Match(table[j].pattern, path).Some?)
    decreases |table|
  {
    if table == [] then None
    else if table[0].verb == verb && Match(table[0].pattern, path).Some? then
      var d := Dispatch(table[0], Match(table[0].pattern, path).value);
      assert table[0] == d.layer;
      Some(d)
    else
      var r := Find(table[1..], verb, path);
      assert forall j | 1 <= j < |table| :: table[j] == table[1..][j - 1];
      if r.Some? then
        var i :| 0 <= i < |table[1..]| && table[1..][i] == r.value.layer
          && (forall j | 0 <= j < i :: !(table[1..][j].verb == verb && Match(table[1..][j].pattern, path).Some?));
        assert table[i + 1] == r.value.layer;
        r
      else r
  }

  /** `GET /health` is registered before `GET /:id`, so it always reaches the health check. */
  lemma HealthShadowsGetById()
    ensures Find(Routes, Get, ["health"]) == Some(Dispatch(Routes[0], map[]))
    ensures Match(IdParam, ["health"]).Some?
  {
  }

  /** The gate sits exactly on the PUT and DELETE entries, which lead to updateUser and deleteUser. */
  predicate GateRule(l: Layer) {
    && (l.gated <==> l.verb in {Put, Delete})
    && (l.verb == Put ==> l.handler == UpdateUser)
    && (l.verb == Delete ==> l.handler == DeleteUser)
  }

  /** Every entry of the table follows the gate rule. */
  lemma RoutesFollowGateRule(i: int)
    requires 0 <= i < |Routes|
    ensures GateRule(Routes[i])
  {
    if i == 0 { assert GateRule(Routes[0]); }
    else if i == 1 { assert GateRule(Routes[1]); }
    else if i == 2 { assert GateRule(Routes[2]); }
    else if i == 3 { assert GateRule(Routes[3]); }
    else if i == 4 { assert GateRule(Routes[4]); }
    else if i == 5 { assert GateRule(Routes[5]); }
    else { assert GateRule(Routes[6]); }
  }

  /**
   * Exactly `PUT /:id` and `DELETE /:id` sit behind `authenticateToken`;
   * registration, login, listing and reading a user are open.
   */
  lemma GatedRoutes(verb: Verb, path: seq<string>)
    requires Find(Routes, verb, path).Some?
    ensures Find(Routes, verb, path).value.layer.gated <==> verb in {Put, Delete}
    ensures verb == Put ==> Find(Routes, verb, path).value.layer.handler == UpdateUser
    ensures verb == Delete ==> Find(Routes, verb, path).value.layer.handler == DeleteUser
  {
    var d := Find(Routes, verb, path).value;
    var i :| 0 <= i < |Routes| && Routes[i] == d.layer;
    RoutesFollowGateRule(i);
  }

  /** A one-segment GET path other than `health` reaches `getUserById` with that segment as `id`. */
  lemma GetByIdRoute(segment: string)
    requires segment != "" && segment != "health"
    ensures Find(Routes, Get, [segment]) == Some(Dispatch(Routes[4], map["id" := segment]))
  {
    assert [segment] != ["health"] by {
      assert [segment][0] != ["health"][0];
    }
  }

  /** `DELETE` of any one-segment path reaches the gated `deleteUser` with that segment as `id`. */
  lemma DeleteByIdRoute(segment: string)
    requires segment != ""
    ensures Find(Routes, Delete, [segment]).Some?
    ensures var d := Find(Routes, Delete, [segment]).value;
      d.layer.gated && d.layer.handler == DeleteUser && d.params == map["id" := segment]
  {
    var t := Routes;
    FindSkipsOtherVerbs(t, Delete, [segment]);
    FindSkipsOtherVerbs(t[1..], Delete, [segment]);
    FindSkipsOtherVerbs(t[2..], Delete, [segment]);
    FindSkipsOtherVerbs(t[3..], Delete, [segment]);
    FindSkipsOtherVerbs(t[4..], Delete, [segment]);
    FindSkipsOtherVerbs(t[5..], Delete, [segment]);
    assert t[1..][1..] == t[2..] && t[2..][1..] == t[3..] && t[3..][1..] == t[4..];
    assert t[4..][1..] == t[5..] && t[5..][1..] == t[6..];
    assert t[6..][0] == t[6] && t[6].pattern == IdParam;
  }

  /** A registration for another verb never stops the search. */
  lemma FindSkipsOtherVerbs(table: seq<Layer>, verb: Verb, path: seq<string>)
    requires table != [] && table[0].verb != verb
    ensures Find(table, verb, path) == Find(table[1..], verb, path)
  {
  }

  /** The user a request's bearer token names, whatever else happens to the request. */
  function TokenSubject(env: Env, authorization: Option<string>): Option<Id> {
    match BearerToken(authorization)
    case None => None
    case Some(token) => ClaimedId(env.verify(token))
  }

  /**
   * What handler `h` answers on route parameters `params`, body `body` and
   * authenticated `caller`, taking the table from `before` to `after`; the
   * health check answers `{status: 'ok'}` and changes nothing.
   */
  ghost predicate Answers(env: Env, h: Handler, params: map<string, string>, body: JsonBody, caller: Option<AuthUser>,
                          io: Io, before: map<Id, User>, after: map<Id, User>, resp: Response) {
    match h
    case Health => resp == Reply(200, HealthOk) && after == before
    case Register => RegisterAnswer(env, body, io, before, after, resp)
    case Login => LoginAnswer(env, body, io, before, resp) && after == before
    case ListUsers => ListAnswer(io, before, resp) && after == before
    case GetUser => GetAnswer(env, params, io, before, resp) && after == before
    case UpdateUser => UpdateAnswer(env, params, body, caller, io, before, after, resp)
    case DeleteUser => DeleteAnswer(env, params, caller, io, before, after, resp)
  }

  /**
   * Runs one handler on a request whose `params` (and, behind the gate,
   * `user`) are set: the reply is that handler's, only the row of
   * `req.user`, if any, can change or go, and rows are only ever added
   * under fresh ids.
   */
  method Invoke(svc: UserService, req: Request, h: Handler, io: Io) returns (resp: Response)
    requires svc.Valid()
    modifies svc
    ensures svc.Valid()
    ensures Answers(svc.env, h, req.params, req.body, req.user, io, old(svc.users), svc.users, resp)
    ensures forall id | id in old(svc.users) && (req.user.None? || id != req.user.value.id) ::
      id in svc.users && svc.users[id] == old(svc.users)[id]
  {
    match h
    case Health =>
      resp := Reply(200, HealthOk);
    case Register =>
      resp := svc.RegisterUser(req, io);
    case Login =>
      resp := svc.LoginUser(req, io);
    case ListUsers =>
      resp := svc.GetAllUsers(io);
    case GetUser =>
      resp := svc.GetUserById(req, io);
    case UpdateUser =>
      resp := svc.UpdateUser(req, io);
    case DeleteUser =>
      resp := svc.DeleteUser(req, io);
  }

  /**
   * A gated route (`authenticateToken` before the handler, lines 23-24): a
   * rejection is the reply and leaves the table alone; a pass runs handler
   * `h` with `req.user` set to the token's user.
   */
  method Guarded(svc: UserService, req: Request, h: Handler, gateStoreDown: bool, io: Io) returns (resp: Response)
    requires svc.Valid()
    modifies svc, req`user
    ensures svc.Valid()
    ensures match Authenticate(svc.env, old(svc.users), req.authorization, gateStoreDown)
      case Reject(code, text) => resp == Reply(code, Message(text)) && svc.users == old(svc.users)
      case Continue(u) =>
        && req.user == Some(u)
        && Answers(svc.env, h, req.params, req.body, Some(u), io, old(svc.users), svc.users, resp)
    ensures forall id | id in old(svc.users) && Some(id) != TokenSubject(svc.env, req.authorization) ::
      id in svc.users && svc.users[id] == old(svc.users)[id]
  {
    var halt := AuthenticateToken(svc.env, svc.users, req, gateStoreDown);
    if halt.Some? {
      return halt.value;
    }
    resp := Invoke(svc, req, h, io);
  }

  /**
   * The matched entry `route` run on a request whose `params` it has set:
   * an open route runs its handler with no `req.user`; a gated one runs
   * through `Guarded`.
   */
  method Route(svc: UserService, req: Request, route: Dispatch, gateStoreDown: bool, io: Io) returns (resp: Response)
    requires svc.Valid()
    requires req.params == route.params && req.user == None
    modifies svc, req`user
    ensures svc.Valid()
    ensures !route.layer.gated ==>
      && req.user == None
      && Answers(svc.env, route.layer.handler, route.params, req.body, None, io, old(svc.users), svc.users, resp)
    ensures route.layer.gated ==>
      match Authenticate(svc.env, old(svc.users), req.authorization, gateStoreDown)
      case Reject(code, text) => resp == Reply(code, Message(text)) && svc.users == old(svc.users)
      case Continue(u) =>
        && req.user == Some(u)
        && Answers(svc.env, route.layer.handler, route.params, req.body, Some(u), io, old(svc.users), svc.users, resp)
    ensures forall id | id in old(svc.users) && Some(id) != TokenSubject(svc.env, req.authorization) ::
      id in svc.users && svc.users[id] == old(svc.users)[id]
  {
    if route.layer.gated {
      resp := Guarded(svc, req, route.layer.handler, gateStoreDown, io);
    } else {
      resp := Invoke(svc, req, route.layer.handler, io);
    }
  }

  /**
   * One request through the router: the matched entry's gate, if any, then
   * its handler. A gate rejection is the reply and the handler does not run;
   * otherwise the reply is the handler's, run with the route's parameters
   * and, behind the gate, the token's user. No request changes or removes a
   * row other than that of the token's subject. The gate's lookup and the
   * handler's calls are separate store accesses: `gateStoreDown` says
   * whether the first fails, `io.storeDown` whether the handler's do.
   */
  method Serve(svc: UserService, req: Request, gateStoreDown: bool, io: Io) returns (resp: Response)
    requires svc.Valid()
    modifies svc, req
    ensures svc.Valid()
    ensures Find(Routes, req.verb, req.path).None? ==>
      resp == Reply(404, NoRoute) && svc.users == old(svc.users)
    ensures Find(Routes, req.verb, req.path).Some? && Find(Routes, req.verb, req.path).value.layer.handler == Health ==>
      resp == Reply(200, HealthOk) && svc.users == old(svc.users)
    ensures Find(Routes, req.verb, req.path).Some? ==>
      var route := Find(Routes, req.verb, req.path).value;
      if !route.layer.gated then
        && req.params == route.params && req.user == None
        && Answers(svc.env, route.layer.handler, route.params, req.body, None, io, old(svc.users), svc.users, resp)
      else
        match Authenticate(svc.env, old(svc.users), req.authorization, gateStoreDown)
        case Reject(code, text) => resp == Reply(code, Message(text)) && svc.users == old(svc.users)
        case Continue(u) =>
          && req.params == route.params && req.user == Some(u)
          && Answers(svc.env, route.layer.handler, route.params, req.body, Some(u), io, old(svc.users), svc.users, resp)
    ensures forall id | id in old(svc.users) && Some(id) != TokenSubject(svc.env, req.authorization) ::
      id in svc.users && svc.users[id] == old(svc.users)[id]
  {
    var found := Find(Routes, req.verb, req.path);
    if found.None? {
      return Reply(404, NoRoute);
    }
    req.params := found.value.params;
    req.user := None;
    resp := Route(svc, req, found.value, gateStoreDown, io);
  }
}

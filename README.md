# Verified model of the user and order services

This project is a Dafny model of the request-handling core of two small
microservices, together with proofs about that model.

- **User service (Express, TypeScript).**
  - The zod schemas that validate request bodies and the `:id` path parameter.
  - The seven handlers of `userController.ts` over the user table: register,
    login, validate token, list, get by id, update and delete.
  - The `authenticateToken` middleware.
  - The route table of `userRoutes.ts`, which decides which handlers sit
    behind that middleware.
- **Order service (FastAPI, Python).**
  - The pydantic schemas for order items, create bodies and update bodies.
  - The owner-filtered CRUD layer over the order table.
  - The five HTTP handlers. Each takes the caller's id from the `x-user-id`
    header that the gateway sets.

The model abstracts a few things:

- **Stores.** Each table is a `map` from id to row, held by a class whose
  methods change it in place (`UserController.UserService`,
  `OrderCrud.OrderTable`).
- **Store failures and generated values.** A store failure, the id the store
  would assign and the current time come in as parameters (`UserTypes.Io`, and
  `storeDown`/`freshId`/`now` on the order side). The auth gate's user lookup
  has a failure flag of its own, so a request can pass the gate and then
  meet a store failure in its handler (`UserScenarios.DeleteFailsBehindGate`).
  Every store-failure branch of the source has an input that reaches it. The
  one error branch no input reaches is a P2002 conflict on update (see
  "Left out").
- **Libraries.** bcrypt, jsonwebtoken and zod's email and UUID syntax checks
  are function-valued fields of a configuration value (`Primitives.Env`). The
  one lemma chain that needs more than that states its assumptions as
  `Primitives.Sound`: a password matches its own hash, and a freshly issued
  token verifies to its user's id.

The main results:

- **User table.** No two users share an email, and every handler preserves
  this (`UserService.Valid`).
- **Failed requests.** A user-service request that fails leaves the user
  table as it was. On the order side, an update that nulls `items` commits
  and then answers 500 (see "Null items" below).
- **Scope of writes.** A user-service request writes at most the row of the
  user its token names. Registration only adds a row under a fresh id.
- **Passwords.** No reply carries a password: no response body shape has a
  slot for one.
- **Auth gate.** The gate answers exactly 401, 403, 404 or 500, or lets the
  request through with the token's user attached. Only `PUT /:id` and
  `DELETE /:id` are gated, and `GET /health` shadows `GET /:id`.
- **Bearer parsing.** The header check is `startsWith("Bearer")` followed by
  `split(" ")[1]`. The proofs show what that lets through: `BearerX tok` is
  accepted, while `Bearer  tok` (two spaces) and `bearer tok` are not.
- **Order ownership.** Every order lookup is filtered by owner. Another
  user's order answers exactly like a missing one (404). What a user reads
  depends only on that user's own orders. Updates and deletes never touch
  another user's rows.
- **Order updates.** The `setattr` loop of `update_order` is a `while` loop
  proved equal to a declarative overwrite of the fields the request set.
  Applying an update twice gives the same result as applying it once.
- **Null items.** `OrderUpdateSchema` lets `items` be `null`. The items
  column is JSON, which stores a Python `None` as the JSON value `null`, so
  such an update commits. The reply then fails `OrderReadSchema`, so the
  client gets 500 although the row changed. From then on, reading that order
  or the owner's list answers 500 (`OrderApi.NulledItemsBreakReads`). A null
  total or status, by contrast, breaks a NOT NULL column, and its commit
  fails with nothing changed.

Three behaviours of the code worth knowing:

- **Name length.** Registration requires a name of 3 to 100 characters
  (`registerSchema`). An update accepts 1 to 100 (`updateSchema`). Lengths
  are JavaScript lengths, in UTF-16 code units, so an emoji counts as two
  (`UserController.JsLength`).
- **`validateToken` store failures.** A store failure inside `validateToken`
  falls into its `catch`, which answers 403 "Invalid or expired token.", not
  500.
- **`validateToken` routing.** `validateToken` is exported by the controller
  but is not registered in `userRoutes.ts`. The model has it as a handler, and
  the route table leaves it out.

## Model

| member | source | states |
|---|---|---|
| Bearer.SplitJoin | services/user-service/src/middleware/authMiddleware.ts:16 | JavaScript `split` undoes a join of pieces that hold no separator: the pieces come back exactly |
| Bearer.JoinSplit | services/user-service/src/middleware/authMiddleware.ts:16 | joining the pieces of `split(sep)` with `sep` gives back the original string |
| Bearer.Split | services/user-service/src/middleware/authMiddleware.ts:16 | JavaScript's `split(" ")` always gives at least one piece, and no piece holds the separator |
| Bearer.StartsWith | services/user-service/src/middleware/authMiddleware.ts:14 | `startsWith(prefix)` holds exactly when the string is the prefix followed by the rest of the string |
| Bearer.BearerToken | services/user-service/src/middleware/authMiddleware.ts:12-17 | a token is found exactly when the header is present, starts with "Bearer", and its `split(" ")` has a non-empty piece at index 1; the token is that piece, so it is non-empty and holds no space |
| Bearer.ConventionalHeader | services/user-service/src/middleware/authMiddleware.ts:12-17 | the header `Bearer <token>` yields exactly `<token>` for any non-empty, space-free token |
| Bearer.SchemeNeedNotEndTheWord | services/user-service/src/middleware/authMiddleware.ts:14 | because the test has no trailing space, `Bearer<anything> <token>` also yields the token |
| Bearer.DoubleSpaceHasNoToken | services/user-service/src/middleware/authMiddleware.ts:16-19 | two spaces after the scheme put an empty string at index 1, so no token is found and the request is refused as tokenless |
| Bearer.SchemeAloneHasNoToken | services/user-service/src/middleware/authMiddleware.ts:16-19 | `Bearer` and `Bearer ` carry no token |
| Bearer.LowerCaseSchemeRejected | services/user-service/src/middleware/authMiddleware.ts:14 | the scheme is matched case-sensitively: `bearer ...` carries no token |
| UserController.JsLength | services/user-service/src/controller/userController.ts:11-13 | the length zod's `.min`/`.max` compare is JavaScript's `length` in UTF-16 code units: at least the number of characters and at most twice it |
| UserController.BmpLength | services/user-service/src/controller/userController.ts:11-13 | for a string of Basic Multilingual Plane characters the JavaScript length is the number of characters |
| UserController.AstralCharCountsTwice | services/user-service/src/controller/userController.ts:11-13 | "a😀" is two characters but has JavaScript length 3 |
| UserController.SafeParse | services/user-service/src/controller/userController.ts:34 | `safeParse` succeeds exactly when the schema accepts the body; its data holds exactly the schema's keys present in the body, each with the string the body gave, unknown keys being stripped |
| UserController.AcceptsEach | services/user-service/src/controller/userController.ts:10-31 | a zod object schema accepts a body exactly when each of its members accepts it |
| UserController.ParseRegister | services/user-service/src/controller/userController.ts:10-14 | `registerSchema` accepts exactly the bodies with a string name whose JavaScript length is 3..100, a valid email and a password of JavaScript length at least 8, and returns those three strings |
| UserController.ParseLogin | services/user-service/src/controller/userController.ts:16-19 | `loginSchema` accepts exactly a valid email and a non-empty password string, and returns them |
| UserController.ParseIdParam | services/user-service/src/controller/userController.ts:21-23 | `idParamSchema` accepts exactly an `id` parameter that is a UUID, and returns it |
| UserController.ParseUpdate | services/user-service/src/controller/userController.ts:25-31 | `updateSchema` accepts exactly the bodies whose name (JavaScript length 1..100), email and password (JavaScript length at least 8) are each absent or valid, with at least one of them present; it returns each as supplied |
| UserController.AstralNameRegisters | services/user-service/src/controller/userController.ts:11-13 | a name of one letter and one emoji has JavaScript length 3, so with a valid email and password it passes `registerSchema` |
| UserController.Requested | services/user-service/src/controller/userController.ts:253-259 | `updateData` holds a field exactly when its supplied value is truthy (non-empty); name and email are copied, the password is stored as its hash |
| UserController.Patched | services/user-service/src/controller/userController.ts:267-270 | the row `update` writes keeps its id and creation time, takes each supplied column's value, keeps each unsupplied column's old value, and has `updatedAt` stamped with now; with nothing supplied only `updatedAt` changes |
| UserController.InsertKeepsInvariant | services/user-service/src/controller/userController.ts:56-62 | inserting a row under a fresh id with an unused email keeps ids as keys and emails unique |
| UserController.PatchKeepsInvariant | services/user-service/src/controller/userController.ts:267-270 | updating a row with an email no other row holds keeps emails unique |
| UserController.UserService.FindByEmail | services/user-service/src/controller/userController.ts:44-46 | `findUnique({email})` fails only when the store is down, and otherwise finds a row exactly when some row holds that email, returning that row |
| UserController.UserService.CreateRow | services/user-service/src/controller/userController.ts:56-62 | `create` adds exactly one row under the fresh id with both timestamps set to now; it reports a conflict (P2002) when the id or the email is taken, and then changes nothing |
| UserController.UserService.UpdateRow | services/user-service/src/controller/userController.ts:267-270 | `update` replaces exactly the supplied columns of that row and stamps `updatedAt`; not found (P2025) for a missing id and a conflict for an email held by another row, each changing nothing |
| UserController.UserService.DeleteRow | services/user-service/src/controller/userController.ts:307-309 | `delete` removes exactly that id, or reports not found (P2025) and changes nothing |
| UserController.UserService.RegisterUser | services/user-service/src/controller/userController.ts:33-89 | an invalid body gives 400; a store failure gives 500; a taken email gives 400; otherwise exactly one row is added, with the hashed password, and the reply is 201 with id, name, email and a token for the new id; any non-201 reply leaves the table unchanged, and existing rows are never changed |
| UserController.UserService.LoginUser | services/user-service/src/controller/userController.ts:91-132 | an invalid body gives 400; a store failure gives 500; an unknown email gives 404; a password that fails compare gives 401; otherwise 200 with that user's id, name and email and a token for that user's id; the table is never changed |
| UserController.UserService.ValidateToken | services/user-service/src/controller/userController.ts:134-172 | no bearer token gives 401; a token without an id claim, or a store failure, gives 403; a missing user gives 404; otherwise 200 with `X-User-Id` equal to the claimed id; the header is set exactly on 200 |
| UserController.UserService.GetAllUsers | services/user-service/src/controller/userController.ts:174-190 | 500 on a store failure, otherwise 200 with every row, each projected without its password, and no `X-User-Id` header |
| UserController.UserService.GetUserById | services/user-service/src/controller/userController.ts:192-218 | a non-UUID id gives 400; a store failure gives 500; a missing id gives 404; otherwise 200 with that row projected without its password |
| UserController.UserService.UpdateUser | services/user-service/src/controller/userController.ts:220-291 | checks run in the order bad id (400), bad body (400), not the caller's own id (403), store failure during the email lookup (500), email held by another user (400), nothing truthy to update (400), store failure (500), missing row (404); success patches only the supplied fields of the caller's row and returns it without its password; every rejection leaves the table unchanged, and other users' rows never change |
| UserController.FoundRowDecidesClash | services/user-service/src/controller/userController.ts:242-251 | with emails unique, the row `findUnique({email})` returns belongs to another user exactly when some other user holds the email |
| UserController.UserService.BuildUpdateData | services/user-service/src/controller/userController.ts:253-259 | the field-by-field construction of `updateData` yields exactly the truthy-copy-and-hash described by `Requested` |
| UserController.UserService.CommitUpdate | services/user-service/src/controller/userController.ts:261-290 | an empty `updateData` gives 400; otherwise a store failure gives 500, a missing row 404, an email held by another row 400 "Email already in use by another user."; success patches exactly the supplied columns and returns the row without its password; every failure leaves the table unchanged |
| UserController.UserService.ApplyUpdate | services/user-service/src/controller/userController.ts:242-290 | once the caller owns row `id`: a supplied email held by another user gives 400 (a store failure during that lookup gives 500), then the update is committed as `CommitUpdate` states; no other row ever changes |
| UserController.UserService.DeleteUser | services/user-service/src/controller/userController.ts:293-323 | a bad id gives 400; not the caller's own id gives 403; a store failure gives 500; a missing row gives 404; success removes exactly that id and answers 204; every rejection leaves the table unchanged |
| UserScenarios.RegisterTwice | services/user-service/src/controller/userController.ts:44-52 | two registrations of one email do not both succeed; after a first success the second answers 400 "User with this email already exists." |
| UserScenarios.RegisterFresh | services/user-service/src/controller/userController.ts:33-89 | a registration with an unused email and a fresh id adds exactly the new row, with the hashed password and both timestamps now, and answers 201 with a token for the new id |
| UserScenarios.LoginAs | services/user-service/src/controller/userController.ts:91-132 | logging in with a stored user's email and the password whose hash the row holds answers 200 with that user and a token for that user's id |
| UserScenarios.ValidateIssued | services/user-service/src/controller/userController.ts:134-172 | a token issued for a stored user, sent as `Bearer <token>`, is answered 200 with `X-User-Id` naming that user |
| UserScenarios.DeleteFailsBehindGate | services/user-service/src/controller/userController.ts:305-321 | a `DELETE /:id` with the caller's own token whose gate lookup succeeds but whose delete meets a store failure answers 500 "Server error deleting user." and changes nothing |
| UserScenarios.RegisterLoginValidate | services/user-service/src/controller/userController.ts:33-172 | register, then log in with the same credentials, then validate the login token: 201, then 200 with the registered user, then 200 with `X-User-Id` equal to the new id |
| AuthMiddleware.Authenticate | services/user-service/src/middleware/authMiddleware.ts:5-56 | the gate answers 401 exactly when there is no bearer token and 403 exactly when the token has no id claim; otherwise 500 on a store failure or 404 for a missing user; it continues exactly when all checks pass, attaching the claimed user's row without its password |
| AuthMiddleware.IssuedTokenPasses | services/user-service/src/middleware/authMiddleware.ts:12-51 | a token issued for a user who is still in the table, sent as `Bearer <token>`, passes the gate as that user |
| AuthMiddleware.DeletedUsersTokenGets404 | services/user-service/src/middleware/authMiddleware.ts:34-49 | tokens are not revoked: a deleted user's token still verifies, and the gate answers 404 rather than 403 |
| AuthMiddleware.AuthenticateToken | services/user-service/src/middleware/authMiddleware.ts:5-56 | on Continue, `req.user` is set to the gate's user and the request proceeds once; on Reject, the gate's reply is sent and `req.user` is untouched; only `req.user` is written |
| UserRoutes.Match | services/user-service/src/routes/userRoutes.ts:14-25 | a literal path matches only itself and binds nothing; `/:id` matches exactly one non-empty segment and binds it as `id` |
| UserRoutes.Find | services/user-service/src/routes/userRoutes.ts:14-25 | the router picks the first registration whose verb and path match, and nothing exactly when none matches |
| UserRoutes.HealthShadowsGetById | services/user-service/src/routes/userRoutes.ts:14-22 | `GET /health` reaches the health check even though `/:id` would also match it |
| UserRoutes.RoutesFollowGateRule | services/user-service/src/routes/userRoutes.ts:14-25 | every registration is gated exactly when it is a PUT or DELETE, and those lead to updateUser and deleteUser |
| UserRoutes.GatedRoutes | services/user-service/src/routes/userRoutes.ts:14-25 | a matched route is gated exactly when the verb is PUT or DELETE; those go to updateUser and deleteUser |
| UserRoutes.GetByIdRoute | services/user-service/src/routes/userRoutes.ts:22 | any other one-segment GET reaches getUserById with that segment as `id` |
| UserRoutes.Invoke | services/user-service/src/routes/userRoutes.ts:14-25 | the reply and the new table are exactly those the chosen handler's contract gives for the request's parameters, body and `req.user` (the health route answers 200 `{status: ok}` without touching the table); no handler changes a row other than that of `req.user` |
| UserRoutes.DeleteByIdRoute | services/user-service/src/routes/userRoutes.ts:24 | `DELETE` of any one-segment path reaches the gated deleteUser with that segment as `id` |
| UserRoutes.Guarded | services/user-service/src/routes/userRoutes.ts:23-24 | on a gated route, a gate rejection is the reply and changes nothing; a pass runs the handler with `req.user` set to the token's user and answers as that handler's contract says; only the token subject's row can change |
| UserRoutes.Route | services/user-service/src/routes/userRoutes.ts:14-25 | a matched entry runs its handler with no `req.user` when it is open, and through the gate when it is gated |
| UserRoutes.Serve | services/user-service/src/routes/userRoutes.ts:14-25 | an unmatched route answers 404 with the table unchanged; an ungated route runs its handler with the route's parameters and no `req.user`, and answers as that handler's contract says; on a gated route a gate rejection is the reply and the handler does not run, while a pass runs the handler with `req.user` set to the token's user; the gate's lookup and the handler's store calls fail independently; no request changes or removes a row other than that of the user its token names |
| OrderSchema.ItemValid | services/order-service/app/schemas/order_schema.py:7-11 | defines `OrderItemSchema`: quantity and price strictly positive |
| OrderSchema.ItemsValid | services/order-service/app/schemas/order_schema.py:15-17 | defines the items list: at least one item, each valid |
| OrderSchema.CreateValid | services/order-service/app/schemas/order_schema.py:14-21 | defines `OrderCreateSchema`: valid items, a positive total, and a status of at most 50 characters when given |
| OrderSchema.UpdateValid | services/order-service/app/schemas/order_schema.py:24-31 | defines `OrderUpdateSchema`: each field may be left out or null, and a field with a value meets its create constraint |
| OrderSchema.CreateStatus | services/order-service/app/schemas/order_schema.py:21 | a created order's status is the requested one, or "pending" when none is given, and a valid request keeps it within 50 characters |
| OrderSchema.SameConstraints | services/order-service/app/schemas/order_schema.py:14-31 | a create body is valid exactly when the same fields, read as an update, are valid: each field has the same constraint in both schemas |
| OrderCrud.GetOrderById | services/order-service/app/crud/order_crud.py:27-39 | an order is found exactly when both its id and its owner match, and it is the stored row |
| OrderCrud.GetAllOrdersForUser | services/order-service/app/crud/order_crud.py:41-52 | exactly the stored rows whose owner is the user |
| OrderCrud.GetOrderByIdSeesOwnRows | services/order-service/app/crud/order_crud.py:27-52 | a lookup by id and owner gives the same answer on the whole table as on the user's own rows |
| OrderCrud.Overwrite | services/order-service/app/crud/order_crud.py:64-66 | an update keeps id, owner and both timestamps, replaces exactly the fields the request set, and nulls `items` when the request nulls it; the result is readable exactly when the request sets `items`, or leaves it out of a readable order |
| OrderCrud.OverwriteIdempotent | services/order-service/app/crud/order_crud.py:64-66 | applying the same update twice gives the order that applying it once gives |
| OrderCrud.EmptyUpdateKeepsOrder | services/order-service/app/crud/order_crud.py:64-66 | an update that sets nothing leaves the order unchanged |
| OrderCrud.AssignAllConcat | services/order-service/app/crud/order_crud.py:65-66 | running the `setattr` loop over two runs of fields is running it over the first, then over the second |
| OrderCrud.AssignDump | services/order-service/app/crud/order_crud.py:64-66 | the `setattr`s over `model_dump(exclude_unset=True)` give the overwritten order, or an unwritable object when the total or the status is set to null |
| OrderCrud.AssignSetFields | services/order-service/app/crud/order_crud.py:64-66 | the loop yields exactly the overwritten order, and nothing writable when the request nulls the total or the status |
| OrderCrud.OrderTable.CreateOrder | services/order-service/app/crud/order_crud.py:10-25 | on commit, exactly one row is added under the fresh id, owned by the given user, with the body's items and total, status defaulted, and both timestamps now, and the row is readable; a failed commit changes nothing |
| OrderCrud.OrderTable.UpdateOrder | services/order-service/app/crud/order_crud.py:54-71 | on commit, the row becomes the overwritten order and nothing else changes; the commit fails, changing nothing, exactly when the store is down or the total or the status was nulled (a null `items` commits) |
| OrderCrud.OrderTable.DeleteOrder | services/order-service/app/crud/order_crud.py:73-82 | on commit, exactly that order is removed; otherwise nothing changes |
| OrderApi.ReadAllOrdersForUser | services/order-service/app/api/order_api.py:38-53 | a missing or malformed header gives 422; a store failure gives 500; 404 exactly when the caller owns no order; 500 when one of the caller's orders cannot be serialized; otherwise 200 with exactly the caller's orders |
| OrderApi.ReadOrderById | services/order-service/app/api/order_api.py:55-71 | 422 for a malformed id or header; 500 on a store failure; the one 404 message unless the order exists and the caller owns it; then 200 with the order, or 500 when it cannot be serialized |
| OrderApi.ForeignOrderLooksMissing | services/order-service/app/api/order_api.py:65-71 | reading another user's order answers exactly as if that order did not exist |
| OrderApi.ReadsSeeOnlyOwnOrders | services/order-service/app/api/order_api.py:38-71 | two tables that agree on a user's own orders give that user the same replies to both reads |
| OrderApi.NulledItemsBreakReads | services/order-service/app/api/order_api.py:38-90 | after an update nulls an order's `items`, reading that order and reading its owner's list both answer 500 |
| OrderApi.CreateNewOrder | services/order-service/app/api/order_api.py:25-36 | 422 without a valid header or body; 500 when the commit fails; otherwise 201 with the new order, whose owner is the header's user, and the table gains exactly that row |
| OrderApi.UpdateExistingOrder | services/order-service/app/api/order_api.py:73-90 | 422 for an invalid request; 500 on a store failure; 404 with no change for an order that is missing or not the caller's; 500 with no change when the total or the status is nulled; otherwise the overwritten order is committed and the reply is 200 with it, or 500 when its `items` is null; a failed update changes the table only by committing an unreadable row; rows of other owners never change |
| OrderApi.DeleteExistingOrder | services/order-service/app/api/order_api.py:92-109 | 422 for an invalid request; 500 on a store failure; 404 with no change for an order that is missing or not the caller's; otherwise 204 and exactly that order is removed; rows of other owners never change |

## Left out

- Cryptography. bcrypt and jsonwebtoken (`utils/password.ts`, `utils/jwt.ts`) are uninterpreted functions in `Primitives.Env`. The salt, the cost factor, the signing secret and its fallback are not modelled.
- Token expiry. `verify` is a fixed function with no clock, so the one-hour expiry is not modelled. `Primitives.Sound` says a freshly issued token verifies, which ignores expiry.
- Email and UUID syntax. They are abstract predicates (`Env.isEmail`, `Env.isUuid`) on the user side. On the order side, a header or path parameter that is not a UUID arrives as `None`.
- Concurrency. Each handler runs atomically. The race between `registerUser`'s existence check and its insert, and the other await points, are not modelled. A P2002 conflict on create arises only from a taken fresh id. A P2002 on update cannot arise after the handler's own email check.
- Prisma and SQLAlchemy errors. They are reduced to conflict, not found and "store down".
- UserController.UserService.UpdateUser: does not look at the `meta.target` of a P2002; any update conflict is taken to be on the email.
- UserController.UserService.ValidateToken: does not model an exception thrown by `verifyToken` itself, which is abstract here. Its catch is reached only by a store failure.
- Logging and `console` output.
- Bootstrapping. `index.ts` (CORS, JSON parsing, listening, the last-resort 500 handler), `main.py`, `database.py` and `config.py` are not part of this model.
- Express routing details. Case-insensitive and trailing-slash matching, percent-decoding of path segments, and the mount prefix are not modelled. A path is a sequence of already-split segments.
- The JSON shape of replies. Bodies are datatypes. Validation errors (zod's `flatten()`, FastAPI's 422 detail) are a bare `ValidationFailed`/`Unprocessable`. Express's 204 and FastAPI's 204 are modelled as having no body, as the HTTP layers send them.
- Lists as maps. `GetAllUsers` and `ReadAllOrdersForUser` return a map keyed by id, so the order of rows in the JSON array is not modelled.
- Floating point. Prices and totals are `real`. Only their comparison with zero matters, and no rule relates the total to the items.
- Order timestamps. `updated_at` is left unchanged by an update, because `order_model.py` has no `onupdate`. The `datetime.utcnow` and `uuid4` factories are the `now` and `freshId` parameters.
- JSON serialisation of the items column beyond telling a list from `null`, and the `OrderItem` field types beyond quantity and price: `product_id` is a plain string.
- Response validation. `OrderReadSchema` is reduced to its `items` being a list (`Orders.Readable`). Rows are created with valid items, but an update can null them.
- Request bodies that are not JSON objects. `JsonBody` is a map from keys to values, so a body that is an array, a string or `null` cannot be written; zod answers such a body 400.
- Nulls in order create bodies. `CreateInput` has a status that is present or absent and no way to write a `null` for any field; pydantic answers such a body 422.
- Gateway behaviour. How nginx calls `validateToken` and forwards `X-User-Id` to the order service is outside the two services.

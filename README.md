# Bus tracking server: a Dafny model of its business rules

This project models the server side of a bus tracking system. Administrators create
bus routes and waypoints and link waypoints to routes in a given order. Drivers log in
and report their route's status: passenger count, whether it is running, and which
waypoint it has reached. Anyone can look up a bus by its number and see its occupancy
and its current and next stops.

The model covers these parts:

- the record store: users, routes, points and route-point links, kept as maps in the
  class `Store.Store`, with the constraints and unique indexes of the record
  definitions as its invariant `Valid()`;
- the route handlers: creation, driver assignment, status update with the
  recomputation of each link's `isPassed` flag, and the public status with its
  occupancy percentage;
- the waypoint handlers: adding a point to a route with the automatic choice of its
  order, removing it, and updating a point;
- the authentication and authorization middleware, and the composed
  `PUT /routes/:id/status` pipeline;
- the input validators, including a proof that the e-mail check accepts exactly the
  strings its regular expression matches;
- the account handlers: registration, login, promotion to admin and the caller's
  profile;
- reading the bearer token out of an `Authorization` header.

Each read-only decision is a function of the tables. Each handler that writes is a
method of `Store.Store`. These methods return early where the server does, and are
proved to answer as the matching decision function says and to keep every table
constraint. The main departure is the order chosen for a new link when the body leaves
it out: the model uses the intended rule, not the code's (see "## Findings"). The
smaller ones (null fields, a missing `driverId`, string lengths) are listed under
"## Left out". Password hashing and comparison, and token verification, are function
parameters.

The files:

- `outcomes.dfy`: the failure kinds and their HTTP status codes.
- `js_text.dfy`: JavaScript whitespace, `trim` and `split` on one character.
- `js_values.dfy`: request-body values, truthiness and `Number(...)`.
- `jwt.dfy`: bearer-token extraction.
- `records.dfy`: the records and their constraints.
- `validation.dfy`, `guards.dfy`: the middleware.
- `route_logic.dfy`, `point_logic.dfy`, `accounts.dfy`: the handlers' decisions.
- `store.dfy`: the store and its handlers.

## Model

| member | source | states |
|---|---|---|
| `Jwt.ExtractToken` | src/utils/jwt.js:42-49 | a missing or empty header gives no token; a token that is given never contains a space |
| `Jwt.ExtractTokenExactly` | src/utils/jwt.js:45-48 | a token `t` comes out exactly when the header is `Bearer`, one space and `t`, and `t` has no space; the scheme is case-sensitive |
| `Jwt.ExtractTokenRoundTrip` | src/utils/jwt.js:42-49 | extracting from `"Bearer " + t`, for a space-free `t`, gives back `t` |
| `Jwt.ExtraSpacesYieldNothing` | src/utils/jwt.js:45-46 | a header with two or more spaces gives no token |
| `Records.ToJson` | src/models/User.js:100-104 | the serialized user has no `password` key, and every other attribute keeps its key and value |
| `Records.NewRouteAccepted` | src/models/Route.js:46-71 | a new route starts inactive, with 0 passengers and at point 0, and meets the route constraints once its name, bus number and capacity do |
| `Records.RouteAccepted` | src/models/Route.js:26-97 | a route record passes its column checks and the model-level check: name of 2 to 100 characters, non-empty bus number, counts at least 0, capacity at least 1, passengers within capacity |
| `Records.UniqueBusNumbers` | src/models/Route.js:34-42 | the unique index on the bus number |
| `Records.LinkAccepted` | src/models/RoutePoint.js:26-40 | a link's order is at least 0, and so is its estimated time when present |
| `Records.UniquePairs` | src/models/RoutePoint.js:48-51 | the unique index on route and point |
| `Records.UniqueOrders` | src/models/RoutePoint.js:52-55 | the unique index on route and order |
| `Records.UniqueEmails` | src/models/User.js:31-38 | the unique index on the e-mail address |
| `Validation.Failing` | src/middleware/validation.js:10-22 | the error list holds one problem per failing check and nothing else |
| `Validation.VerdictPasses` | src/middleware/validation.js:140-148 | a request goes on exactly when none of its checks fails |
| `Validation.ValidateUserRegistration` | src/middleware/validation.js:8-33 | every check runs; the request passes iff the trimmed name has at least 2 characters, the e-mail is valid and the password has at least 6 characters |
| `Validation.RegistrationVerdict` | src/middleware/validation.js:8-33 | the registration verdict passes exactly when the trimmed name has at least 2 characters, the e-mail is valid and the password has at least 6 characters |
| `Validation.ValidateLogin` | src/middleware/validation.js:38-59 | passes iff the e-mail is valid and the password is non-empty |
| `Validation.LoginVerdict` | src/middleware/validation.js:38-59 | the login verdict passes exactly when the e-mail is valid and a password is given |
| `Validation.ValidateRouteCreation` | src/middleware/validation.js:64-89 | passes iff the trimmed name has at least 2 characters and the trimmed bus number at least 1; a truthy capacity must be a number of at least 1, so 0 passes |
| `Validation.RouteChecksPass` | src/middleware/validation.js:64-89 | none of the three creation checks fails exactly when the name, bus number and capacity meet the input rules |
| `Validation.RouteCreationVerdict` | src/middleware/validation.js:64-89 | the creation verdict passes exactly when the name, bus number and capacity meet the input rules |
| `Validation.ValidatePointCreation` | src/middleware/validation.js:94-119 | passes iff the trimmed name has at least 2 characters; latitude in [-90, 90] and longitude in [-180, 180] are checked only when truthy |
| `Validation.CoordinateInRange` | src/middleware/validation.js:102-108 | a coordinate passes exactly when it is falsy or a number within the bound |
| `Validation.PointCreationVerdict` | src/middleware/validation.js:94-119 | the point verdict passes exactly when the name is long enough and every truthy coordinate is a number in range |
| `Validation.ValidateRouteStatusUpdate` | src/middleware/validation.js:124-149 | passes iff every present field is well formed: counts are numbers of at least 0 and `isActive` is a boolean; absent fields never fail |
| `Validation.StatusUpdateVerdict` | src/middleware/validation.js:124-149 | the status verdict passes exactly when every present field is well formed |
| `Validation.ValidateAdminKey` | src/middleware/validation.js:154-172 | a missing key gives 400 and a key other than the configured one gives 403; otherwise the request passes |
| `Validation.IsValidEmail` | src/middleware/validation.js:177-180 | the e-mail test, proved equal to the pattern by the three lemmas below |
| `Validation.ValidEmailMatches` | src/middleware/validation.js:177-180 | every address the check accepts matches the pattern |
| `Validation.MatchingEmailValid` | src/middleware/validation.js:177-180 | every string the pattern matches is accepted |
| `Validation.EmailPatternEquivalence` | src/middleware/validation.js:177-180 | the check accepts exactly the strings with no whitespace, one `@` after a non-empty part, and a domain with a dot that is neither its first nor its last character |
| `Guards.Authenticate` | src/middleware/auth.js:28-59 | a missing or empty token (including the header `"Bearer "`) gives 401; a well-formed header whose verified token names a stored active user yields exactly that user; a refused token gives 401 `InvalidToken`; an unknown or inactive user gives 401; success yields only such a user |
| `Guards.RequireAdmin` | src/middleware/auth.js:80-98 | 401 without a caller, 403 unless the role is admin; passes iff the caller is an admin |
| `Guards.RequireDriver` | src/middleware/auth.js:108-124 | 401 without a caller, 403 unless the role is driver; passes iff the caller is a driver |
| `Guards.RequestedRouteId` | src/middleware/auth.js:157 | the path id when there is one, else a body route id that is not 0 |
| `Guards.RequireRouteOwnerOrAdmin` | src/middleware/auth.js:140-185 | 401 without a caller; an admin passes without a lookup; otherwise 400 without a route id, 404 for an unknown route, 403 for another driver's route; passes iff admin or the route exists and names the caller as driver |
| `Guards.UnassignedRouteDeniesDrivers` | src/middleware/auth.js:178-183 | a route without a driver turns away every caller who is not an admin with 403 |
| `RouteLogic.CapacityOf` | src/controllers/routeController.js:40 | a falsy capacity becomes 50; a truthy one is read as a number |
| `RouteLogic.DriverProblem` | src/controllers/routeController.js:20-34 | a truthy driver id must name an existing user (else 404) whose role is driver (else 400); a falsy one is not checked |
| `RouteLogic.CreateRouteOutcome` | src/controllers/routeController.js:6-42 | a bus number in use gives 400; then a truthy driver id naming no user gives 404 and a non-driver 400; a route is created exactly when the bus number is free, the driver rule passes, the record constraints accept the new route and its driver exists; the created route has the given fields and the defaulted capacity |
| `RouteLogic.AssignDriverOutcome` | src/controllers/routeController.js:310-339 | an unknown route gives 404, then the driver rule's 404 and 400; the assignment succeeds exactly when the route exists, the driver rule passes and the driver exists; on success only `driverId` changes |
| `RouteLogic.Patched` | src/controllers/routeController.js:176-182 | only the fields the patch supplies change; name, bus number, capacity, driver and every other field keep their values |
| `RouteLogic.StatusOutcome` | src/controllers/routeController.js:155-182 | an unknown route gives 404; on a stored route the answer is 400 exactly when the body's passengers exceed the capacity; on success the written route is the patched one and meets the route constraints; on a stored route within capacity whose record already meets the constraints, the update succeeds exactly when the supplied passengers and point index are at least 0 |
| `RouteLogic.PassState` | src/controllers/routeController.js:185-205 | on the moved route, links of order up to `k` are passed and later ones are not; links of other routes and all other fields are unchanged |
| `RouteLogic.MarkedUpTo` | src/controllers/routeController.js:186-194 | the first bulk write: the route's links of order up to the position become passed |
| `RouteLogic.ClearedAfter` | src/controllers/routeController.js:196-204 | the second bulk write: the route's links of order after the position become not passed |
| `RouteLogic.BulkWritesArePassState` | src/controllers/routeController.js:185-205 | the bulk write of `isPassed = true` up to the position, followed by the one of `false` after it, leaves the links exactly as `PassState` says |
| `RouteLogic.Relinked` | src/controllers/routeController.js:184-205 | without `currentPointIndex` no flag changes; with it the flags are recomputed for that route |
| `RouteLogic.StatusUpdateIdempotent` | src/controllers/routeController.js:176-205 | sending the same status update twice leaves the tables as sending it once |
| `RouteLogic.PatchedIdempotent` | src/controllers/routeController.js:177-182 | writing the same patch twice equals writing it once |
| `RouteLogic.PassStateIdempotent` | src/controllers/routeController.js:185-205 | recomputing the flags for the same point changes nothing |
| `RouteLogic.Occupancy` | src/controllers/routeController.js:274 | the percentage is `100 * passengers / capacity` rounded to the nearest whole number, halves up |
| `RouteLogic.OccupancyBounds` | src/controllers/routeController.js:274 | the percentage lies in 0..100 whenever 0 <= passengers <= capacity |
| `RouteLogic.OccupancyEnds` | src/controllers/routeController.js:274 | an empty bus is at 0 percent and a full one at 100 |
| `RouteLogic.RouteWithBus` | src/controllers/routeController.js:249-271 | finds the route with the given bus number, or reports that none has it |
| `RouteLogic.LinkAt` | src/controllers/routeController.js:275-276 | finds the link of the route at the given order, or reports that none has it; the unique index makes it the only one |
| `RouteLogic.PointAt` | src/controllers/routeController.js:275-288 | the point shown is that of the link at the given order, and nothing is shown when no link has it |
| `RouteLogic.PublicStatus` | src/controllers/routeController.js:245-296 | an unknown bus number gives 404; otherwise the view shows the route's public fields, its occupancy, the current and next points by order, and one entry per link of the route; nothing is written |
| `PointLogic.MaxOrder` | src/controllers/pointController.js:190-192 | nothing for a route without links, otherwise the largest order on the route |
| `PointLogic.NextOrderAsWritten` | src/controllers/pointController.js:189-194 | the code's choice: 0 when the route has no links or its largest order is 0, otherwise the largest order plus 1 |
| `PointLogic.NextOrderAsWrittenCollides` | src/controllers/pointController.js:189-194 | on a route whose only link has order 0, the code's choice is 0 again, and the new link breaks the unique index on route and order |
| `PointLogic.NextOrderAsWrittenClashes` | src/controllers/pointController.js:189-194 | the code's choice duplicates an existing order exactly when the route's largest order is 0 |
| `PointLogic.NextOrder` | src/controllers/pointController.js:187-194 | the intended choice is above every existing order on the route, so it is free, and is 0 on a route without links |
| `PointLogic.NextOrderNonNegative` | src/controllers/pointController.js:187-194 | the intended choice is never negative |
| `PointLogic.NextOrderAgrees` | src/controllers/pointController.js:189-194 | the code and the intended rule agree iff the route's largest order is not 0 |
| `PointLogic.AddPointOutcome` | src/controllers/pointController.js:139-201 | an unknown route or point gives 404; a point already on the route gives 400; an explicit order in use gives 400; a link is created exactly when none of these holds and the record constraints accept it; the new link carries the route, point, order (the body's, else the intended next free one) and estimated time, starts unpassed and clashes with no link of the route |
| `PointLogic.AddPointOutcomeAsWritten` | src/controllers/pointController.js:139-201 | the handler as the code computes it: a left-out order is `(maxOrder \|\| -1) + 1`, and a created link's order is never one already used on the route |
| `PointLogic.AddPointAsWrittenDiffers` | src/controllers/pointController.js:187-201 | the code and the intended rule answer alike except when the order is left out on a route whose largest order is 0, and there the code answers 500 |
| `PointLogic.AddPointKeepsLinksConsistent` | src/models/RoutePoint.js:47-56 | a link created under a fresh id keeps both unique indexes and every link constraint |
| `PointLogic.LinkOf` | src/controllers/pointController.js:233-242 | finds the link joining the route and point, or reports that none does |
| `PointLogic.PatchedPoint` | src/controllers/pointController.js:111-117 | only the fields the body supplies change, and the id never does |
| `PointLogic.PatchedPointLaws` | src/controllers/pointController.js:111-119 | an empty body changes nothing, and the same body written twice equals writing it once |
| `Accounts.RoleFor` | src/controllers/authController.js:21-24 | a new account is admin iff the body's key is non-empty and equals the configured one; otherwise it is driver |
| `Accounts.UserWithEmail` | src/controllers/authController.js:63 | finds the account with the given address, or reports that none has it |
| `Accounts.RegisterOutcome` | src/controllers/authController.js:7-32 | an address in use gives 400; success needs a new address and an accepted name and password; the account is active, stores the hash and has the role `RoleFor` gives |
| `Accounts.Login` | src/controllers/authController.js:58-98 | an unknown address gives 401; a disabled account gives 401 whatever the password; a wrong password gives 401; success returns the stored active account whose password matches |
| `Accounts.PromoteOutcome` | src/controllers/authController.js:112-134 | a key other than the configured one gives 403, then an unknown user gives 404; success changes only the role, to admin |
| `Accounts.PromoteIdempotent` | src/controllers/authController.js:133-134 | promoting the same user again succeeds and writes the same record |
| `Accounts.Profile` | src/controllers/authController.js:154-158 | succeeds iff authentication does, and then returns the caller's stored attributes without the password |
| `Store.PatchOf` | src/controllers/routeController.js:158 | a field is in the patch iff the validated body carries it, with counts of at least 0 |
| `Store.PassStateKeepsLinksConsistent` | src/controllers/routeController.js:185-205 | recomputing the flags keeps every link constraint |
| `Store.Consistent` | src/models/RoutePoint.js:10-56 | the store's invariant over values: every record constraint, foreign key and unique index, and every id between 1 and its table's next id |
| `Store.RouteAdded` | src/models/Route.js:26-99 | filing an accepted route with a new bus number and an existing driver under the next id keeps every table constraint |
| `Store.RouteReplaced` | src/models/Route.js:26-99 | writing back an accepted route under its own id, with its bus number kept and an existing driver, keeps every table constraint |
| `Store.PointStored` | src/controllers/pointController.js:6-16 | filing a point under the next id, or writing one back under its own id, keeps every table constraint |
| `Store.LinkAdded` | src/models/RoutePoint.js:47-56 | filing a link the add handler accepts under the next id keeps both unique indexes and every other table constraint |
| `Store.LinkRemoved` | src/controllers/pointController.js:229-244 | deleting a link keeps every table constraint |
| `Store.LinksReplaced` | src/controllers/routeController.js:185-205 | replacing the links by a table with the same ids that meets the link constraints keeps every table constraint |
| `Store.UserAdded` | src/models/User.js:22-50 | filing an account with a name of 2 to 100 characters and a new address under the next id keeps the unique e-mail index and every other table constraint |
| `Store.UserReplaced` | src/models/User.js:22-50 | writing back an account under its own id with its name and address kept keeps every table constraint |
| `Store.ApplyStatusPatch` | src/controllers/routeController.js:177-182 | the update data written field by field is the route patched with exactly the fields the request carries |
| `Store.ApplyPointPatch` | src/controllers/pointController.js:111-119 | the update data written field by field is the point patched with exactly the fields the body carries |
| `Store.Store.CreateRoute` | src/controllers/routeController.js:6-42 | answers as `CreateRouteOutcome`; on success exactly the new route is added under the next id; otherwise nothing changes |
| `Store.Store.AssignDriverToRoute` | src/controllers/routeController.js:310-339 | answers as `AssignDriverOutcome`; only that route is rewritten, and only on success |
| `Store.Store.UpdateRouteStatus` | src/controllers/routeController.js:155-205 | answers as `StatusOutcome`; on success the route is patched and the links become `Relinked`; on any error nothing changes |
| `Store.Store.MarkPassed` | src/controllers/routeController.js:185-205 | the two bulk writes leave the links as `PassState` says |
| `Store.Store.Valid` | src/models/RoutePoint.js:10-56 | the class invariant: `Consistent` over the store's fields |
| `Store.Store.CreatePoint` | src/controllers/pointController.js:6-16 | adds an active point with the given fields under the next id |
| `Store.Store.UpdatePoint` | src/controllers/pointController.js:98-119 | an unknown point gives 404 and changes nothing; otherwise the point becomes `PatchedPoint` |
| `Store.Store.AddPointToRoute` | src/controllers/pointController.js:139-201 | answers as `AddPointOutcome` (with the intended order rule); on success exactly one link is added, under the next id; otherwise the links are unchanged |
| `Store.Store.RemovePointFromRoute` | src/controllers/pointController.js:229-244 | no link for the pair gives 404; otherwise exactly that link goes and no other order changes |
| `Store.Store.Register` | src/controllers/authController.js:7-32 | answers as `RegisterOutcome`; on success exactly the new account is added; otherwise nothing changes |
| `Store.Store.PromoteToAdmin` | src/controllers/authController.js:112-134 | answers as `PromoteOutcome`; only that user is rewritten, and only on success |
| `Store.Store.UpdateStatusEndpoint` | src/routes/routes.js:33 | authentication, the ownership guard, the validator and the handler run in that order; nothing is written unless all pass, and a write happens only for an admin or the route's driver |

## Left out

- The 500 answers of the `catch` blocks, and logging. A write refused by a record constraint, a foreign key or a unique index is modelled as the error `RecordRejected` (answered with 500), and the store stays unchanged.
- Sequelize itself: transactions and concurrent requests. The route write and the two bulk link writes of a status update are separate writes in the server; the model applies them in sequence, with no interleaving.
- The response `include`s (the driver's name and e-mail, the joined points) and list ordering. `allPoints` is modelled as a map from link id to entry, since the order of the nested include is ORM behaviour.
- `getAllRoutes`, `getRouteById`, `getAllPoints` and `getPointById`. These are plain reads with no rule.
- Floating point. `RouteLogic.Occupancy` computes `(200 * passengers + capacity) div (2 * capacity)` exactly. JavaScript's float division can round an exact half differently (for example 57 of 200).
- JSON numbers are whole numbers in the model. A number string is read by `Number(...)` only as optional surrounding whitespace, an optional sign and decimal digits; hexadecimal, exponents, fractions and `"Infinity"` read as NaN. Arrays and objects (the value `Other`) also read as NaN, whereas JavaScript reads `[]` as 0 and `[5]` as 5.
- String body fields other than the coerced numbers are strings or absent. A non-string value in, for example, `name` is not modelled.
- `Store.PatchOf`: `null` for a count is read as 0, whereas the column would store `NULL`. With `currentPointIndex: null`, the server's bulk writes compare each order with `NULL`, match no link and change no flag; the model instead recomputes the flags as for position 0 (`Relinked`).
- `PointLogic.AddPointOutcome`: uses the intended order rule `NextOrder`. On a route whose largest order is 0, adding a point without an order succeeds here with order 1, where the server picks 0 again and answers 500. The code's behaviour is `PointLogic.AddPointOutcomeAsWritten`, and `PointLogic.AddPointAsWrittenDiffers` proves this is the only difference.
- `Store.Store.AddPointToRoute`: answers as `PointLogic.AddPointOutcome`, so it has the same departure from the server on that input.
- String lengths: the model counts characters (Unicode scalar values), whereas JavaScript's `length` counts UTF-16 code units. A string with characters outside the Basic Multilingual Plane is therefore measured shorter here than in the server (a password of three emoji is 6 long to the validator but 3 here).
- `Store.Store.AssignDriverToRoute`: a body without `driverId` clears the driver (as `null` does), because what the ORM writes for an `undefined` value is not part of the code. A `driverId` of 0 is falsy, so it skips the driver checks and is then refused by the foreign key.
- Password hashing (with its salt) and comparison, and token signing and verification, are parameters (`hash`, `matches`, `verify`). Token expiry is part of `verify`. The token returned by `register` and `login` is not modelled.
- The e-mail format validator of the user record (a library predicate), the password re-hash on update, and the `notEmpty` validators are not modelled separately. A route's `busNumber` has no length bound, so its `notEmpty` is the "non-empty bus number" clause of `Records.RouteAccepted`; on the route and user names the length bounds already imply non-empty.
- src/models/Point.js is not part of this model. Points carry no constraints, and a new point is taken to be active.
- Record ids are unbounded integers. The 32-bit width of the INTEGER columns is not modelled.
- Path parameters are route and point ids; a path segment that is not a number is not modelled.

## Findings

| source | as written | input that shows it | evidently intended | confidence | as-written member | corrected member |
|---|---|---|---|---|---|---|
| src/controllers/pointController.js:193 | `(maxOrder \|\| -1) + 1` treats a largest order of 0 as no order and picks 0 again | a route whose only link has order 0 gets a point added without an order; the new link has order 0, the unique index on route and order refuses it, and the handler answers 500 (`PointLogic.NextOrderAsWrittenCollides`) | one past the largest order (1 here), or 0 on a route without links | high; not executed | `PointLogic.NextOrderAsWritten` | `PointLogic.NextOrder` |

/** The persisted records and the constraints their definitions declare: field bounds,
    defaults, the passengers-within-capacity rule and the unique indexes. A write that
    breaks one of these is refused by the persistence layer. */
module Records {
  import opened Outcomes
  import opened JsValues

  // ---------------------------------------------------------------- users

  datatype Role = Admin | Driver

  function RoleName(r: Role): string {
    match r
    case Admin => "admin"
    case Driver => "driver"
  }

  /** A user account; `password` holds the stored hash, never the plain password. */
  datatype User = User(id: int, name: string, email: string, password: string, role: Role, isActive: bool)

  const DefaultRole: Role := Driver

  /** A new account: active unless said otherwise. */
  function NewUser(id: int, name: string, email: string, hash: string, role: Role): User {
    User(id, name, email, hash, role, true)
  }

  /** The length bounds a new account must meet: a name of 2 to 100 characters and a
      password of 6 to 255 characters, the latter checked before the password is hashed.
      The e-mail format check of the record belongs to a validation library and is not
      modelled. */
  predicate UserAccepted(name: string, plainPassword: string) {
    2 <= |name| <= 100 && 6 <= |plainPassword| <= 255
  }

  /** The record's attributes, as `user.get()` hands them out. */
  function Attributes(u: User): map<string, Value> {
    map["id" := Num(u.id), "name" := Str(u.name), "email" := Str(u.email),
        "password" := Str(u.password), "role" := Str(RoleName(u.role)),
        "isActive" := Bool(u.isActive)]
  }

  /** `user.toJSON()`: a copy of the attributes with the password removed. */
  function ToJson(u: User): (out: map<string, Value>)
    ensures "password" !in out
    ensures out.Keys == Attributes(u).Keys - {"password"}
    ensures forall k | k in out :: out[k] == Attributes(u)[k]
  {
    Attributes(u) - {"password"}
  }

  /** The unique index on `email`. */
  predicate UniqueEmails(users: map<int, User>) {
    forall a, b | a in users && b in users && users[a].email == users[b].email :: a == b
  }

  // ---------------------------------------------------------------- routes

  datatype Route = Route(
    id: int,
    name: string,
    busNumber: string,
    description: Option<string>,
    isActive: bool,
    currentPassengers: int,
    maxCapacity: int,
    currentPointIndex: int,
    driverId: Option<int>)

  const DefaultCapacity: int := 50

  /** A new route: inactive, empty, at its first point. */
  function NewRoute(id: int, name: string, busNumber: string, description: Option<string>,
                    maxCapacity: int, driverId: Option<int>): Route
  {
    Route(id, name, busNumber, description, false, 0, maxCapacity, 0, driverId)
  }

  /** A new route starts inactive, empty and at its first point, and meets every route
      constraint as soon as its name, bus number and capacity do. */
  lemma NewRouteAccepted(id: int, name: string, busNumber: string, description: Option<string>,
                         maxCapacity: int, driverId: Option<int>)
    requires 2 <= |name| <= 100 && busNumber != "" && maxCapacity >= 1
    ensures var r := NewRoute(id, name, busNumber, description, maxCapacity, driverId);
            && RouteAccepted(r) && !r.isActive && r.currentPassengers == 0 && r.currentPointIndex == 0
  {
  }

  /** The record-level validator run before every save. */
  predicate PassengersWithinCapacity(r: Route) {
    !(r.currentPassengers > r.maxCapacity)
  }

  /** The field constraints of a route and its record-level validator. */
  predicate RouteAccepted(r: Route) {
    && 2 <= |r.name| <= 100
    && r.busNumber != ""
    && r.currentPassengers >= 0
    && r.maxCapacity >= 1
    && r.currentPointIndex >= 0
    && PassengersWithinCapacity(r)
  }

  /** The unique index on `busNumber`. */
  predicate UniqueBusNumbers(routes: map<int, Route>) {
    forall a, b | a in routes && b in routes && routes[a].busNumber == routes[b].busNumber :: a == b
  }

  // ---------------------------------------------------------------- points

  /** A waypoint; its record definition is not part of this model, so no constraint is
      placed on its fields. */
  datatype Point = Point(
    id: int,
    name: string,
    description: Option<string>,
    latitude: Option<int>,
    longitude: Option<int>,
    address: Option<string>,
    isActive: bool)

  // ---------------------------------------------------------------- route-point links

  /** The association of a point with a route, at a position `order` along it. */
  datatype RoutePoint = RoutePoint(
    id: int,
    routeId: int,
    pointId: int,
    order: int,
    estimatedTime: Option<int>,
    isPassed: bool)

  /** A new link has not been passed yet. */
  function NewLink(id: int, routeId: int, pointId: int, order: int, estimatedTime: Option<int>): RoutePoint {
    RoutePoint(id, routeId, pointId, order, estimatedTime, false)
  }

  /** `order` is at least 0 and `estimatedTime`, when set, is at least 0. */
  predicate LinkAccepted(l: RoutePoint) {
    l.order >= 0 && (l.estimatedTime.Some? ==> l.estimatedTime.value >= 0)
  }

  /** The unique index on `(routeId, pointId)`. */
  predicate UniquePairs(links: map<int, RoutePoint>) {
    forall a, b | a in links && b in links && links[a].routeId == links[b].routeId
                  && links[a].pointId == links[b].pointId :: a == b
  }

  /** The unique index on `(routeId, order)`. */
  predicate UniqueOrders(links: map<int, RoutePoint>) {
    forall a, b | a in links && b in links && links[a].routeId == links[b].routeId
                  && links[a].order == links[b].order :: a == b
  }

  // ---------------------------------------------------------------- the tables together

  /** Every user is filed under its own id, keeps a name of 2 to 100 characters, and no
      two users share an e-mail address. */
  predicate UsersConsistent(users: map<int, User>) {
    && (forall k | k in users :: users[k].id == k && 2 <= |users[k].name| <= 100)
    && UniqueEmails(users)
  }

  /** Every route is filed under its own id, meets its constraints, names an existing
      user as its driver when it has one, and no two routes share a bus number. */
  predicate RoutesConsistent(users: map<int, User>, routes: map<int, Route>) {
    && (forall k | k in routes :: routes[k].id == k && RouteAccepted(routes[k]))
    && (forall k | k in routes && routes[k].driverId.Some? :: routes[k].driverId.value in users)
    && UniqueBusNumbers(routes)
  }

  /** Every point is filed under its own id. */
  predicate PointsConsistent(points: map<int, Point>) {
    forall k | k in points :: points[k].id == k
  }

  /** Every link is filed under its own id, meets its constraints, joins an existing
      route to an existing point, and both unique indexes hold. */
  predicate LinksConsistent(routes: map<int, Route>, points: map<int, Point>, links: map<int, RoutePoint>) {
    && (forall k | k in links :: links[k].id == k && LinkAccepted(links[k]))
    && (forall k | k in links :: links[k].routeId in routes && links[k].pointId in points)
    && UniquePairs(links)
    && UniqueOrders(links)
  }
}

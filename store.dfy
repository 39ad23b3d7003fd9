/** The record store the handlers change, and the handlers that change it. Each handler
    looks records up and returns early where the server does (the order of a new link
    left without one follows the intended rule, see `PointLogic.AddPointAsWrittenDiffers`),
    and is proved to answer as the matching decision function says and to keep every
    table constraint. */
module Store {
  import opened Outcomes
  import opened JsValues
  import opened Records
  import opened Validation
  import opened Guards
  import opened RouteLogic
  import opened PointLogic
  import opened Accounts

  /** The patch a status body carries once it reached the handler: each present field,
      read as the column reads it. */
  function PatchOf(body: StatusBody): (p: Patch)
    ensures p.currentPassengers.Some? ==> body.currentPassengers != Absent
    ensures p.isActive.Some? <==> body.isActive.Bool?
    ensures p.currentPointIndex.Some? ==> body.currentPointIndex != Absent
    ensures StatusFieldsWellFormed(body) ==>
              && (p.currentPassengers.Some? <==> body.currentPassengers != Absent)
              && (p.currentPassengers.Some? ==> p.currentPassengers.value >= 0)
              && (p.isActive.Some? <==> body.isActive != Absent)
              && (p.currentPointIndex.Some? <==> body.currentPointIndex != Absent)
              && (p.currentPointIndex.Some? ==> p.currentPointIndex.value >= 0)
  {
    Patch(if body.currentPassengers == Absent then None else ToNumber(body.currentPassengers),
          if body.isActive.Bool? then Some(body.isActive.b) else None,
          if body.currentPointIndex == Absent then None else ToNumber(body.currentPointIndex))
  }

  /** Recomputing the passed flags keeps every link constraint: no field a constraint
      reads changes. */
  lemma PassStateKeepsLinksConsistent(routes: map<int, Route>, points: map<int, Point>,
                                      links: map<int, RoutePoint>, routeId: int, k: int)
    requires LinksConsistent(routes, points, links)
    ensures LinksConsistent(routes, points, PassState(links, routeId, k))
  {
    var out := PassState(links, routeId, k);
    assert forall l | l in out :: out[l].id == links[l].id && out[l].routeId == links[l].routeId
                                 && out[l].pointId == links[l].pointId && out[l].order == links[l].order
                                 && out[l].estimatedTime == links[l].estimatedTime;
  }

  /** Writing back a route under its own id, with its bus number kept and its driver an
      existing user, keeps every route constraint. */
  lemma RouteRewriteKeepsConsistent(users: map<int, User>, routes: map<int, Route>, id: int, route: Route)
    requires RoutesConsistent(users, routes) && id in routes
    requires route.id == id && RouteAccepted(route) && route.busNumber == routes[id].busNumber
    requires route.driverId.Some? ==> route.driverId.value in users
    ensures RoutesConsistent(users, routes[id := route])
  {
    var out := routes[id := route];
    forall a, b | a in out && b in out && out[a].busNumber == out[b].busNumber
      ensures a == b
    {
      assert routes[a].busNumber == out[a].busNumber && routes[b].busNumber == out[b].busNumber;
    }
  }

  /** Filing a new route under a fresh id keeps every route constraint when the route
      meets its own constraints, its bus number is new and its driver exists. */
  lemma RouteInsertKeepsConsistent(users: map<int, User>, routes: map<int, Route>, route: Route)
    requires RoutesConsistent(users, routes) && route.id !in routes
    requires RouteAccepted(route) && (forall k | k in routes :: routes[k].busNumber != route.busNumber)
    requires route.driverId.Some? ==> route.driverId.value in users
    ensures RoutesConsistent(users, routes[route.id := route])
  {
  }

  /** Link constraints only ask for routes and points to exist, so more routes or points keep them. */
  lemma LinksConsistentGrow(routes: map<int, Route>, routes': map<int, Route>, points: map<int, Point>,
                            points': map<int, Point>, links: map<int, RoutePoint>)
    requires LinksConsistent(routes, points, links)
    requires routes.Keys <= routes'.Keys && points.Keys <= points'.Keys
    ensures LinksConsistent(routes', points', links)
  {
  }

  // ---------------------------------------------------------------- update data

  /** The update data of a status request, written field by field onto the route: only
      the fields the request carries are set. */
  method ApplyStatusPatch(route: Route, p: Patch) returns (updated: Route)
    ensures updated == Patched(route, p)
  {
    updated := route;
    if p.currentPassengers.Some? {
      updated := updated.(currentPassengers := p.currentPassengers.value);
    }
    if p.isActive.Some? {
      updated := updated.(isActive := p.isActive.value);
    }
    if p.currentPointIndex.Some? {
      updated := updated.(currentPointIndex := p.currentPointIndex.value);
    }
  }

  /** The update data of a point request, written field by field onto the point: only the
      fields the body carries are set. */
  method ApplyPointPatch(point: Point, patch: PointPatch) returns (updated: Point)
    ensures updated == PatchedPoint(point, patch)
  {
    updated := point;
    if patch.name.Some? {
      updated := updated.(name := patch.name.value);
    }
    if patch.description.Some? {
      updated := updated.(description := patch.description.value);
    }
    if patch.latitude.Some? {
      updated := updated.(latitude := patch.latitude.value);
    }
    if patch.longitude.Some? {
      updated := updated.(longitude := patch.longitude.value);
    }
    if patch.address.Some? {
      updated := updated.(address := patch.address.value);
    }
    if patch.isActive.Some? {
      updated := updated.(isActive := patch.isActive.value);
    }
  }

  // ---------------------------------------------------------------- the store's invariant

  /** Every table constraint holds, and every id lies between 1 and its table's next id. */
  predicate Consistent(users: map<int, User>, routes: map<int, Route>, points: map<int, Point>,
                       links: map<int, RoutePoint>, nextUserId: int, nextRouteId: int,
                       nextPointId: int, nextLinkId: int) {
    && UsersConsistent(users) && RoutesConsistent(users, routes)
    && PointsConsistent(points) && LinksConsistent(routes, points, links)
    && 1 <= nextUserId && 1 <= nextRouteId && 1 <= nextPointId && 1 <= nextLinkId
    && (forall k | k in users :: 1 <= k < nextUserId)
    && (forall k | k in routes :: 1 <= k < nextRouteId)
    && (forall k | k in points :: 1 <= k < nextPointId)
    && (forall k | k in links :: 1 <= k < nextLinkId)
  }

  /** Filing a new route under the next id keeps the store consistent when the route meets
      its constraints, its bus number is new and its driver exists. */
  lemma RouteAdded(users: map<int, User>, routes: map<int, Route>, points: map<int, Point>,
                   links: map<int, RoutePoint>, nu: int, nr: int, np: int, nl: int, route: Route)
    requires Consistent(users, routes, points, links, nu, nr, np, nl)
    requires route.id == nr && RouteAccepted(route)
    requires forall k | k in routes :: routes[k].busNumber != route.busNumber
    requires route.driverId.Some? ==> route.driverId.value in users
    ensures Consistent(users, routes[nr := route], points, links, nu, nr + 1, np, nl)
  {
    RouteInsertKeepsConsistent(users, routes, route);
    LinksConsistentGrow(routes, routes[nr := route], points, points, links);
  }

  /** Writing back a route under its own id, with its bus number kept and its driver an
      existing user, keeps the store consistent. */
  lemma RouteReplaced(users: map<int, User>, routes: map<int, Route>, points: map<int, Point>,
                      links: map<int, RoutePoint>, nu: int, nr: int, np: int, nl: int, id: int, route: Route)
    requires Consistent(users, routes, points, links, nu, nr, np, nl)
    requires id in routes && route.id == id && RouteAccepted(route) && route.busNumber == routes[id].busNumber
    requires route.driverId.Some? ==> route.driverId.value in users
    ensures Consistent(users, routes[id := route], points, links, nu, nr, np, nl)
  {
    RouteRewriteKeepsConsistent(users, routes, id, route);
    LinksConsistentGrow(routes, routes[id := route], points, points, links);
  }

  /** Filing a point under the next id, or writing one back under its own id, keeps the
      store consistent. */
  lemma PointStored(users: map<int, User>, routes: map<int, Route>, points: map<int, Point>,
                    links: map<int, RoutePoint>, nu: int, nr: int, np: int, nl: int, p: Point)
    requires Consistent(users, routes, points, links, nu, nr, np, nl)
    requires p.id == np || p.id in points
    ensures Consistent(users, routes, points[p.id := p], links, nu, nr, if p.id == np then np + 1 else np, nl)
  {
    LinksConsistentGrow(routes, routes, points, points[p.id := p], links);
  }

  /** Filing a link the add handler accepts under the next id keeps the store consistent. */
  lemma LinkAdded(users: map<int, User>, routes: map<int, Route>, points: map<int, Point>,
                  links: map<int, RoutePoint>, nu: int, nr: int, np: int, nl: int,
                  routeId: Option<int>, pointId: Option<int>, order: Option<int>, estimatedTime: Option<int>)
    requires Consistent(users, routes, points, links, nu, nr, np, nl)
    requires AddPointOutcome(routes, points, links, nl, routeId, pointId, order, estimatedTime).Ok?
    ensures nl !in links
    ensures Consistent(users, routes, points,
                       links[nl := AddPointOutcome(routes, points, links, nl, routeId, pointId, order, estimatedTime).value],
                       nu, nr, np, nl + 1)
  {
    AddPointKeepsLinksConsistent(routes, points, links, nl, routeId, pointId, order, estimatedTime);
  }

  /** Taking a link out keeps the store consistent. */
  lemma LinkRemoved(users: map<int, User>, routes: map<int, Route>, points: map<int, Point>,
                    links: map<int, RoutePoint>, nu: int, nr: int, np: int, nl: int, id: int)
    requires Consistent(users, routes, points, links, nu, nr, np, nl)
    ensures Consistent(users, routes, points, links - {id}, nu, nr, np, nl)
  {
    var out := links - {id};
    assert forall a | a in out :: out[a] == links[a];
  }

  /** Replacing the links by a table with the same ids that keeps the link constraints
      keeps the store consistent. */
  lemma LinksReplaced(users: map<int, User>, routes: map<int, Route>, points: map<int, Point>,
                      links: map<int, RoutePoint>, links': map<int, RoutePoint>, nu: int, nr: int, np: int, nl: int)
    requires Consistent(users, routes, points, links, nu, nr, np, nl)
    requires links'.Keys == links.Keys && LinksConsistent(routes, points, links')
    ensures Consistent(users, routes, points, links', nu, nr, np, nl)
  {
  }

  /** Filing a new account under the next id keeps the store consistent when its name has
      2 to 100 characters and its address is new. */
  lemma UserAdded(users: map<int, User>, routes: map<int, Route>, points: map<int, Point>,
                  links: map<int, RoutePoint>, nu: int, nr: int, np: int, nl: int, user: User)
    requires Consistent(users, routes, points, links, nu, nr, np, nl)
    requires user.id == nu && 2 <= |user.name| <= 100
    requires forall k | k in users :: users[k].email != user.email
    ensures Consistent(users[nu := user], routes, points, links, nu + 1, nr, np, nl)
  {
    var out := users[nu := user];
    forall a, b | a in out && b in out && out[a].email == out[b].email
      ensures a == b
    {
      if a != nu && b != nu {
        assert users[a].email == users[b].email;
      }
    }
  }

  /** Writing back an account under its own id with its name and address kept keeps the
      store consistent. */
  lemma UserReplaced(users: map<int, User>, routes: map<int, Route>, points: map<int, Point>,
                     links: map<int, RoutePoint>, nu: int, nr: int, np: int, nl: int, id: int, user: User)
    requires Consistent(users, routes, points, links, nu, nr, np, nl)
    requires id in users && user.id == users[id].id && user.name == users[id].name && user.email == users[id].email
    ensures Consistent(users[id := user], routes, points, links, nu, nr, np, nl)
  {
    var out := users[id := user];
    forall a, b | a in out && b in out && out[a].email == out[b].email
      ensures a == b
    {
      assert users[a].email == users[b].email;
    }
  }

  class Store {
    var users: map<int, User>
    var routes: map<int, Route>
    var points: map<int, Point>
    var links: map<int, RoutePoint>
    // the next id each table's autoincrement hands out
    var nextUserId: int
    var nextRouteId: int
    var nextPointId: int
    var nextLinkId: int

    /** Every table constraint holds, and every id is below its table's next id. */
    predicate Valid()
      reads this
    {
      Consistent(users, routes, points, links, nextUserId, nextRouteId, nextPointId, nextLinkId)
    }

    /** An empty store; ids start at 1. */
    constructor ()
      ensures Valid()
      ensures users == map[] && routes == map[] && points == map[] && links == map[]
    {
      users, routes, points, links := map[], map[], map[], map[];
      nextUserId, nextRouteId, nextPointId, nextLinkId := 1, 1, 1, 1;
    }

    // ---------------------------------------------------------------- routes

    /** `createRoute`. */
    method CreateRoute(name: string, busNumber: string, description: Option<string>,
                       maxCapacity: Value, driverId: Option<int>) returns (r: Outcome<Route>)
      requires Valid()
      modifies this
      ensures Valid()
      ensures r == CreateRouteOutcome(old(users), old(routes), old(nextRouteId), name, busNumber,
                                      description, maxCapacity, driverId)
      ensures r.Ok? ==> r.value.id == old(nextRouteId) && routes == old(routes)[r.value.id := r.value]
                        && nextRouteId == old(nextRouteId) + 1
      ensures r.Err? ==> routes == old(routes) && nextRouteId == old(nextRouteId)
      ensures users == old(users) && points == old(points) && links == old(links)
      ensures nextUserId == old(nextUserId) && nextPointId == old(nextPointId) && nextLinkId == old(nextLinkId)
    {
      if exists k | k in routes :: routes[k].busNumber == busNumber {
        return Err(BusNumberInUse);
      }
      if driverId.Some? && driverId.value != 0 {
        if driverId.value !in users {
          return Err(DriverNotFound);
        }
        if users[driverId.value].role != Driver {
          return Err(NotADriver);
        }
      }
      assert DriverProblem(users, driverId).None?;
      var capacity := CapacityOf(maxCapacity);
      if capacity.None? {
        return Err(RecordRejected);
      }
      var route := NewRoute(nextRouteId, name, busNumber, description, capacity.value, driverId);
      if !RouteAccepted(route) || (driverId.Some? && driverId.value !in users) {
        return Err(RecordRejected);
      }
      assert CreateRouteOutcome(users, routes, nextRouteId, name, busNumber, description, maxCapacity, driverId)
             == Ok(route);
      RouteAdded(users, routes, points, links, nextUserId, nextRouteId, nextPointId, nextLinkId, route);
      routes := routes[route.id := route];
      nextRouteId := nextRouteId + 1;
      r := Ok(route);
    }

    /** `assignDriverToRoute`: only the route's driver changes. */
    method AssignDriverToRoute(id: int, driverId: Option<int>) returns (r: Outcome<Route>)
      requires Valid()
      modifies this
      ensures Valid()
      ensures r == AssignDriverOutcome(old(users), old(routes), id, driverId)
      ensures routes == if r.Ok? then old(routes)[id := r.value] else old(routes)
      ensures users == old(users) && points == old(points) && links == old(links)
      ensures nextUserId == old(nextUserId) && nextRouteId == old(nextRouteId)
      ensures nextPointId == old(nextPointId) && nextLinkId == old(nextLinkId)
    {
      if id !in routes {
        return Err(RouteNotFound);
      }
      if driverId.Some? && driverId.value != 0 {
        if driverId.value !in users {
          return Err(DriverNotFound);
        }
        if users[driverId.value].role != Driver {
          return Err(NotADriver);
        }
      }
      if driverId.Some? && driverId.value !in users {
        return Err(RecordRejected);
      }
      var updated := routes[id].(driverId := driverId);
      RouteReplaced(users, routes, points, links, nextUserId, nextRouteId, nextPointId, nextLinkId, id, updated);
      routes := routes[id := updated];
      r := Ok(updated);
    }

    /** `updateRouteStatus`: writes the supplied fields, then, when the patch moves the
        route, marks its links up to the new position as passed and the rest as not. */
    method UpdateRouteStatus(id: int, p: Patch) returns (r: Outcome<Route>)
      requires Valid()
      modifies this
      ensures Valid()
      ensures r == StatusOutcome(old(routes), id, p)
      ensures routes == if r.Ok? then old(routes)[id := r.value] else old(routes)
      ensures links == if r.Ok? then Relinked(old(links), id, p) else old(links)
      ensures users == old(users) && points == old(points)
      ensures nextUserId == old(nextUserId) && nextRouteId == old(nextRouteId)
      ensures nextPointId == old(nextPointId) && nextLinkId == old(nextLinkId)
    {
      if id !in routes {
        return Err(RouteNotFound);
      }
      var route := routes[id];
      if p.currentPassengers.Some? && p.currentPassengers.value > route.maxCapacity {
        return Err(CapacityExceeded);
      }
      var updated := ApplyStatusPatch(route, p);
      if !RouteAccepted(updated) {
        return Err(RecordRejected);
      }
      RouteReplaced(users, routes, points, links, nextUserId, nextRouteId, nextPointId, nextLinkId, id, updated);
      routes := routes[id := updated];
      if p.currentPointIndex.Some? {
        ghost var before := links;
        MarkPassed(id, p.currentPointIndex.value);
        LinksReplaced(users, routes, points, before, links, nextUserId, nextRouteId, nextPointId, nextLinkId);
      }
      r := Ok(updated);
    }

    /** The two bulk writes of a status update that moves route `routeId` to position `k`:
        its links up to `k` become passed, then its links after `k` become not passed. */
    method MarkPassed(routeId: int, k: int)
      requires LinksConsistent(routes, points, links)
      modifies this
      ensures LinksConsistent(routes, points, links)
      ensures links == PassState(old(links), routeId, k)
      ensures users == old(users) && routes == old(routes) && points == old(points)
      ensures nextUserId == old(nextUserId) && nextRouteId == old(nextRouteId)
      ensures nextPointId == old(nextPointId) && nextLinkId == old(nextLinkId)
    {
      PassStateKeepsLinksConsistent(routes, points, links, routeId, k);
      BulkWritesArePassState(links, routeId, k);
      links := MarkedUpTo(links, routeId, k);
      links := ClearedAfter(links, routeId, k);
    }

    // ---------------------------------------------------------------- points

    /** `createPoint`: a new active point under the next id. */
    method CreatePoint(name: string, description: Option<string>, latitude: Option<int>,
                       longitude: Option<int>, address: Option<string>) returns (p: Point)
      requires Valid()
      modifies this
      ensures Valid()
      ensures p == Point(old(nextPointId), name, description, latitude, longitude, address, true)
      ensures old(nextPointId) !in old(points) && points == old(points)[p.id := p]
      ensures nextPointId == old(nextPointId) + 1
      ensures users == old(users) && routes == old(routes) && links == old(links)
      ensures nextUserId == old(nextUserId) && nextRouteId == old(nextRouteId) && nextLinkId == old(nextLinkId)
    {
      p := Point(nextPointId, name, description, latitude, longitude, address, true);
      PointStored(users, routes, points, links, nextUserId, nextRouteId, nextPointId, nextLinkId, p);
      points := points[p.id := p];
      nextPointId := nextPointId + 1;
    }

    /** `updatePoint`: 404 for an unknown point; otherwise the supplied fields are written. */
    method UpdatePoint(id: int, patch: PointPatch) returns (r: Outcome<Point>)
      requires Valid()
      modifies this
      ensures Valid()
      ensures r.Err? <==> id !in old(points)
      ensures r.Err? ==> r.error == PointNotFound && points == old(points)
      ensures r.Ok? ==> r.value == PatchedPoint(old(points)[id], patch) && points == old(points)[id := r.value]
      ensures users == old(users) && routes == old(routes) && links == old(links)
      ensures nextUserId == old(nextUserId) && nextRouteId == old(nextRouteId)
      ensures nextPointId == old(nextPointId) && nextLinkId == old(nextLinkId)
    {
      if id !in points {
        return Err(PointNotFound);
      }
      var updated := ApplyPointPatch(points[id], patch);
      PointStored(users, routes, points, links, nextUserId, nextRouteId, nextPointId, nextLinkId, updated);
      points := points[id := updated];
      r := Ok(updated);
    }

    /** `addPointToRoute`, with a left-out order taken as the next free one. */
    method AddPointToRoute(routeId: Option<int>, pointId: Option<int>, order: Option<int>,
                           estimatedTime: Option<int>) returns (r: Outcome<RoutePoint>)
      requires Valid()
      modifies this
      ensures Valid()
      ensures r == AddPointOutcome(old(routes), old(points), old(links), old(nextLinkId),
                                   routeId, pointId, order, estimatedTime)
      ensures r.Ok? ==> r.value.id == old(nextLinkId) && old(nextLinkId) !in old(links)
                        && links == old(links)[r.value.id := r.value] && nextLinkId == old(nextLinkId) + 1
      ensures r.Err? ==> links == old(links) && nextLinkId == old(nextLinkId)
      ensures users == old(users) && routes == old(routes) && points == old(points)
      ensures nextUserId == old(nextUserId) && nextRouteId == old(nextRouteId) && nextPointId == old(nextPointId)
    {
      if routeId.None? || routeId.value !in routes {
        return Err(RouteNotFound);
      }
      if pointId.None? || pointId.value !in points {
        return Err(PointNotFound);
      }
      if exists l | l in links :: links[l].routeId == routeId.value && links[l].pointId == pointId.value {
        return Err(AlreadyOnRoute);
      }
      if order.Some? {
        if exists l | l in links :: links[l].routeId == routeId.value && links[l].order == order.value {
          return Err(OrderInUse);
        }
      }
      var finalOrder;
      if order.Some? {
        finalOrder := order.value;
      } else {
        finalOrder := NextOrder(links, routeId.value);
      }
      var link := NewLink(nextLinkId, routeId.value, pointId.value, finalOrder, estimatedTime);
      if !LinkAccepted(link) {
        return Err(RecordRejected);
      }
      assert AddPointOutcome(routes, points, links, nextLinkId, routeId, pointId, order, estimatedTime) == Ok(link);
      LinkAdded(users, routes, points, links, nextUserId, nextRouteId, nextPointId, nextLinkId,
                routeId, pointId, order, estimatedTime);
      links := links[link.id := link];
      nextLinkId := nextLinkId + 1;
      r := Ok(link);
    }

    /** `removePointFromRoute`: 404 when the point is not on the route; otherwise exactly
        that link goes, and no other link is renumbered. */
    method RemovePointFromRoute(routeId: int, pointId: int) returns (r: Outcome<RoutePoint>)
      requires Valid()
      modifies this
      ensures Valid()
      ensures r.Err? <==> forall l | l in old(links) :: !(old(links)[l].routeId == routeId && old(links)[l].pointId == pointId)
      ensures r.Err? ==> r.error == LinkNotFound && links == old(links)
      ensures r.Ok? ==> && r.value.id in old(links) && old(links)[r.value.id] == r.value
                        && r.value.routeId == routeId && r.value.pointId == pointId
                        && links == old(links) - {r.value.id}
      ensures users == old(users) && routes == old(routes) && points == old(points)
      ensures nextUserId == old(nextUserId) && nextRouteId == old(nextRouteId)
      ensures nextPointId == old(nextPointId) && nextLinkId == old(nextLinkId)
    {
      var found := LinkOf(links, routeId, pointId);
      if found.None? {
        return Err(LinkNotFound);
      }
      var link := links[found.value];
      LinkRemoved(users, routes, points, links, nextUserId, nextRouteId, nextPointId, nextLinkId, link.id);
      links := links - {link.id};
      r := Ok(link);
    }

    // ---------------------------------------------------------------- accounts

    /** `register`. */
    method Register(name: string, email: string, password: string, adminKey: Option<string>,
                    configured: Option<string>, hash: string -> string) returns (r: Outcome<User>)
      requires Valid()
      modifies this
      ensures Valid()
      ensures r == RegisterOutcome(old(users), old(nextUserId), name, email, password, adminKey, configured, hash)
      ensures r.Ok? ==> r.value.id == old(nextUserId) && users == old(users)[r.value.id := r.value]
                        && nextUserId == old(nextUserId) + 1
      ensures r.Err? ==> users == old(users) && nextUserId == old(nextUserId)
      ensures routes == old(routes) && points == old(points) && links == old(links)
      ensures nextRouteId == old(nextRouteId) && nextPointId == old(nextPointId) && nextLinkId == old(nextLinkId)
    {
      if exists k | k in users :: users[k].email == email {
        return Err(EmailInUse);
      }
      var role := Driver;
      if Given(adminKey) && adminKey == configured {
        role := Admin;
      }
      if !UserAccepted(name, password) {
        return Err(RecordRejected);
      }
      var user := NewUser(nextUserId, name, email, hash(password), role);
      UserAdded(users, routes, points, links, nextUserId, nextRouteId, nextPointId, nextLinkId, user);
      users := users[user.id := user];
      nextUserId := nextUserId + 1;
      r := Ok(user);
    }

    /** `promoteToAdmin`: only the user's role changes. */
    method PromoteToAdmin(userId: Option<int>, adminKey: Option<string>, configured: Option<string>)
      returns (r: Outcome<User>)
      requires Valid()
      modifies this
      ensures Valid()
      ensures r == PromoteOutcome(old(users), userId, adminKey, configured)
      ensures users == if r.Ok? then old(users)[userId.value := r.value] else old(users)
      ensures routes == old(routes) && points == old(points) && links == old(links)
      ensures nextUserId == old(nextUserId) && nextRouteId == old(nextRouteId)
      ensures nextPointId == old(nextPointId) && nextLinkId == old(nextLinkId)
    {
      if adminKey != configured {
        return Err(InvalidAdminKey);
      }
      if userId.None? || userId.value !in users {
        return Err(UserNotFound);
      }
      var promoted := users[userId.value].(role := Admin);
      UserReplaced(users, routes, points, links, nextUserId, nextRouteId, nextPointId, nextLinkId, userId.value, promoted);
      users := users[userId.value := promoted];
      r := Ok(promoted);
    }

    // ---------------------------------------------------------------- the status endpoint

    /** `PUT /routes/:id/status`: authentication, then the ownership guard, then the body
        validator, then the status handler. Nothing is written unless every stage lets
        the request through, and a write happens only for an admin or the route's driver. */
    method UpdateStatusEndpoint(header: Option<string>, verify: string -> Option<int>, pathId: int,
                                body: StatusBody) returns (r: Outcome<Route>)
      requires Valid()
      modifies this
      ensures Valid()
      ensures Authenticate(header, verify, old(users)).Err? ==> r == Err(Authenticate(header, verify, old(users)).error)
      ensures Authenticate(header, verify, old(users)).Ok? ==>
                var guard := RequireRouteOwnerOrAdmin(Some(Authenticate(header, verify, old(users)).value),
                                                      Some(pathId), body.routeId, old(routes));
                && (guard.Reject? ==> r == Err(guard.error))
                && (guard.Next? && !StatusFieldsWellFormed(body) ==> r.Err? && r.error.InvalidData?)
                && (guard.Next? && StatusFieldsWellFormed(body) ==> r == StatusOutcome(old(routes), pathId, PatchOf(body)))
      ensures r.Ok? ==> && Authenticate(header, verify, old(users)).Ok?
                        && var caller := Authenticate(header, verify, old(users)).value;
                           caller.role == Admin || Owns(caller, pathId, old(routes))
      ensures r.Ok? ==> && StatusFieldsWellFormed(body)
                        && routes == old(routes)[pathId := r.value]
                        && links == Relinked(old(links), pathId, PatchOf(body))
      ensures r.Err? ==> routes == old(routes) && links == old(links)
      ensures users == old(users) && points == old(points)
    {
      var auth := Authenticate(header, verify, users);
      if auth.Err? {
        return Err(auth.error);
      }
      var guard := RequireRouteOwnerOrAdmin(Some(auth.value), Some(pathId), body.routeId, routes);
      if guard.Reject? {
        return Err(guard.error);
      }
      var check := ValidateRouteStatusUpdate(body);
      if check.Reject? {
        return Err(check.error);
      }
      r := UpdateRouteStatus(pathId, PatchOf(body));
    }
  }
}

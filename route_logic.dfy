/** The decisions of the route handlers, as functions of the tables they read: which
    answer a request gets and which record it writes. `Store.Store` applies them. */
module RouteLogic {
  import opened Outcomes
  import opened JsValues
  import opened Records

  // ---------------------------------------------------------------- creating a route

  /** `maxCapacity || 50`: a falsy capacity falls back on the default; a truthy one is
      written as given and read as a number by the column (`None` when it is not one). */
  function CapacityOf(maxCapacity: Value): (r: Option<int>)
    ensures !Truthy(maxCapacity) ==> r == Some(DefaultCapacity)
    ensures Truthy(maxCapacity) ==> r == ToNumber(maxCapacity)
  {
    if Truthy(maxCapacity) then ToNumber(maxCapacity) else Some(DefaultCapacity)
  }

  /** The driver rule shared by route creation and driver assignment: a truthy driver id
      must name an existing user (404) whose role is driver (400). A falsy id is not looked up. */
  function DriverProblem(users: map<int, User>, driverId: Option<int>): (r: Option<Error>)
    ensures r.None? <==> (|| driverId.None? || driverId.value == 0
                          || (driverId.value in users && users[driverId.value].role == Driver))
    ensures r.Some? ==> r.value == (if driverId.value !in users then DriverNotFound else NotADriver)
  {
    if driverId.None? || driverId.value == 0 then None
    else if driverId.value !in users then Some(DriverNotFound)
    else if users[driverId.value].role != Driver then Some(NotADriver)
    else None
  }

  /** The route `createRoute` writes under the fresh id `id`, or why it answers with an
      error: a bus number in use (400), then the driver rule, then a record the
      constraints or the driver reference refuse. */
  function CreateRouteOutcome(users: map<int, User>, routes: map<int, Route>, id: int,
                              name: string, busNumber: string, description: Option<string>,
                              maxCapacity: Value, driverId: Option<int>): (r: Outcome<Route>)
    ensures (exists k | k in routes :: routes[k].busNumber == busNumber) ==> r == Err(BusNumberInUse)
    ensures r.Ok? ==> && CapacityOf(maxCapacity).Some?
                      && r.value == NewRoute(id, name, busNumber, description, CapacityOf(maxCapacity).value, driverId)
                      && RouteAccepted(r.value)
                      && (forall k | k in routes :: routes[k].busNumber != busNumber)
                      && (driverId.Some? ==> driverId.value in users)
                      && (driverId.Some? && driverId.value != 0 ==> users[driverId.value].role == Driver)
    ensures (forall k | k in routes :: routes[k].busNumber != busNumber) && DriverProblem(users, driverId).Some?
            ==> r == Err(DriverProblem(users, driverId).value)
    ensures r.Ok? <==> && (forall k | k in routes :: routes[k].busNumber != busNumber)
                       && DriverProblem(users, driverId).None?
                       && CapacityOf(maxCapacity).Some?
                       && RouteAccepted(NewRoute(id, name, busNumber, description, CapacityOf(maxCapacity).value, driverId))
                       && (driverId.Some? ==> driverId.value in users)
    ensures r.Err? ==> r.error in {BusNumberInUse, DriverNotFound, NotADriver, RecordRejected}
  {
    if exists k | k in routes :: routes[k].busNumber == busNumber then Err(BusNumberInUse)
    else if DriverProblem(users, driverId).Some? then Err(DriverProblem(users, driverId).value)
    else if CapacityOf(maxCapacity).None? then Err(RecordRejected)
    else
      var route := NewRoute(id, name, busNumber, description, CapacityOf(maxCapacity).value, driverId);
      if !RouteAccepted(route) || (driverId.Some? && driverId.value !in users) then Err(RecordRejected)
      else Ok(route)
  }

  // ---------------------------------------------------------------- assigning a driver

  /** The route `assignDriverToRoute` writes back, or why it answers with an error: an
      unknown route (404), then the driver rule. A missing driver id clears the driver. */
  function AssignDriverOutcome(users: map<int, User>, routes: map<int, Route>, id: int,
                               driverId: Option<int>): (r: Outcome<Route>)
    ensures id !in routes ==> r == Err(RouteNotFound)
    ensures r.Ok? ==> id in routes && r.value == routes[id].(driverId := driverId)
    ensures r.Ok? && driverId.Some? ==> driverId.value in users
    ensures r.Ok? && driverId.Some? && driverId.value != 0 ==> users[driverId.value].role == Driver
    ensures id in routes && DriverProblem(users, driverId).Some? ==> r == Err(DriverProblem(users, driverId).value)
    ensures r.Ok? <==> id in routes && DriverProblem(users, driverId).None?
                       && (driverId.Some? ==> driverId.value in users)
  {
    if id !in routes then Err(RouteNotFound)
    else if DriverProblem(users, driverId).Some? then Err(DriverProblem(users, driverId).value)
    else if driverId.Some? && driverId.value !in users then Err(RecordRejected)
    else Ok(routes[id].(driverId := driverId))
  }

  // ---------------------------------------------------------------- the status update

  /** The fields a status update supplies; `None` is a field the body leaves out. */
  datatype Patch = Patch(currentPassengers: Option<int>, isActive: Option<bool>, currentPointIndex: Option<int>)

  /** The route with the supplied fields of the patch written over it. */
  function Patched(r: Route, p: Patch): (out: Route)
    ensures out.currentPassengers == (if p.currentPassengers.Some? then p.currentPassengers.value else r.currentPassengers)
    ensures out.isActive == (if p.isActive.Some? then p.isActive.value else r.isActive)
    ensures out.currentPointIndex == (if p.currentPointIndex.Some? then p.currentPointIndex.value else r.currentPointIndex)
    ensures out.(currentPassengers := r.currentPassengers, isActive := r.isActive,
                 currentPointIndex := r.currentPointIndex) == r
  {
    var r1 := if p.currentPassengers.Some? then r.(currentPassengers := p.currentPassengers.value) else r;
    var r2 := if p.isActive.Some? then r1.(isActive := p.isActive.value) else r1;
    if p.currentPointIndex.Some? then r2.(currentPointIndex := p.currentPointIndex.value) else r2
  }

  /** The route `updateRouteStatus` writes back, or why it answers with an error: an
      unknown route (404), then more passengers than the route's capacity (400), then a
      record its constraints refuse. */
  function StatusOutcome(routes: map<int, Route>, id: int, p: Patch): (r: Outcome<Route>)
    ensures id !in routes ==> r == Err(RouteNotFound)
    ensures id in routes ==> (r == Err(CapacityExceeded) <==>
                              p.currentPassengers.Some? && p.currentPassengers.value > routes[id].maxCapacity)
    ensures r.Ok? ==> id in routes && r.value == Patched(routes[id], p) && RouteAccepted(r.value)
    ensures id in routes && RouteAccepted(routes[id])
            && !(p.currentPassengers.Some? && p.currentPassengers.value > routes[id].maxCapacity)
            ==> (r.Ok? <==> (p.currentPassengers.Some? ==> p.currentPassengers.value >= 0)
                            && (p.currentPointIndex.Some? ==> p.currentPointIndex.value >= 0))
  {
    if id !in routes then Err(RouteNotFound)
    else if p.currentPassengers.Some? && p.currentPassengers.value > routes[id].maxCapacity then Err(CapacityExceeded)
    else if !RouteAccepted(Patched(routes[id], p)) then Err(RecordRejected)
    else Ok(Patched(routes[id], p))
  }

  /** The links after the route `routeId` reached the point of order `k`: its links of
      order up to `k` are passed, its later links are not, and every other link and
      every other field stay as they were. */
  function PassState(links: map<int, RoutePoint>, routeId: int, k: int): (out: map<int, RoutePoint>)
    ensures out.Keys == links.Keys
    ensures forall l | l in out && out[l].routeId == routeId :: out[l].isPassed <==> out[l].order <= k
    ensures forall l | l in out && links[l].routeId != routeId :: out[l] == links[l]
    ensures forall l | l in out :: out[l].(isPassed := links[l].isPassed) == links[l]
  {
    map l | l in links :: if links[l].routeId == routeId then links[l].(isPassed := links[l].order <= k) else links[l]
  }

  /** The first bulk write of a move to position `k`: the route's links of order up to `k`
      become passed. */
  function MarkedUpTo(links: map<int, RoutePoint>, routeId: int, k: int): map<int, RoutePoint> {
    map l | l in links :: if links[l].routeId == routeId && links[l].order <= k
                          then links[l].(isPassed := true) else links[l]
  }

  /** The second bulk write of a move to position `k`: the route's links of order after `k`
      become not passed. */
  function ClearedAfter(links: map<int, RoutePoint>, routeId: int, k: int): map<int, RoutePoint> {
    map l | l in links :: if links[l].routeId == routeId && links[l].order > k
                          then links[l].(isPassed := false) else links[l]
  }

  /** The two bulk writes, one after the other, leave the links as `PassState` says: the
      second touches exactly the links the first left alone on that route. */
  lemma BulkWritesArePassState(links: map<int, RoutePoint>, routeId: int, k: int)
    ensures ClearedAfter(MarkedUpTo(links, routeId, k), routeId, k) == PassState(links, routeId, k)
  {
    var first := MarkedUpTo(links, routeId, k);
    var second := ClearedAfter(first, routeId, k);
    var want := PassState(links, routeId, k);
    assert second.Keys == want.Keys;
    forall l | l in second
      ensures second[l] == want[l]
    {
      assert first[l].routeId == links[l].routeId && first[l].order == links[l].order;
    }
  }

  /** The links after a status update: recomputed only when the patch moves the route. */
  function Relinked(links: map<int, RoutePoint>, routeId: int, p: Patch): (out: map<int, RoutePoint>)
    ensures p.currentPointIndex.None? ==> out == links
    ensures p.currentPointIndex.Some? ==> out == PassState(links, routeId, p.currentPointIndex.value)
  {
    if p.currentPointIndex.Some? then PassState(links, routeId, p.currentPointIndex.value) else links
  }

  /** Sending the same status update twice leaves the tables as sending it once: the
      second request succeeds, writes the same route and recomputes the same flags. */
  lemma StatusUpdateIdempotent(routes: map<int, Route>, links: map<int, RoutePoint>, id: int, p: Patch)
    requires StatusOutcome(routes, id, p).Ok?
    ensures var route := StatusOutcome(routes, id, p).value;
            var routes1, links1 := routes[id := route], Relinked(links, id, p);
            && StatusOutcome(routes1, id, p) == Ok(route)
            && routes1[id := route] == routes1
            && Relinked(links1, id, p) == links1
  {
    var route := StatusOutcome(routes, id, p).value;
    var routes1 := routes[id := route];
    PatchedIdempotent(routes[id], p);
    assert routes1[id] == route;
    if p.currentPointIndex.Some? {
      PassStateIdempotent(links, id, p.currentPointIndex.value);
    }
  }

  /** Writing a patch over a route it was already written over changes nothing. */
  lemma PatchedIdempotent(r: Route, p: Patch)
    ensures Patched(Patched(r, p), p) == Patched(r, p)
  {
  }

  /** Recomputing the flags for the same point changes nothing. */
  lemma PassStateIdempotent(links: map<int, RoutePoint>, routeId: int, k: int)
    ensures PassState(PassState(links, routeId, k), routeId, k) == PassState(links, routeId, k)
  {
    var once := PassState(links, routeId, k);
    var twice := PassState(once, routeId, k);
    assert forall l | l in twice :: twice[l] == once[l];
  }

  // ---------------------------------------------------------------- the public status

  /** `Math.round(100 * currentPassengers / maxCapacity)` in exact arithmetic: the whole
      number nearest to the percentage, halves rounded up. */
  function Occupancy(currentPassengers: int, maxCapacity: int): (r: int)
    requires maxCapacity >= 1
    ensures (2 * maxCapacity) * r <= 200 * currentPassengers + maxCapacity < (2 * maxCapacity) * (r + 1)
  {
    var n, d := 200 * currentPassengers + maxCapacity, 2 * maxCapacity;
    assert d * (n / d) + n % d == n;
    assert d * (n / d + 1) == d * (n / d) + d;
    n / d
  }

  /** A load between empty and full is a percentage between 0 and 100. */
  lemma OccupancyBounds(currentPassengers: int, maxCapacity: int)
    requires maxCapacity >= 1 && 0 <= currentPassengers <= maxCapacity
    ensures 0 <= Occupancy(currentPassengers, maxCapacity) <= 100
  {
    var r, d := Occupancy(currentPassengers, maxCapacity), 2 * maxCapacity;
    if r > 100 {
      assert d * r >= d * 101 by { MulMonotone(d, 101, r); }
    }
  }

  /** An empty bus is at 0 percent and a full one at 100. */
  lemma OccupancyEnds(maxCapacity: int)
    requires maxCapacity >= 1
    ensures Occupancy(0, maxCapacity) == 0
    ensures Occupancy(maxCapacity, maxCapacity) == 100
  {
    OccupancyBounds(0, maxCapacity);
    OccupancyBounds(maxCapacity, maxCapacity);
    var d := 2 * maxCapacity;
    var e, f := Occupancy(0, maxCapacity), Occupancy(maxCapacity, maxCapacity);
    if e >= 1 {
      MulMonotone(d, 1, e);
    }
    if f <= 99 {
      MulMonotone(d, f + 1, 100);
    }
  }

  lemma MulMonotone(a: int, b: int, c: int)
    requires a >= 0 && b <= c
    ensures a * b <= a * c
  {
    assert a * c - a * b == a * (c - b);
  }

  /** The fields of a point the public status shows. */
  datatype PointSummary = PointSummary(id: int, name: string, address: Option<string>)

  /** One entry of `allPoints`: the point with its position and progress on the route. */
  datatype StopView = StopView(point: PointSummary, order: int, isPassed: bool, estimatedTime: Option<int>)

  datatype PublicView = PublicView(
    busNumber: string,
    routeName: string,
    isActive: bool,
    currentPassengers: int,
    maxCapacity: int,
    occupancyPercentage: int,
    currentPoint: Option<PointSummary>,
    nextPoint: Option<PointSummary>,
    allPoints: map<int, StopView>)

  function Summary(p: Point): PointSummary {
    PointSummary(p.id, p.name, p.address)
  }

  function StopOf(l: RoutePoint, points: map<int, Point>): StopView
    requires l.pointId in points
  {
    StopView(Summary(points[l.pointId]), l.order, l.isPassed, l.estimatedTime)
  }

  /** The route with the given bus number, if any; the unique index makes it the only one. */
  function RouteWithBus(routes: map<int, Route>, busNumber: string): (r: Option<int>)
    requires UniqueBusNumbers(routes)
    ensures r.Some? ==> r.value in routes && routes[r.value].busNumber == busNumber
    ensures r.None? <==> forall k | k in routes :: routes[k].busNumber != busNumber
  {
    if exists k | k in routes :: routes[k].busNumber == busNumber then
      var k :| k in routes && routes[k].busNumber == busNumber;
      Some(k)
    else None
  }

  /** `routePoints.find(rp => rp.order === order)` over the links of one route; the
      unique index on route and order makes the link found the only one. */
  function LinkAt(links: map<int, RoutePoint>, routeId: int, order: int): (r: Option<int>)
    requires UniqueOrders(links)
    ensures r.Some? ==> r.value in links && links[r.value].routeId == routeId && links[r.value].order == order
    ensures r.None? <==> forall l | l in links :: !(links[l].routeId == routeId && links[l].order == order)
  {
    if exists l | l in links :: links[l].routeId == routeId && links[l].order == order then
      var l :| l in links && links[l].routeId == routeId && links[l].order == order;
      Some(l)
    else None
  }

  /** The point at position `order` of route `routeId`, or nothing when no link has it. */
  function PointAt(links: map<int, RoutePoint>, points: map<int, Point>, routeId: int, order: int): (r: Option<PointSummary>)
    requires UniqueOrders(links)
    requires forall l | l in links :: links[l].pointId in points
    ensures r.None? <==> forall l | l in links :: !(links[l].routeId == routeId && links[l].order == order)
    ensures forall l | l in links && links[l].routeId == routeId && links[l].order == order ::
              r == Some(Summary(points[links[l].pointId]))
  {
    var l := LinkAt(links, routeId, order);
    if l.Some? then Some(Summary(points[links[l.value].pointId])) else None
  }

  /** `getPublicRouteStatus`: an unknown bus number answers 404; otherwise the route's
      public fields, its occupancy, the points at its current and next positions, and
      one entry per link of the route. Nothing is written. */
  function PublicStatus(routes: map<int, Route>, links: map<int, RoutePoint>, points: map<int, Point>,
                        busNumber: string): (r: Outcome<PublicView>)
    requires UniqueBusNumbers(routes) && UniqueOrders(links)
    requires forall k | k in routes :: routes[k].maxCapacity >= 1
    requires forall l | l in links :: links[l].pointId in points
    ensures r.Err? <==> forall k | k in routes :: routes[k].busNumber != busNumber
    ensures r.Err? ==> r.error == BusNotFound
    ensures forall k | k in routes && routes[k].busNumber == busNumber ::
              r.Ok? && Describes(r.value, k, routes[k], links, points)
  {
    match RouteWithBus(routes, busNumber)
    case None => Err(BusNotFound)
    case Some(k) =>
      var route := routes[k];
      Ok(PublicView(
        route.busNumber, route.name, route.isActive, route.currentPassengers, route.maxCapacity,
        Occupancy(route.currentPassengers, route.maxCapacity),
        PointAt(links, points, k, route.currentPointIndex),
        PointAt(links, points, k, route.currentPointIndex + 1),
        map l | l in links && links[l].routeId == k :: StopOf(links[l], points)))
  }

  /** `v` is the public view of route `route`, filed under `routeId`. */
  predicate Describes(v: PublicView, routeId: int, route: Route, links: map<int, RoutePoint>, points: map<int, Point>)
    requires route.maxCapacity >= 1
    requires forall l | l in links :: links[l].pointId in points
  {
    && v.busNumber == route.busNumber && v.routeName == route.name && v.isActive == route.isActive
    && v.currentPassengers == route.currentPassengers && v.maxCapacity == route.maxCapacity
    && v.occupancyPercentage == Occupancy(route.currentPassengers, route.maxCapacity)
    && (v.currentPoint.None? <==>
          forall l | l in links :: !(links[l].routeId == routeId && links[l].order == route.currentPointIndex))
    && (forall l | l in links && links[l].routeId == routeId && links[l].order == route.currentPointIndex ::
          v.currentPoint == Some(Summary(points[links[l].pointId])))
    && (v.nextPoint.None? <==>
          forall l | l in links :: !(links[l].routeId == routeId && links[l].order == route.currentPointIndex + 1))
    && (forall l | l in links && links[l].routeId == routeId && links[l].order == route.currentPointIndex + 1 ::
          v.nextPoint == Some(Summary(points[links[l].pointId])))
    && v.allPoints.Keys == (set l | l in links && links[l].routeId == routeId)
    && (forall l | l in v.allPoints :: l in links && v.allPoints[l] == StopOf(links[l], points))
  }
}

/** The decisions of the waypoint handlers: where a point goes on a route, which link a
    removal finds, and which fields an update writes. `Store.Store` applies them. */
module PointLogic {
  import opened Outcomes
  import opened Records

  // ---------------------------------------------------------------- the next free order

  /** The orders already used on route `routeId`. */
  function OrdersOn(links: map<int, RoutePoint>, routeId: int): set<int> {
    set l | l in links && links[l].routeId == routeId :: links[l].order
  }

  /** A non-empty set of whole numbers has a largest element. */
  lemma {:induction false} MaxExists(s: set<int>)
    requires s != {}
    ensures exists m :: m in s && forall x | x in s :: x <= m
  {
    if forall y :: y !in s {
      assert false;
    }
    var y :| y in s;
    if s - {y} == {} {
      assert s == {y};
    } else {
      MaxExists(s - {y});
      var m :| m in s - {y} && forall x | x in s - {y} :: x <= m;
      var top := if y <= m then m else y;
      forall x | x in s
        ensures x <= top
      {
        if x != y {
          assert x in s - {y};
        }
      }
    }
  }

  /** The largest element of a non-empty set. */
  function MaxOf(s: set<int>): (m: int)
    requires s != {}
    ensures m in s && forall x | x in s :: x <= m
  {
    MaxExists(s);
    var m :| m in s && forall x | x in s :: x <= m;
    m
  }

  /** `RoutePoint.max('order', { where: { routeId } })`: `None` when the route has no links. */
  function MaxOrder(links: map<int, RoutePoint>, routeId: int): (r: Option<int>)
    ensures r.None? <==> OrdersOn(links, routeId) == {}
    ensures r.Some? ==> r.value in OrdersOn(links, routeId)
                        && forall o | o in OrdersOn(links, routeId) :: o <= r.value
  {
    var orders := OrdersOn(links, routeId);
    if orders == {} then None else Some(MaxOf(orders))
  }

  /** The order the handler picks when the body leaves it out, as the code computes it:
      `(maxOrder || -1) + 1`, where a largest order of 0 is falsy and counts as none. */
  function NextOrderAsWritten(links: map<int, RoutePoint>, routeId: int): (r: int)
    ensures MaxOrder(links, routeId).Some? && MaxOrder(links, routeId).value != 0
            ==> r == MaxOrder(links, routeId).value + 1
    ensures MaxOrder(links, routeId).None? || MaxOrder(links, routeId).value == 0 ==> r == 0
  {
    var m := MaxOrder(links, routeId);
    (if m.None? || m.value == 0 then -1 else m.value) + 1
  }

  /** A route whose only link has order 0 gets a second link of order 0 when the order is
      left out, and the unique index on route and order refuses it. */
  lemma NextOrderAsWrittenCollides()
    ensures var links := map[1 := RoutePoint(1, 7, 3, 0, None, false)];
            && NextOrderAsWritten(links, 7) == 0
            && NextOrderAsWritten(links, 7) in OrdersOn(links, 7)
            && !UniqueOrders(links[2 := NewLink(2, 7, 4, NextOrderAsWritten(links, 7), None)])
  {
    var links := map[1 := RoutePoint(1, 7, 3, 0, None, false)];
    assert OrdersOn(links, 7) == {0} by {
      assert links[1].order == 0;
    }
    var added := links[2 := NewLink(2, 7, 4, 0, None)];
    assert added[1].routeId == added[2].routeId && added[1].order == added[2].order;
  }

  /** The as-written order clashes with an existing one exactly when the route's largest
      order is 0; in every other case it is one past every existing order. */
  lemma NextOrderAsWrittenClashes(links: map<int, RoutePoint>, routeId: int)
    requires forall l | l in links :: links[l].order >= 0
    ensures NextOrderAsWritten(links, routeId) in OrdersOn(links, routeId)
            <==> MaxOrder(links, routeId) == Some(0)
  {
    var m := MaxOrder(links, routeId);
    if m.Some? && m.value != 0 {
      assert m.value > 0 by {
        var l :| l in links && links[l].routeId == routeId && links[l].order == m.value;
      }
    }
  }

  /** The order the handler means to pick when the body leaves it out: one past the
      route's largest order, or 0 on a route without links. */
  function NextOrder(links: map<int, RoutePoint>, routeId: int): (r: int)
    ensures r !in OrdersOn(links, routeId)
    ensures forall o | o in OrdersOn(links, routeId) :: o < r
    ensures OrdersOn(links, routeId) == {} ==> r == 0
  {
    var m := MaxOrder(links, routeId);
    if m.None? then 0 else m.value + 1
  }

  /** The intended order is never negative on a table whose orders are not. */
  lemma NextOrderNonNegative(links: map<int, RoutePoint>, routeId: int)
    requires forall l | l in links :: links[l].order >= 0
    ensures NextOrder(links, routeId) >= 0
  {
    var m := MaxOrder(links, routeId);
    if m.Some? {
      var l :| l in links && links[l].routeId == routeId && links[l].order == m.value;
    }
  }

  /** The code and the intended rule agree on every route except one whose largest order is 0. */
  lemma NextOrderAgrees(links: map<int, RoutePoint>, routeId: int)
    ensures NextOrderAsWritten(links, routeId) == NextOrder(links, routeId)
            <==> MaxOrder(links, routeId) != Some(0)
  {
  }

  // ---------------------------------------------------------------- adding a point to a route

  /** The order a new link gets: the body's when it carries one, else the next free one. */
  function FinalOrder(links: map<int, RoutePoint>, routeId: int, order: Option<int>): int {
    if order.Some? then order.value else NextOrder(links, routeId)
  }

  /** The link `addPointToRoute` creates under the fresh id `id`, or why it answers with
      an error: an unknown route (404), an unknown point (404), a point already on the
      route (400), an explicit order already used on the route (400), then a record the
      constraints refuse. A left-out order is the next free one. */
  function AddPointOutcome(routes: map<int, Route>, points: map<int, Point>, links: map<int, RoutePoint>,
                           id: int, routeId: Option<int>, pointId: Option<int>, order: Option<int>,
                           estimatedTime: Option<int>): (r: Outcome<RoutePoint>)
    ensures routeId.None? || routeId.value !in routes ==> r == Err(RouteNotFound)
    ensures routeId.Some? && routeId.value in routes && (pointId.None? || pointId.value !in points)
            ==> r == Err(PointNotFound)
    ensures r.Err? && r.error == AlreadyOnRoute <==>
              && routeId.Some? && routeId.value in routes && pointId.Some? && pointId.value in points
              && exists l | l in links :: links[l].routeId == routeId.value && links[l].pointId == pointId.value
    ensures && routeId.Some? && routeId.value in routes && pointId.Some? && pointId.value in points
            && (forall l | l in links :: !(links[l].routeId == routeId.value && links[l].pointId == pointId.value))
            && order.Some? && order.value in OrdersOn(links, routeId.value)
            ==> r == Err(OrderInUse)
    ensures r.Ok? <==>
              && routeId.Some? && routeId.value in routes && pointId.Some? && pointId.value in points
              && (forall l | l in links :: !(links[l].routeId == routeId.value && links[l].pointId == pointId.value))
              && (order.Some? ==> order.value !in OrdersOn(links, routeId.value))
              && LinkAccepted(NewLink(id, routeId.value, pointId.value, FinalOrder(links, routeId.value, order),
                                      estimatedTime))
    ensures r.Ok? ==> && r.value == NewLink(id, routeId.value, pointId.value,
                                            FinalOrder(links, routeId.value, order), estimatedTime)
                      && !r.value.isPassed
                      && (forall l | l in links :: links[l].routeId == r.value.routeId ==>
                                                   links[l].pointId != r.value.pointId && links[l].order != r.value.order)
  {
    if routeId.None? || routeId.value !in routes then Err(RouteNotFound)
    else if pointId.None? || pointId.value !in points then Err(PointNotFound)
    else if exists l | l in links :: links[l].routeId == routeId.value && links[l].pointId == pointId.value then
      Err(AlreadyOnRoute)
    else if order.Some? && order.value in OrdersOn(links, routeId.value) then Err(OrderInUse)
    else
      var link := NewLink(id, routeId.value, pointId.value, FinalOrder(links, routeId.value, order), estimatedTime);
      if !LinkAccepted(link) then Err(RecordRejected) else Ok(link)
  }

  /** `addPointToRoute` as the code computes it: a left-out order is `NextOrderAsWritten`,
      and a link whose order is already used on the route is refused by the unique index
      on route and order, which the handler answers with 500. */
  function AddPointOutcomeAsWritten(routes: map<int, Route>, points: map<int, Point>, links: map<int, RoutePoint>,
                                    id: int, routeId: Option<int>, pointId: Option<int>, order: Option<int>,
                                    estimatedTime: Option<int>): (r: Outcome<RoutePoint>)
    ensures r.Ok? ==> && routeId.Some? && r.value.routeId == routeId.value
                      && r.value.order !in OrdersOn(links, routeId.value)
                      && (order.None? ==> r.value.order == NextOrderAsWritten(links, routeId.value))
  {
    if routeId.None? || routeId.value !in routes then Err(RouteNotFound)
    else if pointId.None? || pointId.value !in points then Err(PointNotFound)
    else if exists l | l in links :: links[l].routeId == routeId.value && links[l].pointId == pointId.value then
      Err(AlreadyOnRoute)
    else if order.Some? && order.value in OrdersOn(links, routeId.value) then Err(OrderInUse)
    else
      var final := if order.Some? then order.value else NextOrderAsWritten(links, routeId.value);
      var link := NewLink(id, routeId.value, pointId.value, final, estimatedTime);
      if !LinkAccepted(link) || final in OrdersOn(links, routeId.value) then Err(RecordRejected) else Ok(link)
  }

  /** The code and the intended rule answer alike, except on a route whose largest order
      is 0 when the body leaves the order out: there the code answers 500. */
  lemma AddPointAsWrittenDiffers(routes: map<int, Route>, points: map<int, Point>, links: map<int, RoutePoint>,
                                 id: int, routeId: Option<int>, pointId: Option<int>, order: Option<int>,
                                 estimatedTime: Option<int>)
    ensures AddPointOutcomeAsWritten(routes, points, links, id, routeId, pointId, order, estimatedTime)
            != AddPointOutcome(routes, points, links, id, routeId, pointId, order, estimatedTime)
            ==> routeId.Some? && order.None? && MaxOrder(links, routeId.value) == Some(0)
    ensures && routeId.Some? && routeId.value in routes && pointId.Some? && pointId.value in points
            && (forall l | l in links :: !(links[l].routeId == routeId.value && links[l].pointId == pointId.value))
            && order.None? && MaxOrder(links, routeId.value) == Some(0)
            ==> AddPointOutcomeAsWritten(routes, points, links, id, routeId, pointId, order, estimatedTime)
                == Err(RecordRejected)
  {
    if routeId.Some? {
      NextOrderAgrees(links, routeId.value);
    }
  }

  /** A link the handler creates under a fresh id keeps every table constraint. */
  lemma AddPointKeepsLinksConsistent(routes: map<int, Route>, points: map<int, Point>, links: map<int, RoutePoint>,
                                     id: int, routeId: Option<int>, pointId: Option<int>, order: Option<int>,
                                     estimatedTime: Option<int>)
    requires LinksConsistent(routes, points, links) && id !in links
    requires AddPointOutcome(routes, points, links, id, routeId, pointId, order, estimatedTime).Ok?
    ensures LinksConsistent(routes, points,
                            links[id := AddPointOutcome(routes, points, links, id, routeId, pointId, order, estimatedTime).value])
  {
    var link := AddPointOutcome(routes, points, links, id, routeId, pointId, order, estimatedTime).value;
    var added := links[id := link];
    forall a, b | a in added && b in added && added[a].routeId == added[b].routeId && added[a].order == added[b].order
      ensures a == b
    {
      if a != id && b != id {
        assert links[a].routeId == links[b].routeId && links[a].order == links[b].order;
      }
    }
    forall a, b | a in added && b in added && added[a].routeId == added[b].routeId && added[a].pointId == added[b].pointId
      ensures a == b
    {
      if a != id && b != id {
        assert links[a].routeId == links[b].routeId && links[a].pointId == links[b].pointId;
      }
    }
  }

  // ---------------------------------------------------------------- removing a point from a route

  /** The link joining `routeId` to `pointId`, if any; the unique index on the pair makes
      it the only one. */
  function LinkOf(links: map<int, RoutePoint>, routeId: int, pointId: int): (r: Option<int>)
    requires UniquePairs(links)
    ensures r.Some? ==> r.value in links && links[r.value].routeId == routeId && links[r.value].pointId == pointId
    ensures r.None? <==> forall l | l in links :: !(links[l].routeId == routeId && links[l].pointId == pointId)
  {
    if exists l | l in links :: links[l].routeId == routeId && links[l].pointId == pointId then
      var l :| l in links && links[l].routeId == routeId && links[l].pointId == pointId;
      Some(l)
    else None
  }

  // ---------------------------------------------------------------- updating a point

  /** The fields an update body supplies; `None` is a field the body leaves out, and
      `Some(None)` a nullable field it sets to `null`. */
  datatype PointPatch = PointPatch(
    name: Option<string>,
    description: Option<Option<string>>,
    latitude: Option<Option<int>>,
    longitude: Option<Option<int>>,
    address: Option<Option<string>>,
    isActive: Option<bool>)

  /** The point with the supplied fields of the patch written over it; the id never changes. */
  function PatchedPoint(p: Point, patch: PointPatch): (out: Point)
    ensures out.id == p.id
    ensures out.name == (if patch.name.Some? then patch.name.value else p.name)
    ensures out.description == (if patch.description.Some? then patch.description.value else p.description)
    ensures out.latitude == (if patch.latitude.Some? then patch.latitude.value else p.latitude)
    ensures out.longitude == (if patch.longitude.Some? then patch.longitude.value else p.longitude)
    ensures out.address == (if patch.address.Some? then patch.address.value else p.address)
    ensures out.isActive == (if patch.isActive.Some? then patch.isActive.value else p.isActive)
  {
    Point(p.id,
          if patch.name.Some? then patch.name.value else p.name,
          if patch.description.Some? then patch.description.value else p.description,
          if patch.latitude.Some? then patch.latitude.value else p.latitude,
          if patch.longitude.Some? then patch.longitude.value else p.longitude,
          if patch.address.Some? then patch.address.value else p.address,
          if patch.isActive.Some? then patch.isActive.value else p.isActive)
  }

  /** An empty patch leaves a point as it was, and a patch written twice is written once. */
  lemma PatchedPointLaws(p: Point, patch: PointPatch)
    ensures PatchedPoint(p, PointPatch(None, None, None, None, None, None)) == p
    ensures PatchedPoint(PatchedPoint(p, patch), patch) == PatchedPoint(p, patch)
  {
  }
}

/** The authentication and authorization middleware: who the caller is, and whether
    the caller may go on. Each guard is a read-only decision with early returns. */
module Guards {
  import opened Outcomes
  import opened Records
  import opened Jwt

  /** The decision part of `authenticate`. `verify` stands for the token library's
      verification: the user id in a valid token's payload, or `None` when it refuses
      the token. The user returned is the one the middleware stores as the caller. */
  function Authenticate(header: Option<string>, verify: string -> Option<int>,
                        users: map<int, User>): (r: Outcome<User>)
    ensures header.None? || header == Some("") || header == Some(Scheme + " ")
            ==> r == Err(TokenRequired)
    ensures r.Ok? ==> exists t :: ExtractToken(header) == Some(t) && t != ""
                                   && verify(t).Some? && verify(t).value in users
                                   && users[verify(t).value] == r.value
    ensures r.Ok? ==> r.value.isActive
    ensures r.Err? ==> r.error.Code() == 401
    ensures forall t | ExtractToken(header) == Some(t) && t != "" && verify(t).Some? && verify(t).value in users
                       && users[verify(t).value].isActive :: r == Ok(users[verify(t).value])
    ensures forall t | ExtractToken(header) == Some(t) && t != "" && verify(t).None? :: r == Err(InvalidToken)
    ensures forall t | ExtractToken(header) == Some(t) && t != "" && verify(t).Some?
                       && (verify(t).value !in users || !users[verify(t).value].isActive) :: r == Err(UserNotFoundOrInactive)
  {
    assert Scheme + " " + "" == Scheme + " ";
    ExtractTokenExactly(Some(Scheme + " "), "");
    match ExtractToken(header)
    case None => Err(TokenRequired)
    case Some(token) =>
      if token == "" then Err(TokenRequired)
      else
        match verify(token)
        case None => Err(InvalidToken)
        case Some(id) =>
          if id !in users || !users[id].isActive then Err(UserNotFoundOrInactive)
          else Ok(users[id])
  }

  /** `requireAdmin`: 401 without a caller, 403 unless the caller is an admin. */
  function RequireAdmin(user: Option<User>): (r: Step)
    ensures r == Next <==> user.Some? && user.value.role == Admin
    ensures user.None? ==> r == Reject(AuthenticationRequired)
    ensures user.Some? && user.value.role != Admin ==> r == Reject(AdminOnly)
  {
    if user.None? then Reject(AuthenticationRequired)
    else if user.value.role != Admin then Reject(AdminOnly)
    else Next
  }

  /** `requireDriver`: 401 without a caller, 403 unless the caller is a driver. */
  function RequireDriver(user: Option<User>): (r: Step)
    ensures r == Next <==> user.Some? && user.value.role == Driver
    ensures user.None? ==> r == Reject(AuthenticationRequired)
    ensures user.Some? && user.value.role != Driver ==> r == Reject(DriverOnly)
  {
    if user.None? then Reject(AuthenticationRequired)
    else if user.value.role != Driver then Reject(DriverOnly)
    else Next
  }

  /** `req.params.id || req.body.routeId`: a path parameter is a non-empty string and so
      always wins; a body id of 0 is falsy and counts as missing. */
  function RequestedRouteId(pathId: Option<int>, bodyRouteId: Option<int>): Option<int> {
    if pathId.Some? then pathId
    else if bodyRouteId.Some? && bodyRouteId.value != 0 then bodyRouteId
    else None
  }

  /** The caller drives the route: the route exists and names the caller as its driver. */
  predicate Owns(user: User, routeId: int, routes: map<int, Route>) {
    routeId in routes && routes[routeId].driverId == Some(user.id)
  }

  /** `requireRouteOwnerOrAdmin`. */
  function RequireRouteOwnerOrAdmin(user: Option<User>, pathId: Option<int>, bodyRouteId: Option<int>,
                                    routes: map<int, Route>): (r: Step)
    ensures user.None? ==> r == Reject(AuthenticationRequired)
    ensures user.Some? && user.value.role == Admin ==> r == Next
    ensures user.Some? && user.value.role != Admin ==>
              var id := RequestedRouteId(pathId, bodyRouteId);
              && (id.None? ==> r == Reject(RouteIdRequired))
              && (id.Some? && id.value !in routes ==> r == Reject(RouteNotFound))
              && (id.Some? && id.value in routes && !Owns(user.value, id.value, routes) ==>
                    r == Reject(NotRouteOwner))
    ensures r == Next <==> user.Some? && (user.value.role == Admin
                                           || (RequestedRouteId(pathId, bodyRouteId).Some?
                                               && Owns(user.value, RequestedRouteId(pathId, bodyRouteId).value, routes)))
  {
    if user.None? then Reject(AuthenticationRequired)
    else if user.value.role == Admin then Next
    else
      var routeId := RequestedRouteId(pathId, bodyRouteId);
      if routeId.None? then Reject(RouteIdRequired)
      else if routeId.value !in routes then Reject(RouteNotFound)
      else if routes[routeId.value].driverId != Some(user.value.id) then Reject(NotRouteOwner)
      else Next
  }

  /** A route without a driver turns away every caller who is not an admin. */
  lemma UnassignedRouteDeniesDrivers(user: User, routeId: int, routes: map<int, Route>)
    requires routeId in routes && routes[routeId].driverId.None?
    requires user.role != Admin
    ensures RequireRouteOwnerOrAdmin(Some(user), Some(routeId), None, routes) == Reject(NotRouteOwner)
  {
  }

}

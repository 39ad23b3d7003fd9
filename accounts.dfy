/** The decisions of the account handlers: registration, login, promotion to admin and
    the profile of the caller. Password hashing and comparison belong to the hashing
    library and are parameters here. */
module Accounts {
  import opened Outcomes
  import opened JsValues
  import opened Records
  import opened Guards

  /** The role of a new account: admin exactly when the body carries a non-empty key
      equal to the configured one (`None` when no key is configured). */
  function RoleFor(adminKey: Option<string>, configured: Option<string>): (r: Role)
    ensures r == Admin <==> Given(adminKey) && adminKey == configured
    ensures !Given(adminKey) ==> r == DefaultRole
  {
    if Given(adminKey) && adminKey == configured then Admin else DefaultRole
  }

  /** The account with the given e-mail address, if any; the unique index makes it the only one. */
  function UserWithEmail(users: map<int, User>, email: string): (r: Option<int>)
    requires UniqueEmails(users)
    ensures r.Some? ==> r.value in users && users[r.value].email == email
    ensures r.None? <==> forall k | k in users :: users[k].email != email
  {
    if exists k | k in users :: users[k].email == email then
      var k :| k in users && users[k].email == email;
      Some(k)
    else None
  }

  /** The account `register` creates under the fresh id `id`, or why it answers with an
      error: an e-mail address in use (400), then a name or password outside the record's
      bounds. `hash` stands for the hashing the record's creation hook applies. */
  function RegisterOutcome(users: map<int, User>, id: int, name: string, email: string, password: string,
                           adminKey: Option<string>, configured: Option<string>,
                           hash: string -> string): (r: Outcome<User>)
    ensures (exists k | k in users :: users[k].email == email) ==> r == Err(EmailInUse)
    ensures r.Ok? <==> (forall k | k in users :: users[k].email != email) && UserAccepted(name, password)
    ensures r.Ok? ==> && r.value == NewUser(id, name, email, hash(password), RoleFor(adminKey, configured))
                      && r.value.isActive
                      && (r.value.role == Admin <==> Given(adminKey) && adminKey == configured)
    ensures r.Err? ==> r.error in {EmailInUse, RecordRejected}
  {
    if exists k | k in users :: users[k].email == email then Err(EmailInUse)
    else if !UserAccepted(name, password) then Err(RecordRejected)
    else Ok(NewUser(id, name, email, hash(password), RoleFor(adminKey, configured)))
  }

  /** `login`: an unknown address (401), then a disabled account (401), checked before
      the password, then a wrong password (401). `matches(password, hash)` stands for the
      hashing library's comparison. Nothing is written. */
  function Login(users: map<int, User>, email: string, password: string,
                 matches: (string, string) -> bool): (r: Outcome<User>)
    requires UniqueEmails(users)
    ensures (forall k | k in users :: users[k].email != email) ==> r == Err(InvalidCredentials)
    ensures forall k | k in users && users[k].email == email && !users[k].isActive :: r == Err(AccountDisabled)
    ensures forall k | k in users && users[k].email == email && users[k].isActive && !matches(password, users[k].password) ::
              r == Err(InvalidCredentials)
    ensures r.Ok? <==> exists k | k in users :: && users[k].email == email && users[k].isActive
                                                && matches(password, users[k].password) && r == Ok(users[k])
  {
    match UserWithEmail(users, email)
    case None => Err(InvalidCredentials)
    case Some(k) =>
      if !users[k].isActive then Err(AccountDisabled)
      else if !matches(password, users[k].password) then Err(InvalidCredentials)
      else Ok(users[k])
  }

  /** The account `promoteToAdmin` writes back, or why it answers with an error: a key
      other than the configured one (403), then an unknown user (404). Only the role changes. */
  function PromoteOutcome(users: map<int, User>, userId: Option<int>, adminKey: Option<string>,
                          configured: Option<string>): (r: Outcome<User>)
    ensures adminKey != configured ==> r == Err(InvalidAdminKey)
    ensures adminKey == configured && (userId.None? || userId.value !in users) ==> r == Err(UserNotFound)
    ensures r.Ok? <==> adminKey == configured && userId.Some? && userId.value in users
    ensures r.Ok? ==> r.value == users[userId.value].(role := Admin)
  {
    if adminKey != configured then Err(InvalidAdminKey)
    else if userId.None? || userId.value !in users then Err(UserNotFound)
    else Ok(users[userId.value].(role := Admin))
  }

  /** Promoting an account that was just promoted succeeds and writes the same record. */
  lemma PromoteIdempotent(users: map<int, User>, userId: Option<int>, adminKey: Option<string>,
                          configured: Option<string>)
    requires PromoteOutcome(users, userId, adminKey, configured).Ok?
    ensures var promoted := users[userId.value := PromoteOutcome(users, userId, adminKey, configured).value];
            && PromoteOutcome(promoted, userId, adminKey, configured)
               == PromoteOutcome(users, userId, adminKey, configured)
            && promoted[userId.value := PromoteOutcome(promoted, userId, adminKey, configured).value] == promoted
  {
  }

  /** The `profile` endpoint: authentication, then the caller's record as it is sent,
      without its password. */
  function Profile(header: Option<string>, verify: string -> Option<int>, users: map<int, User>)
    : (r: Outcome<map<string, Value>>)
    ensures r.Ok? <==> Authenticate(header, verify, users).Ok?
    ensures r.Err? ==> r.error.Code() == 401
    ensures r.Ok? ==> && "password" !in r.value
                      && exists k | k in users :: && users[k] == Authenticate(header, verify, users).value
                                                  && users[k].isActive
                                                  && r.value.Keys == Attributes(users[k]).Keys - {"password"}
                                                  && forall f | f in r.value :: r.value[f] == Attributes(users[k])[f]
  {
    match Authenticate(header, verify, users)
    case Err(e) => Err(e)
    case Ok(user) => Ok(ToJson(user))
  }
}

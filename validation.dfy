/** The input-validation middleware. Each validator runs every one of its checks,
    pushes one problem per failing check onto an error list, and passes the request on
    exactly when the list stays empty (400 otherwise). */
module Validation {
  import opened Outcomes
  import opened JsText
  import opened JsValues

  // ---------------------------------------------------------------- request bodies

  datatype RegistrationBody = RegistrationBody(
    name: Option<string>, email: Option<string>, password: Option<string>, adminKey: Option<string>)

  datatype LoginBody = LoginBody(email: Option<string>, password: Option<string>)

  datatype RouteBody = RouteBody(
    name: Option<string>, busNumber: Option<string>, description: Option<string>,
    maxCapacity: Value, driverId: Option<int>)

  datatype PointBody = PointBody(
    name: Option<string>, description: Option<string>, latitude: Value, longitude: Value,
    address: Option<string>)

  /** The body of a status update; `routeId` is the optional body field the ownership
      guard falls back on when the path carries no route id. */
  datatype StatusBody = StatusBody(
    currentPassengers: Value, isActive: Value, currentPointIndex: Value, routeId: Option<int>)

  // ---------------------------------------------------------------- collecting problems

  /** The answer to a finished error list. */
  function Verdict(errors: seq<Problem>): Step {
    if errors == [] then Next else Reject(InvalidData(errors))
  }

  /** The problems of the failing checks, in the order the checks are listed. */
  function Failing(checks: seq<(Problem, bool)>): (r: seq<Problem>)
    ensures |r| <= |checks|
    ensures forall p :: p in r <==> (p, true) in checks
  {
    if checks == [] then []
    else (if checks[0].1 then [checks[0].0] else []) + Failing(checks[1..])
  }

  /** The error list after one more check: its problem is appended when the check fails. */
  function Push(errors: seq<Problem>, check: (Problem, bool)): seq<Problem> {
    if check.1 then errors + [check.0] else errors
  }

  /** The problems of three checks, collected one after the other. */
  lemma FailingPushed(x: (Problem, bool), y: (Problem, bool), z: (Problem, bool))
    ensures Failing([x, y, z]) == Push(Push(Push([], x), y), z)
  {
    FailingOfThree(x, y, z);
  }

  /** The checks of a three-check validator, spelled out. */
  lemma FailingOfThree(x: (Problem, bool), y: (Problem, bool), z: (Problem, bool))
    ensures Failing([x, y, z])
         == (if x.1 then [x.0] else []) + (if y.1 then [y.0] else []) + (if z.1 then [z.0] else [])
  {
    assert [x, y, z][1..] == [y, z];
    assert [y, z][1..] == [z];
    assert [z][1..] == [];
    assert Failing([z]) == (if z.1 then [z.0] else []);
    assert Failing([y, z]) == (if y.1 then [y.0] else []) + Failing([z]);
  }

  /** The checks of a two-check validator, spelled out. */
  lemma FailingOfTwo(x: (Problem, bool), y: (Problem, bool))
    ensures Failing([x, y]) == Push(Push([], x), y)
  {
    assert [x, y][1..] == [y];
    assert [y][1..] == [];
    assert Failing([y]) == (if y.1 then [y.0] else []);
  }

  /** A request passes exactly when none of its checks fails. */
  lemma {:induction false} VerdictPasses(checks: seq<(Problem, bool)>)
    ensures Verdict(Failing(checks)) == Next <==> forall i | 0 <= i < |checks| :: !checks[i].1
  {
    if checks != [] {
      VerdictPasses(checks[1..]);
      assert forall i | 1 <= i < |checks| :: checks[i] == checks[1..][i - 1];
    }
  }

  // ---------------------------------------------------------------- the checks

  /** A name missing, empty, or shorter than 2 characters once trimmed. */
  predicate ShortName(name: Option<string>) {
    !Given(name) || |Trim(name.value)| < 2
  }

  predicate BadEmail(email: Option<string>) {
    !Given(email) || !IsValidEmail(email.value)
  }

  predicate ShortPassword(password: Option<string>) {
    !Given(password) || |password.value| < 6
  }

  predicate MissingBusNumber(busNumber: Option<string>) {
    !Given(busNumber) || |Trim(busNumber.value)| < 1
  }

  /** A capacity is checked only when it is truthy, so 0 is never reported. */
  predicate BadCapacity(maxCapacity: Value) {
    Truthy(maxCapacity) && (IsNaN(maxCapacity) || LessThan(maxCapacity, 1))
  }

  /** A coordinate is checked only when it is truthy. */
  predicate OutOfRange(v: Value, bound: int) {
    Truthy(v) && (IsNaN(v) || LessThan(v, -bound) || GreaterThan(v, bound))
  }

  /** A count that is present but not a number at least 0. */
  predicate BadCount(v: Value) {
    v != Absent && (IsNaN(v) || LessThan(v, 0))
  }

  predicate NotBoolean(v: Value) {
    v != Absent && !v.Bool?
  }

  // ---------------------------------------------------------------- validators

  /** The registration verdict lets a body through exactly when it meets the account's input rules. */
  lemma RegistrationVerdict(body: RegistrationBody)
    ensures Verdict(Failing([(UserNameTooShort, ShortName(body.name)),
                             (EmailInvalid, BadEmail(body.email)),
                             (PasswordTooShort, ShortPassword(body.password))])) == Next
            <==> && body.name.Some? && |Trim(body.name.value)| >= 2
                 && body.email.Some? && IsValidEmail(body.email.value)
                 && body.password.Some? && |body.password.value| >= 6
  {
    FailingOfThree((UserNameTooShort, ShortName(body.name)), (EmailInvalid, BadEmail(body.email)),
                   (PasswordTooShort, ShortPassword(body.password)));
  }

  /** `validateUserRegistration`. */
  method ValidateUserRegistration(body: RegistrationBody) returns (r: Step)
    ensures r == Verdict(Failing([(UserNameTooShort, ShortName(body.name)),
                                  (EmailInvalid, BadEmail(body.email)),
                                  (PasswordTooShort, ShortPassword(body.password))]))
    ensures r == Next <==> && body.name.Some? && |Trim(body.name.value)| >= 2
                           && body.email.Some? && IsValidEmail(body.email.value)
                           && body.password.Some? && |body.password.value| >= 6
  {
    var shortName := ShortName(body.name);
    var badEmail := BadEmail(body.email);
    var shortPassword := ShortPassword(body.password);
    var errors: seq<Problem> := [];
    if shortName {
      errors := errors + [UserNameTooShort];
    }
    if badEmail {
      errors := errors + [EmailInvalid];
    }
    if shortPassword {
      errors := errors + [PasswordTooShort];
    }
    FailingPushed((UserNameTooShort, shortName), (EmailInvalid, badEmail), (PasswordTooShort, shortPassword));
    RegistrationVerdict(body);
    if |errors| > 0 {
      return Reject(InvalidData(errors));
    }
    return Next;
  }

  /** The login verdict lets a body through exactly when it has a valid address and a password. */
  lemma LoginVerdict(body: LoginBody)
    ensures Verdict(Failing([(EmailInvalid, BadEmail(body.email)), (PasswordRequired, !Given(body.password))])) == Next
            <==> body.email.Some? && IsValidEmail(body.email.value) && Given(body.password)
  {
    FailingOfTwo((EmailInvalid, BadEmail(body.email)), (PasswordRequired, !Given(body.password)));
  }

  /** `validateLogin`. */
  method ValidateLogin(body: LoginBody) returns (r: Step)
    ensures r == Verdict(Failing([(EmailInvalid, BadEmail(body.email)),
                                  (PasswordRequired, !Given(body.password))]))
    ensures r == Next <==> && body.email.Some? && IsValidEmail(body.email.value)
                           && Given(body.password)
  {
    var badEmail := BadEmail(body.email);
    var noPassword := !Given(body.password);
    var errors: seq<Problem> := [];
    if badEmail {
      errors := errors + [EmailInvalid];
    }
    if noPassword {
      errors := errors + [PasswordRequired];
    }
    FailingOfTwo((EmailInvalid, badEmail), (PasswordRequired, noPassword));
    LoginVerdict(body);
    if |errors| > 0 {
      return Reject(InvalidData(errors));
    }
    return Next;
  }

  /** The three creation checks pass exactly when the body meets the route's input rules. */
  lemma RouteChecksPass(body: RouteBody)
    ensures !ShortName(body.name) && !MissingBusNumber(body.busNumber) && !BadCapacity(body.maxCapacity)
            <==> && body.name.Some? && |Trim(body.name.value)| >= 2
                 && body.busNumber.Some? && |Trim(body.busNumber.value)| >= 1
                 && (Truthy(body.maxCapacity) ==> ToNumber(body.maxCapacity).Some?
                                                  && ToNumber(body.maxCapacity).value >= 1)
  {
  }

  /** The creation verdict lets a body through exactly when it meets the route's input rules. */
  lemma RouteCreationVerdict(body: RouteBody)
    ensures Verdict(Failing([(RouteNameTooShort, ShortName(body.name)),
                             (BusNumberRequired, MissingBusNumber(body.busNumber)),
                             (CapacityNotPositive, BadCapacity(body.maxCapacity))])) == Next
            <==> && body.name.Some? && |Trim(body.name.value)| >= 2
                 && body.busNumber.Some? && |Trim(body.busNumber.value)| >= 1
                 && (Truthy(body.maxCapacity) ==> ToNumber(body.maxCapacity).Some?
                                                  && ToNumber(body.maxCapacity).value >= 1)
  {
    FailingOfThree((RouteNameTooShort, ShortName(body.name)), (BusNumberRequired, MissingBusNumber(body.busNumber)),
                   (CapacityNotPositive, BadCapacity(body.maxCapacity)));
    RouteChecksPass(body);
  }

  /** `validateRouteCreation`. */
  method ValidateRouteCreation(body: RouteBody) returns (r: Step)
    ensures r == Verdict(Failing([(RouteNameTooShort, ShortName(body.name)),
                                  (BusNumberRequired, MissingBusNumber(body.busNumber)),
                                  (CapacityNotPositive, BadCapacity(body.maxCapacity))]))
    ensures r == Next <==> && body.name.Some? && |Trim(body.name.value)| >= 2
                           && body.busNumber.Some? && |Trim(body.busNumber.value)| >= 1
                           && (Truthy(body.maxCapacity) ==> ToNumber(body.maxCapacity).Some?
                                                            && ToNumber(body.maxCapacity).value >= 1)
  {
    var shortName := ShortName(body.name);
    var missingBus := MissingBusNumber(body.busNumber);
    var badCapacity := BadCapacity(body.maxCapacity);
    var errors: seq<Problem> := [];
    if shortName {
      errors := errors + [RouteNameTooShort];
    }
    if missingBus {
      errors := errors + [BusNumberRequired];
    }
    if badCapacity {
      errors := errors + [CapacityNotPositive];
    }
    FailingPushed((RouteNameTooShort, shortName), (BusNumberRequired, missingBus),
                  (CapacityNotPositive, badCapacity));
    RouteCreationVerdict(body);
    if |errors| > 0 {
      return Reject(InvalidData(errors));
    }
    return Next;
  }

  /** The point verdict lets a body through exactly when its name is long enough and every
      truthy coordinate is a number in range. */
  lemma PointCreationVerdict(body: PointBody)
    ensures Verdict(Failing([(PointNameTooShort, ShortName(body.name)),
                             (LatitudeOutOfRange, OutOfRange(body.latitude, 90)),
                             (LongitudeOutOfRange, OutOfRange(body.longitude, 180))])) == Next
            <==> && body.name.Some? && |Trim(body.name.value)| >= 2
                 && (Truthy(body.latitude) ==>
                       ToNumber(body.latitude).Some? && -90 <= ToNumber(body.latitude).value <= 90)
                 && (Truthy(body.longitude) ==>
                       ToNumber(body.longitude).Some? && -180 <= ToNumber(body.longitude).value <= 180)
  {
    FailingOfThree((PointNameTooShort, ShortName(body.name)), (LatitudeOutOfRange, OutOfRange(body.latitude, 90)),
                   (LongitudeOutOfRange, OutOfRange(body.longitude, 180)));
    CoordinateInRange(body.latitude, 90);
    CoordinateInRange(body.longitude, 180);
  }

  /** A coordinate passes its check exactly when it is falsy or a number within the bound. */
  lemma CoordinateInRange(v: Value, bound: int)
    ensures !OutOfRange(v, bound) <==> (Truthy(v) ==> ToNumber(v).Some? && -bound <= ToNumber(v).value <= bound)
  {
  }

  /** `validatePointCreation`. */
  method ValidatePointCreation(body: PointBody) returns (r: Step)
    ensures r == Verdict(Failing([(PointNameTooShort, ShortName(body.name)),
                                  (LatitudeOutOfRange, OutOfRange(body.latitude, 90)),
                                  (LongitudeOutOfRange, OutOfRange(body.longitude, 180))]))
    ensures r == Next <==> && body.name.Some? && |Trim(body.name.value)| >= 2
                           && (Truthy(body.latitude) ==>
                                 ToNumber(body.latitude).Some? && -90 <= ToNumber(body.latitude).value <= 90)
                           && (Truthy(body.longitude) ==>
                                 ToNumber(body.longitude).Some? && -180 <= ToNumber(body.longitude).value <= 180)
  {
    var shortName := ShortName(body.name);
    var badLatitude := OutOfRange(body.latitude, 90);
    var badLongitude := OutOfRange(body.longitude, 180);
    var errors: seq<Problem> := [];
    if shortName {
      errors := errors + [PointNameTooShort];
    }
    if badLatitude {
      errors := errors + [LatitudeOutOfRange];
    }
    if badLongitude {
      errors := errors + [LongitudeOutOfRange];
    }
    FailingPushed((PointNameTooShort, shortName), (LatitudeOutOfRange, badLatitude),
                  (LongitudeOutOfRange, badLongitude));
    PointCreationVerdict(body);
    if |errors| > 0 {
      return Reject(InvalidData(errors));
    }
    return Next;
  }

  /** The status verdict lets a body through exactly when its present fields are well formed. */
  lemma StatusUpdateVerdict(body: StatusBody)
    ensures Verdict(Failing([(PassengersInvalid, BadCount(body.currentPassengers)),
                             (ActiveNotBoolean, NotBoolean(body.isActive)),
                             (PointIndexInvalid, BadCount(body.currentPointIndex))])) == Next
            <==> StatusFieldsWellFormed(body)
  {
    FailingOfThree((PassengersInvalid, BadCount(body.currentPassengers)), (ActiveNotBoolean, NotBoolean(body.isActive)),
                   (PointIndexInvalid, BadCount(body.currentPointIndex)));
  }

  /** `validateRouteStatusUpdate`: every field is optional, and each present one must be
      well formed. */
  method ValidateRouteStatusUpdate(body: StatusBody) returns (r: Step)
    ensures r == Verdict(Failing([(PassengersInvalid, BadCount(body.currentPassengers)),
                                  (ActiveNotBoolean, NotBoolean(body.isActive)),
                                  (PointIndexInvalid, BadCount(body.currentPointIndex))]))
    ensures r == Next <==> && StatusFieldsWellFormed(body)
  {
    var badPassengers := BadCount(body.currentPassengers);
    var notBoolean := NotBoolean(body.isActive);
    var badIndex := BadCount(body.currentPointIndex);
    var errors: seq<Problem> := [];
    if badPassengers {
      errors := errors + [PassengersInvalid];
    }
    if notBoolean {
      errors := errors + [ActiveNotBoolean];
    }
    if badIndex {
      errors := errors + [PointIndexInvalid];
    }
    FailingPushed((PassengersInvalid, badPassengers), (ActiveNotBoolean, notBoolean), (PointIndexInvalid, badIndex));
    StatusUpdateVerdict(body);
    if |errors| > 0 {
      return Reject(InvalidData(errors));
    }
    return Next;
  }

  /** Each present field of a status body is well formed: the counts are numbers at
      least 0 and the flag is a boolean. Absent fields are never an error. */
  predicate StatusFieldsWellFormed(body: StatusBody) {
    && (body.currentPassengers != Absent ==> ToNumber(body.currentPassengers).Some?
                                              && ToNumber(body.currentPassengers).value >= 0)
    && (body.isActive != Absent ==> body.isActive.Bool?)
    && (body.currentPointIndex != Absent ==> ToNumber(body.currentPointIndex).Some?
                                              && ToNumber(body.currentPointIndex).value >= 0)
  }

  /** `validateAdminKey`: 400 without a key, 403 when it is not the configured one. */
  function ValidateAdminKey(adminKey: Option<string>, configured: Option<string>): (r: Step)
    ensures r == Next <==> Given(adminKey) && adminKey == configured
    ensures !Given(adminKey) ==> r == Reject(AdminKeyRequired)
    ensures Given(adminKey) && adminKey != configured ==> r == Reject(InvalidAdminKey)
  {
    if !Given(adminKey) then Reject(AdminKeyRequired)
    else if adminKey != configured then Reject(InvalidAdminKey)
    else Next
  }

  // ---------------------------------------------------------------- e-mail addresses

  /** A character the pattern's `[^\s@]` accepts. */
  predicate EmailChar(c: char) {
    !IsSpace(c) && c != '@'
  }

  /** The pattern `^[^\s@]+@[^\s@]+\.[^\s@]+$` read literally: a non-empty run, an `@`,
      a non-empty run, a dot, a non-empty run, where no run holds whitespace or `@`. */
  ghost predicate MatchesEmailPattern(s: string) {
    exists at, dot | 0 < at && at + 1 < dot < |s| - 1 ::
      s[at] == '@' && s[dot] == '.' && forall i | 0 <= i < |s| && i != at :: EmailChar(s[i])
  }

  /** A domain with a dot that is neither its first nor its last character. */
  predicate DottedDomain(d: string) {
    |d| >= 3 && '.' in d[1..|d| - 1]
  }

  /** `isValidEmail`: no whitespace, exactly one `@` with a non-empty part before it,
      and a dotted domain after it. */
  predicate IsValidEmail(s: string) {
    NoSpace(s) &&
    var parts := Split(s, '@');
    |parts| == 2 && parts[0] != "" && DottedDomain(parts[1])
  }

  /** Every address `IsValidEmail` accepts matches the pattern. */
  lemma ValidEmailMatches(s: string)
    requires IsValidEmail(s)
    ensures MatchesEmailPattern(s)
  {
    var a, b := Split(s, '@')[0], Split(s, '@')[1];
    SplitInTwo(s, '@', a, b);
    var k :| 0 <= k < |b| - 2 && b[1..|b| - 1][k] == '.';
    var at, dot := |a|, |a| + 2 + k;
    assert s[at] == '@' && s[dot] == '.';
    forall i | 0 <= i < |s| && i != at
      ensures EmailChar(s[i])
    {
      if i < at {
        assert s[i] == a[i];
      } else {
        assert s[i] == b[i - at - 1];
      }
    }
  }

  /** Every string the pattern matches is accepted by `IsValidEmail`. */
  lemma MatchingEmailValid(s: string)
    requires MatchesEmailPattern(s)
    ensures IsValidEmail(s)
  {
    var at, dot :| && 0 < at && at + 1 < dot < |s| - 1 && s[at] == '@' && s[dot] == '.'
                   && forall i | 0 <= i < |s| && i != at :: EmailChar(s[i]);
    EmailSplitAt(s, at, dot);
  }

  /** The pattern's witnesses `at` and `dot` give the two pieces of the split on `@`. */
  lemma EmailSplitAt(s: string, at: nat, dot: nat)
    requires 0 < at && at + 1 < dot < |s| - 1 && s[at] == '@' && s[dot] == '.'
    requires forall i | 0 <= i < |s| && i != at :: EmailChar(s[i])
    ensures IsValidEmail(s)
  {
    var a, b := s[..at], s[at + 1..];
    assert s == a + ['@'] + b;
    assert '@' !in a by {
      forall i | 0 <= i < |a| ensures a[i] != '@' { assert a[i] == s[i]; }
    }
    assert '@' !in b by {
      forall i | 0 <= i < |b| ensures b[i] != '@' { assert b[i] == s[at + 1 + i]; }
    }
    SplitInTwo(s, '@', a, b);
    assert b[1..|b| - 1][dot - at - 2] == '.';
    assert NoSpace(s) by {
      forall i | 0 <= i < |s| ensures !IsSpace(s[i]) {
        if i != at { assert EmailChar(s[i]); }
      }
    }
  }

  /** `IsValidEmail` accepts exactly the strings the pattern matches. */
  lemma EmailPatternEquivalence(s: string)
    ensures IsValidEmail(s) <==> MatchesEmailPattern(s)
  {
    if IsValidEmail(s) {
      ValidEmailMatches(s);
    }
    if MatchesEmailPattern(s) {
      MatchingEmailValid(s);
    }
  }
}

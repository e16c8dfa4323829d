/**
 * The validation that the `POST /rides` handler performs on the request
 * body before it touches the store: five guards checked in a fixed order,
 * the first one that fires deciding the error message.
 */
module RideValidation {
  import opened JsValues

  /** The seven fields the handler reads from the request body, as sent. */
  datatype RideBody = RideBody(
    startLat: JsValue,
    startLong: JsValue,
    endLat: JsValue,
    endLong: JsValue,
    riderName: JsValue,
    driverName: JsValue,
    driverVehicle: JsValue)

  /** The four coordinates after `Number(...)`: the handler's
      startLatitude, startLongitude, endLatitude and endLongitude. */
  datatype Coerced = Coerced(startLat: Num, startLong: Num, endLat: Num, endLong: Num)

  /** `c` can be what `Number(...)` makes of the coordinates of `body`. */
  predicate CoercedFrom(body: RideBody, c: Coerced)
  {
    && CoercesTo(body.startLat, c.startLat)
    && CoercesTo(body.startLong, c.startLong)
    && CoercesTo(body.endLat, c.endLat)
    && CoercesTo(body.endLong, c.endLong)
  }

  /** The five guards, named by what they reject. */
  datatype Rule = StartCoordinates | EndCoordinates | RiderName | DriverName | DriverVehicle

  /** The order in which the handler checks the guards. */
  const CheckOrder: seq<Rule> := [StartCoordinates, EndCoordinates, RiderName, DriverName, DriverVehicle]

  const CoordinateRangeText := " latitude and longitude must be between -90 - 90 and -180 to 180 degrees respectively"
  const NonEmptyText := " must be a non empty string"

  /** The message each guard answers with. */
  function Message(rule: Rule): string
  {
    match rule
    case StartCoordinates => "Start" + CoordinateRangeText
    case EndCoordinates => "End" + CoordinateRangeText
    case RiderName => "Rider name" + NonEmptyText
    case DriverName => "Driver name" + NonEmptyText
    case DriverVehicle => "Driver vehicle" + NonEmptyText
  }

  /** The coordinate guard: `lat < -90 || lat > 90 || long < -180 || long > 180`. */
  predicate OutOfRange(lat: Num, long: Num)
    ensures lat.NaN? && long.NaN? ==> !OutOfRange(lat, long)
  {
    Less(lat, -90.0) || Greater(lat, 90.0) || Less(long, -180.0) || Greater(long, 180.0)
  }

  /** The name guard: `typeof v !== 'string' || v.length < 1`. */
  predicate NotNonEmptyString(v: JsValue)
    ensures !NotNonEmptyString(v) <==> v.Str? && v.s != []
  {
    TypeOf(v) != "string" || |v.s| < 1
  }

  /** Whether the guard `rule` fires on this request. */
  predicate Fires(rule: Rule, body: RideBody, c: Coerced)
  {
    match rule
    case StartCoordinates => OutOfRange(c.startLat, c.startLong)
    case EndCoordinates => OutOfRange(c.endLat, c.endLong)
    case RiderName => NotNonEmptyString(body.riderName)
    case DriverName => NotNonEmptyString(body.driverName)
    case DriverVehicle => NotNonEmptyString(body.driverVehicle)
  }

  /** The guards' messages are pairwise different, so the message in a
      response tells which guard fired. */
  lemma MessageInjective(a: Rule, b: Rule)
    ensures Message(a) == Message(b) ==> a == b
  {
    assert |CoordinateRangeText| == 85 && |NonEmptyText| == 27;
    var length := map[StartCoordinates := 90, EndCoordinates := 88, RiderName := 37,
                      DriverName := 38, DriverVehicle := 41];
    assert |Message(a)| == length[a] && |Message(b)| == length[b];
  }

  /** The handler's chain of early returns: None when the request passes,
      otherwise the guard whose error is sent. */
  function Validate(body: RideBody, c: Coerced): (r: Option<Rule>)
    ensures r.Some? ==> Fires(r.value, body, c)
  {
    if OutOfRange(c.startLat, c.startLong) then Some(StartCoordinates)
    else if OutOfRange(c.endLat, c.endLong) then Some(EndCoordinates)
    else if NotNonEmptyString(body.riderName) then Some(RiderName)
    else if NotNonEmptyString(body.driverName) then Some(DriverName)
    else if NotNonEmptyString(body.driverVehicle) then Some(DriverVehicle)
    else None
  }

  /** Reference definition of short-circuit validation: the first rule of
      `rules` that fires. */
  function FirstFiring(rules: seq<Rule>, body: RideBody, c: Coerced): Option<Rule>
  {
    if rules == [] then None
    else if Fires(rules[0], body, c) then Some(rules[0])
    else FirstFiring(rules[1..], body, c)
  }

  /** FirstFiring returns None exactly when no rule of `rules` fires. */
  lemma {:induction false} FirstFiringNone(rules: seq<Rule>, body: RideBody, c: Coerced)
    ensures FirstFiring(rules, body, c).None? <==>
              forall i :: 0 <= i < |rules| ==> !Fires(rules[i], body, c)
  {
    if rules != [] {
      FirstFiringNone(rules[1..], body, c);
      if !Fires(rules[0], body, c) && FirstFiring(rules[1..], body, c).None? {
        forall i | 0 < i < |rules| ensures !Fires(rules[i], body, c) {
          assert rules[i] == rules[1..][i - 1];
        }
      }
    }
  }

  /** FirstFiring returns `r` exactly when `r` stands at some position k
      of `rules`, fires, and no rule before position k fires. */
  lemma {:induction false} FirstFiringSome(rules: seq<Rule>, body: RideBody, c: Coerced, r: Rule)
    ensures FirstFiring(rules, body, c) == Some(r) <==>
              exists k :: 0 <= k < |rules| && rules[k] == r && Fires(r, body, c) &&
                forall j :: 0 <= j < k ==> !Fires(rules[j], body, c)
  {
    if rules != [] && !Fires(rules[0], body, c) {
      var tail := rules[1..];
      FirstFiringSome(tail, body, c, r);
      if FirstFiring(rules, body, c) == Some(r) {
        var k' :| 0 <= k' < |tail| && tail[k'] == r && Fires(r, body, c) &&
                  forall j :: 0 <= j < k' ==> !Fires(tail[j], body, c);
        assert rules[k' + 1] == r;
        forall j | 0 <= j < k' + 1 ensures !Fires(rules[j], body, c) {
          if j > 0 { assert rules[j] == tail[j - 1]; }
        }
      }
    } else if rules != [] {
      if exists k :: 0 <= k < |rules| && rules[k] == r && Fires(r, body, c) &&
           forall j :: 0 <= j < k ==> !Fires(rules[j], body, c) {
        var k :| 0 <= k < |rules| && rules[k] == r && Fires(r, body, c) &&
                 forall j :: 0 <= j < k ==> !Fires(rules[j], body, c);
        assert k == 0;
      } else {
        assert rules[0] != r || !Fires(r, body, c);
      }
    }
  }

  /** The handler's chain checks the guards in CheckOrder and stops at
      the first that fires. */
  lemma ValidateFollowsCheckOrder(body: RideBody, c: Coerced)
    ensures Validate(body, c) == FirstFiring(CheckOrder, body, c)
  {
    var t4 := [DriverVehicle];
    var t3 := [DriverName] + t4;
    var t2 := [RiderName] + t3;
    var t1 := [EndCoordinates] + t2;
    assert CheckOrder == [StartCoordinates] + t1;
    assert t4[1..] == [] && t3[1..] == t4 && t2[1..] == t3 && t1[1..] == t2 && CheckOrder[1..] == t1;
    assert FirstFiring([], body, c) == None;
    assert FirstFiring(t4, body, c) == if Fires(DriverVehicle, body, c) then Some(DriverVehicle) else None;
    assert FirstFiring(t3, body, c) == if Fires(DriverName, body, c) then Some(DriverName) else FirstFiring(t4, body, c);
    assert FirstFiring(t2, body, c) == if Fires(RiderName, body, c) then Some(RiderName) else FirstFiring(t3, body, c);
    assert FirstFiring(t1, body, c) == if Fires(EndCoordinates, body, c) then Some(EndCoordinates) else FirstFiring(t2, body, c);
  }

  /** The error sent is that of the i-th guard in CheckOrder exactly when
      that guard fires and none of the earlier ones does. */
  lemma ValidateReportsFirstFailingGuard(body: RideBody, c: Coerced, i: nat)
    requires i < |CheckOrder|
    ensures Validate(body, c) == Some(CheckOrder[i]) <==>
              Fires(CheckOrder[i], body, c) && forall j :: 0 <= j < i ==> !Fires(CheckOrder[j], body, c)
  {
    ValidateFollowsCheckOrder(body, c);
    FirstFiringSome(CheckOrder, body, c, CheckOrder[i]);
  }

  /** Validation succeeds exactly when no guard fires. */
  lemma ValidateSucceedsIffNoGuardFires(body: RideBody, c: Coerced)
    ensures Validate(body, c).None? <==> forall rule: Rule :: !Fires(rule, body, c)
  {
  }

  /** A coordinate is accepted when it is NaN or a finite number in the
      closed interval [-bound, bound]. */
  predicate Admissible(x: Num, bound: real)
  {
    x.NaN? || (x.Finite? && -bound <= x.r <= bound)
  }

  /** The coordinate guards reject exactly the pairs with a latitude
      outside [-90, 90] or a longitude outside [-180, 180], bounds
      included; NaN is never rejected. */
  lemma CoordinateGuardIsClosedInterval(body: RideBody, c: Coerced)
    ensures Fires(StartCoordinates, body, c) <==>
              !(Admissible(c.startLat, 90.0) && Admissible(c.startLong, 180.0))
    ensures Fires(EndCoordinates, body, c) <==>
              !(Admissible(c.endLat, 90.0) && Admissible(c.endLong, 180.0))
  {
  }

  /** The corners of the accepted box pass the start guard; a latitude
      just beyond 90 or a longitude just below -180 does not. */
  lemma StartBoundsAreInclusive(body: RideBody, lat: real, long: real, eps: real)
    requires lat == -90.0 || lat == 90.0
    requires long == -180.0 || long == 180.0
    requires eps > 0.0
    ensures !Fires(StartCoordinates, body, Coerced(Finite(lat), Finite(long), NaN, NaN))
    ensures Fires(StartCoordinates, body, Coerced(Finite(90.0 + eps), Finite(long), NaN, NaN))
    ensures Fires(StartCoordinates, body, Coerced(Finite(lat), Finite(-180.0 - eps), NaN, NaN))
  {
  }

  /** A NaN coordinate never triggers its guard: with a NaN latitude the
      guard depends on the longitude alone, and the other way round. */
  lemma NaNCoordinateNeverFires(body: RideBody, c: Coerced)
    ensures c.startLat.NaN? ==>
              (Fires(StartCoordinates, body, c) <==> !Admissible(c.startLong, 180.0))
    ensures c.startLong.NaN? ==>
              (Fires(StartCoordinates, body, c) <==> !Admissible(c.startLat, 90.0))
    ensures c.endLat.NaN? ==>
              (Fires(EndCoordinates, body, c) <==> !Admissible(c.endLong, 180.0))
    ensures c.endLong.NaN? ==>
              (Fires(EndCoordinates, body, c) <==> !Admissible(c.endLat, 90.0))
  {
  }

  /** Each name guard fires exactly when its field is not a string or is
      the empty string. */
  lemma NameGuardsRejectNonStringOrEmpty(body: RideBody, c: Coerced)
    ensures Fires(RiderName, body, c) <==> !(body.riderName.Str? && body.riderName.s != [])
    ensures Fires(DriverName, body, c) <==> !(body.driverName.Str? && body.driverName.s != [])
    ensures Fires(DriverVehicle, body, c) <==> !(body.driverVehicle.Str? && body.driverVehicle.s != [])
  {
  }

  /** When both coordinate pairs are out of range, the start message wins. */
  lemma StartCheckedBeforeEnd(body: RideBody, c: Coerced)
    requires Fires(StartCoordinates, body, c) && Fires(EndCoordinates, body, c)
    ensures Validate(body, c) == Some(StartCoordinates)
  {
  }
}

/**
 * The request bodies of the repository's API tests for `POST /rides`,
 * and what the model of the handler does with each. The coerced
 * coordinates are any values `Number(...)` can give for those bodies.
 */
module RideTestScenarios {
  import opened JsValues
  import opened RideValidation
  import opened RideHandlers

  /** A request body with no fields at all. */
  const NoFields := RideBody(Undefined, Undefined, Undefined, Undefined, Undefined, Undefined, Undefined)

  /** The valid coordinates the tests send. */
  function WithSampleCoordinates(body: RideBody): RideBody
  {
    body.(startLat := Number(Finite(-6.188225)), startLong := Number(Finite(106.698526)),
          endLat := Number(Finite(-6.188153)), endLong := Number(Finite(106.738628)))
  }

  /** Only start_lat = 1000: the start message, and no store call. */
  lemma OnlyStartLatOutOfRange(c: Coerced, insert: InsertResult, reread: QueryResult)
    requires CoercedFrom(NoFields.(startLat := Number(Finite(1000.0))), c)
    ensures CreateRide(NoFields.(startLat := Number(Finite(1000.0))), c, insert, reread)
              == Exchange([], ValidationError(StartCoordinates))
  {
    assert c.startLat == Finite(1000.0);
    assert Validate(NoFields.(startLat := Number(Finite(1000.0))), c) == Some(StartCoordinates);
  }

  /** Only start_long = 1000: the start message. */
  lemma OnlyStartLongOutOfRange(c: Coerced, insert: InsertResult, reread: QueryResult)
    requires CoercedFrom(NoFields.(startLong := Number(Finite(1000.0))), c)
    ensures CreateRide(NoFields.(startLong := Number(Finite(1000.0))), c, insert, reread)
              == Exchange([], ValidationError(StartCoordinates))
  {
    assert c.startLong == Finite(1000.0);
    assert Validate(NoFields.(startLong := Number(Finite(1000.0))), c) == Some(StartCoordinates);
  }

  /** Only end_lat = 1000: the missing start coordinates are NaN, pass the
      start guard, and the end message comes back. */
  lemma OnlyEndLatOutOfRange(c: Coerced, insert: InsertResult, reread: QueryResult)
    requires CoercedFrom(NoFields.(endLat := Number(Finite(1000.0))), c)
    ensures c.startLat.NaN? && c.startLong.NaN?
    ensures CreateRide(NoFields.(endLat := Number(Finite(1000.0))), c, insert, reread)
              == Exchange([], ValidationError(EndCoordinates))
  {
    assert c == Coerced(NaN, NaN, Finite(1000.0), NaN);
    assert Validate(NoFields.(endLat := Number(Finite(1000.0))), c) == Some(EndCoordinates);
  }

  /** Only end_long = 1000: the end message. */
  lemma OnlyEndLongOutOfRange(c: Coerced, insert: InsertResult, reread: QueryResult)
    requires CoercedFrom(NoFields.(endLong := Number(Finite(1000.0))), c)
    ensures CreateRide(NoFields.(endLong := Number(Finite(1000.0))), c, insert, reread)
              == Exchange([], ValidationError(EndCoordinates))
  {
    assert c == Coerced(NaN, NaN, NaN, Finite(1000.0));
    assert Validate(NoFields.(endLong := Number(Finite(1000.0))), c) == Some(EndCoordinates);
  }

  /** Valid coordinates and nothing else: the rider message; with a rider
      name: the driver message; with a driver name too: the vehicle
      message. */
  lemma MissingNamesRejectedInOrder(c: Coerced, insert: InsertResult, reread: QueryResult)
    requires CoercedFrom(WithSampleCoordinates(NoFields), c)
    ensures CreateRide(WithSampleCoordinates(NoFields), c, insert, reread)
              == Exchange([], ValidationError(RiderName))
    ensures CreateRide(WithSampleCoordinates(NoFields).(riderName := Str("Mychael")), c, insert, reread)
              == Exchange([], ValidationError(DriverName))
    ensures CreateRide(WithSampleCoordinates(NoFields).(riderName := Str("Mychael"), driverName := Str("Go")),
                       c, insert, reread)
              == Exchange([], ValidationError(DriverVehicle))
  {
    assert c == Coerced(Finite(-6.188225), Finite(106.698526), Finite(-6.188153), Finite(106.738628));
    assert !OutOfRange(c.startLat, c.startLong) && !OutOfRange(c.endLat, c.endLong);
    var noNames := WithSampleCoordinates(NoFields);
    assert Validate(noNames, c) == Some(RiderName);
    assert Validate(noNames.(riderName := Str("Mychael")), c) == Some(DriverName);
    assert Validate(noNames.(riderName := Str("Mychael"), driverName := Str("Go")), c) == Some(DriverVehicle);
  }

  /** A complete body passes validation and is inserted with its fields
      as sent; if the store succeeds the answer is 200 with the re-read
      rows. */
  lemma CompleteBodyIsInserted(c: Coerced, id: int, rows: seq<Ride>)
    requires CoercedFrom(WithSampleCoordinates(NoFields), c)
    ensures var body := WithSampleCoordinates(NoFields).(riderName := Str("Mychael"), driverName := Str("Go"),
                                                          driverVehicle := Str("Honda Beat"));
            CreateRide(body, c, Inserted(id), Rows(rows))
              == Exchange([InsertRide(InsertValues(body)), SelectRideById(id)], Response(200, RowsBody(rows)))
  {
    assert c == Coerced(Finite(-6.188225), Finite(106.698526), Finite(-6.188153), Finite(106.738628));
    var body := WithSampleCoordinates(NoFields).(riderName := Str("Mychael"), driverName := Str("Go"),
                                                 driverVehicle := Str("Honda Beat"));
    assert !NotNonEmptyString(body.riderName) && !NotNonEmptyString(body.driverName)
           && !NotNonEmptyString(body.driverVehicle);
    assert Validate(body, c) == None;
  }

  /** A rider name full of quotes, shaped like an SQL injection, is just a
      non-empty string: the body passes and the name goes to the insert as
      a parameter, unchanged. */
  lemma QuotedRiderNameIsInsertedAsSent(c: Coerced, id: int, rows: seq<Ride>)
    requires CoercedFrom(WithSampleCoordinates(NoFields), c)
    ensures var body := WithSampleCoordinates(NoFields).(riderName := Str("Mychael's OR '1=1"), driverName := Str("Go"),
                                                          driverVehicle := Str("Honda Beat"));
            CreateRide(body, c, Inserted(id), Rows(rows))
              == Exchange([InsertRide(InsertValues(body)), SelectRideById(id)], Response(200, RowsBody(rows)))
  {
    assert c == Coerced(Finite(-6.188225), Finite(106.698526), Finite(-6.188153), Finite(106.738628));
    var body := WithSampleCoordinates(NoFields).(riderName := Str("Mychael's OR '1=1"), driverName := Str("Go"),
                                                 driverVehicle := Str("Honda Beat"));
    assert !NotNonEmptyString(body.riderName) && !NotNonEmptyString(body.driverName)
           && !NotNonEmptyString(body.driverVehicle);
    assert Validate(body, c) == None;
  }
}

/**
 * The three ride handlers of the HTTP API, as functions from the request
 * and the store's answers to the store calls made and the response sent.
 * The store is not modelled: what it answers to each call is an input.
 */
module RideHandlers {
  import opened JsValues
  import opened RideValidation

  /** A row of the Rides table, as the store returns it. */
  datatype Ride = Ride(
    rideID: int,
    startLat: real,
    startLong: real,
    endLat: real,
    endLong: real,
    riderName: string,
    driverName: string,
    driverVehicle: string,
    created: string)

  /** What the store's `run` callback receives for the insert: an error,
      or success with the row id it generated. */
  datatype InsertResult = InsertFailed | Inserted(lastID: int)

  /** What the store's `all` callback receives: an error, or the rows. */
  datatype QueryResult = QueryFailed | Rows(rows: seq<Ride>)

  /** A call a handler makes on the store. */
  datatype StoreCall =
    | InsertRide(values: seq<JsValue>)  // the seven parameters of the insert
    | SelectRideById(rideID: int)       // the re-read after the insert
    | SelectAllRides
    | SelectRidesWhereIdIs(idText: string)  // the path parameter, unchecked

  datatype ResponseBody = ErrorBody(errorCode: string, message: string) | RowsBody(rows: seq<Ride>)

  datatype Response = Response(status: nat, body: ResponseBody)

  /** What one request does: the store calls, in order, and the response. */
  datatype Exchange = Exchange(calls: seq<StoreCall>, response: Response)

  const ValidationErrorCode := "VALIDATION_ERROR"
  const ServerErrorCode := "SERVER_ERROR"
  const NotFoundErrorCode := "RIDES_NOT_FOUND_ERROR"
  const UnknownErrorMessage := "Unknown error"
  const NotFoundMessage := "Could not find any rides"

  const ServerError := Response(500, ErrorBody(ServerErrorCode, UnknownErrorMessage))

  /** The response to a request that fails the guard `rule`. */
  function ValidationError(rule: Rule): Response
  {
    Response(400, ErrorBody(ValidationErrorCode, Message(rule)))
  }

  /** The parameters of the insert: the body fields as sent, not the
      numbers the guards compared. */
  function InsertValues(body: RideBody): seq<JsValue>
  {
    [body.startLat, body.startLong, body.endLat, body.endLong,
     body.riderName, body.driverName, body.driverVehicle]
  }

  /** `POST /rides`: validate, insert, re-read the new row by its id. */
  function CreateRide(body: RideBody, c: Coerced, insert: InsertResult, reread: QueryResult): (x: Exchange)
    ensures x.response.status in {200, 400, 500}
    ensures x.response.status == 200 <==> x.response.body.RowsBody?
    ensures |x.calls| <= 2
  {
    match Validate(body, c)
    case Some(rule) => Exchange([], ValidationError(rule))
    case None =>
      var ins := InsertRide(InsertValues(body));
      match insert
      case InsertFailed => Exchange([ins], ServerError)
      case Inserted(id) =>
        match reread
        case QueryFailed => Exchange([ins, SelectRideById(id)], ServerError)
        case Rows(rows) => Exchange([ins, SelectRideById(id)], Response(200, RowsBody(rows)))
  }

  /** `GET /rides`: every row, or 404 when there is none. */
  function ListRides(result: QueryResult): (x: Exchange)
    ensures x.calls == [SelectAllRides]
    ensures x.response.status in {200, 404, 500}
    ensures x.response.status == 200 <==> x.response.body.RowsBody?
  {
    match result
    case QueryFailed => Exchange([SelectAllRides], ServerError)
    case Rows(rows) =>
      if |rows| == 0 then
        Exchange([SelectAllRides], Response(404, ErrorBody(NotFoundErrorCode, NotFoundMessage)))
      else
        Exchange([SelectAllRides], Response(200, RowsBody(rows)))
  }

  /** `GET /rides/:id`: the rows whose id matches the path parameter, or
      status 400 with the not-found error when there is none. */
  function GetRideById(idText: string, result: QueryResult): (x: Exchange)
    ensures x.calls == [SelectRidesWhereIdIs(idText)]
    ensures x.response.status in {200, 400, 500}
    ensures x.response.status == 200 <==> x.response.body.RowsBody?
  {
    match result
    case QueryFailed => Exchange([SelectRidesWhereIdIs(idText)], ServerError)
    case Rows(rows) =>
      if |rows| == 0 then
        Exchange([SelectRidesWhereIdIs(idText)], Response(400, ErrorBody(NotFoundErrorCode, NotFoundMessage)))
      else
        Exchange([SelectRidesWhereIdIs(idText)], Response(200, RowsBody(rows)))
  }

  /** A rejected request gets status 400, the VALIDATION_ERROR code and
      the message of the first guard that fired, and the store is never
      called; conversely the store is left untouched only when
      validation fails. */
  lemma CreateRejectsBeforeStoreAccess(body: RideBody, c: Coerced, insert: InsertResult, reread: QueryResult)
    ensures CreateRide(body, c, insert, reread).calls == [] <==> Validate(body, c).Some?
    ensures Validate(body, c).Some? ==>
              CreateRide(body, c, insert, reread).response ==
                Response(400, ErrorBody("VALIDATION_ERROR", Message(Validate(body, c).value)))
    ensures CreateRide(body, c, insert, reread).response.status == 400 <==> Validate(body, c).Some?
  {
  }

  /** When every guard passes, the first store call is the insert, with
      the seven body fields as sent, in column order. */
  lemma CreateInsertsRawFields(body: RideBody, c: Coerced, insert: InsertResult, reread: QueryResult)
    requires forall rule: Rule :: !Fires(rule, body, c)
    ensures var calls := CreateRide(body, c, insert, reread).calls;
            |calls| >= 1 && calls[0].InsertRide? && |calls[0].values| == 7
            && calls[0].values[0] == body.startLat && calls[0].values[1] == body.startLong
            && calls[0].values[2] == body.endLat && calls[0].values[3] == body.endLong
            && calls[0].values[4] == body.riderName && calls[0].values[5] == body.driverName
            && calls[0].values[6] == body.driverVehicle
  {
  }

  /** A failed insert is answered at once, with no re-read. After a
      successful insert the new row is re-read by the id the store
      generated, and the rows it returns are sent unchanged, even when
      there are none; a failure of either call is a server error. */
  lemma CreateAnswersWithRereadRows(body: RideBody, c: Coerced, insert: InsertResult, reread: QueryResult)
    requires Validate(body, c).None?
    ensures var x := CreateRide(body, c, insert, reread);
            (x.response == ServerError <==> insert.InsertFailed? || reread.QueryFailed?)
            && (insert.InsertFailed? ==> x.calls == [InsertRide(InsertValues(body))])
            && (insert.Inserted? ==> x.calls[1..] == [SelectRideById(insert.lastID)])
            && (insert.Inserted? && reread.Rows? ==> x.response == Response(200, RowsBody(reread.rows)))
  {
  }

  /** Any store error, in any of the three handlers, is answered with
      status 500, SERVER_ERROR and "Unknown error". */
  lemma StoreErrorIsServerError(body: RideBody, c: Coerced, reread: QueryResult, id: int, idText: string)
    ensures Validate(body, c).None? ==>
              CreateRide(body, c, InsertFailed, reread).response == Response(500, ErrorBody("SERVER_ERROR", "Unknown error"))
    ensures Validate(body, c).None? ==>
              CreateRide(body, c, Inserted(id), QueryFailed).response == Response(500, ErrorBody("SERVER_ERROR", "Unknown error"))
    ensures ListRides(QueryFailed).response == Response(500, ErrorBody("SERVER_ERROR", "Unknown error"))
    ensures GetRideById(idText, QueryFailed).response == Response(500, ErrorBody("SERVER_ERROR", "Unknown error"))
  {
  }

  /** The list handler answers no rows with 404 and the not-found error,
      and any other row set with 200 and those rows unchanged. */
  lemma ListRidesResponse(rows: seq<Ride>)
    ensures |rows| == 0 ==>
              ListRides(Rows(rows)).response == Response(404, ErrorBody("RIDES_NOT_FOUND_ERROR", "Could not find any rides"))
    ensures |rows| > 0 ==> ListRides(Rows(rows)).response == Response(200, RowsBody(rows))
  {
  }

  /** The by-id handler answers no rows with status 400 (not 404) and the
      not-found error, and any other row set with 200 and those rows. */
  lemma GetRideByIdResponse(idText: string, rows: seq<Ride>)
    ensures |rows| == 0 ==>
              GetRideById(idText, Rows(rows)).response == Response(400, ErrorBody("RIDES_NOT_FOUND_ERROR", "Could not find any rides"))
    ensures |rows| > 0 ==> GetRideById(idText, Rows(rows)).response == Response(200, RowsBody(rows))
  {
  }

  /** The by-id handler has no validation of its own: whatever the path
      parameter, it goes to the store as it is, and the answer is never
      a VALIDATION_ERROR. */
  lemma GetRideByIdNeverValidates(idText: string, result: QueryResult)
    ensures GetRideById(idText, result).calls == [SelectRidesWhereIdIs(idText)]
    ensures GetRideById(idText, result).response.body.ErrorBody? ==>
              GetRideById(idText, result).response.body.errorCode != "VALIDATION_ERROR"
  {
  }

  /** Every error response of every handler carries one of the three
      error codes, and the status tells which: 400 for validation (and
      the by-id not-found), 404 for the list not-found, 500 for the
      store. */
  lemma ErrorCodesMatchStatus(body: RideBody, c: Coerced, insert: InsertResult, reread: QueryResult,
                              list: QueryResult, idText: string, byId: QueryResult)
    ensures var r := CreateRide(body, c, insert, reread).response;
            r.body.ErrorBody? ==>
              (r.status == 400 && r.body.errorCode == "VALIDATION_ERROR") ||
              (r.status == 500 && r.body.errorCode == "SERVER_ERROR")
    ensures var r := ListRides(list).response;
            r.body.ErrorBody? ==>
              (r.status == 404 && r.body.errorCode == "RIDES_NOT_FOUND_ERROR") ||
              (r.status == 500 && r.body.errorCode == "SERVER_ERROR")
    ensures var r := GetRideById(idText, byId).response;
            r.body.ErrorBody? ==>
              (r.status == 400 && r.body.errorCode == "RIDES_NOT_FOUND_ERROR") ||
              (r.status == 500 && r.body.errorCode == "SERVER_ERROR")
  {
  }
}

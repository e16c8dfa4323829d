# Ride API: request validation and response selection

A Dafny model of the decision logic inside the three ride handlers of a small
Express/SQLite REST API (`src/app.js`). The logic is:

- `POST /rides` checks five guards in a fixed, short-circuit order: start
  coordinates, end coordinates, rider name, driver name, driver vehicle. Each
  guard has its own message (`MessageInjective`) and answers 400 `VALIDATION_ERROR`. Only when all
  five pass does the handler insert the ride and re-read it by its new id.
- The three handlers map the store's answer to a response. A store error gives
  500 `SERVER_ERROR`. An empty row set gives `RIDES_NOT_FOUND_ERROR`: status 404
  for the list and status 400 for the by-id lookup. Otherwise the answer is 200
  with the rows unchanged.

The model has four modules, one file each:

- `js_values.dfy` (`JsValues`): JavaScript values as a JSON body delivers them,
  and numbers after `Number(...)`: finite, the two infinities, or NaN. It also
  holds `typeof`, and `<` and `>` against a finite bound, where every comparison
  with NaN is false.
- `validation.dfy` (`RideValidation`): the body, the coerced coordinates, the five
  guards and their messages, and `Validate`, the handler's chain of early returns.
  `FirstFiring` is a separate reference definition: the first rule, in a given
  order, that fires. It is used to prove that the chain reports the first failing
  guard.
- `handlers.dfy` (`RideHandlers`): each handler is a function. Its inputs are the
  request and the store's answers. Its output is an `Exchange`: the store calls
  the handler makes, in order, and the response it sends. "No store access before
  validation" is then a fact about `calls`.
- `scenarios.dfy` (`RideTestScenarios`): the request bodies of the repository's
  `POST /rides` tests, and what the model does with each one.

Where the code, its documentation and its tests disagree, the model follows the
code:

- The by-id handler answers an empty row set with status 400. Its doc comment
  (`src/app.js:231-235`) says 404.
- A NaN coordinate passes its range guard, because JavaScript comparisons with
  NaN are false. So a missing or non-numeric coordinate passes instead of being
  rejected.
- `GET /rides` has no pagination, although `tests/api.test.js:189-211` expects
  `page` and `size` validation.
- `GET /rides/:id` does no integer check on the id. The test at
  `tests/api.test.js:278-286` expects "ID must be an integer", which this handler
  can never send (`GetRideByIdNeverValidates`).
- The create handler sends whatever rows the re-read returns, even none. It has
  no not-found branch.

## Model

| member | source | states |
|---|---|---|
| JsValues.TypeOf | src/app.js:105-124 | `typeof` yields "string" exactly for string values, which is the test the name guards use |
| JsValues.NaNComparesFalse | src/app.js:91-98 | `NaN < b` and `NaN > b` are both false for every bound |
| JsValues.NotOutsideIsClosedInterval | src/app.js:91-98 | `!(x < lo \|\| x > hi)` holds exactly when x is NaN or a finite number in the closed interval [lo, hi] |
| JsValues.KnownNumber | src/app.js:83-86 | `Number(v)` is determined without text parsing exactly for undefined, null, booleans and numbers, and a number coerces to itself |
| JsValues.UndefinedCoercesToNaN | src/app.js:83-86 | a missing body field coerces to NaN and nothing else |
| JsValues.Less | src/app.js:91-98 | JavaScript `x < bound` as the guards use it: it never holds when x is NaN |
| JsValues.Greater | src/app.js:91-98 | JavaScript `x > bound` as the guards use it: it never holds when x is NaN |
| RideValidation.OutOfRange | src/app.js:91-98 | the coordinate guard's four-way disjunction; a pair of NaN coordinates never trips it |
| RideValidation.NotNonEmptyString | src/app.js:105-119 | the name guard passes exactly on a non-empty string |
| RideValidation.MessageInjective | src/app.js:94-122 | the five guard messages are pairwise different, so the message identifies the guard |
| RideValidation.Validate | src/app.js:91-124 | the guard the handler reports always fires on the request |
| RideValidation.FirstFiringNone | src/app.js:91-124 | the reference first-failing-rule function returns nothing exactly when no rule fires |
| RideValidation.FirstFiringSome | src/app.js:91-124 | the reference function returns rule r exactly when r fires at some position and no earlier rule fires |
| RideValidation.ValidateFollowsCheckOrder | src/app.js:91-124 | the handler's chain equals the reference first-failing rule in the order start, end, rider, driver, vehicle |
| RideValidation.ValidateReportsFirstFailingGuard | src/app.js:91-124 | the i-th guard's error is sent exactly when that guard fires and none of the earlier guards does |
| RideValidation.ValidateSucceedsIffNoGuardFires | src/app.js:91-126 | validation passes exactly when none of the five guards fires |
| RideValidation.CoordinateGuardIsClosedInterval | src/app.js:91-103 | each coordinate guard fires exactly when latitude is outside [-90, 90] or longitude is outside [-180, 180], bounds included, with NaN accepted |
| RideValidation.StartBoundsAreInclusive | src/app.js:91-96 | latitude ±90 with longitude ±180 passes; a latitude above 90 or a longitude below -180 is rejected |
| RideValidation.NaNCoordinateNeverFires | src/app.js:83-103 | a NaN coordinate never triggers its guard; the guard then depends only on the other coordinate |
| RideValidation.NameGuardsRejectNonStringOrEmpty | src/app.js:105-124 | each name guard fires exactly when its field is not a string or is the empty string |
| RideValidation.StartCheckedBeforeEnd | src/app.js:91-103 | when both coordinate pairs are out of range, the start message is the one reported |
| RideHandlers.CreateRide | src/app.js:82-147 | the create response is 200, 400 or 500, carries rows exactly when it is 200, and at most two store calls are made |
| RideHandlers.ListRides | src/app.js:186-204 | the list handler makes one select-all call and answers 200, 404 or 500, with rows exactly on 200 |
| RideHandlers.GetRideById | src/app.js:244-262 | the by-id handler makes one lookup with the path parameter and answers 200, 400 or 500, with rows exactly on 200 |
| RideHandlers.CreateRejectsBeforeStoreAccess | src/app.js:91-128 | no store call is made exactly when validation fails; a rejection is 400 VALIDATION_ERROR with the first failing guard's message, and 400 occurs only then |
| RideHandlers.CreateInsertsRawFields | src/app.js:126-128 | on success the first call is the insert, whose seven parameters are the raw body fields in column order, not the coerced numbers |
| RideHandlers.CreateAnswersWithRereadRows | src/app.js:128-146 | after validation, the response is a server error exactly when the insert or the re-read fails; a failed insert is followed by no re-read; the re-read uses the generated id; its rows are sent unchanged, even empty |
| RideHandlers.StoreErrorIsServerError | src/app.js:129-142 | every store error in every handler gives 500 with SERVER_ERROR and "Unknown error" |
| RideHandlers.ListRidesResponse | src/app.js:195-202 | listing no rows gives 404 RIDES_NOT_FOUND_ERROR "Could not find any rides"; any other row set gives 200 with those rows |
| RideHandlers.GetRideByIdResponse | src/app.js:253-260 | by-id with no rows gives status 400 RIDES_NOT_FOUND_ERROR "Could not find any rides"; any other row set gives 200 with those rows |
| RideHandlers.GetRideByIdNeverValidates | src/app.js:244-262 | the path parameter reaches the store unchanged, and the response is never a VALIDATION_ERROR |
| RideHandlers.ErrorCodesMatchStatus | src/app.js:91-260 | every error response pairs its status with one code: 400 validation or by-id not-found, 404 list not-found, 500 server |
| RideTestScenarios.OnlyStartLatOutOfRange | tests/api.test.js:35-48 | a body with only start_lat 1000 gets the start message and makes no store call |
| RideTestScenarios.OnlyStartLongOutOfRange | tests/api.test.js:50-63 | a body with only start_long 1000 gets the start message |
| RideTestScenarios.OnlyEndLatOutOfRange | tests/api.test.js:65-78 | with only end_lat 1000, the start coordinates are NaN and pass, and the end message comes back |
| RideTestScenarios.OnlyEndLongOutOfRange | tests/api.test.js:80-93 | a body with only end_long 1000 gets the end message |
| RideTestScenarios.MissingNamesRejectedInOrder | tests/api.test.js:95-150 | with valid coordinates, missing names are reported rider first, then driver, then vehicle |
| RideTestScenarios.CompleteBodyIsInserted | tests/api.test.js:152-168 | a complete body passes, is inserted as sent, and the re-read rows come back with 200 |
| RideTestScenarios.QuotedRiderNameIsInsertedAsSent | tests/api.test.js:262-276 | a rider name full of quotes passes as a non-empty string and reaches the insert unchanged, as a parameter |

## Left out

- Express wiring, body parsing, the `/docs` static route and the constant `/health` route: these are framework plumbing with no decision logic.
- `Number(...)` on strings, arrays and objects, and IEEE-754 rounding. The coerced coordinates are an input to the model. `CoercedFrom` pins them only for undefined, null, booleans and numbers.
- The SQLite store, the SQL texts and the `src/sqlite-async/index.js` promise wrapper. What the store answers to each call is an input, and a call is recorded only by its parameters. The model therefore does not capture id generation, the `created` timestamp, or what the string-interpolated by-id query matches.
- Rows are opaque: the model only passes them through. The field types of `Ride` (real coordinates, string names) are illustrative. A row inserted from a body with a missing or non-numeric coordinate can hold NULL or text in that column, since the raw value is what gets inserted.
- Pagination of `GET /rides`: the handler does not implement it.
- Concurrency and callback ordering: each handler is modelled as one sequential exchange.
- JavaScript string length counts UTF-16 code units. The model counts characters. The only test is "at least one", and that answer is the same under both counts.

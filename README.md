# NASA data explorer backend: request shaping and resilience, in Dafny

This project models the layer of the NASA data explorer backend that sits between its
HTTP controllers and the NASA upstream APIs. It covers five parts:

- the circuit breaker, a three-state machine;
- the date and query validation rules;
- the five domain services, which are the Astronomy Picture of the Day, the
  Near-Earth-Object feed, Mars Rover photos, EPIC Earth images and the NASA Image and
  Video Library search;
- the effect of the shared NASA HTTP client, which adds the base URL and the API key and
  rewrites failures;
- the Express error middleware, which turns any thrown error into a JSON response.

Modules, one per source component:

- `Wrappers`: `Option` and `Result`.
- `Constants`: configuration values, status codes and messages.
- `ApiTypes`: the `{success, data?, error?}` envelope.
- `NasaTypes`: the payload shapes.
- `Text`: JavaScript truthiness, `trim` and `toLowerCase`.
- `Decimal`: digit strings and zero padding.
- `Calendar`: Gregorian day numbers and their inverse.
- `Validation`: `validateDateFormat`, `getDaysDifference` and the zod query schemas, as
  predicates on the strings they accept.
- `ErrorMiddleware`: `APIError`, `notFoundHandler` and `errorHandler`.
- `Upstream`: requests, upstream outcomes, the shared client's effects and the services'
  common `catch` block.
- `CircuitBreakers`: the breaker.
- `ApodService`, `NeoService`, `MarsRoverService`, `EpicImageService` and
  `ImageLibraryService`: the services.

How each part is modelled:

- **The breaker** is a class whose fields the methods update in place. Each method is
  proved to move the fields exactly as a pure step function on a `Snapshot` of those
  fields says. Lemmas about runs of failures and successes are stated over the step
  functions. `Date.now()` becomes a `now` parameter.
- **A service** takes the outcomes of its upstream calls as parameters: either the payload
  or the error the call throws. It returns the requests it issues, in order, and the
  envelope it resolves with or the `APIError` it rejects with.
- **Pure services** (NEO, EPIC) are functions.
- **Services that fill in a parameter object field by field** (APOD, Mars Rover, Image
  Library) are methods that do the same to a local map.
- **`new Date(s)`** for a `YYYY-MM-DD` string is modelled as the day number of that UTC
  midnight. Months 01..12 and days 01..31 are taken in any month, so a day past the end
  of its month rolls into the next month. Every other string, including one with a month
  outside 01..12 or a day outside 01..31, is modelled as an Invalid Date (NaN).
- **`toISOString`** is modelled as the inverse computation from a day number back to a
  civil date, followed by zero-padded formatting.

The main result about dates is that `validateDateFormat` accepts exactly the
`YYYY-MM-DD` strings that name a real Gregorian day.

Behaviour of the code that a reader might not expect, modelled as written:

- A half-open breaker admits every request, not a single probe: `allowRequest` returns
  true in every state but OPEN (src/utils/circuitBreaker.ts:25-35).
- No service consults the breaker: no service file constructs a `CircuitBreaker`, and
  the shared client sends every request straight to axios
  (src/services/baseService.ts:23-44).
- The shared client reports every upstream failure with the fixed message "Failed to
  fetch data from NASA API". It extracts nothing from the response body
  (src/services/baseService.ts:36-41).
- The Image Library search calls its host directly, bypassing the shared client. Its
  failures therefore always become the service's own 500 error
  (src/services/imageLibraryService.ts:41-44).
- The page-size clamp only bounds the size from above: `Math.min(pageSize, 100)`
  (src/services/imageLibraryService.ts:28).
- A timeout is reported like any other failure without a response, with status 500,
  not as "service unavailable" (src/services/baseService.ts:38-41).

## Model

| member | source | states |
|---|---|---|
| CircuitBreakers.ConfigOf | src/utils/circuitBreaker.ts:19-23 | each option left out takes its default: 5 failures, 2 successes, 30000 ms cooldown |
| CircuitBreakers.CircuitBreaker.constructor | src/utils/circuitBreaker.ts:14-23 | a new breaker has the configured or default thresholds, is CLOSED with both counters 0 and `nextTry` 0, and is valid when both thresholds are at least 1 |
| CircuitBreakers.Allowed | src/utils/circuitBreaker.ts:25-35 | a request is refused exactly when the breaker is OPEN and `now < nextTry` |
| CircuitBreakers.AfterAllow | src/utils/circuitBreaker.ts:27-31 | an OPEN breaker whose cooldown is over turns HALF_OPEN with counters and `nextTry` untouched; in every other case nothing changes; the invariant is kept |
| CircuitBreakers.CircuitBreaker.AllowRequest | src/utils/circuitBreaker.ts:25-35 | answers as `Allowed`, updates the fields as `AfterAllow`, and keeps the breaker valid |
| CircuitBreakers.AfterSuccess | src/utils/circuitBreaker.ts:37-46 | outside HALF_OPEN only the counters are reset; in HALF_OPEN the success is counted, and the one reaching the threshold closes the breaker with counters 0 and `nextTry` kept; the invariant is kept |
| CircuitBreakers.CircuitBreaker.RecordSuccess | src/utils/circuitBreaker.ts:37-46 | updates the fields as `AfterSuccess` and keeps the breaker valid |
| CircuitBreakers.AfterFailure | src/utils/circuitBreaker.ts:48-53 | the failure is counted in every state; a HALF_OPEN breaker, or a count reaching the threshold, opens it until `now` plus the cooldown with counters 0; the invariant is kept |
| CircuitBreakers.CircuitBreaker.RecordFailure | src/utils/circuitBreaker.ts:48-53 | updates the fields as `AfterFailure` and keeps the breaker valid |
| CircuitBreakers.Opened | src/utils/circuitBreaker.ts:55-59 | `open` yields OPEN, counters 0, `nextTry` = now + cooldown |
| CircuitBreakers.CircuitBreaker.OpenBreaker | src/utils/circuitBreaker.ts:55-59 | updates the fields as `Opened` |
| CircuitBreakers.ClosedFrom | src/utils/circuitBreaker.ts:61-64 | `close` yields CLOSED, counters 0, `nextTry` kept |
| CircuitBreakers.CircuitBreaker.CloseBreaker | src/utils/circuitBreaker.ts:61-64 | updates the fields as `ClosedFrom` |
| CircuitBreakers.WithCountsReset | src/utils/circuitBreaker.ts:66-69 | both counters become 0; state and `nextTry` are unchanged |
| CircuitBreakers.CircuitBreaker.ResetCounts | src/utils/circuitBreaker.ts:66-69 | updates the fields as `WithCountsReset` |
| CircuitBreakers.FailuresBelowThreshold | src/utils/circuitBreaker.ts:48-53 | from CLOSED, a run of failures that stays below the threshold only adds to the failure count |
| CircuitBreakers.FailuresReachingThreshold | src/utils/circuitBreaker.ts:48-58 | from CLOSED, the run of failures that reaches the threshold leaves the breaker OPEN until the last failure's time plus the cooldown, counters 0 |
| CircuitBreakers.SuccessesBelowThreshold | src/utils/circuitBreaker.ts:38-42 | in HALF_OPEN, successes below the threshold only add to the success count |
| CircuitBreakers.SuccessesReachingThreshold | src/utils/circuitBreaker.ts:38-42 | in HALF_OPEN, the successes that reach the threshold close the breaker with counters 0 |
| CircuitBreakers.HalfOpenAdmitsAll | src/utils/circuitBreaker.ts:25-35 | a HALF_OPEN breaker admits every request and stays as it is |
| CircuitBreakers.OpenProbeReopen | src/utils/circuitBreaker.ts:25-59 | a fresh breaker opened by `failureThreshold` failures refuses requests before the cooldown ends, admits one as a HALF_OPEN probe after it, and a failed probe re-opens it, refusing requests again |
| CircuitBreakers.RecoveryCloses | src/utils/circuitBreaker.ts:37-46 | `successThreshold` successes in a row close a HALF_OPEN breaker with both counters 0 |
| Decimal.AllDigits | src/utils/validation.ts:55 | holds exactly when every character is an ASCII digit |
| Decimal.PadValueOf | src/utils/validation.ts:59 | writing a digit string's value back at the same width gives the string itself |
| Decimal.SameValueSameDigits | src/utils/validation.ts:59 | two digit strings of one length are equal exactly when their values are |
| Calendar.CivilFromDayNumber | src/utils/validation.ts:58-59 | the civil date of a real date's day number is that date |
| Calendar.DayNumberInjective | src/utils/validation.ts:58-59 | two real dates have the same day number exactly when they are the same date |
| Validation.RoundTripsIffCalendar | src/utils/validation.ts:58-59 | for a `YYYY-MM-DD` string, parsing and writing back the first ten ISO characters gives the string exactly when it names a real Gregorian day |
| Validation.RoundTripOfCalendarDate | src/utils/validation.ts:58-59 | a string naming a real day survives the round trip |
| Validation.NoRoundTripPastMonthEnd | src/utils/validation.ts:58-59 | a day past the end of its month (day 31 at most) parses into the next month and fails the round trip |
| Validation.ValidateDateFormat | src/utils/validation.ts:54-60 | accepts exactly the strings of the form `dddd-dd-dd` that name a real Gregorian day |
| Validation.ParseIsoDate | src/utils/validation.ts:58 | a date is produced exactly for a string of the form `dddd-dd-dd` with a month 01..12 and a day 01..31; every other string is an Invalid Date |
| Validation.ParseValidDateString | src/utils/validation.ts:58 | a valid date string parses to the day whose calendar date it names |
| Validation.ToIsoString | src/utils/validation.ts:59 | the ISO string of a day number is at least 24 characters and ends in the midnight time `T00:00:00.000Z` |
| Validation.IsoStringReadsBack | src/utils/validation.ts:59 | for years 0 to 9999 the ISO string is 24 characters and its first ten spell the calendar date of the day |
| Validation.FieldsOfDatePart | src/utils/validation.ts:59 | the ten date characters of a day in years 0 to 9999 read back as that day |
| Validation.DateSchema | src/utils/validation.ts:7-16 | accepts exactly what `validateDateFormat` accepts |
| Validation.LeapDayAccepted | src/utils/validation.ts:54-60 | `2024-02-29` is accepted |
| Validation.CommonYearLeapDayRejected | src/utils/validation.ts:54-60 | `2023-02-29` is rejected |
| Validation.DayPastMonthEndRejected | src/utils/validation.ts:54-60 | `2024-02-30` is rejected |
| Validation.MonthPastDecemberRejected | src/utils/validation.ts:54-60 | `2024-13-01` is rejected |
| Validation.MalformedDateRejected | src/utils/validation.ts:55-56 | `invalid-date` is rejected by the pattern |
| Validation.NewYear2020Valid | src/utils/validation.ts:54-60 | `2020-01-01` is accepted |
| Validation.SeventhJanuary2020Valid | src/utils/validation.ts:54-60 | `2020-01-07` is accepted |
| Validation.TwentiethJanuary2020Valid | src/utils/validation.ts:54-60 | `2020-01-20` is accepted |
| Validation.CeilOfWholeDays | src/utils/validation.ts:76 | the ceiling of a whole number of days in milliseconds, divided by a day, is that number |
| Validation.GetDaysDifference | src/utils/validation.ts:69-77 | NaN (None) exactly when either date fails to parse; otherwise the absolute difference of the two day numbers |
| Validation.DaysDifferenceSymmetric | src/utils/validation.ts:69-77 | the difference does not depend on the order of the dates |
| Validation.ParseValidDate | src/utils/validation.ts:58 | a valid date string parses to the day number of the date it names |
| Validation.DaysDifferenceOfValidDates | src/utils/validation.ts:69-77 | for valid dates the difference is the absolute difference of their calendar day numbers |
| Validation.DaysDifferenceZeroIffSame | src/utils/validation.ts:69-77 | two valid dates are 0 days apart exactly when they are the same string |
| Validation.DaysDifferenceSixDays | src/utils/validation.ts:69-77 | `2020-01-01` and `2020-01-07` are 6 days apart |
| Validation.DaysDifferenceNineteenDays | src/utils/validation.ts:69-77 | `2020-01-01` and `2020-01-20` are 19 days apart |
| Validation.ApodQuerySchema | src/utils/validation.ts:21-23 | accepts exactly a query whose date is absent or a valid date string |
| Validation.NeoQuerySchema | src/utils/validation.ts:29-46 | an accepted query has both dates present and valid |
| Validation.MarsRoverQuerySchema | src/utils/validation.ts:79-84 | accepts exactly a query whose sol and page are absent or non-empty digit strings, whose earth date is absent or valid, and whose camera is absent or one of the listed cameras |
| Validation.EpicQuerySchema | src/utils/validation.ts:86-88 | accepts exactly a query whose date is absent or a valid date string |
| Validation.ImageLibraryQuerySchema | src/utils/validation.ts:90-97 | accepts exactly a query with a non-empty search text whose media type, if given, is image, video or audio, whose page and page size, if given, are non-empty digit strings, and whose year bounds, if given, are exactly four digits (so below 10000) |
| Validation.NeoQuerySchemaMeaning | src/utils/validation.ts:29-46 | the NEO schema accepts exactly two present, valid dates whose day numbers are at most 7 apart in either order |
| Validation.NeoQuerySchemaAcceptsWeek | src/utils/validation.ts:29-46 | `2020-01-01`..`2020-01-07` is accepted |
| Validation.NeoQuerySchemaRejectsNineteenDays | src/utils/validation.ts:29-46 | `2020-01-01`..`2020-01-20` is rejected |
| Validation.CameraExamples | src/utils/validation.ts:79-84 | the camera must be one of the seven upper-case names: `NAVCAM` passes, `navcam` and `PANCAM` fail |
| Validation.DigitStringExamples | src/utils/validation.ts:79-84 | `sol` and `page` accept `0` and `1000` and refuse the empty string, `-1` and `1.5` |
| Validation.FourDigitExamples | src/utils/validation.ts:95-96 | years must have exactly four digits |
| Validation.BlankQueryPassesSchema | src/utils/validation.ts:91 | `q` must be present and at least one character long before trimming: a single space passes, the empty string and a missing `q` fail |
| Text.Trim | src/services/imageLibraryService.ts:18 | the trimmed string is a slice of the input with only white space cut off either end; it is empty exactly when the input is all white space, and otherwise neither starts nor ends with white space |
| Text.TrimIdempotent | src/services/imageLibraryService.ts:26 | trimming a trimmed query changes nothing |
| Text.ToLower | src/services/marsRoverService.ts:21 | every character lowered, the length kept; a string without capitals is unchanged |
| Text.ToLowerIdempotent | src/services/marsRoverService.ts:21 | lowering twice is lowering once |
| ErrorMiddleware.NewApiError | src/middlewares/errorMiddleware.ts:22-30 | keeps the message; status defaults to 500 and `isOperational` to true |
| ErrorMiddleware.NotFoundHandler | src/middlewares/errorMiddleware.ts:46-56 | an operational 404 error with message `Route <url> not found` |
| ErrorMiddleware.ErrorHandler | src/middlewares/errorMiddleware.ts:67-100 | status: 503 for `ENOTFOUND`/`ECONNREFUSED`, else the `APIError`'s status, else 500; body: well-formed, `success` false, no data, the chosen message, and the stack exactly when `NODE_ENV` is `development` |
| ErrorMiddleware.HandleUnknownRoute | src/middlewares/errorMiddleware.ts:51-55 | an unknown route is answered with 404 and the route in the message |
| ErrorMiddleware.ApiErrorKeepsStatusAndMessage | src/middlewares/errorMiddleware.ts:77-86 | an `APIError` is answered with its own status and message |
| ErrorMiddleware.ServiceUnavailableIff | src/middlewares/errorMiddleware.ts:81-86 | unless an `APIError` itself carries 503, the answer is 503 exactly for a plain error coded `ENOTFOUND` or `ECONNREFUSED` |
| ErrorMiddleware.PlainErrorIsInternal | src/middlewares/errorMiddleware.ts:74-86 | any other plain error is a 500 carrying its own message |
| Upstream.ApiKey | src/services/baseService.ts:24 | `NASA_API_KEY` when set and non-empty, else `DEMO_KEY`; never empty |
| Upstream.Sent | src/services/baseService.ts:26-32 | through the shared client the URL gains the base URL and the parameters gain `api_key`, with the service's own parameters kept; plain `axios` sends the request as given |
| Upstream.ClientFailure | src/services/baseService.ts:34-43 | the interceptor's error has the fixed NASA message and the upstream status, or 500 when there is none |
| Upstream.CatchAs | src/services/neoService.ts:80-88 | an `APIError` is rethrown unchanged; anything else becomes an operational 500 with the service's message |
| Upstream.NasaClientFailurePassesThrough | src/services/baseService.ts:34-43 | a failure of the shared client reaches the caller through any service's `catch` unchanged, with the upstream status |
| NeoService.ReshapeObject | src/services/neoService.ts:64-70 | id, name and diameter kept, the hazard flag renamed, and only the first close approach kept (absent when the list is empty) |
| NeoService.RestoreReshape | src/services/neoService.ts:64-70 | reshaping loses nothing but the close approaches after the first |
| NeoService.ReshapeRestore | src/services/neoService.ts:64-70 | every returned object is the reshaping of an upstream object |
| NeoService.ProcessDay | src/services/neoService.ts:61-71 | a record with the key as date, `count` equal to the number of objects, and each object reshaped in order |
| NeoService.ProcessFeed | src/services/neoService.ts:60-79 | one record per key of the upstream map, in key order, and `element_count` copied |
| NeoService.CountsAddUp | src/services/neoService.ts:61-63 | for every feed, the returned counts add up to the number of objects the upstream listed over its days |
| NeoService.RangeExceeded | src/services/neoService.ts:43 | never exceeded when a date fails to parse (NaN compares false); for valid dates exceeded exactly when their day numbers are more than 7 apart |
| NeoService.ServiceChecksMatchSchema | src/services/neoService.ts:36-48 | the service's format and range checks pass exactly for the date pairs the NEO query schema accepts |
| NeoService.GetNearEarthObjects | src/services/neoService.ts:31-89 | an invalid date gives the 400 format error and no request; a valid range over 7 days gives the 400 range error and no request; otherwise one request to the feed with exactly `start_date` and `end_date`, and the processed feed on success or the caught error on failure |
| NeoService.OneDayFeed | src/__tests__/services/neoService.test.ts:27-53 | a one-day feed listing one object with element count 2 gives a response of count 2, copied rather than recounted, and one record whose object carries the first close approach |
| NeoService.NineteenDayRangeRefused | src/services/neoService.ts:43-48 | `2020-01-01`..`2020-01-20` is refused with the range error and nothing is requested |
| MarsRoverService.FirstCheckFailure | src/services/marsRoverService.ts:20-40 | the checks run in the order rover, date, sol and fail with 400; an unknown rover fails first, then a truthy malformed date with the date-format error, then a negative sol with the sol error; all pass exactly when the lower-cased rover is known, a truthy date is valid, and a given sol is not negative |
| MarsRoverService.NeedsManifest | src/services/marsRoverService.ts:43 | the manifest is fetched exactly when no sol is given and the earth date is absent or empty |
| MarsRoverService.PhotoParams | src/services/marsRoverService.ts:50-62 | `page` always; `sol` exactly when given; `earth_date` exactly when truthy; `camera` exactly when truthy; each with its given value |
| MarsRoverService.BuildPhotoParams | src/services/marsRoverService.ts:50-62 | filling the parameter object field by field yields `PhotoParams` |
| MarsRoverService.GetMarsRoverPhotos | src/services/marsRoverService.ts:12-82 | a failed check gives its error and no request; with neither sol nor date, the manifest of the lower-cased rover is requested first, and its failure ends the call with the caught error; otherwise the photos of the lower-cased rover are requested with `PhotoParams` for the given or manifest date and page default 1, and the payload is returned unchanged or the error is caught |
| MarsRoverService.RoverNameCaseInsensitive | src/services/marsRoverService.ts:20-26 | `Curiosity` and `SPIRIT` pass; an unknown rover fails with the rover error before the date and sol are looked at |
| MarsRoverService.SolZeroIsGiven | src/services/marsRoverService.ts:43-56 | sol 0 does not trigger the manifest fallback and is sent |
| MarsRoverService.ManifestDateIsQueried | src/services/marsRoverService.ts:43-62 | with no sol and no date the manifest is needed, and its date is sent as `earth_date` next to `page` |
| MarsRoverService.ParsedDigits | src/controllers/marsRoverController.ts:34-37 | the number parsed from a digit string is below 10 to the power of its length, and zero-padded to that length gives the string back |
| MarsRoverService.ParsedDigitsIsValue | src/controllers/marsRoverController.ts:34-37 | the number parsed from a digit string is the decimal value of its digits |
| MarsRoverService.SolArgument | src/controllers/marsRoverController.ts:34 | a sol is passed exactly when the query has a non-empty one; it is non-negative, below 10 to the power of the string's length, and zero-padded to that length gives the query's sol back, so it is the number its digits spell |
| MarsRoverService.SchemaAcceptedQueryPassesChecks | src/controllers/marsRoverController.ts:30-38 | a query the schema accepts, passed on as the controller does, always passes the service's date and sol checks for a known rover |
| ImageLibraryService.ClampPageSize | src/services/imageLibraryService.ts:28 | never above 100; sizes up to 100 pass unchanged, larger ones become 100 |
| ImageLibraryService.SearchParams | src/services/imageLibraryService.ts:25-39 | `q`, `page` and the clamped `page_size` always; `media_type`, `year_start` and `year_end` exactly when truthy, each with its given value |
| ImageLibraryService.SearchImageLibrary | src/services/imageLibraryService.ts:9-59 | a blank query gives the 400 error and no request; otherwise one plain `axios` request to the search host with `SearchParams` of the trimmed query and the defaults page 1 and size 100, and the payload unchanged or the caught error |
| ImageLibraryService.PageSizeClampExample | src/services/imageLibraryService.ts:28 | a page size of 500 is sent as 100 |
| ImageLibraryService.DefaultPaging | src/services/imageLibraryService.ts:12-13 | with the defaults, exactly `q`, page 1 and page size 100 are sent |
| ImageLibraryService.BlankQueryPassesSchemaFailsService | src/services/imageLibraryService.ts:18-23 | a white-space-only query passes the schema but trims to nothing, so the service refuses it |
| ImageLibraryService.DirectCallFailureIsInternal | src/services/imageLibraryService.ts:50-57 | any failure of the direct call becomes the service's operational 500 error |
| EpicImageService.EpicEndpoint | src/services/epicImageService.ts:21-23 | the date endpoint for a truthy date, else the latest-images endpoint |
| EpicImageService.Transform | src/services/epicImageService.ts:27-41 | the returned image is denormalised: `coords` repeats the centroid coordinates |
| EpicImageService.TransformCopiesFields | src/services/epicImageService.ts:28-37 | every upstream field is copied unchanged |
| EpicImageService.TransformOfFields | src/services/epicImageService.ts:38-40 | a denormalised image is the transform of its own fields: nothing but `coords` is added |
| EpicImageService.TransformAll | src/services/epicImageService.ts:27 | one image per item, same length and order |
| EpicImageService.GetEpicImages | src/services/epicImageService.ts:12-56 | an invalid truthy date gives the 400 format error and no request; otherwise one request to the chosen endpoint, and on success exactly the envelope `{success: true, data}`, with no error member, whose list is as long as the upstream one and holds denormalised images carrying each item's fields; or the caught error |
| EpicImageService.NoDateMeansLatest | src/services/epicImageService.ts:14-23 | a missing or empty date requests the latest images |
| ApodService.Normalise | src/services/apodService.ts:41-51 | every field copied; a falsy copyright becomes absent, a truthy one is kept |
| ApodService.NormaliseIdempotent | src/services/apodService.ts:50 | normalising twice is normalising once |
| ApodService.NormaliseKeepsNormal | src/services/apodService.ts:41-51 | a picture without an empty copyright is returned as it is |
| ApodService.GetApod | src/services/apodService.ts:23-62 | an invalid truthy date gives the 400 format error and no request; no date sends an empty parameter map; a valid date is sent as `date`; the normalised picture on success or the caught error on failure |
| ApodService.InvalidDateRefused | src/__tests__/services/apodService.test.ts:54-58 | `invalid-date` is refused with a 400 and nothing is requested |
| ApodService.NoDateSendsNoParams | src/__tests__/services/apodService.test.ts:71-76 | without a date the picture endpoint is called with empty parameters and a received picture succeeds |

## Left out

- HTTP transport is not modelled: the axios instance, the 10-second timeout, the
  network and the awaiting of responses. Each upstream call is a parameter holding its
  outcome.
- Interleaving of concurrent requests is not modelled. Every call is sequential, and a
  breaker is used by one caller at a time.
- The breaker does not gate any upstream call, because no service constructs or
  consults one. Blocking a call while the breaker is open is not part of the model.
- `Date.now()` is not read; each breaker operation that uses the clock takes `now`
  in milliseconds instead.
- Only the `YYYY-MM-DD` strings that the pattern lets through are parsed. Years are
  0..9999, so the ISO writer's six-digit form for other years is modelled but never
  reached.
- Validation.GetDaysDifference: a `dddd-dd-dd` string with a month outside 01..12 or a
  day outside 01..31 is modelled as an Invalid Date (NaN). A JavaScript engine may
  instead hand it to a legacy parser and produce a date. That changes the difference
  only for strings that fail validation, and no service computes a difference before
  validating both dates (src/services/neoService.ts:36-43).
- Text.ToLower: lowers ASCII capitals only, not the rest of Unicode. Rover names
  outside ASCII are therefore not lowered as `toLowerCase` would lower them.
- MarsRoverService.GetMarsRoverPhotos: `sol` and `page` are integers, not JavaScript
  numbers, so NaN, fractions and infinities are not modelled.
- ImageLibraryService.SearchImageLibrary: `page` and `pageSize` are integers, not
  JavaScript numbers, so NaN, fractions and infinities are not modelled.
- Parameter maps are unordered, so the order of the query string is not modelled.
- The NEO date map is given as the sequence of its keys in iteration order. Ordering
  integer-like keys first, as `Object.keys` does, is not modelled, because dates are
  never integer-like.
- Payload fields beyond the declared response types are not modelled. They are
  opaque to every service except APOD and EPIC, which copy named fields.
- Logging (`console.error`) is not modelled, because it has no effect on any result.
- ErrorMiddleware.ErrorHandler: the error's stack trace is a parameter rather than
  something the model captures.
- `isOperational` is carried but never read, because nothing in the core reads it.
- The controllers, routes, server setup and API documentation are not modelled, except
  the conversion of the Mars Rover query. They only wire the modelled functions
  to Express.
- An end-to-end test expects APOD `1990-01-01` to be refused. No code in the modelled
  services implements a date-range check for APOD, so the model does not have one.

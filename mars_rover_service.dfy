/** The Mars Rover photo service (src/services/marsRoverService.ts): rover,
    date and sol checks in that order, the fallback to the rover's latest
    photo date from its manifest, and a parameter map built up field by
    field. */
module MarsRoverService {
  import opened Wrappers
  import opened Constants
  import opened ApiTypes
  import opened ErrorMiddleware
  import opened Upstream
  import opened Text
  import opened Decimal
  import opened Validation
  import opened NasaTypes

  const ValidRovers: seq<string> := ["curiosity", "opportunity", "spirit"]
  const InvalidRover := "Invalid rover name. Must be one of: curiosity, opportunity, spirit"
  const NegativeSol := "Sol must be a non-negative integer"
  const MarsRoverError := "Error fetching Mars Rover photos"

  function ManifestPath(rover: string): string
  {
    "/mars-photos/api/v1/manifests/" + ToLower(rover)
  }

  function PhotosPath(rover: string): string
  {
    "/mars-photos/api/v1/rovers/" + ToLower(rover) + "/photos"
  }

  /** The first failing check, in the order rover, earth date, sol; None when
      all pass. */
  function FirstCheckFailure(rover: string, sol: Option<int>, earthDate: Option<string>): (e: Option<ApiError>)
    ensures e.Some? ==> e.value.statusCode == StatusBadRequest
    ensures ToLower(rover) !in ValidRovers ==> e == Some(ApiError(InvalidRover, StatusBadRequest, true))
    ensures ToLower(rover) in ValidRovers && Truthy(earthDate) && !ValidateDateFormat(earthDate.value) ==>
      e == Some(ApiError(InvalidDateFormat, StatusBadRequest, true))
    ensures (ToLower(rover) in ValidRovers && !(Truthy(earthDate) && !ValidateDateFormat(earthDate.value))
             && sol.Some? && sol.value < 0) ==> e == Some(ApiError(NegativeSol, StatusBadRequest, true))
    ensures e.None? <==>
      ToLower(rover) in ValidRovers
      && (Truthy(earthDate) ==> ValidateDateFormat(earthDate.value))
      && (sol.Some? ==> sol.value >= 0)
  {
    if ToLower(rover) !in ValidRovers then Some(NewApiError(InvalidRover, Some(StatusBadRequest), None))
    else if Truthy(earthDate) && !ValidateDateFormat(earthDate.value) then Some(NewApiError(InvalidDateFormat, Some(StatusBadRequest), None))
    else if sol.Some? && sol.value < 0 then Some(NewApiError(NegativeSol, Some(StatusBadRequest), None))
    else None
  }

  /** The manifest is consulted only when neither a sol nor an earth date was
      given. */
  predicate NeedsManifest(sol: Option<int>, earthDate: Option<string>): (needed: bool)
    ensures needed <==> sol.None? && (earthDate.None? || earthDate.value == "")
  {
    sol.None? && !Truthy(earthDate)
  }

  /** The photos query for the given (possibly defaulted) earth date: `page`
      always, and each optional field exactly when it is given. */
  function PhotoParams(sol: Option<int>, earthDate: Option<string>, camera: Option<string>, page: int): (params: map<string, Param>)
    ensures params.Keys <= {"page", "sol", "earth_date", "camera"}
    ensures "page" in params && params["page"] == NumberParam(page)
    ensures "sol" in params <==> sol.Some?
    ensures sol.Some? ==> params["sol"] == NumberParam(sol.value)
    ensures "earth_date" in params <==> Truthy(earthDate)
    ensures Truthy(earthDate) ==> params["earth_date"] == StringParam(earthDate.value)
    ensures "camera" in params <==> Truthy(camera)
    ensures Truthy(camera) ==> params["camera"] == StringParam(camera.value)
  {
    var withPage := map["page" := NumberParam(page)];
    var withSol := if sol.Some? then withPage["sol" := NumberParam(sol.value)] else withPage;
    var withDate := if Truthy(earthDate) then withSol["earth_date" := StringParam(earthDate.value)] else withSol;
    if Truthy(camera) then withDate["camera" := StringParam(camera.value)] else withDate
  }

  /** The service's parameter object, filled in one field at a time. */
  method BuildPhotoParams(sol: Option<int>, earthDate: Option<string>, camera: Option<string>, page: int)
      returns (params: map<string, Param>)
    ensures params == PhotoParams(sol, earthDate, camera, page)
  {
    params := map["page" := NumberParam(page)];
    if sol.Some? {
      params := params["sol" := NumberParam(sol.value)];
    }
    if Truthy(earthDate) {
      params := params["earth_date" := StringParam(earthDate.value)];
    }
    if Truthy(camera) {
      params := params["camera" := StringParam(camera.value)];
    }
  }

  /** `getMarsRoverPhotos(rover, sol?, earthDate?, camera?, page = 1)` with
      the outcomes of the manifest call and of the photos call. */
  method GetMarsRoverPhotos(
      rover: string, sol: Option<int>, earthDate: Option<string>, camera: Option<string>, page: Option<int>,
      manifest: Outcome<ManifestResponse>, photos: Outcome<MarsRoverPhotosResponse>)
      returns (requests: seq<Request>, result: Result<ApiResponse<MarsRoverPhotosResponse>, ApiError>)
    ensures FirstCheckFailure(rover, sol, earthDate).Some? ==>
      requests == [] && result == Err(FirstCheckFailure(rover, sol, earthDate).value)
    ensures FirstCheckFailure(rover, sol, earthDate).None? && NeedsManifest(sol, earthDate) ==>
      |requests| >= 1 && requests[0] == Get(NasaClient, ManifestPath(rover), map[])
    ensures FirstCheckFailure(rover, sol, earthDate).None? && NeedsManifest(sol, earthDate) && manifest.Failed? ==>
      |requests| == 1 && result == Err(CatchAs(manifest.error, MarsRoverError))
    ensures FirstCheckFailure(rover, sol, earthDate).None? && !(NeedsManifest(sol, earthDate) && manifest.Failed?) ==>
      var date := if NeedsManifest(sol, earthDate) then Some(manifest.payload.photo_manifest.max_date) else earthDate;
      && |requests| == (if NeedsManifest(sol, earthDate) then 2 else 1)
      && requests[|requests| - 1] == Get(NasaClient, PhotosPath(rover),
           PhotoParams(sol, date, camera, match page case Some(p) => p case None => 1))
      && (photos.Received? ==> result == Ok(Success(photos.payload)))
      && (photos.Failed? ==> result == Err(CatchAs(photos.error, MarsRoverError)))
  {
    ghost var failure := FirstCheckFailure(rover, sol, earthDate);
    var lower := ToLower(rover);
    if lower !in ValidRovers {
      return [], Err(NewApiError(InvalidRover, Some(StatusBadRequest), None));
    }
    if Truthy(earthDate) && !ValidateDateFormat(earthDate.value) {
      return [], Err(NewApiError(InvalidDateFormat, Some(StatusBadRequest), None));
    }
    if sol.Some? && sol.value < 0 {
      return [], Err(NewApiError(NegativeSol, Some(StatusBadRequest), None));
    }

    assert failure.None?;
    var date := earthDate;
    requests := [];
    if sol.None? && !Truthy(date) {
      requests := requests + [Get(NasaClient, ManifestPath(rover), map[])];
      match manifest {
        case Failed(error) =>
          return requests, Err(CatchAs(error, MarsRoverError));
        case Received(m) =>
          date := Some(m.photo_manifest.max_date);
      }
    }

    var params := BuildPhotoParams(sol, date, camera, match page case Some(p) => p case None => 1);
    requests := requests + [Get(NasaClient, PhotosPath(rover), params)];
    match photos {
      case Received(payload) =>
        result := Ok(Success(payload));
      case Failed(error) =>
        result := Err(CatchAs(error, MarsRoverError));
    }
  }

  /** The rover name is checked without regard to ASCII case. */
  lemma RoverNameCaseInsensitive()
    ensures FirstCheckFailure("Curiosity", None, None).None?
    ensures FirstCheckFailure("SPIRIT", None, None).None?
    ensures FirstCheckFailure("perseverance", Some(-1), Some("bad")) == Some(ApiError(InvalidRover, StatusBadRequest, true))
  {
    assert ToLower("Curiosity") == "curiosity";
    assert ToLower("SPIRIT") == "spirit";
  }

  /** A sol of 0 is a given sol: it is sent and does not trigger the manifest
      fallback. */
  lemma SolZeroIsGiven(earthDate: Option<string>)
    ensures !NeedsManifest(Some(0), earthDate)
    ensures "sol" in PhotoParams(Some(0), earthDate, None, 1)
  {
  }

  /** With no sol and no date, a manifest whose latest date is 2020-07-01
      leads to a photos query for that earth date. */
  lemma ManifestDateIsQueried()
    ensures NeedsManifest(None, None)
    ensures PhotoParams(None, Some("2020-07-01"), None, 1)
      == map["page" := NumberParam(1), "earth_date" := StringParam("2020-07-01")]
  {
  }

  /** `parseInt` of a string `^\d+$` accepts: its decimal value. */
  function ParsedDigits(s: string): (n: nat)
    requires IsDigitString(s)
    ensures n < Pow10(|s|) && Pad(n, |s|) == s
  {
    PadValueOf(s);
    ValueOf(s)
  }

  /** The arguments the controller passes on for a query the schema has
      accepted (src/controllers/marsRoverController.ts). */
  function SolArgument(query: MarsRoverQuery): (sol: Option<int>)
    requires MarsRoverQuerySchema(query)
    ensures sol.Some? <==> query.sol.Some? && query.sol.value != ""
    ensures sol.Some? ==>
      && 0 <= sol.value < Pow10(|query.sol.value|)
      && Pad(sol.value, |query.sol.value|) == query.sol.value
  {
    if Truthy(query.sol) then Some(ParsedDigits(query.sol.value)) else None
  }

  /** The number `parseInt` yields is the one the digits denote: the only
      number below 10^|s| whose zero-padded digits are `s`. */
  lemma {:induction false} ParsedDigitsIsValue(s: string)
    requires IsDigitString(s)
    ensures ParsedDigits(s) == ValueOf(s)
  {
    var n := ParsedDigits(s);
    ValueOfPad(n, |s|);
  }

  /** A query the schema accepts, for a known rover, always passes the
      service's own date and sol checks: the service repeats checks the
      schema has already made. */
  lemma SchemaAcceptedQueryPassesChecks(rover: string, query: MarsRoverQuery)
    requires MarsRoverQuerySchema(query) && ToLower(rover) in ValidRovers
    ensures FirstCheckFailure(rover, SolArgument(query), query.earth_date).None?
  {
  }
}

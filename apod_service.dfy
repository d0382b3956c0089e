/** The Astronomy Picture of the Day service (src/services/apodService.ts):
    an optional date check, a parameter map that starts empty and gains the
    date, and a field copy that drops an empty copyright. */
module ApodService {
  import opened Wrappers
  import opened Constants
  import opened ApiTypes
  import opened ErrorMiddleware
  import opened Upstream
  import opened Text
  import opened Validation
  import opened NasaTypes

  /** The returned picture: every field as the upstream gave it, except that
      a falsy copyright (absent or empty) becomes absent. */
  function Normalise(picture: ApodResponse): (r: ApodResponse)
    ensures r.copyright.Some? ==> r.copyright.value != ""
    ensures Truthy(picture.copyright) ==> r.copyright == picture.copyright
    ensures !Truthy(picture.copyright) ==> r.copyright.None?
    ensures r == picture.(copyright := r.copyright)
  {
    picture.(copyright := if Truthy(picture.copyright) then picture.copyright else None)
  }

  /** Normalising twice is normalising once. */
  lemma NormaliseIdempotent(picture: ApodResponse)
    ensures Normalise(Normalise(picture)) == Normalise(picture)
  {
  }

  /** A picture whose copyright is absent or non-empty is returned as it is. */
  lemma NormaliseKeepsNormal(picture: ApodResponse)
    requires picture.copyright != Some("")
    ensures Normalise(picture) == picture
  {
  }

  /** `getAPOD(date?)` with the outcome of the call. */
  method GetApod(date: Option<string>, response: Outcome<ApodResponse>)
      returns (requests: seq<Request>, result: Result<ApiResponse<ApodResponse>, ApiError>)
    ensures Truthy(date) && !ValidateDateFormat(date.value) ==>
      requests == [] && result == Err(ApiError(InvalidDateFormat, StatusBadRequest, true))
    ensures !Truthy(date) ==> requests == [Get(NasaClient, ApodEndpoint, map[])]
    ensures Truthy(date) && ValidateDateFormat(date.value) ==>
      requests == [Get(NasaClient, ApodEndpoint, map["date" := StringParam(date.value)])]
    ensures requests != [] && response.Received? ==> result == Ok(Success(Normalise(response.payload)))
    ensures requests != [] && response.Failed? ==> result == Err(CatchAs(response.error, ApodError))
  {
    var params: map<string, Param> := map[];
    if Truthy(date) {
      if !ValidateDateFormat(date.value) {
        return [], Err(NewApiError(InvalidDateFormat, Some(StatusBadRequest), None));
      }
      params := params["date" := StringParam(date.value)];
    }
    requests := [Get(NasaClient, ApodEndpoint, params)];
    match response {
      case Received(picture) =>
        result := Ok(Success(Normalise(picture)));
      case Failed(error) =>
        result := Err(CatchAs(error, ApodError));
    }
  }

  /** `'invalid-date'` is refused before any request. */
  method InvalidDateRefused(response: Outcome<ApodResponse>)
      returns (requests: seq<Request>, result: Result<ApiResponse<ApodResponse>, ApiError>)
    ensures requests == [] && result.Err? && result.error.statusCode == StatusBadRequest
  {
    requests, result := GetApod(Some("invalid-date"), response);
  }

  /** Without a date, the picture endpoint is called with an empty parameter
      map, and a received picture makes a successful envelope. */
  method NoDateSendsNoParams(response: Outcome<ApodResponse>)
      returns (requests: seq<Request>, result: Result<ApiResponse<ApodResponse>, ApiError>)
    ensures requests == [Get(NasaClient, "/planetary/apod", map[])]
    ensures response.Received? ==> result.Ok? && result.value.success
  {
    requests, result := GetApod(None, response);
  }
}

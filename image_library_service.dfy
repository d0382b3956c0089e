/** The NASA Image and Video Library search (src/services/imageLibraryService.ts):
    the trimmed-query check, the page-size clamp, and a parameter map that
    gains each optional filter when it is given. It calls the library host
    directly with plain `axios`, not through the shared NASA client. */
module ImageLibraryService {
  import opened Wrappers
  import opened ApiTypes
  import opened ErrorMiddleware
  import opened Constants
  import opened Upstream
  import opened Text
  import opened Validation
  import opened NasaTypes

  const SearchUrl := "https://images-api.nasa.gov/search"
  const QueryRequired := "Search query is required"
  const ImageLibraryError := "Error searching NASA Image Library"
  /** The largest page the library serves. */
  const MaxPageSize := 100

  /** `Math.min(pageSize, 100)` */
  function ClampPageSize(pageSize: int): (n: int)
    ensures n <= MaxPageSize
    ensures pageSize <= MaxPageSize ==> n == pageSize
    ensures pageSize > MaxPageSize ==> n == MaxPageSize
  {
    if pageSize < MaxPageSize then pageSize else MaxPageSize
  }

  /** The search parameters for a query whose trimmed form is `q`. */
  function SearchParams(q: string, mediaType: Option<string>, page: int, pageSize: int,
                        yearStart: Option<string>, yearEnd: Option<string>): (params: map<string, Param>)
    ensures params.Keys <= {"q", "page", "page_size", "media_type", "year_start", "year_end"}
    ensures "q" in params && params["q"] == StringParam(q)
    ensures "page" in params && params["page"] == NumberParam(page)
    ensures "page_size" in params && params["page_size"] == NumberParam(ClampPageSize(pageSize))
    ensures "media_type" in params <==> Truthy(mediaType)
    ensures Truthy(mediaType) ==> params["media_type"] == StringParam(mediaType.value)
    ensures "year_start" in params <==> Truthy(yearStart)
    ensures Truthy(yearStart) ==> params["year_start"] == StringParam(yearStart.value)
    ensures "year_end" in params <==> Truthy(yearEnd)
    ensures Truthy(yearEnd) ==> params["year_end"] == StringParam(yearEnd.value)
  {
    var base := map["q" := StringParam(q), "page" := NumberParam(page), "page_size" := NumberParam(ClampPageSize(pageSize))];
    var withMedia := if Truthy(mediaType) then base["media_type" := StringParam(mediaType.value)] else base;
    var withStart := if Truthy(yearStart) then withMedia["year_start" := StringParam(yearStart.value)] else withMedia;
    if Truthy(yearEnd) then withStart["year_end" := StringParam(yearEnd.value)] else withStart
  }

  /** `searchNASAImageLibrary(query, mediaType?, page = 1, pageSize = 100,
      yearStart?, yearEnd?)` with the outcome of the call. */
  method SearchImageLibrary(
      query: string, mediaType: Option<string>, page: Option<int>, pageSize: Option<int>,
      yearStart: Option<string>, yearEnd: Option<string>, response: Outcome<ImageLibraryResponse>)
      returns (requests: seq<Request>, result: Result<ApiResponse<ImageLibraryResponse>, ApiError>)
    ensures Trim(query) == [] ==>
      requests == [] && result == Err(ApiError(QueryRequired, StatusBadRequest, true))
    ensures Trim(query) != [] ==>
      requests == [Get(PlainAxios, SearchUrl, SearchParams(Trim(query), mediaType,
        match page case Some(p) => p case None => 1,
        match pageSize case Some(n) => n case None => MaxPageSize,
        yearStart, yearEnd))]
    ensures Trim(query) != [] && response.Received? ==> result == Ok(Success(response.payload))
    ensures Trim(query) != [] && response.Failed? ==> result == Err(CatchAs(response.error, ImageLibraryError))
  {
    if query == "" || |Trim(query)| == 0 {
      return [], Err(NewApiError(QueryRequired, Some(StatusBadRequest), None));
    }

    var params: map<string, Param> := map[
      "q" := StringParam(Trim(query)),
      "page" := NumberParam(match page case Some(p) => p case None => 1),
      "page_size" := NumberParam(ClampPageSize(match pageSize case Some(n) => n case None => MaxPageSize))];
    if Truthy(mediaType) {
      params := params["media_type" := StringParam(mediaType.value)];
    }
    if Truthy(yearStart) {
      params := params["year_start" := StringParam(yearStart.value)];
    }
    if Truthy(yearEnd) {
      params := params["year_end" := StringParam(yearEnd.value)];
    }

    requests := [Get(PlainAxios, SearchUrl, params)];
    match response {
      case Received(payload) =>
        result := Ok(Success(payload));
      case Failed(error) =>
        result := Err(CatchAs(error, ImageLibraryError));
    }
  }

  /** A page size of 500 is sent as 100. */
  lemma PageSizeClampExample()
    ensures ClampPageSize(500) == 100 && ClampPageSize(100) == 100 && ClampPageSize(25) == 25
  {
  }

  /** The defaults, page 1 and page size 100, are what is sent when neither
      is given. */
  lemma DefaultPaging(q: string)
    ensures var params := SearchParams(q, None, 1, MaxPageSize, None, None);
      params == map["q" := StringParam(q), "page" := NumberParam(1), "page_size" := NumberParam(100)]
  {
  }

  /** A query of white space only passes the schema's minimum length, which
      counts characters before trimming, and is then refused by the service's
      own trimmed check. */
  lemma BlankQueryPassesSchemaFailsService(q: string)
    requires |q| >= 1 && forall i :: 0 <= i < |q| ==> IsWhiteSpace(q[i])
    ensures ImageLibraryQuerySchema(ImageLibraryQuery(Some(q), None, None, None, None, None))
    ensures Trim(q) == []
  {
  }

  /** A failure of the library host never comes back with its own status:
      the direct call has no interceptor, so whatever `axios` throws becomes
      the service's 500 error. */
  lemma DirectCallFailureIsInternal(message: string, code: Option<string>)
    ensures CatchAs(Plain(message, code), ImageLibraryError) == ApiError(ImageLibraryError, StatusInternalServerError, true)
  {
  }
}

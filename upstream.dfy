/** The upstream side of every service: the request a service issues, the
    outcome the HTTP client hands back, the effect of the shared NASA client
    (src/services/baseService.ts) and the `catch` block every service ends
    with. */
module Upstream {
  import opened Wrappers
  import opened Constants
  import opened Text
  import opened ApiTypes
  import opened ErrorMiddleware

  /** A query parameter value: the services send strings and numbers. */
  datatype Param = StringParam(s: string) | NumberParam(n: int)

  /** Which client sends the request: the shared NASA client (base URL, API
      key, error interceptor) or plain `axios`. */
  datatype Client = NasaClient | PlainAxios

  /** `client.get(url, {params})` */
  datatype Request = Get(client: Client, url: string, params: map<string, Param>)

  /** What an awaited upstream call yields: the payload, or the error it
      throws. */
  datatype Outcome<T> = Received(payload: T) | Failed(error: Thrown)

  /** What a service does with one invocation: the upstream requests it
      issues, in order, and the envelope it returns or the error it throws. */
  datatype Call<T> = Call(requests: seq<Request>, result: Result<ApiResponse<T>, ApiError>)

  /** The API key of the shared client: `NASA_API_KEY` when set and non-empty,
      otherwise `DEMO_KEY`. */
  function ApiKey(nasaApiKey: Option<string>): (key: string)
    ensures Truthy(nasaApiKey) ==> key == nasaApiKey.value
    ensures !Truthy(nasaApiKey) ==> key == "DEMO_KEY"
    ensures key != ""
  {
    if Truthy(nasaApiKey) then nasaApiKey.value else "DEMO_KEY"
  }

  /** The request as it leaves the process: the shared client prefixes its
      base URL and adds `api_key` to the parameters; plain `axios` sends the
      request as given. */
  function Sent(r: Request, nasaApiKey: Option<string>): (w: Request)
    ensures r.client.NasaClient? ==> w.url == NasaBaseUrl + r.url
    ensures r.client.NasaClient? ==> w.params.Keys == r.params.Keys + {"api_key"}
    ensures r.client.NasaClient? && "api_key" !in r.params ==> w.params["api_key"] == StringParam(ApiKey(nasaApiKey))
    ensures r.client.NasaClient? ==> forall k :: k in r.params ==> w.params[k] == r.params[k]
    ensures r.client.PlainAxios? ==> w == r
  {
    match r.client
    case NasaClient => Get(r.client, NasaBaseUrl + r.url, map["api_key" := StringParam(ApiKey(nasaApiKey))] + r.params)
    case PlainAxios => r
  }

  /** The error the shared client's response interceptor throws for a failed
      call: the fixed NASA message, and the upstream HTTP status when there
      was a response with a non-zero status, else 500. */
  function ClientFailure(responseStatus: Option<int>): (e: ApiError)
    ensures e.message == NasaApiError && e.isOperational
    ensures responseStatus.Some? && responseStatus.value != 0 ==> e.statusCode == responseStatus.value
    ensures responseStatus.None? || responseStatus.value == 0 ==> e.statusCode == StatusInternalServerError
  {
    var status := if responseStatus.Some? && responseStatus.value != 0 then Some(responseStatus.value) else None;
    NewApiError(NasaApiError, status, None)
  }

  /** The outcomes the shared client can produce: a payload, or the error its
      interceptor throws. */
  ghost predicate FromNasaClient<T>(o: Outcome<T>)
  {
    o.Failed? ==> exists status :: o.error == Api(ClientFailure(status))
  }

  /** The `catch` block of every service: an `APIError` is rethrown as it is,
      anything else becomes a 500 with the service's own message. */
  function CatchAs(thrown: Thrown, fallback: string): (e: ApiError)
    ensures thrown.Api? ==> e == thrown.error
    ensures !thrown.Api? ==> e == ApiError(fallback, StatusInternalServerError, true)
  {
    match thrown
    case Api(error) => error
    case Plain(_, _) => NewApiError(fallback, None, None)
  }

  /** A failure of the shared client reaches the caller unchanged through any
      service's `catch`: its status is the upstream one. */
  lemma NasaClientFailurePassesThrough<T>(o: Outcome<T>, fallback: string)
    requires FromNasaClient(o) && o.Failed?
    ensures CatchAs(o.error, fallback).message == NasaApiError
    ensures CatchAs(o.error, fallback) == o.error.error
  {
  }
}

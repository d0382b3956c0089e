/** The response envelope every endpoint answers with (src/types/api.types.ts). */
module ApiTypes {
  import opened Wrappers

  /** The `error` member of a failed response; `stack` only in development. */
  datatype ErrorInfo = ErrorInfo(message: string, stack: Option<string>)

  /** `{success, data?, error?}` */
  datatype ApiResponse<T> = ApiResponse(success: bool, data: Option<T>, error: Option<ErrorInfo>)

  /** The envelope's invariant: success holds exactly when data is present,
      and data is present exactly when error is absent. */
  predicate WellFormed<T>(r: ApiResponse<T>)
  {
    (r.success <==> r.data.Some?) && (r.data.Some? <==> r.error.None?)
  }

  /** The envelope a service returns on success: `{success: true, data}`. */
  function Success<T>(data: T): (r: ApiResponse<T>)
    ensures WellFormed(r) && r.success && r.data == Some(data)
  {
    ApiResponse(true, Some(data), None)
  }
}

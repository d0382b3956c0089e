/** Configuration values, HTTP status codes and error messages shared by the
    services (src/utils/constants.ts). */
module Constants {

  // NASA API configuration
  const NasaBaseUrl := "https://api.nasa.gov"
  const NasaTimeoutMs := 10000
  const ApodEndpoint := "/planetary/apod"
  const NeoEndpoint := "/neo/rest/v1/feed"

  // HTTP status codes
  const StatusOk := 200
  const StatusBadRequest := 400
  const StatusNotFound := 404
  const StatusInternalServerError := 500
  const StatusServiceUnavailable := 503

  // Error messages
  const InvalidDateFormat := "Invalid date format. Use YYYY-MM-DD"
  const DateRangeExceeded := "Date range cannot exceed 7 days"
  const RequiredParameters := "start_date and end_date parameters are required"
  const NasaApiError := "Failed to fetch data from NASA API"
  const ApodError := "Failed to fetch Astronomy Picture of the Day"
  const NeoError := "Failed to fetch Near Earth Objects data"
  const ExternalServiceUnavailable := "External service unavailable"
}

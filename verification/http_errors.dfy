/** The errors the weather handlers raise as `HTTPException`s. */
module HttpErrors {
  import opened Wrappers

  datatype ApiError =
      /** The upstream feed could not be fetched (main.py, `get_hko_data`). */
    | ServiceUnavailable(reason: string)
      /** No station's place matches the requested name; the detail lists
          the place of every station, in feed order (`None` where a station
          has no place). */
    | StationNotFound(station: string, availableStations: seq<Option<string>>)
  {
    /** The HTTP status code the error is raised with. */
    function StatusCode(): int {
      match this
      case ServiceUnavailable(_) => 503
      case StationNotFound(_, _) => 404
    }
  }
}

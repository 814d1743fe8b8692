/** Optional values and the app's error outcomes. Python exceptions and early
    returns of the app become `Err` values here. */
module Results {

  datatype Option<+T> = None | Some(value: T)

  /** Why an operation stopped early. */
  datatype Failure =
    | EmptyQuery      // the search text was blank after stripping
    | NoMatches       // the geocoding search returned an empty list
    | NotFound        // the geocoding lookup for a city returned an empty list
    | FetchFailed     // transport error or non-success HTTP status
    | NoForecastData  // the forecast produced no day at all
    | EmptyBucket     // a day with no entries reached the summary
    | TooManyRows     // a day has more entries than the hourly panel has rows
    | UnknownDay      // the requested date has no bucket

  datatype Result<+T> = Ok(value: T) | Err(failure: Failure)
}

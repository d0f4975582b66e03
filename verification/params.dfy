/** The request body of the analysis endpoint, with the defaults it declares. */
module Params {

  datatype FilterParams = FilterParams(
    minAthMarketCap: real,
    maxDrawdown: real,
    minDrawdown: real,
    minCurrentMarketCap: real,
    maxResults: int)

  /** The defaults as declared: note the minimum drawdown (90) exceeds the maximum (50). */
  const Defaults := FilterParams(500000.0, 50.0, 90.0, 20000.0, 100)

  /** The same defaults with the two drawdown bounds the right way round. */
  const IntendedDefaults := FilterParams(500000.0, 90.0, 50.0, 20000.0, 100)
}

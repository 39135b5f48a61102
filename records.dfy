/** The structured record the extractors produce and the renderer consumes: the
    dictionary with keys `broker`, `load_number`, `pickups`, `deliveries`,
    `rate` and `total_miles`. A key that is absent is modelled by its empty
    value (`""` or `[]`), which the code treats alike everywhere it reads the
    record with `.get`. */
module Records {

  /** One pickup or delivery: the `facility`, `address` and `time` keys. */
  datatype Stop = Stop(facility: string, address: string, time: string)

  datatype Record = Record(
    broker: string,
    loadNumber: string,
    pickups: seq<Stop>,
    deliveries: seq<Stop>,
    rate: string,
    totalMiles: string)

  /** The record the regex extractor starts from: every key present and empty. */
  const EmptyRecord := Record("", "", [], [], "", "")
}

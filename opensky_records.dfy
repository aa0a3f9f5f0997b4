/** One flight as the OpenSky `/flights/airport` endpoint returns it: a JSON object whose keys
    may be missing or `null`. Only the keys the code reads are modelled. */
module OpenSkyRecords {
  import opened Wrappers

  /** A key of a JSON object: absent, `null` (or of a type the code cannot use), or a value. */
  datatype Field<T> = Missing | Null | Present(value: T) {

    /** `record.get(key)`: a missing key and `null` both read as `None`. */
    function Get(): (r: Option<T>)
      ensures r.Some? <==> Present?
      ensures r.Some? ==> r.value == value
    {
      if Present? then Some(value) else None
    }
  }

  datatype Record = Record(
    icao24: Field<string>,
    callsign: Field<string>,
    estDepartureAirport: Field<string>,
    estArrivalAirport: Field<string>,
    firstSeen: Field<int>,
    lastSeen: Field<int>)

  /** The parsed value of a response body, as the service reads it. A JSON list of objects
      gives its records. An empty object or an empty string reads as `Some([])`: `len`, the
      truth test and both comprehensions accept it and find nothing. `None` stands for every
      body whose reading raises inside the service: `null`, a number, a boolean, a non-empty
      object or string, or a list holding something other than an object. */
  type Body = Option<seq<Record>>

  /** The dict the management service returns and the import command reads, by key. */
  type FlightsDict = map<string, seq<Record>>
}

/** The management-command client of the OpenSky API
    (flights/management/opensky_service.py): it asks for the flights of one airport over the
    last `hours` hours and splits the answer into departures and arrivals. */
module OpenSkyApi {
  import opened Wrappers
  import opened Seqs
  import opened Http
  import opened OpenSkyRecords

  const BaseUrl := "https://opensky-network.org/api"
  const FlightsByAirportUrl := BaseUrl + "/flights/airport"
  const SecondsPerHour := 3600
  const RequestTimeout := 30

  /** The `begin`/`end` pair of a query, in Unix seconds. */
  datatype Window = Window(begin: int, end: int)

  /** The window ends now and reaches back exactly `hours` hours. */
  function QueryWindow(now: int, hours: int): (w: Window)
    ensures w.end == now
    ensures w.end - w.begin == hours * SecondsPerHour
    ensures hours >= 0 ==> w.begin <= w.end
  {
    Window(now - hours * SecondsPerHour, now)
  }

  /** The request for `icao`: the airport under key `airport`, the window under `begin` and
      `end`, the configured credentials always passed (even when unset), a 30 s timeout. */
  function FlightsRequest(icao: string, hours: int, now: int, username: Option<string>,
                          password: Option<string>): (r: Request)
    ensures r.url == FlightsByAirportUrl && r.timeout == RequestTimeout
    ensures r.params.Keys == {"airport", "begin", "end"}
    ensures r.params["airport"] == PStr(icao)
    ensures r.params["end"] == PInt(now) && r.params["begin"] == PInt(now - hours * SecondsPerHour)
    ensures r.auth == Basic(username, password)
  {
    var w := QueryWindow(now, hours);
    Request(FlightsByAirportUrl,
            map["airport" := PStr(icao), "begin" := PInt(w.begin), "end" := PInt(w.end)],
            Basic(username, password), RequestTimeout)
  }

  /** The dict has exactly the two lists, every departure leaves `icao`, every arrival reaches it. */
  predicate ServiceShaped(icao: string, d: FlightsDict) {
    && d.Keys == {"departures", "arrivals"}
    && (forall f :: f in d["departures"] ==> f.estDepartureAirport == Present(icao))
    && (forall f :: f in d["arrivals"] ==> f.estArrivalAirport == Present(icao))
  }

  /** `departures = [f for f in data if f.get('estDepartureAirport') == icao]` and
      `arrivals = [f for f in data if f.get('estArrivalAirport') == icao]`. */
  function Split(icao: string, data: seq<Record>): (d: FlightsDict)
    ensures ServiceShaped(icao, d)
    ensures forall f :: f in d["departures"] <==> f in data && f.estDepartureAirport == Present(icao)
    ensures forall f :: f in d["arrivals"] <==> f in data && f.estArrivalAirport == Present(icao)
    ensures IsSubsequence(d["departures"], data) && IsSubsequence(d["arrivals"], data)
    ensures forall f :: multiset(d["departures"])[f] ==
                          if f.estDepartureAirport == Present(icao) then multiset(data)[f] else 0
    ensures forall f :: multiset(d["arrivals"])[f] ==
                          if f.estArrivalAirport == Present(icao) then multiset(data)[f] else 0
  {
    map["departures" := Filter(data, (f: Record) => f.estDepartureAirport.Get() == Some(icao)),
        "arrivals" := Filter(data, (f: Record) => f.estArrivalAirport.Get() == Some(icao))]
  }

  /** A record that leaves and reaches `icao` is in both lists; one that does neither is in
      neither; every other record is in exactly one. */
  lemma SplitCoverage(icao: string, data: seq<Record>, f: Record)
    requires f in data
    ensures var d := Split(icao, data);
      && (f in d["departures"] <==> f.estDepartureAirport == Present(icao))
      && (f in d["arrivals"] <==> f.estArrivalAirport == Present(icao))
  {
  }

  /** `OpenSkyService.get_flights_by_airport`: one request; on status 200 with a readable body
      the two lists, otherwise (another status, an exception, an unreadable body) `None`. */
  method GetFlightsByAirport(icao: string, hours: int, now: int, username: Option<string>,
                             password: Option<string>, send: Request -> Outcome<Body>)
    returns (sent: Request, r: Option<FlightsDict>)
    ensures sent == FlightsRequest(icao, hours, now, username, password)
    ensures r.Some? <==> send(sent).Response? && send(sent).status == 200 && send(sent).body.Some?
    ensures r.Some? ==> r.value == Split(icao, send(sent).body.value) && ServiceShaped(icao, r.value)
  {
    sent := FlightsRequest(icao, hours, now, username, password);
    var response := send(sent);
    if response.Response? && response.status == 200 {
      match response.body
      case None =>
        r := None;
      case Some(data) =>
        r := Some(Split(icao, data));
    } else {
      r := None;
    }
  }
}

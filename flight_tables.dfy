/** The two tables the import command writes: airports keyed by ICAO code
    (flights/models.py) and flights keyed by (callsign, icao24, departure, arrival), with the
    ORM's `get_or_create` and `update_or_create` on them. */
module FlightTables {
  import opened Wrappers
  import opened OpenSkyRecords

  const PlaceholderNamePrefix := "Аэропорт "
  const UnknownPlace := "Неизвестно"

  /** A row of the airport table; `icao` is the primary key. */
  datatype Airport = Airport(
    icao: string, iata: string, name: string, city: string, country: string,
    latitude: real, longitude: real)

  /** The `defaults` the command gives `get_or_create` for an airport it has not seen. */
  function Placeholder(icao: string): (a: Airport)
    ensures a.icao == icao && a.name == PlaceholderNamePrefix + icao && a.iata == ""
    ensures a.city == UnknownPlace && a.country == UnknownPlace
    ensures a.latitude == 0.0 && a.longitude == 0.0
  {
    Airport(icao, "", PlaceholderNamePrefix + icao, UnknownPlace, UnknownPlace, 0.0, 0.0)
  }

  /** The lookup fields of `update_or_create`: no two flight rows share them. */
  datatype FlightKey = FlightKey(callsign: string, icao24: Option<string>, departure: string, arrival: string)

  /** The `defaults` of a flight row: timestamps in Unix seconds and the raw record. */
  datatype FlightRow = FlightRow(firstSeen: int, lastSeen: int, durationMinutes: int, openskyData: Record)

  /** The database: airports by primary key with their creation order, and flights by key. */
  datatype Tables = Tables(
    airports: map<string, Airport>,
    order: seq<string>,
    flights: map<FlightKey, FlightRow>)

  /** `order` lists every airport exactly once, and each airport row carries its own key. */
  predicate TablesValid(t: Tables) {
    && (forall i :: 0 <= i < |t.order| ==> t.order[i] in t.airports)
    && (forall k :: k in t.airports ==> k in t.order)
    && (forall i, j :: 0 <= i < j < |t.order| ==> t.order[i] != t.order[j])
    && (forall k :: k in t.airports ==> t.airports[k].icao == k)
  }

  /** `Airport.objects.get_or_create(icao_code=icao, defaults=...)`: an existing airport is kept
      as it is; an unknown code adds exactly one placeholder row, last in creation order. */
  function GetOrCreate(t: Tables, icao: string): (r: Tables)
    ensures icao in r.airports && r.flights == t.flights
    ensures icao in t.airports ==> r == t
    ensures icao !in t.airports ==>
      r.airports == t.airports[icao := Placeholder(icao)] && r.order == t.order + [icao]
    ensures |r.airports| == |t.airports| + (if icao in t.airports then 0 else 1)
    ensures forall k :: k in t.airports ==> k in r.airports && r.airports[k] == t.airports[k]
    ensures TablesValid(t) ==> TablesValid(r)
  {
    if icao in t.airports then t
    else Tables(t.airports[icao := Placeholder(icao)], t.order + [icao], t.flights)
  }

  /** `Flight.objects.update_or_create(key, defaults=row)`: the row under `key` is replaced or
      added; no other row changes and the airport table is untouched. */
  function UpdateOrCreate(t: Tables, key: FlightKey, row: FlightRow): (r: Tables)
    ensures key in r.flights && r.flights[key] == row
    ensures r.flights.Keys == t.flights.Keys + {key}
    ensures forall k :: k in t.flights && k != key ==> r.flights[k] == t.flights[k]
    ensures r.airports == t.airports && r.order == t.order
    ensures |r.flights| == |t.flights| + (if key in t.flights then 0 else 1)
  {
    t.(flights := t.flights[key := row])
  }

  /** The database as the import command sees it through the ORM. */
  class Database {
    var airports: map<string, Airport>
    var order: seq<string>
    var flights: map<FlightKey, FlightRow>

    function State(): Tables
      reads this
    {
      Tables(airports, order, flights)
    }

    ghost predicate Valid()
      reads this
    {
      TablesValid(State())
    }

    constructor (initial: Tables)
      requires TablesValid(initial)
      ensures Valid() && State() == initial
    {
      airports, order, flights := initial.airports, initial.order, initial.flights;
    }

    /** `get_or_create` on the airport table; `created` tells whether a row was added. */
    method GetOrCreateAirport(icao: string) returns (airport: Airport, created: bool)
      requires Valid()
      modifies this
      ensures Valid() && State() == GetOrCreate(old(State()), icao)
      ensures created == (icao !in old(airports))
      ensures airport == airports[icao] && airport.icao == icao
    {
      created := icao !in airports;
      if created {
        airports := airports[icao := Placeholder(icao)];
        order := order + [icao];
      }
      airport := airports[icao];
    }

    /** `update_or_create` on the flight table; `created` tells whether a row was added. */
    method UpdateOrCreateFlight(key: FlightKey, row: FlightRow) returns (created: bool)
      requires Valid()
      modifies this
      ensures Valid() && State() == UpdateOrCreate(old(State()), key, row)
      ensures created == (key !in old(flights))
    {
      created := key !in flights;
      flights := flights[key := row];
    }

    /** `Airport.objects.all()[:n]`, evaluated once: the first `n` codes in table order. */
    method FirstAirports(n: nat) returns (codes: seq<string>)
      requires Valid()
      ensures |codes| == if n < |order| then n else |order|
      ensures codes == order[..|codes|]
      ensures forall i :: 0 <= i < |codes| ==> codes[i] in airports
      ensures forall i, j :: 0 <= i < j < |codes| ==> codes[i] != codes[j]
    {
      codes := if n < |order| then order[..n] else order;
    }
  }
}

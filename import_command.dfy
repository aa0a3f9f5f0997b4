/** The `import_opensky_data` management command
    (flights/management/commands/import_opensky_data.py) over the database class. The OpenSky
    client is the oracle `fetch`: the dictionary `get_flights_by_airport(icao, hours)` returns,
    or `None`. */
module ImportCommand {
  import opened Wrappers
  import opened OpenSkyRecords
  import opened OpenSkyApi
  import opened FlightTables
  import opened ImportRules

  class Command {
    const db: Database

    constructor (db: Database)
      ensures this.db == db
    {
      this.db := db;
    }

    /** `create_or_update_flight(flight_data, airport, is_departure)`. */
    method CreateOrUpdateFlight(rec: Record, airport: Airport, isDeparture: bool)
      requires db.Valid()
      modifies db
      ensures db.Valid()
      ensures db.State() == ApplyRecord(old(db.State()), rec, airport.icao, isDeparture)
    {
      ghost var before := db.State();
      var callsign := UsableCallsign(rec);
      if callsign.None? {
        assert Contacted(rec, isDeparture).None?;
        return;
      }
      var otherIcao := OtherAirport(rec, isDeparture);
      if otherIcao.None? {
        assert Contacted(rec, isDeparture).None?;
        return;
      }
      var other, _ := db.GetOrCreateAirport(otherIcao.value);
      ghost var withOther := db.State();
      assert withOther == GetOrCreate(before, Contacted(rec, isDeparture).value);
      var first, last := Seconds(rec.firstSeen), Seconds(rec.lastSeen);
      if first.None? || last.None? {
        assert FlightWrite(rec, airport.icao, isDeparture).None?;
        return;
      }
      var key := FlightKey(callsign.value, rec.icao24.Get(),
                           if isDeparture then airport.icao else other.icao,
                           if isDeparture then other.icao else airport.icao);
      var row := FlightRow(first.value, last.value, (last.value - first.value) / SecondsPerMinute, rec);
      assert FlightWrite(rec, airport.icao, isDeparture) == Some((key, row));
      var _ := db.UpdateOrCreateFlight(key, row);
      assert db.State() == UpdateOrCreate(withOther, key, row);
    }

    /** `import_flights_for_airport(opensky, airport_icao, hours)`. */
    method ImportFlightsForAirport(fetch: (string, int) -> Option<FlightsDict>, icao: string, hours: int)
      requires db.Valid()
      modifies db
      ensures db.Valid()
      ensures db.State() == ImportFor(old(db.State()), icao, fetch(icao, hours))
    {
      var data := fetch(icao, hours);
      if !HasBothLists(data) {
        return;
      }
      ghost var before := db.State();
      var airport, _ := db.GetOrCreateAirport(icao);
      ghost var withTracked := db.State();
      assert withTracked == GetOrCreate(before, icao);
      var departures := data.value[DeparturesKey];
      var i := 0;
      while i < |departures|
        invariant 0 <= i <= |departures| && db.Valid()
        invariant db.State() == ApplyRecords(withTracked, departures[..i], icao, true)
      {
        CreateOrUpdateFlight(departures[i], airport, true);
        ApplyRecordsStep(withTracked, departures, i, icao, true);
        i := i + 1;
      }
      assert departures[..i] == departures;
      ghost var afterDepartures := db.State();
      var arrivals := data.value[ArrivalsKey];
      i := 0;
      while i < |arrivals|
        invariant 0 <= i <= |arrivals| && db.Valid()
        invariant db.State() == ApplyRecords(afterDepartures, arrivals[..i], icao, false)
      {
        CreateOrUpdateFlight(arrivals[i], airport, false);
        ApplyRecordsStep(afterDepartures, arrivals, i, icao, false);
        i := i + 1;
      }
      assert arrivals[..i] == arrivals;
      assert db.State() == ApplyRecords(afterDepartures, arrivals, icao, false);
    }

    /** `handle`: `--airport` when given and non-empty, otherwise the first ten airports of
        the table; `--hours` defaults to 24. Returns the codes it imported, in order. */
    method Handle(fetch: (string, int) -> Option<FlightsDict>, airport: Option<string>, hours: Option<int>)
      returns (imported: seq<string>)
      requires db.Valid()
      modifies db
      ensures db.Valid()
      ensures imported == Targets(old(db.State()), airport)
      ensures db.State() == ImportAll(old(db.State()), imported, hours.GetOr(DefaultHours), fetch)
    {
      var h := hours.GetOr(DefaultHours);
      if airport.Some? && airport.value != "" {
        ImportFlightsForAirport(fetch, airport.value, h);
        imported := [airport.value];
        assert imported[..0] == [];
      } else {
        ghost var start := db.State();
        imported := db.FirstAirports(MaxAirportsPerRun);
        var i := 0;
        while i < |imported|
          invariant 0 <= i <= |imported| && db.Valid()
          invariant db.State() == ImportAll(start, imported[..i], h, fetch)
        {
          ImportFlightsForAirport(fetch, imported[i], h);
          ImportAllStep(start, imported, i, h, fetch);
          i := i + 1;
        }
        assert imported[..i] == imported;
      }
    }
  }

  /** An answer with no flights at all (an empty list, object or string) still gets or creates
      the tracked airport and writes no flight. */
  lemma EmptyAnswerCreatesTrackedAirport(t: Tables, icao: string)
    ensures ImportFor(t, icao, Some(Split(icao, []))) == GetOrCreate(t, icao)
    ensures icao in ImportFor(t, icao, Some(Split(icao, []))).airports
  {
    var d := Split(icao, []);
    assert d[DeparturesKey] == [] && d[ArrivalsKey] == [];
  }

  /** A flight row names the airports its own record reports. */
  predicate RowMatchesRecord(k: FlightKey, row: FlightRow) {
    row.openskyData.estDepartureAirport == Present(k.departure) &&
    row.openskyData.estArrivalAirport == Present(k.arrival)
  }

  /** Imported from what the OpenSky client returns, every new or rewritten flight row has the
      departure and arrival airports of the record stored in it: the client's filtering and the
      command's orientation agree. */
  lemma ServiceDataRowsMatchRecords(t: Tables, icao: string, d: FlightsDict, k: FlightKey)
    requires ServiceShaped(icao, d)
    requires k in ImportFor(t, icao, Some(d)).flights
    ensures var row := ImportFor(t, icao, Some(d)).flights[k];
      (k in t.flights && row == t.flights[k]) || RowMatchesRecord(k, row)
  {
    var deps, arrs := d[DeparturesKey], d[ArrivalsKey];
    var wd, wa := Writes(deps, icao, true), Writes(arrs, icao, false);
    ImportForFlights(t, icao, Some(d));
    var row := ImportFor(t, icao, Some(d)).flights[k];
    if k in wa {
      WriteOrigin(arrs, icao, false, k);
      var j :| 0 <= j < |arrs| && FlightWrite(arrs[j], icao, false) == Some((k, wa[k]));
      assert arrs[j] in d["arrivals"];
    } else if k in wd {
      WriteOrigin(deps, icao, true, k);
      var j :| 0 <= j < |deps| && FlightWrite(deps[j], icao, true) == Some((k, wd[k]));
      assert deps[j] in d["departures"];
    }
  }
}

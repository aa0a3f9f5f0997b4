/** What the import command (flights/management/commands/import_opensky_data.py) does to the
    tables, as functions of the tables before it: one record, a list of records, one airport's
    data, and a whole run. The methods in module ImportCommand are proved to compute these. */
module ImportRules {
  import opened Wrappers
  import opened Seqs
  import opened Text
  import opened Http
  import opened OpenSkyRecords
  import opened FlightTables

  const SecondsPerMinute := 60
  const DeparturesKey := "departures"
  const ArrivalsKey := "arrivals"
  const DefaultHours := 24
  /** `Airport.objects.all()[:10]`. */
  const MaxAirportsPerRun := 10

  /** `flight_data.get('callsign', '').strip()` when it is non-empty. A missing callsign strips
      to ''; a null one makes `strip()` raise, and the handler skips the record. */
  function UsableCallsign(rec: Record): (r: Option<string>)
    ensures r.Some? <==> rec.callsign.Present? && PyStrip(rec.callsign.value) != ""
    ensures r.Some? ==> r.value == PyStrip(rec.callsign.value)
  {
    match rec.callsign
    case Missing => None
    case Null => None
    case Present(s) => if PyStrip(s) == "" then None else Some(PyStrip(s))
  }

  /** The airport at the other end: `estArrivalAirport` of a departure, `estDepartureAirport`
      of an arrival, when it is present and non-empty. */
  function OtherAirport(rec: Record, isDeparture: bool): (r: Option<string>)
    ensures var f := if isDeparture then rec.estArrivalAirport else rec.estDepartureAirport;
      (r.Some? <==> f.Present? && f.value != "") && (r.Some? ==> r.value == f.value)
  {
    var f := if isDeparture then rec.estArrivalAirport else rec.estDepartureAirport;
    if f.Present? && f.value != "" then Some(f.value) else None
  }

  /** `flight_data.get(key, 0)` as `fromtimestamp` and the subtraction accept it: a missing
      timestamp reads as 0, a null one raises. */
  function Seconds(f: Field<int>): (r: Option<int>)
    ensures r.None? <==> f.Null?
    ensures f.Missing? ==> r == Some(0)
    ensures f.Present? ==> r == Some(f.value)
  {
    match f
    case Missing => Some(0)
    case Null => None
    case Present(v) => Some(v)
  }

  /** The airport `get_or_create` is called for: the other airport, once the callsign and the
      other airport have passed their checks. */
  function Contacted(rec: Record, isDeparture: bool): Option<string> {
    if UsableCallsign(rec).Some? then OtherAirport(rec, isDeparture) else None
  }

  /** The flight row a record is stored as, if any: the key is oriented by direction, the
      duration is the elapsed time in whole minutes, rounded down. */
  function FlightWrite(rec: Record, tracked: string, isDeparture: bool): (w: Option<(FlightKey, FlightRow)>)
    ensures w.Some? <==>
      UsableCallsign(rec).Some? && OtherAirport(rec, isDeparture).Some? &&
      Seconds(rec.firstSeen).Some? && Seconds(rec.lastSeen).Some?
    ensures w.Some? ==> Contacted(rec, isDeparture) == OtherAirport(rec, isDeparture)
    ensures w.Some? ==>
      var (k, row) := w.value;
      var other := OtherAirport(rec, isDeparture).value;
      && k.callsign == UsableCallsign(rec).value
      && k.icao24 == rec.icao24.Get()
      && (isDeparture ==> k.departure == tracked && k.arrival == other)
      && (!isDeparture ==> k.departure == other && k.arrival == tracked)
      && row.firstSeen == Seconds(rec.firstSeen).value
      && row.lastSeen == Seconds(rec.lastSeen).value
      && SecondsPerMinute * row.durationMinutes <= row.lastSeen - row.firstSeen
      && row.lastSeen - row.firstSeen < SecondsPerMinute * row.durationMinutes + SecondsPerMinute
      && row.openskyData == rec
  {
    match (UsableCallsign(rec), OtherAirport(rec, isDeparture), Seconds(rec.firstSeen), Seconds(rec.lastSeen))
    case (Some(callsign), Some(other), Some(first), Some(last)) =>
      var key := FlightKey(callsign, rec.icao24.Get(),
                           if isDeparture then tracked else other,
                           if isDeparture then other else tracked);
      Some((key, FlightRow(first, last, (last - first) / SecondsPerMinute, rec)))
    case _ => None
  }

  /** `create_or_update_flight` on the tables: the other airport is created before the
      timestamps are read, so a record with a null timestamp can add an airport and no row. */
  function ApplyRecord(t: Tables, rec: Record, tracked: string, isDeparture: bool): (r: Tables)
    ensures r.flights == match FlightWrite(rec, tracked, isDeparture)
                         case None => t.flights
                         case Some(w) => t.flights[w.0 := w.1]
    ensures Contacted(rec, isDeparture).None? ==> r.airports == t.airports && r.order == t.order
    ensures Contacted(rec, isDeparture).Some? ==>
      var c := GetOrCreate(t, Contacted(rec, isDeparture).value);
      r.airports == c.airports && r.order == c.order
    ensures forall k :: k in t.airports ==> k in r.airports && r.airports[k] == t.airports[k]
    ensures forall k :: k in r.airports && k !in t.airports ==> r.airports[k] == Placeholder(k)
    ensures TablesValid(t) ==> TablesValid(r)
  {
    match Contacted(rec, isDeparture)
    case None => t
    case Some(other) =>
      var t1 := GetOrCreate(t, other);
      match FlightWrite(rec, tracked, isDeparture)
      case None => t1
      case Some(w) => UpdateOrCreate(t1, w.0, w.1)
  }

  /** The `for flight_data in ...` loop: the records applied in list order. */
  function ApplyRecords(t: Tables, rs: seq<Record>, tracked: string, isDeparture: bool): (r: Tables)
    ensures forall k :: k in t.airports ==> k in r.airports && r.airports[k] == t.airports[k]
    ensures forall k :: k in r.airports && k !in t.airports ==> r.airports[k] == Placeholder(k)
    ensures TablesValid(t) ==> TablesValid(r)
    decreases |rs|
  {
    if rs == [] then t
    else ApplyRecord(ApplyRecords(t, rs[..|rs| - 1], tracked, isDeparture), rs[|rs| - 1], tracked, isDeparture)
  }

  /** One more turn of the loop applies one more record. */
  lemma ApplyRecordsStep(t: Tables, rs: seq<Record>, i: nat, tracked: string, isDeparture: bool)
    requires i < |rs|
    ensures ApplyRecords(t, rs[..i + 1], tracked, isDeparture) ==
            ApplyRecord(ApplyRecords(t, rs[..i], tracked, isDeparture), rs[i], tracked, isDeparture)
  {
    assert rs[..i + 1][..i] == rs[..i];
  }

  /** The rows a list of records leaves behind, each key holding the last row written to it. */
  function Writes(rs: seq<Record>, tracked: string, isDeparture: bool): (w: map<FlightKey, FlightRow>)
    ensures |w| <= |rs|
    decreases |rs|
  {
    if rs == [] then map[]
    else
      var prev := Writes(rs[..|rs| - 1], tracked, isDeparture);
      match FlightWrite(rs[|rs| - 1], tracked, isDeparture)
      case None => prev
      case Some(kv) => prev[kv.0 := kv.1]
  }

  /** The flight table after a loop is the table before it overwritten by the loop's writes. */
  lemma {:induction false} ApplyRecordsFlights(t: Tables, rs: seq<Record>, tracked: string, isDeparture: bool)
    ensures ApplyRecords(t, rs, tracked, isDeparture).flights == t.flights + Writes(rs, tracked, isDeparture)
    decreases |rs|
  {
    if rs == [] {
      assert t.flights + map[] == t.flights;
    } else {
      var init, last := rs[..|rs| - 1], rs[|rs| - 1];
      var before := ApplyRecords(t, init, tracked, isDeparture);
      var w := Writes(init, tracked, isDeparture);
      ApplyRecordsFlights(t, init, tracked, isDeparture);
      assert ApplyRecords(t, rs, tracked, isDeparture) == ApplyRecord(before, last, tracked, isDeparture);
      UnionUpdate(t.flights, w, FlightWrite(last, tracked, isDeparture));
    }
  }

  /** Writing one more row after a union is the union with that row written. */
  lemma UnionUpdate(m: map<FlightKey, FlightRow>, w: map<FlightKey, FlightRow>, fw: Option<(FlightKey, FlightRow)>)
    ensures (match fw case None => m + w case Some(kv) => (m + w)[kv.0 := kv.1]) ==
            m + (match fw case None => w case Some(kv) => w[kv.0 := kv.1])
  {
  }

  /** After a loop, every airport a record got as far as looking up exists. */
  lemma {:induction false} ApplyRecordsContacts(t: Tables, rs: seq<Record>, tracked: string, isDeparture: bool)
    ensures forall j :: 0 <= j < |rs| && Contacted(rs[j], isDeparture).Some? ==>
      Contacted(rs[j], isDeparture).value in ApplyRecords(t, rs, tracked, isDeparture).airports
    decreases |rs|
  {
    if rs != [] {
      var init := rs[..|rs| - 1];
      ApplyRecordsContacts(t, init, tracked, isDeparture);
      forall j | 0 <= j < |rs| && Contacted(rs[j], isDeparture).Some?
        ensures Contacted(rs[j], isDeparture).value in ApplyRecords(t, rs, tracked, isDeparture).airports
      {
        if j < |rs| - 1 {
          assert rs[j] == init[j];
        }
      }
    }
  }

  /** A loop whose records only look up airports that already exist changes only the flight table. */
  lemma {:induction false} ApplyRecordsKnownAirports(t: Tables, rs: seq<Record>, tracked: string, isDeparture: bool)
    requires forall j :: 0 <= j < |rs| && Contacted(rs[j], isDeparture).Some? ==>
      Contacted(rs[j], isDeparture).value in t.airports
    ensures ApplyRecords(t, rs, tracked, isDeparture) == t.(flights := t.flights + Writes(rs, tracked, isDeparture))
    decreases |rs|
  {
    ApplyRecordsFlights(t, rs, tracked, isDeparture);
    if rs == [] {
    } else {
      var init := rs[..|rs| - 1];
      forall j | 0 <= j < |init| && Contacted(init[j], isDeparture).Some?
        ensures Contacted(init[j], isDeparture).value in t.airports
      {
        assert init[j] == rs[j];
      }
      ApplyRecordsKnownAirports(t, init, tracked, isDeparture);
    }
  }

  /** Running a loop a second time over the same records leaves the tables as the first run did:
      re-imported records update their rows and add none. */
  lemma ApplyRecordsIdempotent(t: Tables, rs: seq<Record>, tracked: string, isDeparture: bool)
    ensures var once := ApplyRecords(t, rs, tracked, isDeparture);
      ApplyRecords(once, rs, tracked, isDeparture) == once
  {
    var once := ApplyRecords(t, rs, tracked, isDeparture);
    var w := Writes(rs, tracked, isDeparture);
    ApplyRecordsContacts(t, rs, tracked, isDeparture);
    ApplyRecordsKnownAirports(once, rs, tracked, isDeparture);
    ApplyRecordsFlights(t, rs, tracked, isDeparture);
    assert once.flights + w == once.flights;
  }

  /** A row left by a loop was written by one of its records. */
  lemma {:induction false} WriteOrigin(rs: seq<Record>, tracked: string, isDeparture: bool, k: FlightKey)
    requires k in Writes(rs, tracked, isDeparture)
    ensures exists j ::
              0 <= j < |rs| &&
              FlightWrite(rs[j], tracked, isDeparture) == Some((k, Writes(rs, tracked, isDeparture)[k]))
    decreases |rs|
  {
    var init := rs[..|rs| - 1];
    var last := |rs| - 1;
    var fw := FlightWrite(rs[last], tracked, isDeparture);
    if fw.Some? && fw.value.0 == k {
      assert FlightWrite(rs[last], tracked, isDeparture) == Some((k, Writes(rs, tracked, isDeparture)[k]));
    } else {
      WriteOrigin(init, tracked, isDeparture, k);
      var j :| 0 <= j < |init| &&
        FlightWrite(init[j], tracked, isDeparture) == Some((k, Writes(init, tracked, isDeparture)[k]));
      assert rs[j] == init[j];
    }
  }

  /** The row a loop leaves under a key is the one written by the last record with that key. */
  lemma {:induction false} LastWriteWins(rs: seq<Record>, tracked: string, isDeparture: bool, j: nat, k: FlightKey, row: FlightRow)
    requires j < |rs| && FlightWrite(rs[j], tracked, isDeparture) == Some((k, row))
    requires forall i :: j < i < |rs| && FlightWrite(rs[i], tracked, isDeparture).Some? ==>
      FlightWrite(rs[i], tracked, isDeparture).value.0 != k
    ensures k in Writes(rs, tracked, isDeparture) && Writes(rs, tracked, isDeparture)[k] == row
    decreases |rs|
  {
    if j < |rs| - 1 {
      var init := rs[..|rs| - 1];
      forall i | j < i < |init| && FlightWrite(init[i], tracked, isDeparture).Some?
        ensures FlightWrite(init[i], tracked, isDeparture).value.0 != k
      {
        assert init[i] == rs[i];
      }
      assert init[j] == rs[j];
      LastWriteWins(init, tracked, isDeparture, j, k, row);
    }
  }

  /** The guard of `import_flights_for_airport`: it goes on only with a dictionary holding both
      lists (an empty dictionary, though falsy, lacks both keys anyway). */
  predicate HasBothLists(data: Option<FlightsDict>): (b: bool)
    ensures b <==> data.Some? && {ArrivalsKey, DeparturesKey} <= data.value.Keys
  {
    data.Some? && ArrivalsKey in data.value && DeparturesKey in data.value
  }

  /** `import_flights_for_airport` on the tables, given what the service returned: nothing is
      written without both lists; otherwise the tracked airport is got or created, then every
      departure and then every arrival is applied. */
  function ImportFor(t: Tables, icao: string, data: Option<FlightsDict>): (r: Tables)
    ensures !HasBothLists(data) ==> r == t
    ensures HasBothLists(data) ==>
              icao in r.airports &&
              r.airports[icao] == if icao in t.airports then t.airports[icao] else Placeholder(icao)
    ensures forall k :: k in t.airports ==> k in r.airports && r.airports[k] == t.airports[k]
    ensures forall k :: k in r.airports && k !in t.airports ==> r.airports[k] == Placeholder(k)
    ensures TablesValid(t) ==> TablesValid(r)
  {
    if !HasBothLists(data) then t
    else
      var withTracked := GetOrCreate(t, icao);
      var afterDepartures := ApplyRecords(withTracked, data.value[DeparturesKey], icao, true);
      ApplyRecords(afterDepartures, data.value[ArrivalsKey], icao, false)
  }

  /** The flight table after one airport's import: departures' rows, then arrivals' rows, over
      the table before. */
  lemma ImportForFlights(t: Tables, icao: string, data: Option<FlightsDict>)
    requires HasBothLists(data)
    ensures ImportFor(t, icao, data).flights ==
      t.flights + Writes(data.value[DeparturesKey], icao, true) + Writes(data.value[ArrivalsKey], icao, false)
  {
    var withTracked := GetOrCreate(t, icao);
    var afterDepartures := ApplyRecords(withTracked, data.value[DeparturesKey], icao, true);
    ApplyRecordsFlights(withTracked, data.value[DeparturesKey], icao, true);
    ApplyRecordsFlights(afterDepartures, data.value[ArrivalsKey], icao, false);
  }

  /** Arrivals are processed after departures, so an arrival's row wins a shared key; a key only
      departures wrote holds the departure's row; any other row is as it was. */
  lemma ArrivalsOverrideDepartures(t: Tables, icao: string, data: Option<FlightsDict>, k: FlightKey)
    requires HasBothLists(data)
    ensures var r := ImportFor(t, icao, data).flights;
      var dep := Writes(data.value[DeparturesKey], icao, true);
      var arr := Writes(data.value[ArrivalsKey], icao, false);
      && (k in arr ==> k in r && r[k] == arr[k])
      && (k !in arr && k in dep ==> k in r && r[k] == dep[k])
      && (k !in arr && k !in dep ==> (k in r <==> k in t.flights) && (k in r ==> r[k] == t.flights[k]))
  {
    ImportForFlights(t, icao, data);
  }

  /** Every airport an import of `data` for `icao` looks up. */
  predicate KnowsAirportsOf(t: Tables, icao: string, data: Option<FlightsDict>)
    requires HasBothLists(data)
  {
    && icao in t.airports
    && (forall j :: 0 <= j < |data.value[DeparturesKey]| && Contacted(data.value[DeparturesKey][j], true).Some? ==>
          Contacted(data.value[DeparturesKey][j], true).value in t.airports)
    && (forall j :: 0 <= j < |data.value[ArrivalsKey]| && Contacted(data.value[ArrivalsKey][j], false).Some? ==>
          Contacted(data.value[ArrivalsKey][j], false).value in t.airports)
  }

  /** After an import, every airport it looks up exists. */
  lemma ImportForContacts(t: Tables, icao: string, data: Option<FlightsDict>)
    requires HasBothLists(data)
    ensures KnowsAirportsOf(ImportFor(t, icao, data), icao, data)
  {
    var withTracked := GetOrCreate(t, icao);
    var afterDepartures := ApplyRecords(withTracked, data.value[DeparturesKey], icao, true);
    ApplyRecordsContacts(withTracked, data.value[DeparturesKey], icao, true);
    ApplyRecordsContacts(afterDepartures, data.value[ArrivalsKey], icao, false);
  }

  /** An import whose airports all exist changes only the flight table. */
  lemma ImportForKnownAirports(t: Tables, icao: string, data: Option<FlightsDict>)
    requires HasBothLists(data) && KnowsAirportsOf(t, icao, data)
    ensures ImportFor(t, icao, data) ==
      t.(flights := t.flights + Writes(data.value[DeparturesKey], icao, true) + Writes(data.value[ArrivalsKey], icao, false))
  {
    var deps, arrs := data.value[DeparturesKey], data.value[ArrivalsKey];
    assert GetOrCreate(t, icao) == t;
    ApplyRecordsKnownAirports(t, deps, icao, true);
    var afterDepartures := t.(flights := t.flights + Writes(deps, icao, true));
    ApplyRecordsKnownAirports(afterDepartures, arrs, icao, false);
  }

  /** Importing the same data for the same airport twice leaves the tables as one import does. */
  lemma ImportForIdempotent(t: Tables, icao: string, data: Option<FlightsDict>)
    ensures ImportFor(ImportFor(t, icao, data), icao, data) == ImportFor(t, icao, data)
  {
    if HasBothLists(data) {
      var once := ImportFor(t, icao, data);
      var wd, wa := Writes(data.value[DeparturesKey], icao, true), Writes(data.value[ArrivalsKey], icao, false);
      ImportForContacts(t, icao, data);
      ImportForKnownAirports(once, icao, data);
      ImportForFlights(t, icao, data);
      UnionAbsorbs(t.flights, wd, wa);
    }
  }

  /** Overwriting with the same rows a second time changes nothing. */
  lemma UnionAbsorbs(m: map<FlightKey, FlightRow>, a: map<FlightKey, FlightRow>, b: map<FlightKey, FlightRow>)
    ensures m + a + b + a + b == m + a + b
  {
  }

  /** The airports one run imports: the one given with `--airport`, or else the first ten of
      the table in table order, taken once before the loop starts. An empty code counts as
      not given. */
  function Targets(t: Tables, airport: Option<string>): (r: seq<string>)
    ensures TruthyStr(airport) ==> r == [airport.value]
    ensures !TruthyStr(airport) ==> |r| == Min(MaxAirportsPerRun, |t.order|) && r == t.order[..|r|]
    ensures TablesValid(t) && !TruthyStr(airport) ==>
      (forall i :: 0 <= i < |r| ==> r[i] in t.airports) &&
      (forall i, j :: 0 <= i < j < |r| ==> r[i] != r[j])
  {
    if TruthyStr(airport) then [airport.value]
    else t.order[..Min(MaxAirportsPerRun, |t.order|)]
  }

  /** The `for airport in airports` loop of `handle`: each code imported in turn, with the data
      the service returns for it. */
  function ImportAll(t: Tables, icaos: seq<string>, hours: int, fetch: (string, int) -> Option<FlightsDict>): (r: Tables)
    ensures forall k :: k in t.airports ==> k in r.airports && r.airports[k] == t.airports[k]
    ensures forall k :: k in r.airports && k !in t.airports ==> r.airports[k] == Placeholder(k)
    ensures TablesValid(t) ==> TablesValid(r)
    decreases |icaos|
  {
    if icaos == [] then t
    else
      var i := |icaos| - 1;
      ImportFor(ImportAll(t, icaos[..i], hours, fetch), icaos[i], fetch(icaos[i], hours))
  }

  /** One more turn of the loop imports one more airport. */
  lemma ImportAllStep(t: Tables, icaos: seq<string>, i: nat, hours: int, fetch: (string, int) -> Option<FlightsDict>)
    requires i < |icaos|
    ensures ImportAll(t, icaos[..i + 1], hours, fetch) ==
            ImportFor(ImportAll(t, icaos[..i], hours, fetch), icaos[i], fetch(icaos[i], hours))
  {
    assert icaos[..i + 1][..i] == icaos[..i];
  }

  /** A run changes only what the service answered for: an airport whose data lacks a list,
      for every airport imported, leaves the tables untouched. */
  lemma {:induction false} ImportAllWithoutData(t: Tables, icaos: seq<string>, hours: int, fetch: (string, int) -> Option<FlightsDict>)
    requires forall i :: 0 <= i < |icaos| ==> !HasBothLists(fetch(icaos[i], hours))
    ensures ImportAll(t, icaos, hours, fetch) == t
    decreases |icaos|
  {
    if icaos != [] {
      var i := |icaos| - 1;
      forall j | 0 <= j < i
        ensures !HasBothLists(fetch(icaos[..i][j], hours))
      {
        assert icaos[..i][j] == icaos[j];
      }
      ImportAllWithoutData(t, icaos[..i], hours, fetch);
    }
  }
}

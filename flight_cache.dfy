/** The web-side OpenSky client (flights/services/opensky_service.py): flight lookups go
    through Django's cache (cache-aside, five-minute entries), the live-states call maps a
    bounding box to query parameters, and airport information is read from the cache only. */
module CachedOpenSky {
  import opened Wrappers
  import opened Text
  import opened Http

  const BaseUrl := "https://opensky-network.org/api"
  const FlightsByAirportUrl := BaseUrl + "/flights/airport"
  const StatesUrl := BaseUrl + "/states/all"
  const FlightsKeyPrefix := "opensky_flights_"
  const AirportKeyPrefix := "opensky_airport_"
  const FlightsTtl := 300
  const FlightsTimeout := 30
  const StatesTimeout := 10
  const SecondsPerHour := 3600

  /** A cached value and the instant (Unix seconds) from which it counts as expired. */
  datatype Entry = Entry(value: Json, expiresAt: int)

  type Cache = map<string, Entry>

  /** Django's `cache.get(key)` at time `now`: the stored value until it expires, else `None`. */
  function CacheGet(c: Cache, key: string, now: int): (r: Option<Json>)
    ensures r.Some? <==> key in c && now < c[key].expiresAt
    ensures r.Some? ==> r.value == c[key].value
  {
    if key in c && now < c[key].expiresAt then Some(c[key].value) else None
  }

  /** `cache.get(key)` read as a condition: a hit only when the stored value is truthy. */
  predicate CacheHit(c: Cache, key: string, now: int): (hit: bool)
    ensures hit <==> key in c && now < c[key].expiresAt && Truthy(c[key].value)
  {
    CacheGet(c, key, now).Some? && Truthy(CacheGet(c, key, now).value)
  }

  /** `f"opensky_flights_{airport_icao}_{hours}"`. */
  function FlightsKey(icao: string, hours: int): (k: string)
    ensures var n := |FlightsKeyPrefix| + |icao|;
      && |k| == n + 1 + |IntToString(hours)|
      && k[..|FlightsKeyPrefix|] == FlightsKeyPrefix && k[|FlightsKeyPrefix|..n] == icao
      && k[n] == '_' && k[n + 1..] == IntToString(hours)
  {
    FlightsKeyPrefix + icao + "_" + IntToString(hours)
  }

  /** `f"opensky_airport_{airport_icao}"`. */
  function AirportKey(icao: string): (k: string)
    ensures |k| == |AirportKeyPrefix| + |icao|
    ensures k[..|AirportKeyPrefix|] == AirportKeyPrefix && k[|AirportKeyPrefix|..] == icao
  {
    AirportKeyPrefix + icao
  }

  /** Different (airport, hours) pairs never share a cache entry, whatever the airport code:
      the numeral of the hours holds no underscore, so the last underscore of the key always
      ends the code. */
  lemma FlightsKeyInjective(icao1: string, hours1: int, icao2: string, hours2: int)
    requires FlightsKey(icao1, hours1) == FlightsKey(icao2, hours2)
    ensures icao1 == icao2 && hours1 == hours2
  {
    var s1, s2 := IntToString(hours1), IntToString(hours2);
    var a, b := icao1 + "_" + s1, icao2 + "_" + s2;
    var p := FlightsKeyPrefix;
    assert FlightsKey(icao1, hours1) == p + a;
    assert FlightsKey(icao2, hours2) == p + b;
    assert a == (p + a)[|p|..] == (p + b)[|p|..] == b;
    LastUnderscore(icao1, s1, icao2, s2);
    IntToStringInjective(hours1, hours2);
  }

  /** `x + "_" + rest` splits back into `x` and `rest` when `rest` has no underscore. */
  lemma LastUnderscore(x1: string, rest1: string, x2: string, rest2: string)
    requires '_' !in rest1 && '_' !in rest2
    requires x1 + "_" + rest1 == x2 + "_" + rest2
    ensures x1 == x2 && rest1 == rest2
  {
    var a := x1 + "_" + rest1;
    UnderscoreIsLast(x1, rest1);
    UnderscoreIsLast(x2, rest2);
    assert |x1| == |x2|;
    assert x1 == a[..|x1|] && x2 == a[..|x2|];
    assert rest1 == a[|x1| + 1..] && rest2 == a[|x2| + 1..];
  }

  /** In `x + "_" + rest`, with no underscore in `rest`, the underscore after `x` is the last one. */
  lemma UnderscoreIsLast(x: string, rest: string)
    requires '_' !in rest
    ensures var a := x + "_" + rest;
      a[|x|] == '_' && forall i :: |x| < i < |a| ==> a[i] != '_'
  {
    var a := x + "_" + rest;
    forall i | |x| < i < |a|
      ensures a[i] != '_'
    {
      assert a[i] == rest[i - |x| - 1];
    }
  }

  /** A flight-list entry and an airport entry never share a key. */
  lemma KeysNeverCollide(icao: string, hours: int, other: string)
    ensures FlightsKey(icao, hours) != AirportKey(other)
  {
    var k1 := FlightsKey(icao, hours);
    var k2 := AirportKey(other);
    assert k1 == FlightsKeyPrefix + (icao + "_" + IntToString(hours));
    assert k1[8] == FlightsKeyPrefix[8] == 'f';
    assert k2[8] == AirportKeyPrefix[8] == 'a';
  }

  /** Credentials are sent only when both the user name and the password are non-empty. */
  function Credentials(username: Option<string>, password: Option<string>): (a: Auth)
    ensures a != NoAuth <==> TruthyStr(username) && TruthyStr(password)
    ensures a != NoAuth ==> a == Basic(username, password)
  {
    if TruthyStr(username) && TruthyStr(password) then Basic(username, password) else NoAuth
  }

  /** The flights request: the airport under key `icao`, a window ending now and reaching back
      exactly `hours` hours, a 30 s timeout. */
  function FlightsRequest(icao: string, hours: int, now: int, username: Option<string>,
                          password: Option<string>): (r: Request)
    ensures r.url == FlightsByAirportUrl && r.timeout == FlightsTimeout
    ensures r.params.Keys == {"icao", "begin", "end"} && r.params["icao"] == PStr(icao)
    ensures r.params["end"] == PInt(now) && r.params["begin"] == PInt(now - hours * SecondsPerHour)
    ensures r.auth == Credentials(username, password)
  {
    var begin := now - hours * SecondsPerHour;
    Request(FlightsByAirportUrl,
            map["icao" := PStr(icao), "begin" := PInt(begin), "end" := PInt(now)],
            Credentials(username, password), FlightsTimeout)
  }

  /** The effect of one flights lookup: the new cache, the request sent if any, the result. */
  datatype Lookup = Lookup(cache: Cache, sent: Option<Request>, result: Option<Json>)

  /** `get_flights_by_airport` on cache `c` at time `now`, the network being `send`. */
  function FlightsLookup(c: Cache, icao: string, hours: int, now: int, username: Option<string>,
                         password: Option<string>, send: Request -> Outcome<Option<Json>>): (r: Lookup)
    ensures CacheHit(c, FlightsKey(icao, hours), now) ==>
      r == Lookup(c, None, CacheGet(c, FlightsKey(icao, hours), now))
    ensures !CacheHit(c, FlightsKey(icao, hours), now) ==>
      r.sent == Some(FlightsRequest(icao, hours, now, username, password))
    ensures !CacheHit(c, FlightsKey(icao, hours), now) ==>
      r.result == match send(FlightsRequest(icao, hours, now, username, password))
                  case Response(200, Some(data)) => Some(data)
                  case _ => None
    ensures r.sent.Some? && r.result.Some? ==>
      r.cache == c[FlightsKey(icao, hours) := Entry(r.result.value, now + FlightsTtl)]
    ensures r.result.None? ==> r.cache == c
    ensures forall k :: k != FlightsKey(icao, hours) ==> (k in r.cache <==> k in c)
    ensures forall k :: k in c && k != FlightsKey(icao, hours) ==> r.cache[k] == c[k]
  {
    var key := FlightsKey(icao, hours);
    if CacheHit(c, key, now) then Lookup(c, None, CacheGet(c, key, now))
    else
      var request := FlightsRequest(icao, hours, now, username, password);
      match send(request)
      case Response(200, Some(data)) =>
        Lookup(c[key := Entry(data, now + FlightsTtl)], Some(request), Some(data))
      case _ =>
        Lookup(c, Some(request), None)
  }

  /** A miss with status 200 and a readable body returns that body; anything else (another
      status, a `RequestException`, an unreadable body) returns `None`. */
  lemma MissOutcome(c: Cache, icao: string, hours: int, now: int, username: Option<string>,
                    password: Option<string>, send: Request -> Outcome<Option<Json>>)
    requires !CacheHit(c, FlightsKey(icao, hours), now)
    ensures var request := FlightsRequest(icao, hours, now, username, password);
      var r := FlightsLookup(c, icao, hours, now, username, password, send);
      r.result.Some? <==> send(request).Response? && send(request).status == 200 && send(request).body.Some?
  {
  }

  /** After a lookup that stored a truthy answer, every lookup of the same airport and hours in
      the next 300 seconds returns that answer and sends nothing, whatever the network does. */
  lemma StoredAnswerIsServed(c: Cache, icao: string, hours: int, t1: int, t2: int,
                             username: Option<string>, password: Option<string>,
                             send1: Request -> Outcome<Option<Json>>,
                             send2: Request -> Outcome<Option<Json>>)
    requires var r1 := FlightsLookup(c, icao, hours, t1, username, password, send1);
      r1.sent.Some? && r1.result.Some? && Truthy(r1.result.value)
    requires t1 <= t2 < t1 + FlightsTtl
    ensures var r1 := FlightsLookup(c, icao, hours, t1, username, password, send1);
      var r2 := FlightsLookup(r1.cache, icao, hours, t2, username, password, send2);
      r2.sent.None? && r2.result == r1.result && r2.cache == r1.cache
  {
  }

  /** A stored falsy answer (an empty list, say) does not count as a hit: the next lookup asks
      the network again. */
  lemma FalsyAnswerIsRefetched(c: Cache, icao: string, hours: int, t1: int, t2: int,
                               username: Option<string>, password: Option<string>,
                               send1: Request -> Outcome<Option<Json>>,
                               send2: Request -> Outcome<Option<Json>>)
    requires var r1 := FlightsLookup(c, icao, hours, t1, username, password, send1);
      r1.sent.Some? && r1.result.Some? && !Truthy(r1.result.value)
    ensures var r1 := FlightsLookup(c, icao, hours, t1, username, password, send1);
      var r2 := FlightsLookup(r1.cache, icao, hours, t2, username, password, send2);
      r2.sent == Some(FlightsRequest(icao, hours, t2, username, password))
  {
  }

  /** The parameters of the live-states request. `None` when `bbox` is truthy but shorter than
      four numbers: indexing it raises and no request is sent. */
  function StatesRequest(bbox: Option<seq<real>>): (r: Option<Request>)
    ensures r.None? <==> bbox.Some? && 0 < |bbox.value| < 4
    ensures r.Some? ==> r.value.url == StatesUrl && r.value.timeout == StatesTimeout && r.value.auth == NoAuth
    ensures (bbox.None? || bbox.value == []) ==> r == Some(Request(StatesUrl, map[], NoAuth, StatesTimeout))
    ensures bbox.Some? && |bbox.value| >= 4 ==>
      var b := bbox.value;
      r.Some? && r.value.params.Keys == {"lamin", "lamax", "lomin", "lomax"}
      && r.value.params["lamin"] == PNum(b[1]) && r.value.params["lamax"] == PNum(b[3])
      && r.value.params["lomin"] == PNum(b[0]) && r.value.params["lomax"] == PNum(b[2])
  {
    if bbox.None? || bbox.value == [] then Some(Request(StatesUrl, map[], NoAuth, StatesTimeout))
    else if |bbox.value| < 4 then None
    else
      var b := bbox.value;
      Some(Request(StatesUrl,
                   map["lamin" := PNum(b[1]), "lamax" := PNum(b[3]),
                       "lomin" := PNum(b[0]), "lomax" := PNum(b[2])],
                   NoAuth, StatesTimeout))
  }

  /** Django's cache, shared by every caller. */
  class CacheStore {
    var entries: Cache

    constructor (initial: Cache)
      ensures entries == initial
    {
      entries := initial;
    }

    /** `cache.set(key, value, timeout)` at time `now`. */
    method Set(key: string, value: Json, timeout: int, now: int)
      modifies this
      ensures entries == old(entries)[key := Entry(value, now + timeout)]
    {
      entries := entries[key := Entry(value, now + timeout)];
    }
  }

  /** `OpenSkyService` of the web application, over the shared cache. */
  class Service {
    const username: Option<string>
    const password: Option<string>
    const cache: CacheStore

    constructor (username: Option<string>, password: Option<string>, cache: CacheStore)
      ensures this.username == username && this.password == password && this.cache == cache
    {
      this.username := username;
      this.password := password;
      this.cache := cache;
    }

    /** `get_flights_by_airport`: a truthy cached value is returned without a request; on a
        miss the answer of a 200 response is stored for 300 s and returned; a failure returns
        `None` and leaves the cache as it was. */
    method GetFlightsByAirport(icao: string, hours: int, now: int,
                               send: Request -> Outcome<Option<Json>>)
      returns (sent: Option<Request>, result: Option<Json>)
      modifies cache
      ensures Lookup(cache.entries, sent, result)
           == FlightsLookup(old(cache.entries), icao, hours, now, username, password, send)
    {
      var key := FlightsKey(icao, hours);
      var cached := CacheGet(cache.entries, key, now);
      if cached.Some? && Truthy(cached.value) {
        return None, cached;
      }
      var request := FlightsRequest(icao, hours, now, username, password);
      sent := Some(request);
      var response := send(request);
      if response.Response? && response.status == 200 && response.body.Some? {
        var data := response.body.value;
        cache.Set(key, data, FlightsTtl, now);
        result := Some(data);
      } else {
        result := None;
      }
    }

    /** `get_all_flights`: the states request, if one is made, and the body of a 200 response;
        `None` on any other status, an exception or an unreadable body. */
    method GetAllFlights(bbox: Option<seq<real>>, send: Request -> Outcome<Option<Json>>)
      returns (sent: Option<Request>, result: Option<Json>)
      ensures sent == StatesRequest(bbox)
      ensures result.Some? <==>
        sent.Some? && send(sent.value).Response? && send(sent.value).status == 200
        && send(sent.value).body.Some?
      ensures result.Some? ==> result == send(sent.value).body
    {
      sent := StatesRequest(bbox);
      result := None;
      if sent.Some? {
        var response := send(sent.value);
        if response.Response? && response.status == 200 {
          result := response.body;
        }
      }
    }

    /** `get_airport_info`: a truthy cached value, otherwise `None`. It only reads the cache. */
    method GetAirportInfo(icao: string, now: int) returns (result: Option<Json>)
      ensures result.Some? <==> CacheHit(cache.entries, AirportKey(icao), now)
      ensures result.Some? ==> result.value == cache.entries[AirportKey(icao)].value
    {
      var cached := CacheGet(cache.entries, AirportKey(icao), now);
      if cached.Some? && Truthy(cached.value) {
        result := cached;
      } else {
        result := None;
      }
    }
  }
}

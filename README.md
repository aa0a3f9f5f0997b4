# Airport Tracker — a Dafny model of its import, OpenSky and front-end rules

Airport Tracker is a Django site with a React front end. Its OpenSky client fetches the
flights of an airport. A management command (`import_opensky_data`) stores them in an
airport table and a flight table. A search box suggests airports as one types. A map centres
on the chosen airport and draws the search radius. An animated canvas joins the shape points
nearest the mouse cursor to it.

This project models those rules in Dafny:

| file | module | models |
|---|---|---|
| `flight_tables.dfy` | `FlightTables` | the airport table (keyed by ICAO code) and flight table (keyed by callsign, icao24, departure, arrival); `get_or_create` and `update_or_create` as functions and as methods of the `Database` class |
| `import_rules.dfy` | `ImportRules` | what the import command does to the tables: the per-record skip rules, the orientation of a flight, the duration, the departure and arrival loops, one airport's import and a whole run |
| `import_command.dfy` | `ImportCommand` | `Command.handle`, `import_flights_for_airport` and `create_or_update_flight` as methods over the database, proved equal to the rules above |
| `opensky_api.dfy` | `OpenSkyApi` | the management-side client: time window, request parameters, departure/arrival split |
| `flight_cache.dfy` | `CachedOpenSky` | the web-side client: cache-aside lookup with five-minute entries over Django's cache, bounding-box parameters, airport information from the cache |
| `autocomplete.dfy` | `Autocomplete` | the search box as a state machine: input, reply, failure, click |
| `map_component.dfy` | `MapComponent` | the map effect's render plan: zoom tiers, radius overlay guard, view target, one-time set-up |
| `particles.dfy` | `Particles` | candidate collection, nearest-point selection and highlighting, shape alpha, and the search box |
| `opensky_records.dfy`, `http.dfy`, `text.dfy`, `uri.dfy`, `seqs.dfy`, `wrappers.dfy` | | OpenSky records with absent/null fields; requests, responses, JSON and Python truthiness; Python `strip()`, JavaScript `trim()` and `length`, `str(int)`; `encodeURIComponent` (section 19.2.6.5 of ECMA-262, UTF-8 per RFC 3629) and its inverse; filters and subsequences |

Inputs the code takes from its environment are parameters:
- the clock is `now`;
- the network is a function from a request to its outcome (`Raised` or a status and a parsed body);
- the OpenSky client that the import command calls is a function from (ICAO code, hours) to its result;
- the credentials read from the environment are plain arguments.

A JSON record field is `Missing`, `Null` or `Present(v)`. This keeps `dict.get(key, default)`
on an absent key apart from a JSON `null`, which makes the command's exception handler skip
the record.

Points worth knowing about the code as written:
- The search box has no debounce and no guard against stale replies. The model makes one
  request per qualifying input event and applies every reply whenever it arrives;
  `Autocomplete.LateReplyWins` shows an older reply overwriting a newer one.
- The map component computes a geodesic circle but throws its points away and draws a plain
  circle of radius·1000 metres, which is what is modelled.
- The two OpenSky clients differ, and each is modelled as written:
  - The management client sends the code under `airport` and always passes
    `(username, password)`.
  - The web client sends it under `icao` and passes credentials only when both are non-empty.

## Model

| member | source | states |
|---|---|---|
| FlightTables.Placeholder | airport_tracker/flights/management/commands/import_opensky_data.py:42-51 | an unseen airport is stored as `Аэропорт <code>`, city and country `Неизвестно`, no IATA code, at 0,0 |
| FlightTables.GetOrCreate | airport_tracker/flights/management/commands/import_opensky_data.py:79-88 | an existing airport is returned unchanged with the tables untouched; an unknown code adds exactly one placeholder row, last in table order; no other airport or flight changes; the table invariant (order lists each key once, every row carries its key) is kept |
| FlightTables.UpdateOrCreate | airport_tracker/flights/management/commands/import_opensky_data.py:91-102 | afterwards the key holds the new row; every other row is unchanged and the airport table untouched; the row count grows by one exactly when the key was new |
| FlightTables.Database.GetOrCreateAirport | airport_tracker/flights/management/commands/import_opensky_data.py:42-51 | the database becomes `GetOrCreate` of its old state; `created` is true exactly when the code was unknown; the airport returned carries the code |
| FlightTables.Database.UpdateOrCreateFlight | airport_tracker/flights/management/commands/import_opensky_data.py:91-102 | the database becomes `UpdateOrCreate` of its old state; `created` is true exactly when the key was new |
| FlightTables.Database.FirstAirports | airport_tracker/flights/management/commands/import_opensky_data.py:27 | `[:n]` yields min(n, size) codes: a prefix of table order, distinct, all existing airports |
| ImportRules.Seconds | airport_tracker/flights/management/commands/import_opensky_data.py:97-98 | a missing timestamp reads as 0, a null one aborts the write, a present one is taken as it is |
| ImportRules.UsableCallsign | airport_tracker/flights/management/commands/import_opensky_data.py:69-71 | a record is kept only if its callsign is a string whose Python-stripped form is non-empty, and that stripped form is the key's callsign; a missing or null callsign skips the record |
| ImportRules.OtherAirport | airport_tracker/flights/management/commands/import_opensky_data.py:74-77 | the other end is `estArrivalAirport` for a departure and `estDepartureAirport` for an arrival, and the record is skipped when that field is absent, null or empty |
| ImportRules.FlightWrite | airport_tracker/flights/management/commands/import_opensky_data.py:91-102 | a row is written exactly when the callsign, the other airport and both timestamps are usable; a departure's key runs tracked → other and an arrival's other → tracked; a missing timestamp reads as 0; the duration d satisfies 60·d ≤ lastSeen − firstSeen < 60·d + 60 (floor division); the raw record is stored |
| ImportRules.ApplyRecord | airport_tracker/flights/management/commands/import_opensky_data.py:66-110 | one record changes the flight table only by its own write; the other airport is got or created as soon as callsign and other code pass, even when a null timestamp then aborts the write; existing airports keep their rows and new ones are placeholders; the invariant is kept |
| ImportRules.ApplyRecords | airport_tracker/flights/management/commands/import_opensky_data.py:54-59 | a loop over records never alters an existing airport, adds only placeholders, and keeps the table invariant |
| ImportRules.ApplyRecordsFlights | airport_tracker/flights/management/commands/import_opensky_data.py:54-59 | after a loop the flight table is the old table overwritten by the rows the loop's records write, each key holding the last row written |
| ImportRules.ApplyRecordsContacts | airport_tracker/flights/management/commands/import_opensky_data.py:79-88 | after a loop every airport any of its records looked up exists |
| ImportRules.ApplyRecordsKnownAirports | airport_tracker/flights/management/commands/import_opensky_data.py:79-88 | a loop whose records only look up existing airports leaves the airport table and its order as they were |
| ImportRules.ApplyRecordsIdempotent | airport_tracker/flights/management/commands/import_opensky_data.py:91-102 | running the same records again leaves the tables as the first run did: re-imported records update their rows and add none |
| ImportRules.WriteOrigin | airport_tracker/flights/management/commands/import_opensky_data.py:91-102 | every row a loop leaves was written by one of its records |
| ImportRules.LastWriteWins | airport_tracker/flights/management/commands/import_opensky_data.py:54-59 | the row left under a key is the one written by the last record with that key |
| ImportRules.HasBothLists | airport_tracker/flights/management/commands/import_opensky_data.py:38-40 | the import goes on exactly when the client returned a dictionary holding both `arrivals` and `departures` |
| ImportRules.ImportFor | airport_tracker/flights/management/commands/import_opensky_data.py:31-64 | without both lists (no data, or `arrivals` or `departures` missing) nothing changes; otherwise the tracked airport exists afterwards, unchanged if it existed and a placeholder if not; existing airports are never altered, new ones are placeholders, and the invariant is kept |
| ImportRules.ImportForFlights | airport_tracker/flights/management/commands/import_opensky_data.py:53-59 | one airport's import overwrites the flight table first with the departures' rows, then with the arrivals' rows |
| ImportRules.ArrivalsOverrideDepartures | airport_tracker/flights/management/commands/import_opensky_data.py:53-59 | a key an arrival writes holds the arrival's row; a key only departures write holds the departure's row; every other row is as it was |
| ImportRules.ImportForIdempotent | airport_tracker/flights/management/commands/import_opensky_data.py:31-64 | importing the same data for the same airport twice leaves the tables exactly as one import does |
| ImportRules.Targets | airport_tracker/flights/management/commands/import_opensky_data.py:22-29 | a non-empty `--airport` imports only that code; otherwise the first min(10, size) airports in table order, distinct and existing, fixed before the loop |
| ImportRules.ImportAll | airport_tracker/flights/management/commands/import_opensky_data.py:27-29 | a run over several airports never alters an existing airport, adds only placeholders, and keeps the invariant |
| ImportRules.ImportAllWithoutData | airport_tracker/flights/management/commands/import_opensky_data.py:38-40 | a run in which no airport's data has both lists leaves the tables untouched |
| ImportCommand.Command.CreateOrUpdateFlight | airport_tracker/flights/management/commands/import_opensky_data.py:66-110 | the database after the call is `ApplyRecord` of the database before, for the tracked airport's code |
| ImportCommand.Command.ImportFlightsForAirport | airport_tracker/flights/management/commands/import_opensky_data.py:31-64 | the database after the call is `ImportFor` of the database before and what the client returned |
| ImportCommand.Command.Handle | airport_tracker/flights/management/commands/import_opensky_data.py:16-29 | the codes imported are `Targets` of the starting tables, `--hours` defaults to 24, and the database ends as `ImportAll` of those codes |
| ImportCommand.EmptyAnswerCreatesTrackedAirport | airport_tracker/flights/management/commands/import_opensky_data.py:36-59 | an answer with no flights (an empty list, object or string) still gets or creates the tracked airport and writes no flight |
| ImportCommand.ServiceDataRowsMatchRecords | airport_tracker/flights/management/commands/import_opensky_data.py:91-95 | with data shaped as the OpenSky client returns it, every new or rewritten row's departure and arrival are the ones its stored record reports |
| OpenSkyApi.QueryWindow | airport_tracker/flights/management/opensky_service.py:30-31 | the window ends now and is exactly hours·3600 seconds long |
| OpenSkyApi.FlightsRequest | airport_tracker/flights/management/opensky_service.py:33-45 | the request goes to `/flights/airport` with exactly the parameters `airport`, `begin`, `end`, the configured credentials always, and a 30 s timeout |
| OpenSkyApi.Split | airport_tracker/flights/management/opensky_service.py:55-61 | the result has exactly the keys `departures` and `arrivals`; each is the subsequence of the input whose `estDepartureAirport` (resp. `estArrivalAirport`) equals the code, with each such record kept as many times as it occurs |
| OpenSkyApi.SplitCoverage | airport_tracker/flights/management/opensky_service.py:55-56 | a record matching both fields is in both lists, one matching neither is in neither |
| OpenSkyApi.GetFlightsByAirport | airport_tracker/flights/management/opensky_service.py:24-70 | one request is sent; a result exists exactly on status 200 with a readable body, and it is the split of that body (an empty object or string reads as no records, so both lists are empty); anything else yields `None` |
| CachedOpenSky.CacheGet | airport_tracker/flights/services/opensky_service.py:22 | a cached value is returned exactly while it has not expired |
| CachedOpenSky.CacheHit | airport_tracker/flights/services/opensky_service.py:22-24 | a lookup counts as a hit exactly when an unexpired entry holds a truthy value |
| CachedOpenSky.FlightsKey | airport_tracker/flights/services/opensky_service.py:21 | the key is `opensky_flights_`, the code, `_` and the decimal hours |
| CachedOpenSky.AirportKey | airport_tracker/flights/services/opensky_service.py:89 | the key is `opensky_airport_` followed by the code |
| CachedOpenSky.FlightsKeyInjective | airport_tracker/flights/services/opensky_service.py:21 | whatever the codes, underscores included, two (airport, hours) pairs share a cache key only if they are equal |
| CachedOpenSky.KeysNeverCollide | airport_tracker/flights/services/opensky_service.py:89 | a flight-list key never equals an airport-information key |
| CachedOpenSky.Credentials | airport_tracker/flights/services/opensky_service.py:41-44 | credentials are sent exactly when both user name and password are non-empty |
| CachedOpenSky.FlightsRequest | airport_tracker/flights/services/opensky_service.py:31-47 | parameters exactly `icao`, `begin`, `end` with end − begin = hours·3600, credentials per `Credentials`, 30 s timeout |
| CachedOpenSky.FlightsLookup | airport_tracker/flights/services/opensky_service.py:19-60 | a truthy unexpired entry is returned with no request and no cache change; a miss sends the flights request and returns the body of a 200 response, `None` otherwise; a result is stored under the key for 300 s; a failure leaves the cache as it was; no other key changes |
| CachedOpenSky.MissOutcome | airport_tracker/flights/services/opensky_service.py:49-60 | on a miss a result exists exactly when the response has status 200 and a readable body |
| CachedOpenSky.StoredAnswerIsServed | airport_tracker/flights/services/opensky_service.py:22-26 | after a truthy answer is stored, every lookup of the same key within 300 s returns it and sends nothing, whatever the network does |
| CachedOpenSky.FalsyAnswerIsRefetched | airport_tracker/flights/services/opensky_service.py:24 | a stored falsy answer, such as an empty list, is not a hit: the next lookup asks the network again |
| CachedOpenSky.StatesRequest | airport_tracker/flights/services/opensky_service.py:62-77 | no or empty bbox gives no parameters; a bbox of four or more numbers gives lamin = bbox[1], lamax = bbox[3], lomin = bbox[0], lomax = bbox[2]; a shorter non-empty one raises, so nothing is sent; 10 s timeout, no credentials |
| CachedOpenSky.CacheStore.Set | airport_tracker/flights/services/opensky_service.py:52 | `cache.set` replaces only that key, with expiry now + timeout |
| CachedOpenSky.Service.GetFlightsByAirport | airport_tracker/flights/services/opensky_service.py:19-60 | the request sent, the result and the new cache are exactly those of `FlightsLookup` on the old cache |
| CachedOpenSky.Service.GetAllFlights | airport_tracker/flights/services/opensky_service.py:62-85 | the request is `StatesRequest(bbox)`; the result is the body of a 200 response and `None` otherwise |
| CachedOpenSky.Service.GetAirportInfo | airport_tracker/flights/services/opensky_service.py:87-102 | a value is returned exactly on a truthy unexpired cache entry, and it is that entry; the cache is only read |
| Text.Utf16Length | airport_tracker/frontend/static/frontend/js/autocomplete.js:14 | JavaScript's `length` lies between the number of characters and twice it |
| Text.Utf16AtLeastTwo | airport_tracker/frontend/static/frontend/js/autocomplete.js:14 | a query passes the length check exactly when it has two characters, or one outside the Basic Multilingual Plane |
| Uri.EncodeURIComponent | airport_tracker/frontend/static/frontend/js/autocomplete.js:20 | the encoded query contains only unreserved characters, `%` and upper-case hex digits |
| Uri.EncodeDecodeRoundTrip | airport_tracker/frontend/static/frontend/js/autocomplete.js:20 | decoding the encoded query gives back the query |
| Autocomplete.RequestFor | airport_tracker/frontend/static/frontend/js/autocomplete.js:8-20 | a request is made exactly when the trimmed query is at least two UTF-16 units long, and its URL is the autocomplete path plus the encoded trimmed query |
| Autocomplete.RequestCarriesQuery | airport_tracker/frontend/static/frontend/js/autocomplete.js:20 | the server decodes from the `q` parameter exactly the trimmed query |
| Autocomplete.RequestIgnoresBlanks | airport_tracker/frontend/static/frontend/js/autocomplete.js:8 | surrounding blanks never change what is requested |
| Autocomplete.EntriesOf | airport_tracker/frontend/static/frontend/js/autocomplete.js:37-50 | one entry per result in result order, each showing `text` and choosing `name` |
| Autocomplete.Page.constructor | airport_tracker/frontend/static/frontend/js/autocomplete.js:1-5 | the handler is installed exactly when the search box exists; nothing is shown or fetched yet |
| Autocomplete.Page.OnInput | airport_tracker/frontend/static/frontend/js/autocomplete.js:7-28 | without the box nothing but its value changes; with it the suggestions are emptied and exactly the request `RequestFor` names, if any, is added |
| Autocomplete.Page.ShowSuggestions | airport_tracker/frontend/static/frontend/js/autocomplete.js:30-51 | the container ends with exactly `EntriesOf(results)`, empty for no or absent results, and stays empty without a container |
| Autocomplete.Page.OnReply | airport_tracker/frontend/static/frontend/js/autocomplete.js:21-27 | a failed request leaves the suggestions as they are; a delivered reply shows its results whichever request it answers |
| Autocomplete.Page.OnClick | airport_tracker/frontend/static/frontend/js/autocomplete.js:44-47 | the box takes the clicked entry's `name`, not its label, and the list empties |
| Autocomplete.PickSuggestion | airport_tracker/frontend/static/frontend/js/autocomplete.js:7-47 | typing, receiving results and clicking the k-th entry leaves the k-th item's name in the box, after exactly one request |
| Autocomplete.LateReplyWins | airport_tracker/frontend/static/frontend/js/autocomplete.js:20-24 | when the reply to an older query arrives last, its results are shown while the box holds the newer query |
| MapComponent.Zoom | airport_tracker/frontend/static/frontend/js/components/MapComponent.jsx:187 | the zoom always lies in 5..8 |
| MapComponent.ZoomNonIncreasing | airport_tracker/frontend/static/frontend/js/components/MapComponent.jsx:187 | a larger radius never gives a closer zoom |
| MapComponent.ZoomTiers | airport_tracker/frontend/static/frontend/js/components/MapComponent.jsx:187 | the tiers are (1000, ∞) → 5, (500, 1000] → 6, (200, 500] → 7, and 8 otherwise |
| MapComponent.RadiusOverlay | airport_tracker/frontend/static/frontend/js/components/MapComponent.jsx:50 | the overlay is centred on the airport and its radius in metres is radiusKm·1000 |
| MapComponent.RenderPlan | airport_tracker/frontend/static/frontend/js/components/MapComponent.jsx:105-202 | an overlay exactly when there is a centre airport and a positive radius (default 500); the view animates to the centre at `Zoom(radius)`, else to the first airport at zoom 10, else not at all; 1000 ms |
| MapComponent.DefaultRadiusPlan | airport_tracker/frontend/static/frontend/js/components/MapComponent.jsx:13 | with the radius left out, a centre airport gets zoom 7 and a 500 000 m circle |
| MapComponent.MapWidget.constructor | airport_tracker/frontend/static/frontend/js/components/MapComponent.jsx:14-18 | before the first render there is no map, no layer and nothing drawn |
| MapComponent.MapWidget.RunEffect | airport_tracker/frontend/static/frontend/js/components/MapComponent.jsx:53-204 | one run of the effect: the map is built once, on Moscow at zoom 5 with four layers, and later runs keep it; the airport and flight layers end empty; the radius layer holds exactly the plan's overlay; exactly the plan's animation is started |
| MapComponent.RunEffectTwice | airport_tracker/frontend/static/frontend/js/components/MapComponent.jsx:53-204 | running the effect twice with equal properties leaves at most one radius feature and starts the same animation twice |
| Particles.Insert | airport_tracker/frontend/static/frontend/js/components/Particles.jsx:182 | inserting into a list sorted by distance keeps it sorted and adds exactly that candidate |
| Particles.SortByDistance | airport_tracker/frontend/static/frontend/js/components/Particles.jsx:182 | the sorted list is ascending by distance and a permutation of the candidates |
| Particles.SortIsStable | airport_tracker/frontend/static/frontend/js/components/Particles.jsx:182 | the sort is stable: the candidates at any one distance come out in the order they went in |
| Particles.InsertIsStable | airport_tracker/frontend/static/frontend/js/components/Particles.jsx:182 | inserting a candidate puts it after every candidate at its own distance |
| Particles.ClosestCount | airport_tracker/frontend/static/frontend/js/components/Particles.jsx:183 | the count is clamped to 10..15 |
| Particles.Selected | airport_tracker/frontend/static/frontend/js/components/Particles.jsx:183-184 | exactly min(n, 15) candidates, the first of the sorted list: the lower clamp of 10 never selects more than exist |
| Particles.SelectedAreNearest | airport_tracker/frontend/static/frontend/js/components/Particles.jsx:182-184 | the selected and unselected candidates together are all the candidates, and no selected one is farther than an unselected one |
| Particles.Highlighted | airport_tracker/frontend/static/frontend/js/components/Particles.jsx:195-203 | the first four joined lines are highlighted when more than three are joined, none otherwise |
| Particles.Connections | airport_tracker/frontend/static/frontend/js/components/Particles.jsx:179-205 | nothing is stroked with the mouse inactive or no candidates; otherwise the nearest min(n, 15) are joined and the highlighted lines are a prefix of at most four of them |
| Particles.CloseOnes | airport_tracker/frontend/static/frontend/js/components/Particles.jsx:129-144 | a shape contributes exactly its points nearer than 220, each with its own index and distance, each once and in point order |
| Particles.Collected | airport_tracker/frontend/static/frontend/js/components/Particles.jsx:215-223 | with the mouse inactive a frame has no candidates; with it active, every point of every shape nearer than 220 is a candidate, and every candidate is such a point with its own shape, index and distance; they come shape by shape and point by point, so none appears twice |
| Particles.Near | airport_tracker/frontend/static/frontend/js/components/Particles.jsx:147 | the near distances are those of the shape below 220, each as often as it occurs, and there are none exactly when no distance is below 220 |
| Particles.Alpha | airport_tracker/frontend/static/frontend/js/components/Particles.jsx:147-154 | the alpha is the base alpha when the mouse is inactive or no distance is below 220, and otherwise lies in (base, base + 1.6] |
| Particles.Canvas.SetMouseActive | airport_tracker/frontend/static/frontend/js/components/Particles.jsx:230-239 | `mousemove` activates and `mouseleave` deactivates the mouse, nothing else changes |
| Particles.Canvas.UpdateShape | airport_tracker/frontend/static/frontend/js/components/Particles.jsx:129-145 | one shape's update appends exactly `CloseOnes` of its distances when the mouse is active, and nothing otherwise |
| Particles.Canvas.DrawConnections | airport_tracker/frontend/static/frontend/js/components/Particles.jsx:179-205 | the strokes are `Connections` of the candidates, which are sorted in place only when something is drawn |
| Particles.Canvas.Animate | airport_tracker/frontend/static/frontend/js/components/Particles.jsx:215-227 | a frame empties the candidates, collects every shape's near points in turn and strokes `Connections` of them |
| Particles.SearchBox.OnChange | airport_tracker/frontend/static/frontend/js/components/Particles.jsx:296 | typing sets the value and shows nothing |
| Particles.SearchBox.HandleSearch | airport_tracker/frontend/static/frontend/js/components/Particles.jsx:256-262 | a value that is not all blanks raises the alert `Searching for: ` plus the untrimmed value and clears the box; otherwise nothing happens |
| Particles.SearchBox.HandleKeyPress | airport_tracker/frontend/static/frontend/js/components/Particles.jsx:264-269 | Enter behaves exactly as the search button; any other key does nothing |
| Particles.BlankSearchIgnored | airport_tracker/frontend/static/frontend/js/components/Particles.jsx:258 | a value made only of blanks trims to nothing and is never searched |

## Left out

- Geodesic circle sampling (`MapComponent.jsx:27-48`): floating-point `asin`/`atan2` whose points are thrown away; only the circle actually returned is modelled.
- `fromLonLat`/`toLonLat`: the projection to map coordinates is not modelled; positions stay in longitude/latitude.
- `handleMapClick` only logs.
- The `flights` property of the map component takes part in nothing the effect draws.
- Shape motion and morphing, `ChaoticShape.js`, and all canvas drawing: these use `Math.random` and trigonometry. A frame is given as the distances of each shape's points to the mouse, and strokes are lists of candidates.
- `others/start.js` and `others/drraft.js`: standalone canvas animations, not part of the site.
- Routing, views, forms, webpack configuration, `app.jsx` and `AirportMapPage.jsx`: they hold no rules of their own.
- The page-navigation button (`handle_about_btn`) is not modelled either.
- Logging, `print` and `console` output.
- HTTP, the system clock and environment variables are parameters: the network is a function of the request, the time is `now`, and the credentials are arguments.
- Django's cache is a map that only expires entries. Eviction under memory pressure and other processes sharing the cache are not modelled.
- The `Flight` model is commented out in `flights/models.py`, yet `import_opensky_data.py:3` imports it, so the command as written fails at import. The model describes the command as if a `Flight` model existed with the fields the command passes to `update_or_create`.
- `Airport.objects.all()` has no ordering. The model takes table order to be creation order.
- Database-level errors are not modelled, such as an ICAO code longer than the 8 characters `icao_code` allows under a database that enforces it.
- JSON values of types other than the OpenSky API documents are read as `Null`, even where the code would accept them. A float `firstSeen` or `lastSeen`, which `fromtimestamp` and `//` take, makes the model skip a record the code writes. A non-string callsign, which fails `strip()` in the code, is read the same way.
- ImportRules.FlightWrite: does not model `fromtimestamp` rejecting timestamps outside the platform's range; any integer is accepted.
- CachedOpenSky.FlightsLookup: an unreadable JSON body counts as a failure, because it raises a `RequestException` in current versions of `requests`.
- CachedOpenSky.FlightsLookup: exceptions other than `RequestException` are not modelled; they would propagate.
- Autocomplete.Page.ShowSuggestions: result items are assumed to carry string `text` and `name`.
- Autocomplete.Page.ShowSuggestions: the entries' styling is not modelled.
- MapComponent.MapWidget.RunEffect and MapComponent.RunEffectTwice: the effect's dependency list (`MapComponent.jsx:204`) is not modelled. React reruns the effect only when one of `airports`, `centerAirport`, `radius` and `flights` is a different object (`Object.is`). A render with the same objects does not run it at all. The `[]` defaults are fresh on every render, so leaving `airports` or `flights` out makes every render run it.
- MapComponent.Zoom: a radius that is not a number (NaN, `null`) is not modelled; the radius is a real number or absent.
- Particles.Alpha: distances are exact reals. Floating-point rounding and the `Infinity` written for an inactive mouse are not modelled; an inactive mouse simply yields the base alpha.

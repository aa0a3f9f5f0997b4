/** The map's effect (frontend/static/frontend/js/components/MapComponent.jsx): on every
    render it clears its three vector layers, draws the search-radius circle when there is a
    centre airport and a positive radius, and animates the view towards the centre airport
    or else the first airport. The map itself is built on the first render only. Positions
    are kept in longitude/latitude; the projection to map coordinates is not modelled. */
module MapComponent {
  import opened Wrappers

  const DefaultRadiusKm := 500.0
  const MetresPerKm := 1000.0
  const AnimationMs := 1000
  const FirstAirportZoom := 10
  const InitialZoom := 5

  datatype LonLat = LonLat(lon: real, lat: real)

  /** Moscow, where the view starts. */
  const InitialCenter := LonLat(37.6173, 55.7558)

  /** The fields of an airport the map uses. */
  datatype MapAirport = MapAirport(icao: string, latitude: real, longitude: real)

  function Position(a: MapAirport): LonLat {
    LonLat(a.longitude, a.latitude)
  }

  /** The properties; `radius` is `None` when not passed, and then defaults to 500 km. */
  datatype Props = Props(airports: seq<MapAirport>, centerAirport: Option<MapAirport>, radius: Option<real>)

  /** The radius overlay feature: a circle around `center` of `metres` metres. */
  datatype RadiusCircle = RadiusCircle(center: LonLat, metres: real)

  /** A `view.animate` call. */
  datatype Animation = Animation(center: LonLat, zoom: int, duration: int)

  /** A vector layer's content; the marker and line code is commented out, so none is ever
      added to the airport and flight layers. */
  datatype Marker = Marker(at: LonLat)

  /** The zoom for a search radius in km: wider radii zoom further out. */
  function Zoom(radiusKm: real): (z: int)
    ensures 5 <= z <= 8
  {
    if radiusKm > 1000.0 then 5 else if radiusKm > 500.0 then 6 else if radiusKm > 200.0 then 7 else 8
  }

  /** A larger radius never gives a closer zoom. */
  lemma ZoomNonIncreasing(r1: real, r2: real)
    requires r1 <= r2
    ensures Zoom(r2) <= Zoom(r1)
  {
  }

  /** The zoom tiers: the boundaries 200, 500 and 1000 km belong to the closer tier. */
  lemma ZoomTiers(r: real)
    ensures Zoom(r) == 5 <==> r > 1000.0
    ensures Zoom(r) == 6 <==> 500.0 < r <= 1000.0
    ensures Zoom(r) == 7 <==> 200.0 < r <= 500.0
    ensures Zoom(r) == 8 <==> r <= 200.0
  {
  }

  /** `createRadiusCircle(centerLonLat, radiusKm)`: the geometry it returns. */
  function RadiusOverlay(center: LonLat, radiusKm: real): (c: RadiusCircle)
    ensures c.center == center && c.metres == radiusKm * MetresPerKm
    ensures radiusKm > 0.0 ==> c.metres > 0.0
  {
    RadiusCircle(center, radiusKm * MetresPerKm)
  }

  /** What one render draws and where it moves the view. */
  datatype Plan = Plan(overlay: Option<RadiusCircle>, animation: Option<Animation>)

  function RenderPlan(p: Props): (plan: Plan)
    ensures var radius := p.radius.GetOr(DefaultRadiusKm);
      && (plan.overlay.Some? <==> p.centerAirport.Some? && radius > 0.0)
      && (plan.overlay.Some? ==>
            plan.overlay.value.center == Position(p.centerAirport.value) &&
            plan.overlay.value.metres == radius * MetresPerKm)
      && (plan.animation.Some? <==> p.centerAirport.Some? || |p.airports| > 0)
      && (p.centerAirport.Some? ==>
            plan.animation == Some(Animation(Position(p.centerAirport.value), Zoom(radius), AnimationMs)))
      && (p.centerAirport.None? && |p.airports| > 0 ==>
            plan.animation == Some(Animation(Position(p.airports[0]), FirstAirportZoom, AnimationMs)))
  {
    var radius := p.radius.GetOr(DefaultRadiusKm);
    var overlay := if p.centerAirport.Some? && radius > 0.0
                   then Some(RadiusOverlay(Position(p.centerAirport.value), radius)) else None;
    var animation :=
      if p.centerAirport.Some? then Some(Animation(Position(p.centerAirport.value), Zoom(radius), AnimationMs))
      else if |p.airports| > 0 then Some(Animation(Position(p.airports[0]), FirstAirportZoom, AnimationMs))
      else None;
    Plan(overlay, animation)
  }

  /** The plan for the default radius, 500 km, zooms to tier 7 around a centre airport. */
  lemma DefaultRadiusPlan(airports: seq<MapAirport>, center: MapAirport)
    ensures RenderPlan(Props(airports, Some(center), None)).animation ==
            Some(Animation(Position(center), 7, AnimationMs))
    ensures RenderPlan(Props(airports, Some(center), None)).overlay ==
            Some(RadiusCircle(Position(center), 500000.0))
  {
  }

  /** The component's refs: whether the map exists, the view it was built with, the three
      vector layers' features, and the animations started so far. */
  class MapWidget {
    var initialized: bool
    var initialView: Option<(LonLat, int)>
    var layers: nat
    var airportFeatures: seq<Marker>
    var flightFeatures: seq<Marker>
    var radiusFeatures: seq<RadiusCircle>
    var animations: seq<Animation>

    /** Before the first render there is no map. */
    constructor ()
      ensures !initialized && initialView.None? && layers == 0
      ensures airportFeatures == [] && flightFeatures == [] && radiusFeatures == [] && animations == []
    {
      initialized := false;
      initialView := None;
      layers := 0;
      airportFeatures, flightFeatures, radiusFeatures := [], [], [];
      animations := [];
    }

    /** The map is built, with a tile layer and the three vector layers, on Moscow at zoom 5. */
    ghost predicate Built()
      reads this
    {
      initialized && initialView == Some((InitialCenter, InitialZoom)) && layers == 4
    }

    /** One run of the effect. React runs it after the first render and after every render
        in which one of `airports`, `centerAirport`, `radius` and `flights` is a different
        object from the last run; which renders those are is decided outside this class. */
    method RunEffect(p: Props)
      requires initialized ==> Built()
      modifies this
      ensures Built()
      ensures old(initialized) ==> initialView == old(initialView) && layers == old(layers)
      ensures airportFeatures == [] && flightFeatures == []
      ensures radiusFeatures == match RenderPlan(p).overlay case None => [] case Some(c) => [c]
      ensures animations == old(animations) + match RenderPlan(p).animation case None => [] case Some(a) => [a]
    {
      if !initialized {
        initialized := true;
        initialView := Some((InitialCenter, InitialZoom));
        layers := 4;  // the OSM tile layer, then the airport, flight and radius layers
      }
      airportFeatures := [];
      flightFeatures := [];
      radiusFeatures := [];
      var radius := p.radius.GetOr(DefaultRadiusKm);
      if p.centerAirport.Some? && radius > 0.0 {
        radiusFeatures := radiusFeatures + [RadiusOverlay(Position(p.centerAirport.value), radius)];
      }
      if p.centerAirport.Some? {
        var zoom := Zoom(radius);
        animations := animations + [Animation(Position(p.centerAirport.value), zoom, AnimationMs)];
      } else if |p.airports| > 0 {
        animations := animations + [Animation(Position(p.airports[0]), FirstAirportZoom, AnimationMs)];
      }
    }
  }

  /** Running the effect again with the same properties (as happens when a dependency is a
      fresh but equal object, such as the `[]` default) draws the same layers; only another
      animation is started. */
  method RunEffectTwice(w: MapWidget, p: Props)
    requires w.initialized ==> w.Built()
    modifies w
    ensures w.Built() && |w.radiusFeatures| <= 1
    ensures w.animations == old(w.animations) +
      match RenderPlan(p).animation case None => [] case Some(a) => [a, a]
  {
    w.RunEffect(p);
    w.RunEffect(p);
  }
}

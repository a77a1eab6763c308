/**
 * The pedestrian-flow run of find_bad_places2.py: populate the houses,
 * build the street graph, snap houses and then stops onto the street nodes,
 * route every house to every stop, load the edges, apply the congestion
 * weights once and summarise.
 */
module Pipeline {
  import opened Wrappers
  import opened Geometry
  import opened Graphs
  import opened GraphBuilder
  import opened Snapping
  import opened Population
  import opened Routing
  import opened Loads
  import opened Congestion
  import opened Summary

  /** A row of the house table: its centroid and its `Apartments` value. */
  datatype HouseRow = HouseRow(point: Coord, apartments: real)

  function Apartments(houses: seq<HouseRow>): seq<real> {
    seq(|houses|, i requires 0 <= i < |houses| => houses[i].apartments)
  }

  /** The houses with their `Total_People` column. */
  function HousePlaces(houses: seq<HouseRow>, totals: seq<int>): seq<Place>
    requires |totals| == |houses|
  {
    seq(|houses|, i requires 0 <= i < |houses| => Place(houses[i].point, totals[i]))
  }

  /** The stops, which carry no residents. */
  function StopPlaces(stops: seq<Coord>): seq<Place> {
    seq(|stops|, i requires 0 <= i < |stops| => Place(stops[i], 0))
  }

  /**
   * The tree is built once, from the street nodes, so a stop is linked to a
   * street node nearest to it even when a snapped house lies closer.
   */
  lemma StopsSnapToStreetNodes(streets: seq<Line>, housePlaces: seq<Place>, stopPlaces: seq<Place>,
                               nodeCoords: seq<Coord>, dist: Distance, j: nat)
    requires |nodeCoords| > 0 && IsDistance(dist)
    requires forall c :: c in nodeCoords <==> c in BuildGraph(streets, dist).nodes
    requires j < |stopPlaces|
    ensures var street := BuildGraph(streets, dist);
      var g := SnapHousesAndStops(street, housePlaces, stopPlaces, nodeCoords, dist, true);
      var p := stopPlaces[j].point;
      var n := Nearest(p, nodeCoords, dist);
      && n in street.nodes
      && (forall c :: c in street.nodes ==> dist(p, n) <= dist(p, c))
      && (n, p) in g.weight && (p, n) in g.weight
      && g.weight[(n, p)] == dist(p, n) == g.weight[(p, n)]
  {
    var withHouses := SnapPlaces(BuildGraph(streets, dist), housePlaces, nodeCoords, House, dist, true);
    PlacesAreLinked(withHouses, stopPlaces, nodeCoords, BusStop, dist, true, j);
  }

  /** Under a shortest-path router every route is a shortest path between the node pair it is keyed by. */
  lemma AllRoutesAreShortest(g: Graph, houses: seq<Place>, stops: seq<Place>, nodeCoords: seq<Coord>,
                             dist: Distance, sp: PathFinder)
    requires |nodeCoords| > 0 && IsShortestPathRouter(g, sp)
    ensures var routes := AssignRoutes(g, houses, stops, nodeCoords, dist, sp);
      forall k :: k in routes ==> (IsPath(g, routes[k].path, k.0, k.1) &&
        forall q :: IsPath(g, q, k.0, k.1) ==> PathLength(g.weight, routes[k].path) <= PathLength(g.weight, q))
  {
    var routes := AssignRoutes(g, houses, stops, nodeCoords, dist, sp);
    forall k | k in routes
      ensures IsPath(g, routes[k].path, k.0, k.1)
      ensures forall q :: IsPath(g, q, k.0, k.1) ==> PathLength(g.weight, routes[k].path) <= PathLength(g.weight, q)
    {
      RouteKeysAndPaths(g, houses, stops, nodeCoords, dist, sp, k);
    }
  }

  /**
   * The run. With no street node the nearest-neighbour tree cannot be
   * built, so the run fails before any place is snapped. Otherwise the routes are those of the snapped graph, the
   * loads those of the routes, the graph ends with its weights congested
   * once by those loads, and the summary is taken over routes and loads.
   */
  method RunPipeline(streets: seq<Line>, houses: seq<HouseRow>, stops: seq<Coord>, draws: nat -> Sampler,
                     dist: Distance, sp: PathFinder)
    returns (r: Result<TrafficSummary>, g: DiGraph, nodeList: seq<Coord>, routes: Routes, loads: map<Edge, real>)
    requires IsDistance(dist) && IsShortestPathFinder(sp)
    ensures fresh(g)
    ensures forall c :: c in nodeList <==> c in BuildGraph(streets, dist).nodes
    ensures |nodeList| == 0 ==> r == Err(NoStreetNodes)
    ensures |nodeList| > 0 ==> (
      var totals := PopulateHouses(Apartments(houses), draws);
      var housePlaces, stopPlaces := HousePlaces(houses, totals), StopPlaces(stops);
      var snapped := SnapHousesAndStops(BuildGraph(streets, dist), housePlaces, stopPlaces, nodeList, dist, true);
      && routes == AssignRoutes(snapped, housePlaces, stopPlaces, nodeList, dist, sp)
      && (forall k :: k in routes ==> (IsPath(snapped, routes[k].path, k.0, k.1) &&
            forall q :: IsPath(snapped, q, k.0, k.1) ==> PathLength(snapped.weight, routes[k].path) <= PathLength(snapped.weight, q)))
      && loads.Keys == snapped.weight.Keys
      && (forall e :: e in loads ==> loads[e] == LoadOn(routes, e))
      && g.nodes == snapped.nodes
      && g.weight == Reweighted(snapped.weight, loads, DefaultCapacity)
      && (r.Err? <==> |routes| == 0)
      && (r.Ok? ==>
            && r.value.numBusStops == |stops|
            && r.value.totalPeople == TotalFlow(routes)
            && r.value.overloadedEdgesCount == |Overloaded(loads)|
            && r.value.longestOverloadedEdgeLength >= 0.0
            && (forall e :: e in Overloaded(loads) ==> dist(e.0, e.1) <= r.value.longestOverloadedEdgeLength)
            && (r.value.longestOverloadedEdgeLength == 0.0 ||
                exists e :: e in Overloaded(loads) && r.value.longestOverloadedEdgeLength == dist(e.0, e.1))
            && r.value.systemScore == SystemScore(|routes|, |Overloaded(loads)|)))
  {
    var totals := PopulateHouses(Apartments(houses), draws);
    var housePlaces, stopPlaces := HousePlaces(houses, totals), StopPlaces(stops);
    g, nodeList := CreateGraph(streets, dist);
    routes, loads := map[], map[];
    if |nodeList| == 0 {
      r := Err(NoStreetNodes);
      return;
    }
    ghost var street := g.Value();
    AddPlacesToGraph(housePlaces, g, nodeList, House, dist, true);
    AddPlacesToGraph(stopPlaces, g, nodeList, BusStop, dist, true);
    ghost var snapped := g.Value();
    assert snapped == SnapHousesAndStops(street, housePlaces, stopPlaces, nodeList, dist, true);
    BuildGraphFacts(streets, dist);
    SnapHousesAndStopsFacts(street, housePlaces, stopPlaces, nodeList, dist, true, sp);
    routes := AssignRoutesToPopulation(g.Value(), housePlaces, stopPlaces, nodeList, dist, sp);
    AllRoutesAreShortest(snapped, housePlaces, stopPlaces, nodeList, dist, sp);
    loads := CalculatePopulationLoads(g.Value(), routes);
    UpdateWeights(g, loads, DefaultCapacity);
    r := SummarizeTrafficData(loads, routes, |stops|, dist);
  }
}

/**
 * The nearest-stop run of data_process_new.py: the same street graph and
 * snapping (without `total_people`), then the houses whose nearest stop lies
 * within 1.0 (in the coordinate units, degrees), and for each of them the
 * shortest path to that one stop, if any.
 */
module NearestStopVariant {
  import opened Wrappers
  import opened Geometry
  import opened Graphs
  import opened GraphBuilder
  import opened Snapping

  /** The walking radius, in coordinate units. */
  const WalkRadius: real := 1.0

  /**
   * The house locations whose nearest stop lies within the radius, in
   * order. `min` over the stop dictionary picks the first stop of smallest
   * distance, which is `Nearest` over the stop list.
   */
  function NearStops(houses: seq<Coord>, stops: seq<Coord>, dist: Distance): seq<Coord>
    requires |stops| > 0
  {
    if houses == [] then []
    else
      var before := NearStops(houses[..|houses| - 1], stops, dist);
      var h := houses[|houses| - 1];
      if dist(h, Nearest(h, stops, dist)) <= WalkRadius then before + [h] else before
  }

  /** A house is kept exactly when some stop lies within the radius; no house is added. */
  lemma {:induction false} NearStopsMembers(houses: seq<Coord>, stops: seq<Coord>, dist: Distance)
    requires |stops| > 0
    ensures |NearStops(houses, stops, dist)| <= |houses|
    ensures forall h :: h in NearStops(houses, stops, dist) <==>
      h in houses && exists s :: s in stops && dist(h, s) <= WalkRadius
  {
    if houses != [] {
      var init := houses[..|houses| - 1];
      var last := houses[|houses| - 1];
      NearStopsMembers(init, stops, dist);
      assert houses == init + [last];
      var n := Nearest(last, stops, dist);
      assert n in stops && forall s :: s in stops ==> dist(last, n) <= dist(last, s);
    }
  }

  /** The positions, in increasing order, of the first n houses whose nearest stop lies within the radius. */
  function NearIndices(houses: seq<Coord>, stops: seq<Coord>, dist: Distance, n: nat): seq<nat>
    requires |stops| > 0 && n <= |houses|
  {
    if n == 0 then []
    else
      var h := houses[n - 1];
      NearIndices(houses, stops, dist, n - 1) + if dist(h, Nearest(h, stops, dist)) <= WalkRadius then [n - 1] else []
  }

  /** The positions are increasing, below n, and exactly those of the houses near a stop. */
  lemma {:induction false} NearIndicesFacts(houses: seq<Coord>, stops: seq<Coord>, dist: Distance, n: nat)
    requires |stops| > 0 && n <= |houses|
    ensures var idx := NearIndices(houses, stops, dist, n);
      && (forall k :: 0 <= k < |idx| ==> idx[k] < n)
      && (forall k, l :: 0 <= k < l < |idx| ==> idx[k] < idx[l])
      && (forall i :: 0 <= i < n ==> (i in idx <==> dist(houses[i], Nearest(houses[i], stops, dist)) <= WalkRadius))
  {
    if n > 0 {
      NearIndicesFacts(houses, stops, dist, n - 1);
    }
  }

  /** The kept houses are the input houses at those positions, in that order. */
  lemma {:induction false} NearStopsAtIndices(houses: seq<Coord>, stops: seq<Coord>, dist: Distance, n: nat)
    requires |stops| > 0 && n <= |houses|
    ensures var idx, kept := NearIndices(houses, stops, dist, n), NearStops(houses[..n], stops, dist);
      |idx| == |kept| && forall k :: 0 <= k < |idx| ==> idx[k] < |houses| && kept[k] == houses[idx[k]]
  {
    if n > 0 {
      NearStopsAtIndices(houses, stops, dist, n - 1);
      var h := houses[n - 1];
      var idx0, kept0 := NearIndices(houses, stops, dist, n - 1), NearStops(houses[..n - 1], stops, dist);
      var idx, kept := NearIndices(houses, stops, dist, n), NearStops(houses[..n], stops, dist);
      assert houses[..n][..n - 1] == houses[..n - 1];
      if dist(h, Nearest(h, stops, dist)) <= WalkRadius {
        assert idx == idx0 + [n - 1] && kept == kept0 + [h];
        forall k | 0 <= k < |idx|
          ensures idx[k] < |houses| && kept[k] == houses[idx[k]]
        {
          if k < |idx0| {
            assert idx[k] == idx0[k] && kept[k] == kept0[k];
          }
        }
      } else {
        assert idx == idx0 && kept == kept0;
      }
    }
  }

  /**
   * The kept houses are the input houses at increasing positions, exactly
   * those whose nearest stop lies within the radius: the input order is
   * kept and a repeated house is kept as often as it occurs.
   */
  lemma NearStopsInOrder(houses: seq<Coord>, stops: seq<Coord>, dist: Distance)
    requires |stops| > 0
    ensures var idx, kept := NearIndices(houses, stops, dist, |houses|), NearStops(houses, stops, dist);
      && |idx| == |kept|
      && (forall k :: 0 <= k < |idx| ==> idx[k] < |houses| && kept[k] == houses[idx[k]])
      && (forall k, l :: 0 <= k < l < |idx| ==> idx[k] < idx[l])
      && (forall i :: 0 <= i < |houses| ==> (i in idx <==> dist(houses[i], Nearest(houses[i], stops, dist)) <= WalkRadius))
  {
    NearIndicesFacts(houses, stops, dist, |houses|);
    NearStopsAtIndices(houses, stops, dist, |houses|);
    assert houses[..|houses|] == houses;
  }

  /**
   * `find_buildings_within_1km`; `min` over no stops raises `ValueError`,
   * here an error, as soon as there is a house to look at.
   */
  method FindBuildingsWithin1km(houses: seq<Coord>, stops: seq<Coord>, dist: Distance) returns (r: Result<seq<Coord>>)
    ensures r.Err? <==> |stops| == 0 && |houses| > 0
    ensures r.Err? ==> r.error == NoBusStops
    ensures r.Ok? && |stops| > 0 ==> r.value == NearStops(houses, stops, dist)
    ensures r.Ok? && |stops| == 0 ==> r.value == []
  {
    if |houses| == 0 {
      return Ok([]);
    }
    if |stops| == 0 {
      return Err(NoBusStops);
    }
    var buildingsNearStops := [];
    var i := 0;
    while i < |houses|
      invariant 0 <= i <= |houses|
      invariant buildingsNearStops == NearStops(houses[..i], stops, dist)
    {
      assert houses[..i + 1][..i] == houses[..i];
      var house := houses[i];
      var nearest := Nearest(house, stops, dist);
      if dist(house, nearest) <= WalkRadius {
        buildingsNearStops := buildingsNearStops + [house];
      }
      i := i + 1;
    }
    assert houses[..|houses|] == houses;
    r := Ok(buildingsNearStops);
  }

  /** The `routes` dictionary: a path or None per house location. */
  type StopRoutes = map<Coord, Option<seq<Coord>>>

  /**
   * Every listed house has a route exactly when its nearest stop is
   * reachable, and that route is a shortest path to the stop.
   */
  ghost predicate ShortestToNearestStop(g: Graph, routes: StopRoutes, stops: seq<Coord>, dist: Distance) {
    forall h :: h in routes ==> (|stops| > 0 && (
      var s := Nearest(h, stops, dist);
      && (routes[h].Some? <==> Reachable(g, h, s))
      && (routes[h].Some? ==> (IsPath(g, routes[h].value, h, s) &&
            forall q :: IsPath(g, q, h, s) ==> PathLength(g.weight, routes[h].value) <= PathLength(g.weight, q)))))
  }

  /**
   * `find_shortest_paths_to_bus_stops`: every location is listed, repeats
   * included, and keyed to the finder's answer towards its nearest stop
   * (`has_path` holds exactly when the finder returns a path). A location or
   * stop outside the graph would raise `NodeNotFound`. On a shortest-path
   * router a route is present exactly when the stop is reachable, and it is
   * a shortest path.
   */
  method FindShortestPathsToBusStops(g: Graph, buildings: seq<Coord>, stops: seq<Coord>, dist: Distance, sp: PathFinder)
    returns (routes: StopRoutes, houseLocations: seq<Coord>)
    requires |stops| > 0 || |buildings| == 0
    requires forall i :: 0 <= i < |buildings| ==> buildings[i] in g.nodes
    requires forall j :: 0 <= j < |stops| ==> stops[j] in g.nodes
    ensures houseLocations == buildings
    ensures forall h :: h in routes <==> h in buildings
    ensures forall h :: h in routes ==> routes[h] == sp(g, h, Nearest(h, stops, dist))
    ensures IsShortestPathRouter(g, sp) ==> ShortestToNearestStop(g, routes, stops, dist)
  {
    houseLocations := [];
    routes := map[];
    var i := 0;
    while i < |buildings|
      invariant 0 <= i <= |buildings|
      invariant houseLocations == buildings[..i]
      invariant forall h :: h in routes <==> h in buildings[..i]
      invariant forall h :: h in routes ==> routes[h] == sp(g, h, Nearest(h, stops, dist))
    {
      var houseLocation := buildings[i];
      houseLocations := houseLocations + [houseLocation];
      var nearestBusStop := Nearest(houseLocation, stops, dist);
      match sp(g, houseLocation, nearestBusStop) {
        case Some(shortestPath) =>
          routes := routes[houseLocation := Some(shortestPath)];
        case None =>
          routes := routes[houseLocation := None];
      }
      assert buildings[..i + 1] == buildings[..i] + [houseLocation];
      i := i + 1;
    }
    assert buildings[..|buildings|] == buildings;
  }

  /** The `result` dictionary; routes are keyed by the location itself rather than its "x,y" text. */
  datatype VariantResult = VariantResult(houses: seq<Coord>, busStops: seq<Coord>, routes: StopRoutes)

  function PointPlaces(points: seq<Coord>): seq<Place> {
    seq(|points|, i requires 0 <= i < |points| => Place(points[i], 0))
  }

  /** On the snapped graph of a street graph, the finder is a router and every near house and every stop is a node. */
  lemma SnappedVariantFacts(streets: seq<Line>, houses: seq<Coord>, stops: seq<Coord>, nodeCoords: seq<Coord>,
                            dist: Distance, sp: PathFinder)
    requires |nodeCoords| > 0 && |stops| > 0 && IsDistance(dist) && IsShortestPathFinder(sp)
    ensures var g := SnapHousesAndStops(BuildGraph(streets, dist), PointPlaces(houses), PointPlaces(stops), nodeCoords,
                                        dist, false);
      && IsShortestPathRouter(g, sp)
      && (forall h :: h in NearStops(houses, stops, dist) ==> h in g.nodes)
      && (forall j :: 0 <= j < |stops| ==> stops[j] in g.nodes)
  {
    var housePlaces, stopPlaces := PointPlaces(houses), PointPlaces(stops);
    BuildGraphFacts(streets, dist);
    SnapHousesAndStopsFacts(BuildGraph(streets, dist), housePlaces, stopPlaces, nodeCoords, dist, false, sp);
    NearStopsMembers(houses, stops, dist);
    forall h | h in NearStops(houses, stops, dist)
      ensures exists k :: 0 <= k < |houses| && housePlaces[k].point == h
    {
      var k :| 0 <= k < |houses| && houses[k] == h;
      assert housePlaces[k].point == h;
    }
    assert forall j :: 0 <= j < |stops| ==> stopPlaces[j].point == stops[j];
  }

  /**
   * The run: build the graph and the nearest-neighbour tree (which cannot be
   * built over zero street nodes), snap, keep the houses near a stop, route
   * each to its nearest stop.
   */
  method NearestStopRoutes(streets: seq<Line>, houses: seq<Coord>, stops: seq<Coord>, dist: Distance, sp: PathFinder)
    returns (r: Result<VariantResult>, g: DiGraph, nodeList: seq<Coord>)
    requires IsDistance(dist) && IsShortestPathFinder(sp)
    ensures fresh(g)
    ensures forall c :: c in nodeList <==> c in BuildGraph(streets, dist).nodes
    ensures r.Err? <==> |nodeList| == 0 || (|houses| > 0 && |stops| == 0)
    ensures |nodeList| == 0 ==> r == Err(NoStreetNodes)
    ensures r.Ok? && |nodeList| > 0 && |stops| > 0 ==> (
      var snapped := SnapHousesAndStops(BuildGraph(streets, dist), PointPlaces(houses), PointPlaces(stops), nodeList,
                                        dist, false);
      && g.Value() == snapped
      && r.value.busStops == stops
      && r.value.houses == NearStops(houses, stops, dist)
      && (forall h :: h in r.value.routes <==> h in houses && exists s :: s in stops && dist(h, s) <= WalkRadius)
      && ShortestToNearestStop(snapped, r.value.routes, stops, dist))
    ensures r.Ok? && |stops| == 0 ==> r.value == VariantResult([], [], map[])
  {
    g, nodeList := CreateGraph(streets, dist);
    var housePlaces, stopPlaces := PointPlaces(houses), PointPlaces(stops);
    if |nodeList| == 0 {
      return Err(NoStreetNodes), g, nodeList;
    }
    ghost var street := g.Value();
    assert street == BuildGraph(streets, dist);
    AddPlacesToGraph(housePlaces, g, nodeList, House, dist, false);
    AddPlacesToGraph(stopPlaces, g, nodeList, BusStop, dist, false);
    ghost var snapped := g.Value();
    assert snapped == SnapHousesAndStops(street, housePlaces, stopPlaces, nodeList, dist, false);
    var near := FindBuildingsWithin1km(houses, stops, dist);
    if near.Err? {
      return Err(near.error), g, nodeList;
    }
    var buildings := near.value;
    if |stops| > 0 {
      SnappedVariantFacts(streets, houses, stops, nodeList, dist, sp);
      NearStopsMembers(houses, stops, dist);
    }
    var routes, houseLocations := FindShortestPathsToBusStops(g.Value(), buildings, stops, dist, sp);
    r := Ok(VariantResult(houseLocations, stops, routes));
  }
}

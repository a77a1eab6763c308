/**
 * `assign_routes_to_population`: for every house and every stop, the
 * shortest path between their nearest STREET nodes (not the snapped place
 * nodes), kept in a dictionary keyed by that node pair, so a later house
 * with the same nearest node overwrites the earlier entries.
 */
module Routing {
  import opened Wrappers
  import opened Geometry
  import opened Graphs
  import opened Snapping

  /** A `route_distribution` entry: the path and its walking flow (`total_people`). */
  datatype Route = Route(path: seq<Coord>, totalPeople: real)

  /** (nearest house node, nearest stop node). */
  type RouteKey = (Coord, Coord)

  type Routes = map<RouteKey, Route>

  /** The walking flow of a house: 51 % of its residents, per minute of an hour. */
  function Flow(totalPeople: int): real {
    totalPeople as real * 0.51 / 60.0
  }

  /** The nearest node of every point, in order. */
  function NearestNodes(places: seq<Place>, nodeCoords: seq<Coord>, dist: Distance): seq<Coord>
    requires |nodeCoords| > 0
  {
    seq(|places|, i requires 0 <= i < |places| => Nearest(places[i].point, nodeCoords, dist))
  }

  /** The entries one house, with nearest node hn and flow f, writes for the stops' nearest nodes bns. */
  function StopRoutes(g: Graph, sp: PathFinder, routes: Routes, hn: Coord, f: real, bns: seq<Coord>): Routes {
    if bns == [] then routes
    else
      var r := StopRoutes(g, sp, routes, hn, f, bns[..|bns| - 1]);
      var bn := bns[|bns| - 1];
      if bn !in g.nodes then r
      else match sp(g, hn, bn)
        case None => r
        case Some(path) => r[(hn, bn) := Route(path, f)]
  }

  /** The entries written by the houses, given their nearest nodes hns and the stops' nearest nodes bns. */
  function HouseRoutes(g: Graph, sp: PathFinder, houses: seq<Place>, hns: seq<Coord>, bns: seq<Coord>): Routes
    requires |hns| == |houses|
  {
    if houses == [] then map[]
    else
      var r := HouseRoutes(g, sp, houses[..|houses| - 1], hns[..|hns| - 1], bns);
      var hn := hns[|hns| - 1];
      if hn !in g.nodes then r
      else StopRoutes(g, sp, r, hn, Flow(houses[|houses| - 1].totalPeople), bns)
  }

  /** The `route_distribution` of the houses and stops over graph g. */
  function AssignRoutes(g: Graph, houses: seq<Place>, stops: seq<Place>, nodeCoords: seq<Coord>, dist: Distance,
                        sp: PathFinder): Routes
    requires |nodeCoords| > 0
  {
    HouseRoutes(g, sp, houses, NearestNodes(houses, nodeCoords, dist), NearestNodes(stops, nodeCoords, dist))
  }

  /**
   * The list holds the nearest node of each place and nothing else; each of
   * them is a node of the tree's list and no farther from its place than any other.
   */
  lemma NearestNodesMembers(places: seq<Place>, nodeCoords: seq<Coord>, dist: Distance, c: Coord)
    requires |nodeCoords| > 0
    ensures c in NearestNodes(places, nodeCoords, dist) <==>
      exists i :: 0 <= i < |places| && Nearest(places[i].point, nodeCoords, dist) == c
    ensures forall i :: 0 <= i < |places| ==> (
      var n := NearestNodes(places, nodeCoords, dist)[i];
      && n in nodeCoords
      && forall d :: d in nodeCoords ==> dist(places[i].point, n) <= dist(places[i].point, d))
  {
    var ns := NearestNodes(places, nodeCoords, dist);
    if c in ns {
      var i :| 0 <= i < |ns| && ns[i] == c;
      assert Nearest(places[i].point, nodeCoords, dist) == c;
    }
    if exists i :: 0 <= i < |places| && Nearest(places[i].point, nodeCoords, dist) == c {
      var i :| 0 <= i < |places| && Nearest(places[i].point, nodeCoords, dist) == c;
      assert ns[i] == c;
    }
  }

  /** The stops of one house add exactly the reachable (hn, bn) keys; their paths are the finder's. */
  lemma {:induction false} StopRoutesFacts(g: Graph, sp: PathFinder, routes: Routes, hn: Coord, f: real,
                                           bns: seq<Coord>)
    ensures var r := StopRoutes(g, sp, routes, hn, f, bns);
      forall k :: (k in r <==> k in routes || (k.0 == hn && k.1 in bns && k.1 in g.nodes && sp(g, hn, k.1).Some?)) &&
        (k in r ==> if k.0 == hn && k.1 in bns && k.1 in g.nodes && sp(g, hn, k.1).Some?
                    then r[k] == Route(sp(g, hn, k.1).value, f)
                    else r[k] == routes[k])
  {
    if bns != [] {
      var init := bns[..|bns| - 1];
      StopRoutesFacts(g, sp, routes, hn, f, init);
      assert bns == init + [bns[|bns| - 1]];
    }
  }

  /** Which keys the houses write, and that each path is the finder's path between the key's nodes. */
  lemma {:induction false} HouseRoutesKeys(g: Graph, sp: PathFinder, houses: seq<Place>, hns: seq<Coord>,
                                           bns: seq<Coord>)
    requires |hns| == |houses|
    ensures var r := HouseRoutes(g, sp, houses, hns, bns);
      forall k :: (k in r <==> k.0 in hns && k.0 in g.nodes && k.1 in bns && k.1 in g.nodes && sp(g, k.0, k.1).Some?) &&
        (k in r ==> r[k].path == sp(g, k.0, k.1).value)
  {
    if houses != [] {
      var init := hns[..|hns| - 1];
      HouseRoutesKeys(g, sp, houses[..|houses| - 1], init, bns);
      assert hns == init + [hns[|hns| - 1]];
      var r := HouseRoutes(g, sp, houses[..|houses| - 1], init, bns);
      StopRoutesFacts(g, sp, r, hns[|hns| - 1], Flow(houses[|houses| - 1].totalPeople), bns);
    }
  }

  /** The flow of a key is that of the last house whose nearest node starts the key. */
  lemma {:induction false} HouseRoutesFlow(g: Graph, sp: PathFinder, houses: seq<Place>, hns: seq<Coord>,
                                           bns: seq<Coord>, k: RouteKey, i: nat)
    requires |hns| == |houses|
    requires i < |hns| && hns[i] == k.0
    requires forall j :: i < j < |hns| ==> hns[j] != k.0
    requires k in HouseRoutes(g, sp, houses, hns, bns)
    ensures HouseRoutes(g, sp, houses, hns, bns)[k].totalPeople == Flow(houses[i].totalPeople)
  {
    var init, hinit := hns[..|hns| - 1], houses[..|houses| - 1];
    var r := HouseRoutes(g, sp, hinit, init, bns);
    var hn := hns[|hns| - 1];
    HouseRoutesKeys(g, sp, houses, hns, bns);
    if hn in g.nodes {
      StopRoutesFacts(g, sp, r, hn, Flow(houses[|houses| - 1].totalPeople), bns);
    }
    if i < |init| {
      assert hn != k.0;
      assert init[i] == hns[i] && hinit[i] == houses[i];
      forall j | i < j < |init|
        ensures init[j] != k.0
      {
        assert init[j] == hns[j];
      }
      HouseRoutesKeys(g, sp, hinit, init, bns);
      HouseRoutesFlow(g, sp, hinit, init, bns, k, i);
    }
  }

  // --------------------------------------- what assign_routes_to_population promises

  /**
   * The keys are exactly the pairs (nearest node of some house, nearest
   * node of some stop), both in the graph, that the finder connects; every
   * entry holds the finder's path, which under a sound finder is a path of
   * the graph from the house node to the stop node.
   */
  lemma RouteKeysAndPaths(g: Graph, houses: seq<Place>, stops: seq<Place>, nodeCoords: seq<Coord>,
                          dist: Distance, sp: PathFinder, k: RouteKey)
    requires |nodeCoords| > 0
    ensures var routes := AssignRoutes(g, houses, stops, nodeCoords, dist, sp);
      && (k in routes <==>
           (exists i :: 0 <= i < |houses| && Nearest(houses[i].point, nodeCoords, dist) == k.0) &&
           (exists j :: 0 <= j < |stops| && Nearest(stops[j].point, nodeCoords, dist) == k.1) &&
           k.0 in g.nodes && k.1 in g.nodes && sp(g, k.0, k.1).Some?)
      && (k in routes ==> routes[k].path == sp(g, k.0, k.1).value)
      && (k in routes && SoundOn(g, sp) ==> IsPath(g, routes[k].path, k.0, k.1))
  {
    var hns, bns := NearestNodes(houses, nodeCoords, dist), NearestNodes(stops, nodeCoords, dist);
    HouseRoutesKeys(g, sp, houses, hns, bns);
    NearestNodesMembers(houses, nodeCoords, dist, k.0);
    NearestNodesMembers(stops, nodeCoords, dist, k.1);
  }

  /**
   * With a shortest-path finder on g, a pair of nearest nodes in the graph is
   * a key exactly when the stop node is reachable from the house node (the
   * unreachable pairs are skipped), and no path between them is shorter.
   */
  lemma RoutesAreShortest(g: Graph, houses: seq<Place>, stops: seq<Place>, nodeCoords: seq<Coord>,
                          dist: Distance, sp: PathFinder, i: nat, j: nat)
    requires |nodeCoords| > 0 && IsShortestPathRouter(g, sp)
    requires i < |houses| && j < |stops|
    ensures var routes := AssignRoutes(g, houses, stops, nodeCoords, dist, sp);
      var k := (Nearest(houses[i].point, nodeCoords, dist), Nearest(stops[j].point, nodeCoords, dist));
      && (k.0 in g.nodes && k.1 in g.nodes ==> (k in routes <==> Reachable(g, k.0, k.1)))
      && (k in routes ==> IsPath(g, routes[k].path, k.0, k.1) && forall q :: IsPath(g, q, k.0, k.1) ==>
            PathLength(g.weight, routes[k].path) <= PathLength(g.weight, q))
  {
    var k := (Nearest(houses[i].point, nodeCoords, dist), Nearest(stops[j].point, nodeCoords, dist));
    RouteKeysAndPaths(g, houses, stops, nodeCoords, dist, sp, k);
    var routes := AssignRoutes(g, houses, stops, nodeCoords, dist, sp);
    if k.0 in g.nodes && k.1 in g.nodes && Reachable(g, k.0, k.1) {
      assert sp(g, k.0, k.1).Some?;
    }
  }

  /**
   * The entry for a key carries the flow `Total_People * 0.51 / 60` of the
   * last house snapping to the key's house node: earlier houses are overwritten.
   */
  lemma RouteFlowIsLastHouse(g: Graph, houses: seq<Place>, stops: seq<Place>, nodeCoords: seq<Coord>,
                             dist: Distance, sp: PathFinder, k: RouteKey, i: nat)
    requires |nodeCoords| > 0
    requires i < |houses| && Nearest(houses[i].point, nodeCoords, dist) == k.0
    requires forall j :: i < j < |houses| ==> Nearest(houses[j].point, nodeCoords, dist) != k.0
    requires k in AssignRoutes(g, houses, stops, nodeCoords, dist, sp)
    ensures AssignRoutes(g, houses, stops, nodeCoords, dist, sp)[k].totalPeople == houses[i].totalPeople as real * 0.51 / 60.0
  {
    var hns, bns := NearestNodes(houses, nodeCoords, dist), NearestNodes(stops, nodeCoords, dist);
    HouseRoutesFlow(g, sp, houses, hns, bns, k, i);
  }

  /** One more stop node: the fold over bns[..j + 1] is one step after the fold over bns[..j]. */
  lemma StopRoutesStep(g: Graph, sp: PathFinder, routes: Routes, hn: Coord, f: real, bns: seq<Coord>, j: nat)
    requires j < |bns|
    ensures var r := StopRoutes(g, sp, routes, hn, f, bns[..j]);
      StopRoutes(g, sp, routes, hn, f, bns[..j + 1]) ==
        if bns[j] !in g.nodes then r
        else match sp(g, hn, bns[j])
          case None => r
          case Some(path) => r[(hn, bns[j]) := Route(path, f)]
  {
    assert bns[..j + 1][..j] == bns[..j];
  }

  /** One more house: the fold over houses[..i + 1] is one step after the fold over houses[..i]. */
  lemma HouseRoutesStep(g: Graph, sp: PathFinder, houses: seq<Place>, hns: seq<Coord>, bns: seq<Coord>, i: nat)
    requires |hns| == |houses| && i < |houses|
    ensures var r := HouseRoutes(g, sp, houses[..i], hns[..i], bns);
      HouseRoutes(g, sp, houses[..i + 1], hns[..i + 1], bns) ==
        if hns[i] !in g.nodes then r else StopRoutes(g, sp, r, hns[i], Flow(houses[i].totalPeople), bns)
  {
    assert houses[..i + 1][..i] == houses[..i] && hns[..i + 1][..i] == hns[..i];
  }

  /** `assign_routes_to_population` on the (snapped) graph g. */
  method AssignRoutesToPopulation(g: Graph, houses: seq<Place>, stops: seq<Place>, nodeCoords: seq<Coord>,
                                  dist: Distance, sp: PathFinder) returns (routes: Routes)
    requires |nodeCoords| > 0
    ensures routes == AssignRoutes(g, houses, stops, nodeCoords, dist, sp)
  {
    ghost var hns, bns := NearestNodes(houses, nodeCoords, dist), NearestNodes(stops, nodeCoords, dist);
    routes := map[];
    var i := 0;
    while i < |houses|
      invariant 0 <= i <= |houses|
      invariant routes == HouseRoutes(g, sp, houses[..i], hns[..i], bns)
    {
      HouseRoutesStep(g, sp, houses, hns, bns, i);
      var nearestHouseNode := FindNearestNode(houses[i].point, nodeCoords, dist).value.0;
      assert nearestHouseNode == hns[i];
      if nearestHouseNode in g.nodes {
        var totalPeople := Flow(houses[i].totalPeople);
        ghost var before := routes;
        var j := 0;
        while j < |stops|
          invariant 0 <= j <= |stops|
          invariant routes == StopRoutes(g, sp, before, nearestHouseNode, totalPeople, bns[..j])
        {
          StopRoutesStep(g, sp, before, nearestHouseNode, totalPeople, bns, j);
          var nearestBusNode := FindNearestNode(stops[j].point, nodeCoords, dist).value.0;
          assert nearestBusNode == bns[j];
          if nearestBusNode in g.nodes {
            match sp(g, nearestHouseNode, nearestBusNode)
            case None =>
            case Some(path) =>
              routes := routes[(nearestHouseNode, nearestBusNode) := Route(path, totalPeople)];
          }
          j := j + 1;
        }
        assert bns[..|stops|] == bns;
      }
      i := i + 1;
    }
    assert houses[..|houses|] == houses && hns[..|houses|] == hns;
  }
}

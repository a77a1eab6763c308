/**
 * `summarize_traffic_data`: the report figures drawn from the routes and the
 * edge loads: stop count, total walking flow, overloaded edges (load above
 * 800), the longest overloaded edge and the system score.
 */
module Summary {
  import opened Wrappers
  import opened Geometry
  import opened Routing
  import opened Loads

  /** An edge whose load is above this is overloaded. */
  const OverloadThreshold: real := 800.0

  datatype TrafficSummary = TrafficSummary(
    numBusStops: nat,
    totalPeople: real,
    overloadedEdgesCount: nat,
    longestOverloadedEdgeLength: real,
    systemScore: real)

  /** The overloaded edges. */
  function Overloaded(loads: map<Edge, real>): set<Edge> {
    set e | e in loads && loads[e] > OverloadThreshold
  }

  /** The overloaded edges among keys. */
  function OverloadedAmong(loads: map<Edge, real>, keys: set<Edge>): set<Edge> {
    set e | e in keys && e in loads && loads[e] > OverloadThreshold
  }

  /** The flow of each route. */
  function Flows(routes: Routes): map<RouteKey, real> {
    map k | k in routes :: routes[k].totalPeople
  }

  /** `total_people`: the sum of the routes' flows. */
  ghost function TotalFlow(routes: Routes): real {
    Sum(Flows(routes))
  }

  /**
   * `sytem_score`: the share of routes left once the overloaded edges are
   * taken away. It counts routes against edges, so it reaches 1 exactly when
   * nothing is overloaded, and falls below 0 once the overloaded edges
   * outnumber the routes.
   */
  function SystemScore(routeCount: nat, overloadedCount: nat): (s: real)
    requires routeCount > 0
    ensures s <= 1.0
    ensures s == 1.0 <==> overloadedCount == 0
    ensures s == 0.0 <==> overloadedCount == routeCount
    ensures s < 0.0 <==> overloadedCount > routeCount
  {
    var r := routeCount as real;
    var s := (routeCount - overloadedCount) as real / r;
    assert s * r == (routeCount - overloadedCount) as real;
    s
  }

  /** With non-negative flows the total is non-negative and bounds every single flow. */
  lemma TotalFlowBoundsEachRoute(routes: Routes, k: RouteKey)
    requires forall j :: j in routes ==> routes[j].totalPeople >= 0.0
    requires k in routes
    ensures TotalFlow(routes) >= routes[k].totalPeople >= 0.0
  {
    SumAtLeast(Flows(routes), k);
  }

  /** `sum(route_info['total_people'] for route_info in route_distribution.values())`. */
  method TotalPeople(routes: Routes) returns (total: real)
    ensures total == TotalFlow(routes)
  {
    ghost var flows := Flows(routes);
    total := 0.0;
    var remaining := routes.Keys;
    while remaining != {}
      invariant remaining <= routes.Keys
      invariant total == SumOver(flows, routes.Keys - remaining)
      decreases |remaining|
    {
      var key :| key in remaining;
      Processed(routes.Keys, remaining, key);
      SumOverRemove(flows, (routes.Keys - remaining) + {key}, key);
      assert (routes.Keys - remaining) + {key} - {key} == routes.Keys - remaining;
      total := total + routes[key].totalPeople;
      remaining := remaining - {key};
    }
    assert routes.Keys - remaining == flows.Keys;
  }

  /** `sum(1 for load in edge_loads.values() if load > 800)`. */
  method OverloadedEdgesCount(loads: map<Edge, real>) returns (count: nat)
    ensures count == |Overloaded(loads)|
  {
    count := 0;
    var remaining := loads.Keys;
    while remaining != {}
      invariant remaining <= loads.Keys
      invariant count == |OverloadedAmong(loads, loads.Keys - remaining)|
      decreases |remaining|
    {
      var edge :| edge in remaining;
      ghost var before := OverloadedAmong(loads, loads.Keys - remaining);
      Processed(loads.Keys, remaining, edge);
      if loads[edge] > OverloadThreshold {
        assert OverloadedAmong(loads, loads.Keys - (remaining - {edge})) == before + {edge};
        count := count + 1;
      } else {
        assert OverloadedAmong(loads, loads.Keys - (remaining - {edge})) == before;
      }
      remaining := remaining - {edge};
    }
    assert OverloadedAmong(loads, loads.Keys - remaining) == Overloaded(loads);
  }

  /**
   * The running maximum over the overloaded edges of the length of the
   * edge, from 0: 0 when nothing is overloaded, otherwise the length of a
   * longest overloaded edge.
   */
  method LongestOverloadedEdge(loads: map<Edge, real>, dist: Distance) returns (longest: real)
    ensures longest >= 0.0
    ensures forall e :: e in Overloaded(loads) ==> dist(e.0, e.1) <= longest
    ensures longest == 0.0 || exists e :: e in Overloaded(loads) && longest == dist(e.0, e.1)
  {
    longest := 0.0;
    var remaining := loads.Keys;
    while remaining != {}
      invariant remaining <= loads.Keys
      invariant longest >= 0.0
      invariant forall e :: e in OverloadedAmong(loads, loads.Keys - remaining) ==> dist(e.0, e.1) <= longest
      invariant longest == 0.0 || exists e :: e in OverloadedAmong(loads, loads.Keys - remaining) && longest == dist(e.0, e.1)
      decreases |remaining|
    {
      var edge :| edge in remaining;
      ghost var before := OverloadedAmong(loads, loads.Keys - remaining);
      Processed(loads.Keys, remaining, edge);
      var (u, v) := edge;
      if loads[edge] > OverloadThreshold {
        assert OverloadedAmong(loads, loads.Keys - (remaining - {edge})) == before + {edge};
        var edgeLength := dist(u, v);
        if edgeLength > longest {
          longest := edgeLength;
        }
      } else {
        assert OverloadedAmong(loads, loads.Keys - (remaining - {edge})) == before;
      }
      remaining := remaining - {edge};
    }
    assert OverloadedAmong(loads, loads.Keys - remaining) == Overloaded(loads);
  }

  /**
   * `summarize_traffic_data`. The score divides by the number of routes, so
   * an empty route dictionary raises `ZeroDivisionError`, here an error.
   * `numBusStops` is the row count of the stop table.
   */
  method SummarizeTrafficData(loads: map<Edge, real>, routes: Routes, numBusStops: nat, dist: Distance)
    returns (r: Result<TrafficSummary>)
    ensures r.Err? <==> |routes| == 0
    ensures r.Err? ==> r.error == DivisionByZero
    ensures r.Ok? ==> (
      var s := r.value;
      && s.numBusStops == numBusStops
      && s.totalPeople == TotalFlow(routes)
      && s.overloadedEdgesCount == |Overloaded(loads)|
      && s.longestOverloadedEdgeLength >= 0.0
      && (forall e :: e in Overloaded(loads) ==> dist(e.0, e.1) <= s.longestOverloadedEdgeLength)
      && (s.longestOverloadedEdgeLength == 0.0 ||
          exists e :: e in Overloaded(loads) && s.longestOverloadedEdgeLength == dist(e.0, e.1))
      && s.systemScore == SystemScore(|routes|, |Overloaded(loads)|))
  {
    var edges := |routes|;
    var totalPeople := TotalPeople(routes);
    var overloadedEdgesCount := OverloadedEdgesCount(loads);
    var longest := LongestOverloadedEdge(loads, dist);
    if edges == 0 {
      return Err(DivisionByZero);
    }
    var score := (edges - overloadedEdgesCount) as real / edges as real;
    r := Ok(TrafficSummary(numBusStops, totalPeople, overloadedEdgesCount, longest, score));
  }
}

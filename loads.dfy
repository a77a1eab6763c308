/**
 * Edge loads: `calculate_population_loads` adds each route's flow onto every
 * edge of its path, once per traversal; `compute_paths_and_loads` does the
 * same for every source/target pair with a drawn flow.
 */
module Loads {
  import opened Wrappers
  import opened Geometry
  import opened Graphs
  import opened Routing

  // ------------------------------------------------------------- map sums

  /** The sum of m's values over keys, taken in no particular order. */
  ghost function SumOver<K>(m: map<K, real>, keys: set<K>): real
    requires keys <= m.Keys
    decreases keys
  {
    if keys == {} then 0.0
    else
      var k :| k in keys;
      m[k] + SumOver(m, keys - {k})
  }

  ghost function Sum<K>(m: map<K, real>): real {
    SumOver(m, m.Keys)
  }

  /** The sum does not depend on which key is taken first. */
  lemma {:induction false} SumOverRemove<K>(m: map<K, real>, keys: set<K>, j: K)
    requires keys <= m.Keys && j in keys
    ensures SumOver(m, keys) == m[j] + SumOver(m, keys - {j})
    decreases keys
  {
    var k :| k in keys && SumOver(m, keys) == m[k] + SumOver(m, keys - {k});
    if k != j {
      SumOverRemove(m, keys - {k}, j);
      SumOverRemove(m, keys - {j}, k);
      assert keys - {k} - {j} == keys - {j} - {k};
    }
  }

  /** Maps that agree on the keys have the same sum over them. */
  lemma {:induction false} SumOverAgree<K>(m1: map<K, real>, m2: map<K, real>, keys: set<K>)
    requires keys <= m1.Keys && keys <= m2.Keys
    requires forall k :: k in keys ==> m1[k] == m2[k]
    ensures SumOver(m1, keys) == SumOver(m2, keys)
    decreases keys
  {
    if keys != {} {
      var k :| k in keys && SumOver(m1, keys) == m1[k] + SumOver(m1, keys - {k});
      SumOverRemove(m2, keys, k);
      SumOverAgree(m1, m2, keys - {k});
    }
  }

  lemma {:induction false} SumOverZeros<K>(m: map<K, real>, keys: set<K>)
    requires keys <= m.Keys
    requires forall k :: k in keys ==> m[k] == 0.0
    ensures SumOver(m, keys) == 0.0
    decreases keys
  {
    if keys != {} {
      var k :| k in keys && SumOver(m, keys) == m[k] + SumOver(m, keys - {k});
      SumOverZeros(m, keys - {k});
    }
  }

  lemma {:induction false} SumOverNonNegative<K>(m: map<K, real>, keys: set<K>)
    requires keys <= m.Keys
    requires forall k :: k in keys ==> m[k] >= 0.0
    ensures SumOver(m, keys) >= 0.0
    decreases keys
  {
    if keys != {} {
      var k :| k in keys && SumOver(m, keys) == m[k] + SumOver(m, keys - {k});
      SumOverNonNegative(m, keys - {k});
    }
  }

  /** A sum of non-negative values is at least each of them. */
  lemma SumAtLeast<K>(m: map<K, real>, j: K)
    requires forall k :: k in m ==> m[k] >= 0.0
    requires j in m
    ensures Sum(m) >= m[j] >= 0.0
  {
    SumOverRemove(m, m.Keys, j);
    SumOverNonNegative(m, m.Keys - {j});
  }

  // ------------------------------------------------------------ the loads

  /** What each route contributes to edge e: its flow once per traversal of e. */
  function Contribution(route: Route, e: Edge): real {
    route.totalPeople * EdgeCount(route.path, e) as real
  }

  function Contributions(routes: Routes, e: Edge): map<RouteKey, real> {
    map k | k in routes :: Contribution(routes[k], e)
  }

  /** The load of edge e: the flows of the routes, each times the number of times its path traverses e. */
  ghost function LoadOn(routes: Routes, e: Edge): real {
    Sum(Contributions(routes, e))
  }

  lemma LoadOnEmpty(e: Edge)
    ensures LoadOn(map[], e) == 0.0
  {
    assert Contributions(map[], e).Keys == {};
  }

  /** Adding a route adds its contribution. */
  lemma LoadOnAdd(routes: Routes, k: RouteKey, r: Route, e: Edge)
    requires k !in routes
    ensures LoadOn(routes[k := r], e) == LoadOn(routes, e) + Contribution(r, e)
  {
    var c, c0 := Contributions(routes[k := r], e), Contributions(routes, e);
    assert c.Keys == routes.Keys + {k};
    assert c0.Keys == routes.Keys;
    assert k in c.Keys;
    SumOverRemove(c, c.Keys, k);
    assert c.Keys - {k} == c0.Keys;
    assert forall j :: j in c0.Keys ==> c[j] == c0[j];
    SumOverAgree(c, c0, c0.Keys);
  }

  /** An edge no route traverses has load 0. */
  lemma UnusedEdgeHasNoLoad(routes: Routes, e: Edge)
    requires forall k :: k in routes ==> EdgeCount(routes[k].path, e) == 0
    ensures LoadOn(routes, e) == 0.0
  {
    SumOverZeros(Contributions(routes, e), Contributions(routes, e).Keys);
  }

  /** With non-negative flows, every load is at least the contribution of each single route. */
  lemma LoadCoversEachRoute(routes: Routes, e: Edge, k: RouteKey)
    requires forall j :: j in routes ==> routes[j].totalPeople >= 0.0
    requires k in routes
    ensures LoadOn(routes, e) >= routes[k].totalPeople * EdgeCount(routes[k].path, e) as real >= 0.0
  {
    SumAtLeast(Contributions(routes, e), k);
  }

  /** Flow f added once for each of the first n steps of the path that traverse e. */
  function FlowAlong(path: seq<Coord>, e: Edge, f: real, n: nat): real
    requires n <= PairCount(path)
  {
    if n == 0 then 0.0 else FlowAlong(path, e, f, n - 1) + (if (path[n - 1], path[n]) == e then f else 0.0)
  }

  lemma {:induction false} FlowAlongCounts(path: seq<Coord>, e: Edge, f: real, n: nat)
    requires n <= PairCount(path)
    ensures FlowAlong(path, e, f, n) == f * EdgeCountUpTo(path, e, n) as real
  {
    if n > 0 {
      FlowAlongCounts(path, e, f, n - 1);
      var c := EdgeCountUpTo(path, e, n - 1);
      assert f * (c + 1) as real == f * c as real + f;
    }
  }

  lemma FlowAlongIsContribution(route: Route, e: Edge)
    ensures FlowAlong(route.path, e, route.totalPeople, PairCount(route.path)) == Contribution(route, e)
  {
    FlowAlongCounts(route.path, e, route.totalPeople, PairCount(route.path));
  }

  /** The path loop: adds the route's flow to the load of each edge on its path, once per traversal. */
  method AddPathLoad(loads: map<Edge, real>, route: Route) returns (updated: map<Edge, real>)
    requires EdgesIn(route.path, loads)
    ensures updated.Keys == loads.Keys
    ensures forall e :: e in loads ==> updated[e] == loads[e] + Contribution(route, e)
  {
    var path, f := route.path, route.totalPeople;
    updated := loads;
    var i := 0;
    while i < PairCount(path)
      invariant 0 <= i <= PairCount(path)
      invariant updated.Keys == loads.Keys
      invariant forall e :: e in loads ==> updated[e] == loads[e] + FlowAlong(path, e, f, i)
    {
      var edge := (path[i], path[i + 1]);
      updated := updated[edge := updated[edge] + f];
      i := i + 1;
    }
    forall e | e in loads
      ensures updated[e] == loads[e] + Contribution(route, e)
    {
      FlowAlongIsContribution(route, e);
    }
  }

  /**
   * `calculate_population_loads`: every edge of the graph starts at 0, and
   * each route adds its flow along its path. A path edge outside the graph
   * would raise a `KeyError`; the routes' paths must stay on the graph.
   */
  method CalculatePopulationLoads(g: Graph, routes: Routes) returns (loads: map<Edge, real>)
    requires forall k :: k in routes ==> EdgesIn(routes[k].path, g.weight)
    ensures loads.Keys == g.weight.Keys
    ensures forall e :: e in loads ==> loads[e] == LoadOn(routes, e)
  {
    loads := map e | e in g.weight :: 0.0;
    forall e | e in loads
      ensures loads[e] == LoadOn(map[], e)
    {
      LoadOnEmpty(e);
    }
    ghost var done: Routes := map[];
    var remaining := routes.Keys;
    while remaining != {}
      invariant remaining <= routes.Keys
      invariant done == map k | k in routes && k !in remaining :: routes[k]
      invariant loads.Keys == g.weight.Keys
      invariant forall e :: e in loads ==> loads[e] == LoadOn(done, e)
      decreases |remaining|
    {
      var key :| key in remaining;
      var route := routes[key];
      var before := loads;
      loads := AddPathLoad(loads, route);
      forall e | e in loads
        ensures loads[e] == LoadOn(done[key := route], e)
      {
        LoadOnAdd(done, key, route, e);
      }
      done := done[key := route];
      remaining := remaining - {key};
    }
    assert done == routes;
  }

  // ------------------------------------------------- compute_paths_and_loads

  function Pairs(sources: set<Coord>, targets: set<Coord>): set<RouteKey> {
    set s, t | s in sources && t in targets :: (s, t)
  }

  /** The connected pairs among P, each with its finder path and its flow. */
  function PairRoutes(g: Graph, pairs: set<RouteKey>, flow: (Coord, Coord) -> int, sp: PathFinder): Routes {
    map st | st in pairs && sp(g, st.0, st.1).Some? :: Route(sp(g, st.0, st.1).value, flow(st.0, st.1) as real)
  }

  lemma PairRoutesAdd(g: Graph, pairs: set<RouteKey>, st: RouteKey, flow: (Coord, Coord) -> int, sp: PathFinder)
    requires st !in pairs
    ensures sp(g, st.0, st.1).None? ==> PairRoutes(g, pairs + {st}, flow, sp) == PairRoutes(g, pairs, flow, sp)
    ensures sp(g, st.0, st.1).Some? ==> (PairRoutes(g, pairs + {st}, flow, sp) ==
      PairRoutes(g, pairs, flow, sp)[st := Route(sp(g, st.0, st.1).value, flow(st.0, st.1) as real)])
  {
  }

  /** Moving a target from the remaining ones to the done ones adds its pair. */
  lemma NextTarget(pairs: set<RouteKey>, source: Coord, targets: set<Coord>, remaining: set<Coord>, target: Coord)
    requires remaining <= targets && target in remaining
    ensures pairs + Pairs({source}, targets - remaining) + {(source, target)} ==
      pairs + Pairs({source}, targets - (remaining - {target}))
  {
    PairsAddTarget(source, targets - remaining, target);
    Processed(targets, remaining, target);
  }

  /** Adding one pair to the routed pairs adds its path's flow, if it has one, to the loads. */
  lemma PairLoadsStep(g: Graph, pairs: set<RouteKey>, st: RouteKey, flow: (Coord, Coord) -> int, sp: PathFinder,
                      loads: map<Edge, int>, updated: map<Edge, int>)
    requires st !in pairs
    requires updated.Keys == loads.Keys
    requires forall e :: e in loads ==> loads[e] as real == LoadOn(PairRoutes(g, pairs, flow, sp), e)
    requires sp(g, st.0, st.1).None? ==> updated == loads
    requires sp(g, st.0, st.1).Some? ==> forall e :: e in loads ==>
      updated[e] as real == loads[e] as real + Contribution(Route(sp(g, st.0, st.1).value, flow(st.0, st.1) as real), e)
    ensures forall e :: e in updated ==> updated[e] as real == LoadOn(PairRoutes(g, pairs + {st}, flow, sp), e)
  {
    PairRoutesAdd(g, pairs, st, flow, sp);
    if sp(g, st.0, st.1).Some? {
      var routes := PairRoutes(g, pairs, flow, sp);
      var route := Route(sp(g, st.0, st.1).value, flow(st.0, st.1) as real);
      forall e | e in updated
        ensures updated[e] as real == LoadOn(routes[st := route], e)
      {
        LoadOnAdd(routes, st, route, e);
      }
    }
  }

  /** The path loop of `compute_paths_and_loads`, on integer loads. */
  method AddPathFlow(loads: map<Edge, int>, path: seq<Coord>, f: int) returns (updated: map<Edge, int>)
    requires forall i :: 0 <= i < PairCount(path) ==> (path[i], path[i + 1]) in loads
    ensures updated.Keys == loads.Keys
    ensures forall e :: e in loads ==> updated[e] as real == loads[e] as real + Contribution(Route(path, f as real), e)
  {
    updated := loads;
    var i := 0;
    while i < PairCount(path)
      invariant 0 <= i <= PairCount(path)
      invariant updated.Keys == loads.Keys
      invariant forall e :: e in loads ==> updated[e] as real == loads[e] as real + FlowAlong(path, e, f as real, i)
    {
      var edge := (path[i], path[i + 1]);
      updated := updated[edge := updated[edge] + f];
      i := i + 1;
    }
    forall e | e in loads
      ensures updated[e] as real == loads[e] as real + Contribution(Route(path, f as real), e)
    {
      FlowAlongIsContribution(Route(path, f as real), e);
    }
  }

  /** Taking x from the remaining elements R of S adds it to the processed ones. */
  lemma Processed<T>(s: set<T>, remaining: set<T>, x: T)
    requires remaining <= s && x in remaining
    ensures s - (remaining - {x}) == (s - remaining) + {x}
  {
  }

  lemma PairsMembers(sources: set<Coord>, targets: set<Coord>, st: RouteKey)
    ensures st in Pairs(sources, targets) <==> st.0 in sources && st.1 in targets
  {
    if st.0 in sources && st.1 in targets {
      assert (st.0, st.1) in Pairs(sources, targets);
    }
  }

  lemma PairsAddTarget(s: Coord, done: set<Coord>, t: Coord)
    ensures Pairs({s}, done + {t}) == Pairs({s}, done) + {(s, t)}
  {
    forall st: RouteKey
      ensures st in Pairs({s}, done + {t}) <==> st in Pairs({s}, done) || st == (s, t)
    {
      PairsMembers({s}, done + {t}, st);
      PairsMembers({s}, done, st);
    }
  }

  lemma PairsAddSource(finished: set<Coord>, targets: set<Coord>, s: Coord)
    ensures Pairs(finished, targets) + Pairs({s}, targets) == Pairs(finished + {s}, targets)
  {
    forall st: RouteKey
      ensures st in Pairs(finished + {s}, targets) <==> st in Pairs(finished, targets) || st in Pairs({s}, targets)
    {
      PairsMembers(finished + {s}, targets, st);
      PairsMembers(finished, targets, st);
      PairsMembers({s}, targets, st);
    }
  }

  /**
   * `compute_paths_and_loads`: every distinct source and target (the flow
   * table is a dictionary of dictionaries) with a path between them adds its
   * drawn flow along the path; unreachable targets are skipped. The draws
   * are the parameter `flow`; a source outside the graph would raise
   * `NodeNotFound`.
   */
  method ComputePathsAndLoads(g: Graph, sources: seq<Coord>, targets: seq<Coord>, flow: (Coord, Coord) -> int,
                              sp: PathFinder) returns (loads: map<Edge, int>)
    requires forall i :: 0 <= i < |sources| ==> sources[i] in g.nodes
    requires SoundOn(g, sp)
    ensures loads.Keys == g.weight.Keys
    ensures forall e :: e in loads ==>
      loads[e] as real == LoadOn(PairRoutes(g, Pairs(set s | s in sources, set t | t in targets), flow, sp), e)
  {
    var sourceSet, targetSet := set s | s in sources, set t | t in targets;
    loads := map e | e in g.weight :: 0;
    assert PairRoutes(g, Pairs({}, targetSet), flow, sp) == map[];
    forall e | e in loads
      ensures loads[e] as real == LoadOn(map[], e)
    {
      LoadOnEmpty(e);
    }
    var remainingSources := sourceSet;
    while remainingSources != {}
      invariant remainingSources <= sourceSet
      invariant loads.Keys == g.weight.Keys
      invariant forall e :: e in loads ==>
        loads[e] as real == LoadOn(PairRoutes(g, Pairs(sourceSet - remainingSources, targetSet), flow, sp), e)
      decreases |remainingSources|
    {
      var source :| source in remainingSources;
      ghost var finished := sourceSet - remainingSources;
      forall t | t in targetSet
        ensures (source, t) !in Pairs(finished, targetSet)
      {
        PairsMembers(finished, targetSet, (source, t));
      }
      loads := AddSourceLoads(g, loads, source, targetSet, flow, sp, Pairs(finished, targetSet));
      PairsAddSource(finished, targetSet, source);
      Processed(sourceSet, remainingSources, source);
      remainingSources := remainingSources - {source};
    }
    assert sourceSet - remainingSources == sourceSet;
  }

  /** The inner loop of `compute_paths_and_loads`: the flows from one source to every distinct target. */
  method AddSourceLoads(g: Graph, loads: map<Edge, int>, source: Coord, targets: set<Coord>,
                        flow: (Coord, Coord) -> int, sp: PathFinder, ghost pairs: set<RouteKey>)
    returns (updated: map<Edge, int>)
    requires SoundOn(g, sp)
    requires loads.Keys == g.weight.Keys
    requires forall t :: t in targets ==> (source, t) !in pairs
    requires forall e :: e in loads ==> loads[e] as real == LoadOn(PairRoutes(g, pairs, flow, sp), e)
    ensures updated.Keys == g.weight.Keys
    ensures forall e :: e in updated ==>
      updated[e] as real == LoadOn(PairRoutes(g, pairs + Pairs({source}, targets), flow, sp), e)
  {
    updated := loads;
    var remaining := targets;
    assert Pairs({source}, targets - remaining) == {};
    assert pairs + Pairs({source}, targets - remaining) == pairs;
    while remaining != {}
      invariant remaining <= targets
      invariant updated.Keys == g.weight.Keys
      invariant forall e :: e in updated ==>
        updated[e] as real == LoadOn(PairRoutes(g, pairs + Pairs({source}, targets - remaining), flow, sp), e)
      decreases |remaining|
    {
      var target :| target in remaining;
      ghost var st, done := (source, target), targets - remaining;
      PairsMembers({source}, done, st);
      NextTarget(pairs, source, targets, remaining, target);
      ghost var previous := updated;
      match sp(g, source, target) {
        case None =>
        case Some(path) =>
          updated := AddPathFlow(updated, path, flow(source, target));
      }
      PairLoadsStep(g, pairs + Pairs({source}, done), st, flow, sp, previous, updated);
      remaining := remaining - {target};
    }
    assert targets - remaining == targets;
  }

  /**
   * With flows drawn from 800..999, an edge on the path of some connected
   * source/target pair carries at least 800.
   */
  lemma UsedEdgeCarriesDrawnFlow(g: Graph, pairs: set<RouteKey>, flow: (Coord, Coord) -> int, sp: PathFinder,
                                 st: RouteKey, e: Edge)
    requires forall k :: k in pairs ==> 800 <= flow(k.0, k.1) < 1000
    requires st in pairs && sp(g, st.0, st.1).Some?
    requires EdgeCount(sp(g, st.0, st.1).value, e) > 0
    ensures LoadOn(PairRoutes(g, pairs, flow, sp), e) >= 800.0
  {
    var routes := PairRoutes(g, pairs, flow, sp);
    LoadCoversEachRoute(routes, e, st);
    var n := EdgeCount(sp(g, st.0, st.1).value, e);
    assert (flow(st.0, st.1) as real) * (n as real) >= 800.0 * 1.0;
  }
}

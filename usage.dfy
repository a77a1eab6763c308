/**
 * `cpu_shortest_path_usage`: every house walks to its (at most) two
 * reachable stops of smallest shortest-path length, and each walk adds 1 to
 * every edge it traverses, in a counter that holds only the edges used.
 */
module Usage {
  import opened Wrappers
  import opened Geometry
  import opened Graphs

  /** A reachable stop and the length of the shortest path to it (an entry of `distances`). */
  type Candidate = (Coord, real)

  /** `distances`: the stops reachable from the house, in order, with their path lengths. */
  function Candidates(g: Graph, sp: PathFinder, house: Coord, stops: seq<Coord>): seq<Candidate>
    requires SoundOn(g, sp)
  {
    if stops == [] then []
    else
      var before := Candidates(g, sp, house, stops[..|stops| - 1]);
      var stop := stops[|stops| - 1];
      match sp(g, house, stop)
      case None => before
      case Some(path) => before + [(stop, PathLength(g.weight, path))]
  }

  /** The position of the first candidate of smallest length. */
  function FirstMinIndex(ds: seq<Candidate>): (i: nat)
    requires |ds| > 0
    ensures i < |ds|
    ensures forall j :: 0 <= j < |ds| ==> ds[i].1 <= ds[j].1
    ensures forall j :: 0 <= j < i ==> ds[i].1 < ds[j].1
  {
    if |ds| == 1 then 0
    else
      var k := FirstMinIndex(ds[1..]) + 1;
      if ds[0].1 <= ds[k].1 then 0 else k
  }

  /** ds without its i-th element. */
  function Without(ds: seq<Candidate>, i: nat): seq<Candidate>
    requires i < |ds|
  {
    ds[..i] + ds[i + 1..]
  }

  lemma WithoutFacts(ds: seq<Candidate>, i: nat)
    requires i < |ds|
    ensures |Without(ds, i)| == |ds| - 1
    ensures multiset(ds) == multiset(Without(ds, i)) + multiset{ds[i]}
    ensures forall y :: y in Without(ds, i) ==> y in ds
  {
    assert ds == ds[..i] + [ds[i]] + ds[i + 1..];
  }

  /**
   * `sorted(distances, key=length)[:2]`: the two candidates of smallest
   * length (fewer if there are fewer), shortest first, the earlier one
   * first among equals as the stable sort keeps it.
   */
  function TwoShortest(ds: seq<Candidate>): (r: seq<Candidate>)
    ensures |r| == if |ds| < 2 then |ds| else 2
    ensures multiset(r) <= multiset(ds)
    ensures forall x, y :: x in r && y in multiset(ds) - multiset(r) ==> x.1 <= y.1
    ensures |r| == 2 ==> r[0].1 <= r[1].1
  {
    if |ds| == 0 then []
    else
      var i := FirstMinIndex(ds);
      var rest := Without(ds, i);
      WithoutFacts(ds, i);
      if rest == [] then
        assert multiset(ds) - multiset([ds[i]]) == multiset{};
        [ds[i]]
      else
        var j := FirstMinIndex(rest);
        WithoutFacts(rest, j);
        TwoSmallest(ds, i, j);
        [ds[i], rest[j]]
  }

  lemma TwoSmallest(ds: seq<Candidate>, i: nat, j: nat)
    requires i < |ds| && forall k :: 0 <= k < |ds| ==> ds[i].1 <= ds[k].1
    requires j < |Without(ds, i)|
    requires forall k :: 0 <= k < |Without(ds, i)| ==> Without(ds, i)[j].1 <= Without(ds, i)[k].1
    ensures var r := [ds[i], Without(ds, i)[j]];
      && multiset(r) <= multiset(ds)
      && (forall x, y :: x in r && y in multiset(ds) - multiset(r) ==> x.1 <= y.1)
      && r[0].1 <= r[1].1
  {
    var rest := Without(ds, i);
    TwoRemoved(ds, i, j);
    WithoutFacts(rest, j);
    forall y | y in multiset(ds) - multiset([ds[i], rest[j]])
      ensures ds[i].1 <= y.1 && rest[j].1 <= y.1
    {
      assert y in Without(rest, j);
      assert y in rest;
    }
  }

  /** Taking out the i-th and then the j-th of the rest leaves exactly the others. */
  lemma TwoRemoved(ds: seq<Candidate>, i: nat, j: nat)
    requires i < |ds| && j < |Without(ds, i)|
    ensures var rest := Without(ds, i);
      && multiset([ds[i], rest[j]]) <= multiset(ds)
      && multiset(ds) - multiset([ds[i], rest[j]]) == multiset(Without(rest, j))
  {
    var rest := Without(ds, i);
    WithoutFacts(ds, i);
    WithoutFacts(rest, j);
    var pair, others := multiset([ds[i], rest[j]]), multiset(Without(rest, j));
    assert pair == multiset{ds[i]} + multiset{rest[j]};
    assert multiset(ds) == others + pair;
  }

  /** The edge counts of the walks from the house to the chosen stops. */
  function ChosenUse(g: Graph, sp: PathFinder, house: Coord, chosen: seq<Candidate>, e: Edge): nat {
    if chosen == [] then 0
    else
      ChosenUse(g, sp, house, chosen[..|chosen| - 1], e) +
      match sp(g, house, chosen[|chosen| - 1].0)
      case None => 0
      case Some(path) => EdgeCount(path, e)
  }

  /** How often the walks of one house traverse e. */
  function HouseUse(g: Graph, sp: PathFinder, house: Coord, stops: seq<Coord>, e: Edge): nat
    requires SoundOn(g, sp)
  {
    ChosenUse(g, sp, house, TwoShortest(Candidates(g, sp, house, stops)), e)
  }

  /** How often the walks of all houses traverse e. */
  function UsageOf(g: Graph, sp: PathFinder, houses: seq<Coord>, stops: seq<Coord>, e: Edge): nat
    requires SoundOn(g, sp)
  {
    if houses == [] then 0
    else UsageOf(g, sp, houses[..|houses| - 1], stops, e) + HouseUse(g, sp, houses[|houses| - 1], stops, e)
  }

  /** A `defaultdict(int)` read. */
  function Get(counter: map<Edge, int>, e: Edge): int {
    if e in counter then counter[e] else 0
  }

  /** The candidates are exactly the reachable stops, in order, each with its shortest-path length. */
  lemma {:induction false} CandidatesAreReachableStops(g: Graph, sp: PathFinder, house: Coord, stops: seq<Coord>)
    requires SoundOn(g, sp)
    ensures var ds := Candidates(g, sp, house, stops);
      && (forall c :: c in ds ==> (c.0 in stops && sp(g, house, c.0).Some? &&
            c.1 == PathLength(g.weight, sp(g, house, c.0).value)))
      && (forall s :: s in stops && sp(g, house, s).Some? ==> (s, PathLength(g.weight, sp(g, house, s).value)) in ds)
  {
    if stops != [] {
      var init := stops[..|stops| - 1];
      CandidatesAreReachableStops(g, sp, house, init);
      assert stops == init + [stops[|stops| - 1]];
    }
  }

  /**
   * Each house walks to at most two stops, each reachable, and no reachable
   * stop left out has a shorter path than a chosen one.
   */
  lemma ChosenStopsAreNearest(g: Graph, sp: PathFinder, house: Coord, stops: seq<Coord>)
    requires SoundOn(g, sp)
    ensures var chosen := TwoShortest(Candidates(g, sp, house, stops));
      && |chosen| <= 2
      && (forall c :: c in chosen ==> (c.0 in stops && sp(g, house, c.0).Some? &&
            c.1 == PathLength(g.weight, sp(g, house, c.0).value)))
      && (forall c, s :: (c in chosen && s in stops && sp(g, house, s).Some? &&
            PathLength(g.weight, sp(g, house, s).value) < c.1) ==>
            (s, PathLength(g.weight, sp(g, house, s).value)) in chosen)
  {
    var ds := Candidates(g, sp, house, stops);
    var chosen := TwoShortest(ds);
    CandidatesAreReachableStops(g, sp, house, stops);
    forall c | c in chosen
      ensures c in ds
    {
      assert c in multiset(chosen);
    }
    forall c, s | c in chosen && s in stops && sp(g, house, s).Some? &&
        PathLength(g.weight, sp(g, house, s).value) < c.1
      ensures (s, PathLength(g.weight, sp(g, house, s).value)) in chosen
    {
      var y := (s, PathLength(g.weight, sp(g, house, s).value));
      assert y in multiset(ds);
    }
  }

  /** The path loop: 1 more for each traversal of each edge on the path. */
  method AddPathUsage(usage: map<Edge, int>, path: seq<Coord>) returns (updated: map<Edge, int>)
    requires forall e :: e in usage ==> usage[e] > 0
    ensures forall e :: e in updated ==> updated[e] > 0
    ensures forall e :: Get(updated, e) == Get(usage, e) + EdgeCount(path, e)
  {
    updated := usage;
    var i := 0;
    while i < PairCount(path)
      invariant 0 <= i <= PairCount(path)
      invariant forall e :: e in updated ==> updated[e] > 0
      invariant forall e :: Get(updated, e) == Get(usage, e) + EdgeCountUpTo(path, e, i)
    {
      var edge := (path[i], path[i + 1]);
      updated := updated[edge := Get(updated, edge) + 1];
      i := i + 1;
    }
  }

  /** The stop loop of one house: `distances`, the reachable stops with their lengths. */
  method ReachableStops(g: Graph, sp: PathFinder, house: Coord, stops: seq<Coord>) returns (distances: seq<Candidate>)
    requires SoundOn(g, sp)
    ensures distances == Candidates(g, sp, house, stops)
  {
    distances := [];
    var j := 0;
    while j < |stops|
      invariant 0 <= j <= |stops|
      invariant distances == Candidates(g, sp, house, stops[..j])
    {
      assert stops[..j + 1][..j] == stops[..j];
      match sp(g, house, stops[j]) {
        case None =>
        case Some(path) =>
          distances := distances + [(stops[j], PathLength(g.weight, path))];
      }
      j := j + 1;
    }
    assert stops[..|stops|] == stops;
  }

  /** The walks of one house to its chosen stops. */
  method AddHouseUsage(g: Graph, sp: PathFinder, usage: map<Edge, int>, house: Coord, nearestStops: seq<Candidate>)
    returns (updated: map<Edge, int>)
    requires forall e :: e in usage ==> usage[e] > 0
    ensures forall e :: e in updated ==> updated[e] > 0
    ensures forall e :: Get(updated, e) == Get(usage, e) + ChosenUse(g, sp, house, nearestStops, e)
  {
    updated := usage;
    var k := 0;
    while k < |nearestStops|
      invariant 0 <= k <= |nearestStops|
      invariant forall e :: e in updated ==> updated[e] > 0
      invariant forall e :: Get(updated, e) == Get(usage, e) + ChosenUse(g, sp, house, nearestStops[..k], e)
    {
      assert nearestStops[..k + 1][..k] == nearestStops[..k];
      match sp(g, house, nearestStops[k].0) {
        case None =>
        case Some(path) =>
          updated := AddPathUsage(updated, path);
      }
      k := k + 1;
    }
    assert nearestStops[..|nearestStops|] == nearestStops;
  }

  /**
   * `cpu_shortest_path_usage` on the (snapped) graph g: the counter holds
   * exactly the edges some walk traverses, each with its number of
   * traversals. A house outside the graph would raise `NodeNotFound`.
   */
  method CpuShortestPathUsage(g: Graph, houses: seq<Coord>, stops: seq<Coord>, sp: PathFinder)
    returns (usage: map<Edge, int>)
    requires forall i :: 0 <= i < |houses| ==> houses[i] in g.nodes
    requires SoundOn(g, sp)
    ensures forall e :: e in usage <==> UsageOf(g, sp, houses, stops, e) > 0
    ensures forall e :: e in usage ==> usage[e] == UsageOf(g, sp, houses, stops, e)
  {
    usage := map[];
    var i := 0;
    while i < |houses|
      invariant 0 <= i <= |houses|
      invariant forall e :: e in usage ==> usage[e] > 0
      invariant forall e :: Get(usage, e) == UsageOf(g, sp, houses[..i], stops, e)
    {
      assert houses[..i + 1][..i] == houses[..i];
      var house := houses[i];
      var distances := ReachableStops(g, sp, house, stops);
      var nearestStops := TwoShortest(distances);
      usage := AddHouseUsage(g, sp, usage, house, nearestStops);
      i := i + 1;
    }
    assert houses[..|houses|] == houses;
  }
}

/**
 * The directed weighted graph the pipeline works on (a networkx `DiGraph`):
 * nodes keyed by exact coordinates with a small attribute record, and a
 * weight per directed edge. `Graph` is its value; `DiGraph` is the object
 * the pipeline updates in place.
 */
module Graphs {
  import opened Wrappers
  import opened Geometry

  datatype PlaceKind = House | BusStop

  /** The node attributes the pipeline sets: `type` and `total_people`; a street node has neither. */
  datatype NodeAttrs = NodeAttrs(kind: Option<PlaceKind>, totalPeople: Option<int>)

  const NoAttrs := NodeAttrs(None, None)

  datatype Graph = Graph(nodes: map<Coord, NodeAttrs>, weight: map<Edge, real>)

  const EmptyGraph := Graph(map[], map[])

  /** Every edge joins two nodes of the graph. */
  ghost predicate Closed(g: Graph) {
    forall e :: e in g.weight ==> e.0 in g.nodes && e.1 in g.nodes
  }

  /** Every edge weighs the distance between its end points. */
  ghost predicate WeightsAreDistances(g: Graph, dist: Distance) {
    forall e :: e in g.weight ==> g.weight[e] == dist(e.0, e.1)
  }

  ghost predicate NonNegative(g: Graph) {
    forall e :: e in g.weight ==> g.weight[e] >= 0.0
  }

  lemma DistanceWeightsAreNonNegative(g: Graph, dist: Distance)
    requires IsDistance(dist) && WeightsAreDistances(g, dist)
    ensures NonNegative(g)
  {
  }

  function AddNode(nodes: map<Coord, NodeAttrs>, n: Coord): map<Coord, NodeAttrs> {
    if n in nodes then nodes else nodes[n := NoAttrs]
  }

  /**
   * `add_edge(u, v, weight=w)`: missing end points become nodes without
   * attributes, existing nodes keep theirs, and the edge's weight is (re)set.
   */
  function WithEdge(g: Graph, u: Coord, v: Coord, w: real): Graph {
    Graph(AddNode(AddNode(g.nodes, u), v), g.weight[(u, v) := w])
  }

  lemma WithEdgeFacts(g: Graph, u: Coord, v: Coord, w: real)
    ensures var r := WithEdge(g, u, v, w);
      && r.nodes.Keys == g.nodes.Keys + {u, v}
      && (forall n :: n in g.nodes ==> r.nodes[n] == g.nodes[n])
      && (forall n :: n in r.nodes && n !in g.nodes ==> r.nodes[n] == NoAttrs)
      && r.weight.Keys == g.weight.Keys + {(u, v)}
      && r.weight[(u, v)] == w
      && (forall e :: e in g.weight && e != (u, v) ==> r.weight[e] == g.weight[e])
  {
  }

  // ---------------------------------------------------------------- paths

  /** The number of consecutive pairs of a point list: `zip(p[:-1], p[1:])`. */
  function PairCount<T>(p: seq<T>): nat {
    if |p| == 0 then 0 else |p| - 1
  }

  predicate EdgesIn(p: seq<Coord>, weight: map<Edge, real>) {
    forall i :: 0 <= i < PairCount(p) ==> (p[i], p[i + 1]) in weight
  }

  /** A path from s to t: non-empty, starts at s, ends at t, stays on nodes and edges of g. */
  predicate IsPath(g: Graph, p: seq<Coord>, s: Coord, t: Coord) {
    && |p| > 0
    && p[0] == s
    && p[|p| - 1] == t
    && (forall i :: 0 <= i < |p| ==> p[i] in g.nodes)
    && EdgesIn(p, g.weight)
  }

  /** How often edge e is traversed among the first n steps of p. */
  function EdgeCountUpTo(p: seq<Coord>, e: Edge, n: nat): nat
    requires n <= PairCount(p)
  {
    if n == 0 then 0
    else EdgeCountUpTo(p, e, n - 1) + (if (p[n - 1], p[n]) == e then 1 else 0)
  }

  /** How often path p traverses edge e. */
  function EdgeCount(p: seq<Coord>, e: Edge): nat {
    EdgeCountUpTo(p, e, PairCount(p))
  }

  /** The summed weight of the first n steps of p. */
  function PathLengthUpTo(weight: map<Edge, real>, p: seq<Coord>, n: nat): real
    requires n <= PairCount(p) && EdgesIn(p, weight)
  {
    if n == 0 then 0.0
    else PathLengthUpTo(weight, p, n - 1) + weight[(p[n - 1], p[n])]
  }

  /** The weighted length of p, as `shortest_path_length` reports it. */
  function PathLength(weight: map<Edge, real>, p: seq<Coord>): real
    requires EdgesIn(p, weight)
  {
    PathLengthUpTo(weight, p, PairCount(p))
  }

  ghost predicate Reachable(g: Graph, s: Coord, t: Coord) {
    exists p :: IsPath(g, p, s, t)
  }

  /**
   * The library's weighted shortest-path search (`shortest_path`,
   * `single_source_dijkstra_path`): a path, or None for `NetworkXNoPath`.
   */
  type PathFinder = (Graph, Coord, Coord) -> Option<seq<Coord>>

  /** Whatever the finder returns for g is a path of g between the requested end points. */
  ghost predicate SoundOn(g: Graph, sp: PathFinder) {
    forall s, t :: sp(g, s, t).Some? ==> IsPath(g, sp(g, s, t).value, s, t)
  }

  /** The finder on g: sound, no longer than any other path, and None only when t is unreachable. */
  ghost predicate IsShortestPathRouter(g: Graph, sp: PathFinder) {
    && SoundOn(g, sp)
    && (forall s, t :: sp(g, s, t).None? ==> !Reachable(g, s, t))
    && (forall s, t, q :: sp(g, s, t).Some? && IsPath(g, q, s, t) ==>
          PathLength(g.weight, sp(g, s, t).value) <= PathLength(g.weight, q))
  }

  /** A shortest-path search that is correct on every graph with non-negative weights (Dijkstra). */
  ghost predicate IsShortestPathFinder(sp: PathFinder) {
    forall g :: NonNegative(g) ==> IsShortestPathRouter(g, sp)
  }

  lemma {:induction false} EdgeCountPositive(p: seq<Coord>, e: Edge, n: nat)
    requires n <= PairCount(p)
    ensures EdgeCountUpTo(p, e, n) > 0 <==> exists i :: 0 <= i < n && (p[i], p[i + 1]) == e
  {
    if n > 0 {
      EdgeCountPositive(p, e, n - 1);
    }
  }

  // ------------------------------------------------------------ the object

  class DiGraph {
    var nodes: map<Coord, NodeAttrs>
    var weight: map<Edge, real>

    function Value(): Graph
      reads this
    {
      Graph(nodes, weight)
    }

    constructor ()
      ensures Value() == EmptyGraph
    {
      nodes := map[];
      weight := map[];
    }

    method AddEdge(u: Coord, v: Coord, w: real)
      modifies this
      ensures Value() == WithEdge(old(Value()), u, v, w)
    {
      nodes := AddNode(AddNode(nodes, u), v);
      weight := weight[(u, v) := w];
    }

    /** `G.nodes[n][...] = ...`: replaces the attribute record of an existing node. */
    method SetNodeAttrs(n: Coord, a: NodeAttrs)
      requires n in nodes
      modifies this
      ensures Value() == Graph(old(nodes)[n := a], old(weight))
    {
      nodes := nodes[n := a];
    }

    /** `G[u][v]['weight'] = w` on an existing edge. */
    method SetWeight(e: Edge, w: real)
      requires e in weight
      modifies this
      ensures Value() == Graph(old(nodes), old(weight)[e := w])
    {
      weight := weight[e := w];
    }
  }
}

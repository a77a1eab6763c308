/**
 * `update_weights`: one pass over the edge loads that scales each loaded
 * edge's weight by the congestion factor `1 + 2 * load / capacity`, in place.
 */
module Congestion {
  import opened Geometry
  import opened Graphs

  /** The default capacity of an edge. */
  const DefaultCapacity: real := 300.0

  function Factor(load: real, capacity: real): real
    requires capacity != 0.0
  {
    1.0 + load / capacity * 2.0
  }

  /** The weights after one pass: each edge with a load is scaled by its factor, the others keep theirs. */
  function Reweighted(weight: map<Edge, real>, loads: map<Edge, real>, capacity: real): map<Edge, real>
    requires capacity != 0.0 || loads == map[]
  {
    map e | e in weight :: if e in loads then weight[e] * Factor(loads[e], capacity) else weight[e]
  }

  /**
   * `update_weights` on the graph object. Reading the weight of a loaded
   * pair that is no edge raises `KeyError`, and a non-empty pass with
   * capacity 0 raises `ZeroDivisionError`; callers avoid both.
   */
  method UpdateWeights(g: DiGraph, loads: map<Edge, real>, capacity: real)
    requires loads.Keys <= g.weight.Keys
    requires capacity != 0.0 || loads == map[]
    modifies g
    ensures g.nodes == old(g.nodes)
    ensures g.weight == Reweighted(old(g.weight), loads, capacity)
  {
    var remaining := loads.Keys;
    while remaining != {}
      invariant remaining <= loads.Keys
      invariant g.nodes == old(g.nodes)
      invariant g.weight.Keys == old(g.weight).Keys
      invariant forall e :: e in g.weight ==> (g.weight[e] ==
        if e in loads && e !in remaining then old(g.weight)[e] * Factor(loads[e], capacity) else old(g.weight)[e])
      decreases |remaining|
    {
      var edge :| edge in remaining;
      var load := loads[edge];
      var weight := g.weight[edge];
      var congestion := load / capacity;
      g.SetWeight(edge, weight * (1.0 + congestion * 2.0));
      remaining := remaining - {edge};
    }
    ghost var expected := Reweighted(old(g.weight), loads, capacity);
    assert g.weight.Keys == expected.Keys;
    assert forall e :: e in g.weight ==> g.weight[e] == expected[e];
  }

  /** An edge with no load, or load 0, keeps its weight. */
  lemma UnloadedEdgeKeepsWeight(weight: map<Edge, real>, loads: map<Edge, real>, capacity: real, e: Edge)
    requires capacity != 0.0 || loads == map[]
    requires e in weight
    requires e !in loads || loads[e] == 0.0
    ensures Reweighted(weight, loads, capacity)[e] == weight[e]
  {
  }

  /** A second pass compounds: the factor is applied twice. */
  lemma SecondPassCompounds(weight: map<Edge, real>, loads: map<Edge, real>, capacity: real, e: Edge)
    requires capacity != 0.0
    requires e in weight && e in loads
    ensures var f := Factor(loads[e], capacity);
      Reweighted(Reweighted(weight, loads, capacity), loads, capacity)[e] == weight[e] * f * f
  {
  }

  /** The pass is not idempotent: a positive weight under a positive load changes again on a second pass. */
  lemma NotIdempotent(weight: map<Edge, real>, loads: map<Edge, real>, capacity: real, e: Edge)
    requires capacity > 0.0
    requires e in weight && e in loads
    requires weight[e] > 0.0 && loads[e] > 0.0
    ensures Reweighted(Reweighted(weight, loads, capacity), loads, capacity)[e] != Reweighted(weight, loads, capacity)[e]
  {
    var f := Factor(loads[e], capacity);
    var once := weight[e] * f;
    assert f > 1.0 by {
      assert loads[e] / capacity > 0.0;
    }
    assert once > 0.0;
    SecondPassCompounds(weight, loads, capacity, e);
    assert once * f > once * 1.0;
  }

  /** Non-negative loads on a positive capacity never shorten an edge, and keep weights non-negative. */
  lemma CongestionOnlyLengthens(g: Graph, loads: map<Edge, real>, capacity: real)
    requires capacity > 0.0
    requires NonNegative(g)
    requires forall e :: e in loads ==> loads[e] >= 0.0
    ensures var w := Reweighted(g.weight, loads, capacity);
      forall e :: e in g.weight ==> w[e] >= g.weight[e] >= 0.0
  {
    forall e | e in g.weight && e in loads
      ensures g.weight[e] * Factor(loads[e], capacity) >= g.weight[e]
    {
      var f := Factor(loads[e], capacity);
      assert f >= 1.0 by {
        assert loads[e] / capacity >= 0.0;
      }
      assert g.weight[e] * f >= g.weight[e] * 1.0;
    }
  }
}

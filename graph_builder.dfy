/**
 * Street graph construction (`create_graph`): every consecutive coordinate
 * pair of every street line becomes a pair of opposite directed edges, both
 * weighted by the distance between the two points.
 */
module GraphBuilder {
  import opened Geometry
  import opened Graphs

  /** The coordinate list of one street line geometry. */
  type Line = seq<Coord>

  /** Both directed edges of the segment a-b, weighted by its length. */
  function AddSegment(g: Graph, a: Coord, b: Coord, dist: Distance): Graph {
    var d := dist(a, b);
    WithEdge(WithEdge(g, a, b, d), b, a, d)
  }

  /** The graph after the first k segments of `line` have been added to g. */
  function AddSegments(g: Graph, line: Line, k: nat, dist: Distance): Graph
    requires k <= PairCount(line)
  {
    if k == 0 then g
    else AddSegment(AddSegments(g, line, k - 1, dist), line[k - 1], line[k], dist)
  }

  /** The graph `create_graph` builds: the lines' segments added in order to an empty graph. */
  function BuildGraph(lines: seq<Line>, dist: Distance): Graph {
    if lines == [] then EmptyGraph
    else
      var last := lines[|lines| - 1];
      AddSegments(BuildGraph(lines[..|lines| - 1], dist), last, PairCount(last), dist)
  }

  /** a, b are consecutive coordinates of some line. */
  ghost predicate IsSegment(lines: seq<Line>, a: Coord, b: Coord) {
    exists l, i :: 0 <= l < |lines| && 0 <= i < PairCount(lines[l]) && lines[l][i] == a && lines[l][i + 1] == b
  }

  /** c is a coordinate of some line with at least two coordinates. */
  ghost predicate OnStreet(lines: seq<Line>, c: Coord) {
    exists l, i :: 0 <= l < |lines| && 2 <= |lines[l]| && 0 <= i < |lines[l]| && lines[l][i] == c
  }

  /** One segment adds exactly its two directed edges. */
  lemma AddSegmentEdges(g: Graph, a: Coord, b: Coord, dist: Distance)
    ensures AddSegment(g, a, b, dist).weight.Keys == g.weight.Keys + {(a, b), (b, a)}
  {
    var d := dist(a, b);
    WithEdgeFacts(g, a, b, d);
    WithEdgeFacts(WithEdge(g, a, b, d), b, a, d);
  }

  /** One segment adds exactly its two end points, as nodes without attributes; other nodes keep theirs. */
  lemma AddSegmentNodes(g: Graph, a: Coord, b: Coord, dist: Distance)
    ensures var r := AddSegment(g, a, b, dist);
      && r.nodes.Keys == g.nodes.Keys + {a, b}
      && (forall c :: c in g.nodes ==> r.nodes[c] == g.nodes[c])
      && (forall c :: c in r.nodes && c !in g.nodes ==> r.nodes[c] == NoAttrs)
  {
    var d := dist(a, b);
    WithEdgeFacts(g, a, b, d);
    WithEdgeFacts(WithEdge(g, a, b, d), b, a, d);
  }

  /** Both edges of a segment weigh its length, so distance weights are kept. */
  lemma AddSegmentWeights(g: Graph, a: Coord, b: Coord, dist: Distance)
    requires IsDistance(dist) && WeightsAreDistances(g, dist)
    ensures WeightsAreDistances(AddSegment(g, a, b, dist), dist)
  {
    var d := dist(a, b);
    WithEdgeFacts(g, a, b, d);
    WithEdgeFacts(WithEdge(g, a, b, d), b, a, d);
  }

  /** The edges of a line prefix: both directions of each of its first k segments. */
  ghost predicate InPrefix(line: Line, k: nat, e: Edge)
    requires k <= PairCount(line)
  {
    exists i :: 0 <= i < k && (e == (line[i], line[i + 1]) || e == (line[i + 1], line[i]))
  }

  /** The points of a line prefix: the first k + 1 coordinates when k > 0. */
  ghost predicate PointOfPrefix(line: Line, k: nat, c: Coord)
    requires k <= PairCount(line)
  {
    k > 0 && exists i :: 0 <= i <= k && line[i] == c
  }

  lemma {:induction false} AddSegmentsEdges(g: Graph, line: Line, k: nat, dist: Distance)
    requires k <= PairCount(line)
    ensures forall e :: e in AddSegments(g, line, k, dist).weight <==> e in g.weight || InPrefix(line, k, e)
  {
    if k > 0 {
      var before := AddSegments(g, line, k - 1, dist);
      var r := AddSegment(before, line[k - 1], line[k], dist);
      assert AddSegments(g, line, k, dist) == r;
      AddSegmentsEdges(g, line, k - 1, dist);
      AddSegmentEdges(before, line[k - 1], line[k], dist);
      forall e
        ensures e in r.weight <==> e in g.weight || InPrefix(line, k, e)
      {
        InPrefixStep(line, k, e);
      }
    }
  }

  /** The edges of a k-segment prefix: those of the (k-1)-segment prefix and the k-th segment's two edges. */
  lemma InPrefixStep(line: Line, k: nat, e: Edge)
    requires 0 < k <= PairCount(line)
    ensures InPrefix(line, k, e) <==> InPrefix(line, k - 1, e) || e == (line[k - 1], line[k]) || e == (line[k], line[k - 1])
  {
    if e == (line[k - 1], line[k]) || e == (line[k], line[k - 1]) {
      assert 0 <= k - 1 < k;
    }
  }

  /** The points of a k-segment prefix: those of the (k-1)-segment prefix and the k-th segment's end points. */
  lemma PointOfPrefixStep(line: Line, k: nat, c: Coord)
    requires 0 < k <= PairCount(line)
    ensures PointOfPrefix(line, k, c) <==> PointOfPrefix(line, k - 1, c) || c == line[k - 1] || c == line[k]
  {
    if PointOfPrefix(line, k, c) {
      var i :| 0 <= i <= k && line[i] == c;
      if i < k - 1 {
        assert k - 1 > 0;
      }
    }
    if PointOfPrefix(line, k - 1, c) {
      var i :| 0 <= i <= k - 1 && line[i] == c;
      assert line[i] == c;
    }
    assert line[k - 1] == line[k - 1] && line[k] == line[k];
  }

  lemma {:induction false} AddSegmentsNodes(g: Graph, line: Line, k: nat, dist: Distance)
    requires k <= PairCount(line)
    ensures var r := AddSegments(g, line, k, dist);
      && (forall c :: c in r.nodes <==> c in g.nodes || PointOfPrefix(line, k, c))
      && (forall c :: c in g.nodes ==> r.nodes[c] == g.nodes[c])
      && (forall c :: c in r.nodes && c !in g.nodes ==> r.nodes[c] == NoAttrs)
  {
    AddSegmentsNodeKeys(g, line, k, dist);
    AddSegmentsAttrs(g, line, k, dist);
  }

  lemma {:induction false} AddSegmentsNodeKeys(g: Graph, line: Line, k: nat, dist: Distance)
    requires k <= PairCount(line)
    ensures forall c :: c in AddSegments(g, line, k, dist).nodes <==> c in g.nodes || PointOfPrefix(line, k, c)
  {
    if k > 0 {
      var before := AddSegments(g, line, k - 1, dist);
      var r := AddSegment(before, line[k - 1], line[k], dist);
      assert AddSegments(g, line, k, dist) == r;
      AddSegmentsNodeKeys(g, line, k - 1, dist);
      AddSegmentNodes(before, line[k - 1], line[k], dist);
      forall c
        ensures c in r.nodes <==> c in g.nodes || PointOfPrefix(line, k, c)
      {
        PointOfPrefixStep(line, k, c);
      }
    }
  }

  lemma {:induction false} AddSegmentsAttrs(g: Graph, line: Line, k: nat, dist: Distance)
    requires k <= PairCount(line)
    ensures var r := AddSegments(g, line, k, dist);
      && g.nodes.Keys <= r.nodes.Keys
      && (forall c :: c in g.nodes ==> r.nodes[c] == g.nodes[c])
      && (forall c :: c in r.nodes && c !in g.nodes ==> r.nodes[c] == NoAttrs)
  {
    if k > 0 {
      var before := AddSegments(g, line, k - 1, dist);
      var r := AddSegment(before, line[k - 1], line[k], dist);
      assert AddSegments(g, line, k, dist) == r;
      AddSegmentsAttrs(g, line, k - 1, dist);
      AddSegmentNodes(before, line[k - 1], line[k], dist);
      forall c | c in g.nodes
        ensures r.nodes[c] == g.nodes[c]
      {
        assert before.nodes[c] == g.nodes[c];
      }
      forall c | c in r.nodes && c !in g.nodes
        ensures r.nodes[c] == NoAttrs
      {
        if c in before.nodes {
          assert before.nodes[c] == NoAttrs;
        }
      }
    }
  }

  lemma {:induction false} AddSegmentsWeights(g: Graph, line: Line, k: nat, dist: Distance)
    requires k <= PairCount(line)
    requires IsDistance(dist) && WeightsAreDistances(g, dist)
    ensures WeightsAreDistances(AddSegments(g, line, k, dist), dist)
  {
    if k > 0 {
      AddSegmentsWeights(g, line, k - 1, dist);
      AddSegmentWeights(AddSegments(g, line, k - 1, dist), line[k - 1], line[k], dist);
    }
  }

  /** The segments of all lines: those of all but the last line, and those of the last. */
  lemma SegmentSplit(lines: seq<Line>, a: Coord, b: Coord)
    requires lines != []
    ensures var init, last := lines[..|lines| - 1], lines[|lines| - 1];
      IsSegment(lines, a, b) <==>
        IsSegment(init, a, b) || exists i :: 0 <= i < PairCount(last) && last[i] == a && last[i + 1] == b
  {
    var init, last := lines[..|lines| - 1], lines[|lines| - 1];
    if IsSegment(lines, a, b) {
      var l, i :| 0 <= l < |lines| && 0 <= i < PairCount(lines[l]) && lines[l][i] == a && lines[l][i + 1] == b;
      if l < |init| {
        assert init[l] == lines[l];
      }
    }
    if IsSegment(init, a, b) {
      var l, i :| 0 <= l < |init| && 0 <= i < PairCount(init[l]) && init[l][i] == a && init[l][i + 1] == b;
      assert lines[l] == init[l];
    }
  }

  lemma {:induction false} BuildGraphEdges(lines: seq<Line>, dist: Distance)
    ensures forall e :: e in BuildGraph(lines, dist).weight <==> IsSegment(lines, e.0, e.1) || IsSegment(lines, e.1, e.0)
  {
    if lines != [] {
      var init := lines[..|lines| - 1];
      var last := lines[|lines| - 1];
      BuildGraphEdges(init, dist);
      AddSegmentsEdges(BuildGraph(init, dist), last, PairCount(last), dist);
      forall e: Edge
        ensures IsSegment(lines, e.0, e.1) || IsSegment(lines, e.1, e.0) <==>
          IsSegment(init, e.0, e.1) || IsSegment(init, e.1, e.0) || InPrefix(last, PairCount(last), e)
      {
        SegmentSplit(lines, e.0, e.1);
        SegmentSplit(lines, e.1, e.0);
      }
    }
  }

  lemma {:induction false} BuildGraphNodes(lines: seq<Line>, dist: Distance)
    ensures var g := BuildGraph(lines, dist);
      && (forall c :: c in g.nodes <==> OnStreet(lines, c))
      && (forall c :: c in g.nodes ==> g.nodes[c] == NoAttrs)
  {
    if lines != [] {
      var init := lines[..|lines| - 1];
      var last := lines[|lines| - 1];
      var before := BuildGraph(init, dist);
      var g := AddSegments(before, last, PairCount(last), dist);
      assert BuildGraph(lines, dist) == g;
      BuildGraphNodes(init, dist);
      AddSegmentsNodes(before, last, PairCount(last), dist);
      forall c | OnStreet(lines, c)
        ensures OnStreet(init, c) || PointOfPrefix(last, PairCount(last), c)
      {
        var l, i :| 0 <= l < |lines| && 2 <= |lines[l]| && 0 <= i < |lines[l]| && lines[l][i] == c;
        if l < |init| {
          assert init[l] == lines[l];
        }
      }
      forall c | OnStreet(init, c) || PointOfPrefix(last, PairCount(last), c)
        ensures OnStreet(lines, c)
      {
        if OnStreet(init, c) {
          var l, i :| 0 <= l < |init| && 2 <= |init[l]| && 0 <= i < |init[l]| && init[l][i] == c;
          assert lines[l] == init[l];
        } else {
          assert lines[|lines| - 1] == last;
        }
      }
    }
  }

  lemma {:induction false} BuildGraphWeights(lines: seq<Line>, dist: Distance)
    requires IsDistance(dist)
    ensures WeightsAreDistances(BuildGraph(lines, dist), dist)
  {
    if lines != [] {
      var init := lines[..|lines| - 1];
      var last := lines[|lines| - 1];
      BuildGraphWeights(init, dist);
      AddSegmentsWeights(BuildGraph(init, dist), last, PairCount(last), dist);
    }
  }

  /**
   * The graph of `create_graph`: its edges are exactly the segments of the
   * lines in both directions, each weighted by the distance of its end
   * points; its nodes are exactly the coordinates of the lines with two or
   * more points, none with attributes.
   */
  lemma BuildGraphFacts(lines: seq<Line>, dist: Distance)
    ensures var g := BuildGraph(lines, dist);
      && (forall e :: e in g.weight <==> IsSegment(lines, e.0, e.1) || IsSegment(lines, e.1, e.0))
      && (forall c :: c in g.nodes <==> OnStreet(lines, c))
      && (forall c :: c in g.nodes ==> g.nodes[c] == NoAttrs)
      && (IsDistance(dist) ==> WeightsAreDistances(g, dist))
  {
    BuildGraphEdges(lines, dist);
    BuildGraphNodes(lines, dist);
    if IsDistance(dist) {
      BuildGraphWeights(lines, dist);
    }
  }

  /** For every consecutive pair (a, b) of every line, a->b and b->a are edges weighing dist(a, b). */
  lemma SegmentsBecomeEdgePairs(lines: seq<Line>, dist: Distance, l: nat, i: nat)
    requires IsDistance(dist)
    requires l < |lines| && i < PairCount(lines[l])
    ensures var g := BuildGraph(lines, dist); var a, b := lines[l][i], lines[l][i + 1];
      && (a, b) in g.weight && (b, a) in g.weight
      && g.weight[(a, b)] == dist(a, b) == g.weight[(b, a)]
  {
    BuildGraphFacts(lines, dist);
    var a, b := lines[l][i], lines[l][i + 1];
    assert IsSegment(lines, a, b);
  }

  /** A line with fewer than two coordinates adds nothing to the graph. */
  lemma ShortLineAddsNothing(lines: seq<Line>, short: Line, dist: Distance)
    requires |short| <= 1
    ensures BuildGraph(lines + [short], dist) == BuildGraph(lines, dist)
  {
    assert (lines + [short])[..|lines|] == lines;
  }

  lemma BuildGraphIsClosed(lines: seq<Line>, dist: Distance)
    ensures Closed(BuildGraph(lines, dist))
  {
    BuildGraphFacts(lines, dist);
    var g := BuildGraph(lines, dist);
    forall e | e in g.weight
      ensures e.0 in g.nodes && e.1 in g.nodes
    {
      if IsSegment(lines, e.0, e.1) {
        var l, i :| 0 <= l < |lines| && 0 <= i < PairCount(lines[l]) && lines[l][i] == e.0 && lines[l][i + 1] == e.1;
        assert OnStreet(lines, lines[l][i]) && OnStreet(lines, lines[l][i + 1]);
      } else {
        var l, i :| 0 <= l < |lines| && 0 <= i < PairCount(lines[l]) && lines[l][i] == e.1 && lines[l][i + 1] == e.0;
        assert OnStreet(lines, lines[l][i]) && OnStreet(lines, lines[l][i + 1]);
      }
    }
  }

  /** `list(nodes)`: the elements of a set, each once, in no particular order. */
  method SetToSeq(s: set<Coord>) returns (xs: seq<Coord>)
    ensures forall c :: c in xs <==> c in s
    ensures forall i, j :: 0 <= i < j < |xs| ==> xs[i] != xs[j]
  {
    xs := [];
    var rest := s;
    while rest != {}
      invariant rest <= s
      invariant forall c :: c in xs <==> c in s - rest
      invariant forall i, j :: 0 <= i < j < |xs| ==> xs[i] != xs[j]
      decreases |rest|
    {
      var c :| c in rest;
      xs := xs + [c];
      rest := rest - {c};
    }
  }

  /** The loop over one street's segments, adding its edges to g and its end points to `nodes`. */
  method AddLine(g: DiGraph, nodes: set<Coord>, coords: Line, dist: Distance) returns (updated: set<Coord>)
    requires nodes == g.nodes.Keys
    modifies g
    ensures g.Value() == AddSegments(old(g.Value()), coords, PairCount(coords), dist)
    ensures updated == g.nodes.Keys
  {
    updated := nodes;
    var k := 0;
    while k < PairCount(coords)
      invariant 0 <= k <= PairCount(coords)
      invariant g.Value() == AddSegments(old(g.Value()), coords, k, dist)
      invariant updated == g.nodes.Keys
    {
      var start, end := coords[k], coords[k + 1];
      var distance := dist(start, end);
      AddSegmentNodes(g.Value(), start, end, dist);
      g.AddEdge(start, end, distance);
      g.AddEdge(end, start, distance);
      updated := updated + {start, end};
      k := k + 1;
    }
  }

  /**
   * `create_graph`: returns the graph of the lines and its node list, which
   * lists every node exactly once.
   */
  method CreateGraph(lines: seq<Line>, dist: Distance) returns (g: DiGraph, nodeList: seq<Coord>)
    ensures fresh(g)
    ensures g.Value() == BuildGraph(lines, dist)
    ensures forall c :: c in nodeList <==> c in g.nodes
    ensures forall i, j :: 0 <= i < j < |nodeList| ==> nodeList[i] != nodeList[j]
  {
    g := new DiGraph();
    var nodes: set<Coord> := {};
    var l := 0;
    while l < |lines|
      invariant 0 <= l <= |lines|
      invariant g.Value() == BuildGraph(lines[..l], dist)
      invariant nodes == g.nodes.Keys
    {
      nodes := AddLine(g, nodes, lines[l], dist);
      assert lines[..l + 1][..l] == lines[..l];
      l := l + 1;
    }
    assert lines[..|lines|] == lines;
    nodeList := SetToSeq(nodes);
  }
}

/**
 * Nearest-node lookup (`find_nearest_node` over the node-coordinate list the
 * nearest-neighbour tree was built from) and place snapping
 * (`add_places_to_graph`): each place point is linked to its nearest street
 * node by two opposite edges weighted by the snap distance, and tagged.
 */
module Snapping {
  import opened Wrappers
  import opened Geometry
  import opened Graphs

  /**
   * A place as snapping sees it: its representative point (a building's
   * centroid, a stop's own point) and, for a house, its `Total_People`.
   */
  datatype Place = Place(point: Coord, totalPeople: int)

  /** The position of the first node no farther from p than any other. */
  function NearestIndex(p: Coord, coords: seq<Coord>, dist: Distance): nat
    requires |coords| > 0
  {
    if |coords| == 1 then 0
    else
      var k := NearestIndex(p, coords[1..], dist) + 1;
      if k < |coords| && dist(p, coords[0]) > dist(p, coords[k]) then k else 0
  }

  lemma {:induction false} NearestIndexFacts(p: Coord, coords: seq<Coord>, dist: Distance)
    requires |coords| > 0
    ensures var i := NearestIndex(p, coords, dist);
      && i < |coords|
      && (forall j :: 0 <= j < |coords| ==> dist(p, coords[i]) <= dist(p, coords[j]))
      && (forall j :: 0 <= j < i ==> dist(p, coords[i]) < dist(p, coords[j]))
  {
    if |coords| > 1 {
      NearestIndexFacts(p, coords[1..], dist);
      var k := NearestIndex(p, coords[1..], dist) + 1;
      assert forall j :: 1 <= j < |coords| ==> coords[j] == coords[1..][j - 1];
    }
  }

  /**
   * `find_nearest_node`: the nearest element of the tree's coordinate list
   * and its distance; a tree over no coordinates cannot answer.
   */
  function FindNearestNode(point: Coord, nodeCoords: seq<Coord>, dist: Distance): (r: Option<(Coord, real)>)
    ensures r.Some? <==> |nodeCoords| > 0
    ensures r.Some? ==> r.value.0 in nodeCoords && r.value.1 == dist(point, r.value.0)
    ensures r.Some? ==> forall c :: c in nodeCoords ==> r.value.1 <= dist(point, c)
  {
    if |nodeCoords| == 0 then None
    else
      NearestIndexFacts(point, nodeCoords, dist);
      var i := NearestIndex(point, nodeCoords, dist);
      Some((nodeCoords[i], dist(point, nodeCoords[i])))
  }

  /** The node a point snaps to. */
  function Nearest(point: Coord, nodeCoords: seq<Coord>, dist: Distance): (n: Coord)
    requires |nodeCoords| > 0
  {
    FindNearestNode(point, nodeCoords, dist).value.0
  }

  /** The attributes of c before snapping: its own, or none for a node the snap creates. */
  function Base(g: Graph, c: Coord): NodeAttrs {
    if c in g.nodes then g.nodes[c] else NoAttrs
  }

  /** The `total_people` a place records: the house's count, 0 for a stop. */
  function PeopleOf(kind: PlaceKind, place: Place): int {
    if kind == House then place.totalPeople else 0
  }

  /**
   * The attributes of a snapped place node: `type` always; `total_people`
   * only when `recordPeople` (the variant of street_graph.py), otherwise the
   * node keeps whatever count it had (the variant of data_process_new.py).
   */
  function Tagged(a: NodeAttrs, kind: PlaceKind, place: Place, recordPeople: bool): NodeAttrs {
    if recordPeople then NodeAttrs(Some(kind), Some(PeopleOf(kind, place)))
    else a.(kind := Some(kind))
  }

  /** A place together with the node it snaps to and the snap distance. */
  datatype Link = Link(place: Place, node: Coord, distance: real)

  function LinkOf(place: Place, nodeCoords: seq<Coord>, dist: Distance): Link
    requires |nodeCoords| > 0
  {
    var nearest := FindNearestNode(place.point, nodeCoords, dist).value;
    Link(place, nearest.0, nearest.1)
  }

  function LinksOf(places: seq<Place>, nodeCoords: seq<Coord>, dist: Distance): seq<Link>
    requires |nodeCoords| > 0
  {
    seq(|places|, i requires 0 <= i < |places| => LinkOf(places[i], nodeCoords, dist))
  }

  /** The graph after one place is linked to its node and tagged. */
  function SnapLink(g: Graph, link: Link, kind: PlaceKind, recordPeople: bool): Graph {
    var p := link.place.point;
    var linked := WithEdge(WithEdge(g, link.node, p, link.distance), p, link.node, link.distance);
    Graph(linked.nodes[p := Tagged(linked.nodes[p], kind, link.place, recordPeople)], linked.weight)
  }

  /** The graph after the links are applied one after the other. */
  function SnapAll(g: Graph, links: seq<Link>, kind: PlaceKind, recordPeople: bool): Graph {
    if links == [] then g
    else SnapLink(SnapAll(g, links[..|links| - 1], kind, recordPeople), links[|links| - 1], kind, recordPeople)
  }

  /** `add_places_to_graph` on a graph value. */
  function SnapPlaces(g: Graph, places: seq<Place>, nodeCoords: seq<Coord>, kind: PlaceKind, dist: Distance,
                      recordPeople: bool): Graph
    requires |nodeCoords| > 0
  {
    SnapAll(g, LinksOf(places, nodeCoords, dist), kind, recordPeople)
  }

  function LinkEdges(links: seq<Link>): set<Edge> {
    if links == [] then {}
    else
      var l := links[|links| - 1];
      LinkEdges(links[..|links| - 1]) + {(l.node, l.place.point), (l.place.point, l.node)}
  }

  function PlacePoints(links: seq<Link>): set<Coord> {
    if links == [] then {} else PlacePoints(links[..|links| - 1]) + {links[|links| - 1].place.point}
  }

  function LinkNodes(links: seq<Link>): set<Coord> {
    if links == [] then {} else LinkNodes(links[..|links| - 1]) + {links[|links| - 1].node}
  }

  /** The last place of the links whose point is c. */
  function LastAt(links: seq<Link>, c: Coord): Place
    requires c in PlacePoints(links)
  {
    var l := links[|links| - 1];
    if l.place.point == c then l.place else LastAt(links[..|links| - 1], c)
  }

  /** Every link's distance is the distance between its place and its node. */
  ghost predicate Measured(links: seq<Link>, dist: Distance) {
    forall i :: 0 <= i < |links| ==> links[i].distance == dist(links[i].place.point, links[i].node)
  }

  lemma SnapLinkFacts(g: Graph, link: Link, kind: PlaceKind, recordPeople: bool)
    ensures var r := SnapLink(g, link, kind, recordPeople);
      var n, p := link.node, link.place.point;
      && r.weight.Keys == g.weight.Keys + {(n, p), (p, n)}
      && r.weight[(n, p)] == link.distance && r.weight[(p, n)] == link.distance
      && (forall e :: e in g.weight && e != (n, p) && e != (p, n) ==> r.weight[e] == g.weight[e])
      && r.nodes.Keys == g.nodes.Keys + {n, p}
      && r.nodes[p] == Tagged(Base(g, p), kind, link.place, recordPeople)
      && (forall c :: c in r.nodes && c != p ==> r.nodes[c] == Base(g, c))
  {
    WithEdgeFacts(g, link.node, link.place.point, link.distance);
    WithEdgeFacts(WithEdge(g, link.node, link.place.point, link.distance), link.place.point, link.node, link.distance);
  }

  /** The edges after snapping: the old ones and the two link edges of every place. */
  lemma {:induction false} SnapAllEdges(g: Graph, links: seq<Link>, kind: PlaceKind, recordPeople: bool)
    ensures SnapAll(g, links, kind, recordPeople).weight.Keys == g.weight.Keys + LinkEdges(links)
  {
    if links != [] {
      SnapAllEdges(g, links[..|links| - 1], kind, recordPeople);
      SnapLinkFacts(SnapAll(g, links[..|links| - 1], kind, recordPeople), links[|links| - 1], kind, recordPeople);
    }
  }

  /** The nodes after snapping: the old ones, every place point and every node a place snapped to. */
  lemma {:induction false} SnapAllNodes(g: Graph, links: seq<Link>, kind: PlaceKind, recordPeople: bool)
    ensures SnapAll(g, links, kind, recordPeople).nodes.Keys == g.nodes.Keys + PlacePoints(links) + LinkNodes(links)
  {
    if links != [] {
      SnapAllNodes(g, links[..|links| - 1], kind, recordPeople);
      SnapLinkFacts(SnapAll(g, links[..|links| - 1], kind, recordPeople), links[|links| - 1], kind, recordPeople);
    }
  }

  /**
   * Weights after snapping: with measured links over a symmetric distance,
   * every link edge weighs the distance between its end points, whichever
   * place wrote it last; every other old edge keeps its weight.
   */
  lemma {:induction false} SnapAllWeights(g: Graph, links: seq<Link>, kind: PlaceKind, recordPeople: bool,
                                          dist: Distance)
    requires IsDistance(dist) && Measured(links, dist)
    ensures var r := SnapAll(g, links, kind, recordPeople);
      && (forall e :: e in LinkEdges(links) ==> e in r.weight && r.weight[e] == dist(e.0, e.1))
      && (forall e :: e in g.weight && e !in LinkEdges(links) ==> e in r.weight && r.weight[e] == g.weight[e])
  {
    SnapAllEdges(g, links, kind, recordPeople);
    if links != [] {
      var init, l := links[..|links| - 1], links[|links| - 1];
      assert Measured(init, dist) by {
        forall i | 0 <= i < |init|
          ensures init[i].distance == dist(init[i].place.point, init[i].node)
        {
          assert init[i] == links[i];
        }
      }
      SnapAllWeights(g, init, kind, recordPeople, dist);
      SnapLinkFacts(SnapAll(g, init, kind, recordPeople), l, kind, recordPeople);
      assert l.distance == dist(l.place.point, l.node);
    }
  }

  /**
   * Attributes after snapping: a node that is no place point keeps its
   * attributes (none, if the snap created it); a place point carries the
   * tag of the last place at that point.
   */
  lemma {:induction false} SnapAllAttrs(g: Graph, links: seq<Link>, kind: PlaceKind, recordPeople: bool)
    ensures var r := SnapAll(g, links, kind, recordPeople);
      && (forall c :: c in r.nodes && c !in PlacePoints(links) ==> r.nodes[c] == Base(g, c))
      && (forall c :: c in PlacePoints(links) ==>
            (c in r.nodes && r.nodes[c] == Tagged(Base(g, c), kind, LastAt(links, c), recordPeople)))
  {
    SnapAllNodes(g, links, kind, recordPeople);
    if links != [] {
      var init, l := links[..|links| - 1], links[|links| - 1];
      var p := l.place.point;
      var before := SnapAll(g, init, kind, recordPeople);
      var r := SnapLink(before, l, kind, recordPeople);
      assert SnapAll(g, links, kind, recordPeople) == r;
      assert PlacePoints(links) == PlacePoints(init) + {p};
      SnapAllAttrs(g, init, kind, recordPeople);
      SnapAllNodes(g, init, kind, recordPeople);
      SnapLinkFacts(before, l, kind, recordPeople);
      forall c | c in r.nodes && c !in PlacePoints(links)
        ensures r.nodes[c] == Base(g, c)
      {
        assert r.nodes[c] == Base(before, c);
      }
      forall c | c in PlacePoints(init) && c != p
        ensures r.nodes[c] == Tagged(Base(g, c), kind, LastAt(links, c), recordPeople)
      {
        assert r.nodes[c] == Base(before, c) == before.nodes[c];
      }
      assert r.nodes[p] == Tagged(Base(g, p), kind, LastAt(links, p), recordPeople) by {
        assert LastAt(links, p) == l.place;
        if !recordPeople && p in PlacePoints(init) {
          assert Base(before, p) == Tagged(Base(g, p), kind, LastAt(init, p), false);
        }
      }
    }
  }

  /** Links made from the nearest-node lookup are measured. */
  lemma LinksOfAreMeasured(places: seq<Place>, nodeCoords: seq<Coord>, dist: Distance)
    requires |nodeCoords| > 0
    ensures Measured(LinksOf(places, nodeCoords, dist), dist)
  {
  }

  lemma {:induction false} LinkEdgesMembers(links: seq<Link>, e: Edge)
    ensures e in LinkEdges(links) <==>
      exists i :: 0 <= i < |links| && (e == (links[i].node, links[i].place.point) || e == (links[i].place.point, links[i].node))
  {
    if links != [] {
      var init := links[..|links| - 1];
      LinkEdgesMembers(init, e);
      if e in LinkEdges(init) {
        var i :| 0 <= i < |init| && (e == (init[i].node, init[i].place.point) || e == (init[i].place.point, init[i].node));
        assert links[i] == init[i];
      }
      if exists i :: 0 <= i < |links| && (e == (links[i].node, links[i].place.point) || e == (links[i].place.point, links[i].node)) {
        var i :| 0 <= i < |links| && (e == (links[i].node, links[i].place.point) || e == (links[i].place.point, links[i].node));
        if i < |init| {
          assert init[i] == links[i];
        }
      }
    }
  }

  lemma {:induction false} PlacePointsMembers(links: seq<Link>, c: Coord)
    ensures c in PlacePoints(links) <==> exists i :: 0 <= i < |links| && links[i].place.point == c
  {
    if links != [] {
      var init := links[..|links| - 1];
      PlacePointsMembers(init, c);
      if c in PlacePoints(init) {
        var i :| 0 <= i < |init| && init[i].place.point == c;
        assert links[i] == init[i];
      }
      if exists i :: 0 <= i < |links| && links[i].place.point == c {
        var i :| 0 <= i < |links| && links[i].place.point == c;
        if i < |init| {
          assert init[i] == links[i];
        }
      }
    }
  }

  /** The last place at c is the place of a link at c that no later link shares its point with. */
  lemma {:induction false} LastAtIsLast(links: seq<Link>, i: nat)
    requires i < |links|
    requires forall j :: i < j < |links| ==> links[j].place.point != links[i].place.point
    ensures links[i].place.point in PlacePoints(links)
    ensures LastAt(links, links[i].place.point) == links[i].place
  {
    PlacePointsMembers(links, links[i].place.point);
    var init := links[..|links| - 1];
    if i < |init| {
      assert init[i] == links[i];
      forall j | i < j < |init|
        ensures init[j].place.point != init[i].place.point
      {
        assert init[j] == links[j];
      }
      LastAtIsLast(init, i);
    }
  }

  // ------------------------------------------------ what add_places_to_graph promises

  /**
   * Every place is linked to its nearest node, an element of the coordinate
   * list no farther than any other: both link edges are present and weigh
   * the snap distance.
   */
  lemma PlacesAreLinked(g: Graph, places: seq<Place>, nodeCoords: seq<Coord>, kind: PlaceKind, dist: Distance,
                        recordPeople: bool, i: nat)
    requires |nodeCoords| > 0 && IsDistance(dist)
    requires i < |places|
    ensures var r := SnapPlaces(g, places, nodeCoords, kind, dist, recordPeople);
      var nearest := FindNearestNode(places[i].point, nodeCoords, dist).value;
      var n, p := nearest.0, places[i].point;
      && n in nodeCoords
      && (forall c :: c in nodeCoords ==> dist(p, n) <= dist(p, c))
      && (n, p) in r.weight && (p, n) in r.weight
      && r.weight[(n, p)] == nearest.1 == r.weight[(p, n)]
  {
    var links := LinksOf(places, nodeCoords, dist);
    LinksOfAreMeasured(places, nodeCoords, dist);
    SnapAllWeights(g, links, kind, recordPeople, dist);
    LinkEdgesMembers(links, (links[i].node, links[i].place.point));
    LinkEdgesMembers(links, (links[i].place.point, links[i].node));
  }

  /** The edges after snapping are exactly the old ones and the place links. */
  lemma SnapPlacesEdges(g: Graph, places: seq<Place>, nodeCoords: seq<Coord>, kind: PlaceKind, dist: Distance,
                        recordPeople: bool, e: Edge)
    requires |nodeCoords| > 0
    ensures e in SnapPlaces(g, places, nodeCoords, kind, dist, recordPeople).weight <==>
      e in g.weight ||
      exists i :: 0 <= i < |places| &&
        var n := FindNearestNode(places[i].point, nodeCoords, dist).value.0;
        e == (n, places[i].point) || e == (places[i].point, n)
  {
    var links := LinksOf(places, nodeCoords, dist);
    SnapAllEdges(g, links, kind, recordPeople);
    LinkEdgesMembers(links, e);
    forall i | 0 <= i < |places|
      ensures links[i] == Link(places[i], FindNearestNode(places[i].point, nodeCoords, dist).value.0,
                               FindNearestNode(places[i].point, nodeCoords, dist).value.1)
    {
    }
  }

  /** Snapping keeps every edge weighing the distance between its end points. */
  lemma SnapKeepsDistanceWeights(g: Graph, places: seq<Place>, nodeCoords: seq<Coord>, kind: PlaceKind,
                                 dist: Distance, recordPeople: bool)
    requires |nodeCoords| > 0 && IsDistance(dist)
    requires WeightsAreDistances(g, dist)
    ensures WeightsAreDistances(SnapPlaces(g, places, nodeCoords, kind, dist, recordPeople), dist)
  {
    var links := LinksOf(places, nodeCoords, dist);
    LinksOfAreMeasured(places, nodeCoords, dist);
    SnapAllEdges(g, links, kind, recordPeople);
    SnapAllWeights(g, links, kind, recordPeople, dist);
  }

  /**
   * The tags after snapping: every place point has the place type; with
   * `recordPeople` it holds the count of the last place at that point;
   * without it no node's count changes; a node that is no place point keeps
   * its attributes.
   */
  lemma SnapPlacesTags(g: Graph, places: seq<Place>, nodeCoords: seq<Coord>, kind: PlaceKind, dist: Distance,
                       recordPeople: bool, i: nat)
    requires |nodeCoords| > 0
    requires i < |places|
    requires forall j :: i < j < |places| ==> places[j].point != places[i].point
    ensures var r := SnapPlaces(g, places, nodeCoords, kind, dist, recordPeople);
      && places[i].point in r.nodes
      && r.nodes[places[i].point].kind == Some(kind)
      && (recordPeople ==> r.nodes[places[i].point].totalPeople == Some(PeopleOf(kind, places[i])))
      && (!recordPeople ==> r.nodes[places[i].point].totalPeople == Base(g, places[i].point).totalPeople)
  {
    var links := LinksOf(places, nodeCoords, dist);
    SnapAllAttrs(g, links, kind, recordPeople);
    LastAtIsLast(links, i);
  }

  /** Snapping changes the attributes of no node other than the place points. */
  lemma SnapPlacesKeepsOtherNodes(g: Graph, places: seq<Place>, nodeCoords: seq<Coord>, kind: PlaceKind,
                                  dist: Distance, recordPeople: bool, c: Coord)
    requires |nodeCoords| > 0
    requires forall i :: 0 <= i < |places| ==> places[i].point != c
    ensures var r := SnapPlaces(g, places, nodeCoords, kind, dist, recordPeople);
      c in g.nodes ==> c in r.nodes && r.nodes[c] == g.nodes[c]
  {
    var links := LinksOf(places, nodeCoords, dist);
    SnapAllAttrs(g, links, kind, recordPeople);
    SnapAllNodes(g, links, kind, recordPeople);
    PlacePointsMembers(links, c);
  }

  /** Every place becomes a node, and every node stays one. */
  lemma SnapPlacesNodes(g: Graph, places: seq<Place>, nodeCoords: seq<Coord>, kind: PlaceKind, dist: Distance,
                        recordPeople: bool)
    requires |nodeCoords| > 0
    ensures var r := SnapPlaces(g, places, nodeCoords, kind, dist, recordPeople);
      && g.nodes.Keys <= r.nodes.Keys
      && forall i :: 0 <= i < |places| ==> places[i].point in r.nodes
  {
    var links := LinksOf(places, nodeCoords, dist);
    SnapAllNodes(g, links, kind, recordPeople);
    forall i | 0 <= i < |places|
      ensures places[i].point in PlacePoints(links)
    {
      PlacePointsMembers(links, places[i].point);
      assert links[i].place == places[i];
    }
  }

  /** Houses and then stops snapped onto the same street nodes, as both runs do. */
  function SnapHousesAndStops(g: Graph, houses: seq<Place>, stops: seq<Place>, nodeCoords: seq<Coord>,
                              dist: Distance, recordPeople: bool): Graph
    requires |nodeCoords| > 0
  {
    SnapPlaces(SnapPlaces(g, houses, nodeCoords, House, dist, recordPeople), stops, nodeCoords, BusStop, dist, recordPeople)
  }

  /**
   * Snapping both kinds keeps distance weights, so a Dijkstra finder is a
   * shortest-path router on the result, and every house and stop is a node of it.
   */
  lemma SnapHousesAndStopsFacts(g: Graph, houses: seq<Place>, stops: seq<Place>, nodeCoords: seq<Coord>,
                                dist: Distance, recordPeople: bool, sp: PathFinder)
    requires |nodeCoords| > 0 && IsDistance(dist) && WeightsAreDistances(g, dist) && IsShortestPathFinder(sp)
    ensures var r := SnapHousesAndStops(g, houses, stops, nodeCoords, dist, recordPeople);
      && WeightsAreDistances(r, dist)
      && IsShortestPathRouter(r, sp)
      && g.nodes.Keys <= r.nodes.Keys
      && (forall i :: 0 <= i < |houses| ==> houses[i].point in r.nodes)
      && (forall j :: 0 <= j < |stops| ==> stops[j].point in r.nodes)
  {
    var withHouses := SnapPlaces(g, houses, nodeCoords, House, dist, recordPeople);
    SnapKeepsDistanceWeights(g, houses, nodeCoords, House, dist, recordPeople);
    SnapKeepsDistanceWeights(withHouses, stops, nodeCoords, BusStop, dist, recordPeople);
    SnapPlacesNodes(g, houses, nodeCoords, House, dist, recordPeople);
    SnapPlacesNodes(withHouses, stops, nodeCoords, BusStop, dist, recordPeople);
    DistanceWeightsAreNonNegative(SnapHousesAndStops(g, houses, stops, nodeCoords, dist, recordPeople), dist);
  }

  /**
   * `add_places_to_graph`: snaps the places in order onto the nodes of the
   * coordinate list the tree was built from; the list is not extended by
   * the places added.
   */
  method AddPlacesToGraph(places: seq<Place>, g: DiGraph, nodeCoords: seq<Coord>, kind: PlaceKind,
                          dist: Distance, recordPeople: bool)
    requires |nodeCoords| > 0
    modifies g
    ensures g.Value() == SnapPlaces(old(g.Value()), places, nodeCoords, kind, dist, recordPeople)
  {
    ghost var links := LinksOf(places, nodeCoords, dist);
    var i := 0;
    while i < |places|
      invariant 0 <= i <= |places|
      invariant g.Value() == SnapAll(old(g.Value()), links[..i], kind, recordPeople)
    {
      ghost var before := g.Value();
      var place := places[i];
      var point := place.point;
      var nearest := FindNearestNode(point, nodeCoords, dist);
      var nearestNode, distance := nearest.value.0, nearest.value.1;
      assert links[i] == Link(place, nearestNode, distance);
      g.AddEdge(nearestNode, point, distance);
      g.AddEdge(point, nearestNode, distance);
      g.SetNodeAttrs(point, Tagged(g.nodes[point], kind, place, recordPeople));
      assert g.Value() == SnapLink(before, links[i], kind, recordPeople);
      assert links[..i + 1][..i] == links[..i];
      i := i + 1;
    }
    assert links[..|places|] == links;
  }
}

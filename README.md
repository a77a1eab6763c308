# Pedestrian flow on a street graph

This project models the pedestrian-flow core of the build-back analysis: the
street-graph pipeline of `street_graph.py`, run in the order of
`find_bad_places2.py`, and the earlier nearest-stop variant of
`data_process_new.py`.

The modelled steps:

- **Street graph.** Every street polyline becomes pairs of opposite directed
  edges between consecutive coordinates, each weighted by the segment's
  length (`create_graph`).
- **Snapping.** Every house centroid and stop point is linked in both
  directions to its nearest street node, and the place's own node is tagged
  with its kind and head count (`find_nearest_node`, `add_places_to_graph`).
- **Population.** Each house gets a synthetic head count: one clamped normal
  draw per apartment, with 5 apartments when the count is 0.
- **Routing.** Every house is routed to every stop, between their nearest
  street nodes (`assign_routes_to_population`).
- **Loads.** Each route's walking flow is added onto every edge of its path
  (`calculate_population_loads`, `compute_paths_and_loads`). The usage
  counter counts walks to each house's two nearest reachable stops
  (`cpu_shortest_path_usage`).
- **Congestion.** Loaded edges are made longer in one pass (`update_weights`).
- **Summary.** The report figures are computed (`summarize_traffic_data`).

## Modelling choices

- Coordinates are pairs of reals (`Geometry.Coord`).
- The Euclidean distance is a function parameter `dist`. Where a property
  needs it, it is required to be non-negative, symmetric and zero on the
  diagonal (`Geometry.IsDistance`).
- A networkx `DiGraph` is the class `Graphs.DiGraph`. It holds a node
  attribute map (`type`, `total_people`) and an edge weight map, which its
  methods update in place. `Graphs.Graph` is the same state as a value, and
  the specification functions work on it.
- The shortest-path search is a function parameter `sp`, which returns a
  path or `None`.
  - `SoundOn` says its answers are paths.
  - `IsShortestPathRouter` says it is also minimal, and answers `None` only
    for unreachable pairs.
  - `IsShortestPathFinder` says it is a router on every graph with
    non-negative weights, which is what Dijkstra guarantees.
- The KD-tree query returns the first node of least distance in the tree's
  coordinate list (`Snapping.NearestIndex`).
- `list(nodes)` of a set comes back in some order: `CreateGraph` returns a
  duplicate-free list of the node set, and later steps are stated relative
  to that list.
- The normal draws (`np.random.normal`) and the flows (`np.random.randint`)
  are parameters: a `Population.Sampler` per house, and a flow function
  for `compute_paths_and_loads`.
- Flows and loads are exact reals. Dictionaries are maps, and a sum over a
  dictionary does not depend on its iteration order.

On these points the model keeps the code's behaviour:

- **Rounding.** The occupant draw is truncated toward zero by `int(...)`
  and then clamped to 1..4.
- **Route endpoints.** Routes run between the nearest *street* nodes of
  house and stop; the snapped place nodes are not used as end points.
  They are keyed by that node pair, so a later house with the same nearest
  node overwrites an earlier house's entries.
- **Empty street graph.** With no street node, the nearest-neighbour tree
  cannot be built over the empty coordinate array, so the run fails before
  any place is snapped, whatever the houses and stops. The model returns
  `Err(NoStreetNodes)`.
- **No routes.** The system score divides by the number of routes: with no
  route the source raises `ZeroDivisionError`. The model returns
  `Err(DivisionByZero)`.
- **Score range.** The score subtracts a count of overloaded edges from a
  count of routes, so it can go below 0. `Summary.SystemScore` proves it is
  negative exactly when the overloaded edges outnumber the routes.
- **Radius units.** The 1.0 radius of the nearest-stop variant is in the
  coordinate units (degrees in EPSG:4326).

## Model

| member | source | states |
|---|---|---|
| Graphs.WithEdgeFacts | street_graph.py:21-22 | `add_edge` adds the missing end points without attributes, keeps the attributes of existing nodes, and sets the weight of exactly one edge |
| Graphs.DiGraph.constructor | street_graph.py:15 | a new `DiGraph` has no nodes and no edges |
| Graphs.DiGraph.AddEdge | street_graph.py:21-22 | the graph afterwards is the old one with the edge added or re-weighted |
| Graphs.DiGraph.SetNodeAttrs | street_graph.py:40-44 | only the given node's attributes change |
| Graphs.DiGraph.SetWeight | street_graph.py:72 | only the given edge's weight changes; the nodes are unchanged |
| Graphs.DistanceWeightsAreNonNegative | street_graph.py:20-22 | a graph weighted by distances has non-negative weights, so Dijkstra applies |
| Graphs.EdgeCountPositive | street_graph.py:61-63 | a path traverses an edge at least once iff some consecutive pair of it is that edge |
| GraphBuilder.AddSegmentEdges | street_graph.py:21-22 | one segment adds exactly its two directed edges |
| GraphBuilder.AddSegmentNodes | street_graph.py:21-24 | one segment adds exactly its two end points, without attributes; other nodes keep theirs |
| GraphBuilder.AddSegmentWeights | street_graph.py:20-22 | both edges of a segment weigh its length, so distance weights are kept |
| GraphBuilder.AddSegmentsEdges | street_graph.py:19-22 | a line's first k segments add exactly the edges of those segments, in both directions |
| GraphBuilder.AddSegmentsNodes | street_graph.py:19-24 | a line's first k segments add exactly their end points, as nodes without attributes; other nodes keep theirs |
| GraphBuilder.AddSegmentsNodeKeys | street_graph.py:19-24 | a line's first k segments add exactly their end points as nodes |
| GraphBuilder.AddSegmentsAttrs | street_graph.py:19-24 | existing nodes keep their attributes, and new nodes have none |
| GraphBuilder.AddSegmentsWeights | street_graph.py:20-22 | every edge a line adds weighs its length |
| GraphBuilder.BuildGraphEdges | street_graph.py:14-25 | the edges are exactly the consecutive coordinate pairs of the lines, in both directions |
| GraphBuilder.BuildGraphNodes | street_graph.py:14-25 | the nodes are exactly the coordinates of lines with at least two points, with no attributes |
| GraphBuilder.BuildGraphWeights | street_graph.py:20-22 | every edge weighs the distance between its end points |
| GraphBuilder.BuildGraphFacts | street_graph.py:14-25 | edges, nodes, attributes and weights of the built graph together |
| GraphBuilder.SegmentsBecomeEdgePairs | street_graph.py:19-22 | for every segment (a, b) both a→b and b→a are edges, and both weigh dist(a, b) |
| GraphBuilder.ShortLineAddsNothing | street_graph.py:18-19 | a line with 0 or 1 coordinates leaves the graph unchanged |
| GraphBuilder.BuildGraphIsClosed | street_graph.py:14-25 | every edge joins two nodes of the graph |
| GraphBuilder.SetToSeq | street_graph.py:25 | `list(nodes)`: the list holds exactly the set's elements, each once |
| GraphBuilder.AddLine | street_graph.py:17-24 | the loop over one line's segments adds that line's segments to the graph, and the node set tracks the graph's nodes |
| GraphBuilder.CreateGraph | street_graph.py:14-25 | the `DiGraph` filled in the loop is the built graph, and the node list is exactly its nodes without duplicates |
| Snapping.NearestIndexFacts | street_graph.py:28-30 | the chosen index is in range, no element is nearer, and no earlier element is as near |
| Snapping.FindNearestNode | street_graph.py:28-30 | a node exists iff the list is non-empty; it is in the list, its distance is reported, and no node of the list is nearer |
| Snapping.SnapLinkFacts | street_graph.py:36-44 | one place adds its two link edges and its point, tags its point, and changes nothing else |
| Snapping.SnapAllEdges | street_graph.py:34-39 | snapping adds exactly the link edges of the places |
| Snapping.SnapAllNodes | street_graph.py:34-40 | snapping adds exactly the place points and their link nodes |
| Snapping.SnapAllWeights | street_graph.py:36-39 | link edges weigh their snap distance, and distance weights are kept |
| Snapping.SnapAllAttrs | street_graph.py:40-44 | a place point carries the tags of the last place at that point; every other node keeps its attributes |
| Snapping.LinksOfAreMeasured | street_graph.py:36 | each link's distance is the distance from the place to its nearest node |
| Snapping.LinkEdgesMembers | street_graph.py:38-39 | the link edges are exactly node→place and place→node for each place |
| Snapping.PlacePointsMembers | street_graph.py:37 | the place points are exactly the points of the places |
| Snapping.LastAtIsLast | street_graph.py:34-44 | the last place at a point is the one no later place shares the point with |
| Snapping.PlacesAreLinked | street_graph.py:33-39 | each place is linked both ways to a node of the list no farther than any other, with both edges weighing the snap distance |
| Snapping.SnapPlacesEdges | street_graph.py:33-39 | after snapping, an edge exists iff it existed before or links some place to its nearest node |
| Snapping.SnapKeepsDistanceWeights | street_graph.py:36-39 | snapping keeps every edge weighted by the distance between its end points |
| Snapping.SnapPlacesTags | street_graph.py:40-44 | a place's node gets `type` = the place kind; with `total_people` recorded, it is the house's head count or 0 for a stop, otherwise the count is unchanged |
| Snapping.SnapPlacesKeepsOtherNodes | street_graph.py:33-44 | nodes that are no place point keep their attributes |
| Snapping.SnapPlacesNodes | street_graph.py:37-40 | every place becomes a node and every node stays one |
| Snapping.SnapHousesAndStopsFacts | find_bad_places2.py:79-80 | after snapping houses and stops, weights are still distances, Dijkstra is a shortest-path router, and every house and stop is a node |
| Snapping.AddPlacesToGraph | street_graph.py:33-44 | the loop over the places leaves the `DiGraph` equal to the specified snap of the places |
| Population.Truncate | street_graph.py:128 | `int(x)` rounds toward zero, for both signs |
| Population.PeopleInApartment | street_graph.py:127-129 | always 1..4; the truncated draw when it is in 1..4, else the nearer bound |
| Population.SumPeople | street_graph.py:145 | n apartments hold between n and 4n people |
| Population.TotalPeopleInHouse | street_graph.py:132-146 | with a = 5 for a count of 0, else the truncated count: between a and 4a people when a > 0, none when a < 0 (an empty range) |
| Population.UniformDraws | street_graph.py:145 | when every draw truncates to k in 1..4, a house of n apartments holds exactly k·n people |
| Population.PopulateHouses | street_graph.py:149-160 | one non-negative total per house, each within its house's bounds |
| Routing.NearestNodesMembers | street_graph.py:180 | the list holds exactly the places' nearest nodes; each is in the tree's list and no farther from its place than any other node of it |
| Routing.StopRoutesFacts | street_graph.py:189-213 | one house's stop loop writes exactly the keys of stops whose node is in the graph and connected, with the finder's path and the house's flow |
| Routing.HouseRoutesKeys | street_graph.py:176-213 | a key is written iff its house node and stop node come from some house and stop, are both in the graph, and are connected; its path is the finder's path |
| Routing.HouseRoutesFlow | street_graph.py:187-209 | an entry's flow is that of the last house with that nearest node |
| Routing.RouteKeysAndPaths | street_graph.py:171-215 | an entry exists iff the pair is the nearest nodes of some house and some stop, both are in the graph, and the finder connects them; its path goes from the house node to the stop node |
| Routing.RoutesAreShortest | street_graph.py:196-213 | on a shortest-path router an unreachable pair is skipped and a reachable one recorded, with a path of least length |
| Routing.RouteFlowIsLastHouse | street_graph.py:187-209 | a repeated key keeps the flow `Total_People*0.51/60` of the last house writing it |
| Routing.AssignRoutesToPopulation | street_graph.py:171-215 | the nested loops fill the dictionary with exactly the specified routes |
| Loads.SumOverRemove | street_graph.py:279 | a sum over keys is the value at any one key plus the sum over the rest: the order does not matter |
| Loads.SumOverAgree | street_graph.py:279 | sums over maps that agree on the keys are equal |
| Loads.SumOverZeros | street_graph.py:267 | a sum of zeros is 0 |
| Loads.SumOverNonNegative | street_graph.py:279 | a sum of non-negative values is non-negative |
| Loads.SumAtLeast | street_graph.py:279 | a sum of non-negative values bounds each of them |
| Loads.LoadOnEmpty | street_graph.py:267 | with no routes every edge has load 0 |
| Loads.LoadOnAdd | street_graph.py:270-279 | a new route adds its flow times its traversals of the edge to the load |
| Loads.UnusedEdgeHasNoLoad | street_graph.py:267-279 | an edge no route traverses keeps load 0 |
| Loads.LoadCoversEachRoute | street_graph.py:275-279 | with non-negative flows an edge's load is at least each route's flow times its traversals |
| Loads.FlowAlongCounts | street_graph.py:275-279 | adding the flow once per step onto an edge gives flow times the edge's traversal count |
| Loads.FlowAlongIsContribution | street_graph.py:275-279 | over a whole path this is the route's contribution to the edge |
| Loads.AddPathLoad | street_graph.py:275-279 | the path loop adds the route's contribution to every edge and keeps the keys |
| Loads.CalculatePopulationLoads | street_graph.py:261-281 | the keys are exactly the graph's edges, and each load is the sum over routes of flow × traversals of that edge |
| Loads.PairRoutesAdd | street_graph.py:57-60 | a new pair adds its route iff the finder connects it, else changes nothing |
| Loads.AddPathFlow | street_graph.py:61-63 | the path loop adds the integer flow once per traversal to every edge |
| Loads.AddSourceLoads | street_graph.py:57-63 | one source's loop adds the loads of its connected targets |
| Loads.ComputePathsAndLoads | street_graph.py:48-65 | the keys are exactly the graph's edges, and each load is the sum over connected source/target pairs of the drawn flow × traversals |
| Loads.UsedEdgeCarriesDrawnFlow | street_graph.py:49-63 | with flows drawn from 800..999, an edge on some connected pair's path has load at least 800 |
| Usage.FirstMinIndex | street_graph.py:232 | the first candidate of least length |
| Usage.WithoutFacts | street_graph.py:232 | removing one candidate keeps the others, as a multiset |
| Usage.TwoShortest | street_graph.py:232 | `sorted(...)[:2]`: min(2, n) candidates taken from the list, shortest first, none longer than a candidate left out |
| Usage.TwoSmallest | street_graph.py:232 | the two chosen candidates are no longer than any other, in order |
| Usage.CandidatesAreReachableStops | street_graph.py:224-230 | `distances` holds exactly the reachable stops with their path lengths; unreachable stops are skipped |
| Usage.ChosenStopsAreNearest | street_graph.py:224-234 | at most two stops are chosen, all reachable, and no reachable stop left out is strictly nearer by path length |
| Usage.AddPathUsage | street_graph.py:236-237 | each traversal of an edge adds exactly 1, and only used edges appear |
| Usage.ReachableStops | street_graph.py:224-230 | the stop loop builds exactly the candidate list |
| Usage.AddHouseUsage | street_graph.py:234-237 | one house adds the traversal counts of its walks to its chosen stops |
| Usage.CpuShortestPathUsage | street_graph.py:217-239 | an edge is in the counter iff some walk traverses it, and its count is the number of traversals over all houses |
| Congestion.UpdateWeights | street_graph.py:68-72 | every loaded edge is scaled by 1 + 2·load/capacity, other weights and all nodes are unchanged |
| Congestion.UnloadedEdgeKeepsWeight | street_graph.py:68-72 | an edge without load, or with load 0, keeps its weight |
| Congestion.SecondPassCompounds | street_graph.py:68-72 | a second pass applies the factor again: weight × factor² |
| Congestion.NotIdempotent | street_graph.py:68-72 | a positive weight under a positive load changes on a second pass |
| Congestion.CongestionOnlyLengthens | street_graph.py:68-72 | non-negative loads on a positive capacity never shorten an edge and keep weights non-negative |
| Summary.SystemScore | street_graph.py:300-325 | at most 1; exactly 1 iff nothing is overloaded, 0 iff as many overloaded edges as routes, negative iff more |
| Summary.TotalFlowBoundsEachRoute | street_graph.py:305 | with non-negative flows the total bounds every route's flow |
| Summary.TotalPeople | street_graph.py:305 | the sum of the routes' flows |
| Summary.OverloadedEdgesCount | street_graph.py:308 | the number of edges with load above 800 |
| Summary.LongestOverloadedEdge | street_graph.py:311-317 | at least 0, no overloaded edge is longer, and it is 0 or the length of an overloaded edge |
| Summary.SummarizeTrafficData | street_graph.py:283-328 | an error iff there are no routes; otherwise it holds the stop count, total flow, overload count, longest overloaded edge and score |
| Pipeline.StopsSnapToStreetNodes | find_bad_places2.py:75-80 | a stop links to a street node nearest to it, never to a snapped house point that is not a street node |
| Pipeline.AllRoutesAreShortest | street_graph.py:196-209 | on a router every recorded route is a least-length path between its key's nodes |
| Pipeline.RunPipeline | find_bad_places2.py:72-89 | with no street node the run fails with `NoStreetNodes`; otherwise the routes, loads and final weights are those of the snapped graph, every route is a shortest path, the run fails iff there is no route, and the summary gives the stop count, total flow, overloaded-edge count, longest overloaded edge and score of those routes and loads |
| NearestStopVariant.NearStopsMembers | data_process_new.py:113-128 | a house is kept iff some stop lies within 1.0 of it; none is added |
| NearestStopVariant.NearStopsInOrder | data_process_new.py:113-128 | the kept houses are the input houses at strictly increasing positions, exactly the positions whose nearest stop lies within 1.0, so input order and repeats are kept |
| NearestStopVariant.FindBuildingsWithin1km | data_process_new.py:113-128 | an error iff there is a house but no stop; otherwise the houses whose nearest stop lies within 1.0, in order |
| NearestStopVariant.FindShortestPathsToBusStops | data_process_new.py:89-111 | every house is listed in order; each is keyed to the finder's answer towards its nearest stop; on a router that answer is a path iff the stop is reachable, and it is a shortest one |
| NearestStopVariant.SnappedVariantFacts | data_process_new.py:85-86 | on the snapped graph Dijkstra is a router, and every near house and every stop is a node |
| NearestStopVariant.NearestStopRoutes | data_process_new.py:52-144 | fails iff there is no street node or there are houses but no stop; otherwise the result lists the near houses, all stops and their shortest routes |

## Left out

- I/O is not modelled: shapefile loading and search, the house sample (`.sample(n=100)`), the session cache, the web endpoint, PDF and JSON output.
- Plotting is not modelled: `plot_heatmap`, `plot_street_usage`, colour maps and progress bars.
- CRS reprojection and the radius filter of `find_bad_places2.py` are left out; the model takes the already filtered tables.
- Centroids are not computed; the house point is an input, and stop geometries are taken to be points.
- Floating-point arithmetic is not modelled: `sqrt`, rounding and float equality of coordinate keys. Distances are the abstract `dist`, and flows, loads and weights are exact reals.
- The random draws are inputs, as samplers and flow functions; their distributions are not modelled.
- The networkx search and the cKDTree are specified, not implemented. Their tie-breaking between equally short paths and equally near nodes is left out; the model takes the first nearest node in list order.
- `NodeNotFound` for a source outside the graph is a precondition, not an error result.
- The `routes` keys of the nearest-stop variant are coordinates rather than their `"x,y"` text.
- `calculate_population` (street_graph.py:163-168) is left out; it is the unused twin of `add_population_column_to_houses`, which is modelled.
- Usage.TwoShortest: the contract does not fix the order among candidates of equal length (the stable sort keeps input order). It states a permutation-bounded choice of least lengths, sorted, instead.
- Snapping.NearestIndex and Snapping.FindNearestNode: cKDTree's choice among equally near nodes is unspecified; the model picks the first in list order.
- Pipeline.RunPipeline and NearestStopVariant.NearestStopRoutes: the failure kinds are not distinguished beyond the named errors. The `ValueError` of a tree built over no nodes is `NoStreetNodes`, and the `ValueError` of `min` over no stops is `NoBusStops`.
- Loads.CalculatePopulationLoads, Congestion.UpdateWeights and NearestStopVariant.FindShortestPathsToBusStops: three source exceptions are preconditions, not error results, since every caller in the pipelines meets them. They are the `KeyError` for a path edge or loaded pair that is no graph edge, the `ZeroDivisionError` of a capacity of 0, `NodeNotFound` for a house or stop outside the graph, and the `ValueError` of `min` over an empty stop dictionary when there is a house to route.

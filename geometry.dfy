/** Planar coordinates and the distance between them. */
module Geometry {

  /** A graph node is identified by its exact coordinate pair; there is no tolerance. */
  datatype Coord = Coord(x: real, y: real)

  /** A directed edge, from its first to its second coordinate. */
  type Edge = (Coord, Coord)

  /**
   * Euclidean distance is computed by geometry libraries in floating point
   * (`Point.distance`, the nearest-neighbour tree, `np.linalg.norm`); the model
   * takes it as a parameter and relies only on the laws below.
   */
  type Distance = (Coord, Coord) -> real

  ghost predicate IsDistance(dist: Distance) {
    && (forall a, b :: dist(a, b) >= 0.0)
    && (forall a, b :: dist(a, b) == dist(b, a))
    && (forall a :: dist(a, a) == 0.0)
  }
}

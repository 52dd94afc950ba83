/** The plain value types of TechnicalTest.Core.Models that the geometry works on. */
module Models {

  /** A point of the plane; Y grows downwards, so row A is at the top. */
  datatype Coordinate = Coordinate(x: int, y: int)

  /** A square grid whose cells have side `size`. */
  datatype Grid = Grid(size: int)

  /** An ordered list of vertices. */
  datatype Shape = Shape(coordinates: seq<Coordinate>)

  /** A shape with exactly three named vertices, in the order
      top-left, outer, bottom-right. */
  datatype Triangle = Triangle(topLeft: Coordinate, outer: Coordinate, bottomRight: Coordinate)
}

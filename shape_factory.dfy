/** `ShapeFactory`: routes a requested shape kind to the shape service.

    The factory holds an injected service it never changes; here that
    service is the pair of functions passed in, `process` for
    `ProcessTriangle` and `infer` for `ProcessGridValueFromTriangularShape`.
    A result that holds for every such function holds whatever the service
    does, in particular when the factory does not call it at all. */
module ShapeFactory {
  import opened Wrappers
  import opened Models
  import opened GridValues
  import ShapeService

  /** The shape kinds a request may name; only `Triangle` is supported. */
  datatype ShapeEnum = NoShape | TriangleShape | OtherShape

  /** `CalculateCoordinates`: the service's vertices for `TriangleShape`,
      None (null) for every other kind. */
  function CalculateCoordinates(process: (Grid, GridValue) --> Option<Shape>,
                                shapeEnum: ShapeEnum, grid: Grid, gridValue: GridValue): (r: Option<Shape>)
    requires shapeEnum == TriangleShape ==> process.requires(grid, gridValue)
    ensures shapeEnum != TriangleShape ==> r.None?
    ensures shapeEnum == TriangleShape ==> r == process(grid, gridValue)
  {
    match shapeEnum
    case TriangleShape => process(grid, gridValue)
    case _ => None
  }

  /** The triangle built from a shape's first three vertices, in order. */
  function AsTriangle(shape: Shape): Triangle
    requires |shape.coordinates| == 3
  {
    Triangle(shape.coordinates[0], shape.coordinates[1], shape.coordinates[2])
  }

  /** `CalculateGridValue`: for `TriangleShape` with exactly three vertices,
      the service's cell reference for the triangle (top-left, outer,
      bottom-right in the given order), returned unchanged; None (null) for
      any other kind or any other number of vertices. */
  function CalculateGridValue(infer: (Grid, Triangle) --> Option<GridValue>,
                              shapeEnum: ShapeEnum, grid: Grid, shape: Shape): (r: Option<GridValue>)
    requires shapeEnum == TriangleShape && |shape.coordinates| == 3 ==> infer.requires(grid, AsTriangle(shape))
    ensures shapeEnum != TriangleShape || |shape.coordinates| != 3 ==> r.None?
    ensures shapeEnum == TriangleShape && |shape.coordinates| == 3 ==>
      r == infer(grid, Triangle(shape.coordinates[0], shape.coordinates[1], shape.coordinates[2]))
  {
    match shapeEnum
    case TriangleShape =>
      if |shape.coordinates| != 3 then None
      else infer(grid, AsTriangle(shape))
    case _ => None
  }

  /** With the real service, a supported kind and a grid small enough to
      stay exact, the factory's two directions undo each other: the cell
      reference of the triangle computed for a cell is that cell. */
  lemma FactoryRoundTrip(grid: Grid, gridValue: GridValue)
    requires IsValid(gridValue) && 0 < grid.size && MaxRow * grid.size <= ShapeService.ExactBound
    ensures HasCharRow(gridValue)
    ensures var shape := CalculateCoordinates(ShapeService.ProcessTriangle, TriangleShape, grid, gridValue);
      shape.Some? && |shape.value.coordinates| == 3
      && ShapeService.IsExact(shape.value.coordinates[0])
      && ShapeService.IsExact(shape.value.coordinates[1])
      && ShapeService.IsExact(shape.value.coordinates[2])
      && CalculateGridValue(ShapeService.ProcessGridValueFromTriangularShape, TriangleShape, grid, shape.value)
         == Some(gridValue)
  {
    ShapeService.RoundTrip(grid, gridValue);
    var v := ShapeService.ProcessTriangle(grid, gridValue).value.coordinates;
    assert AsTriangle(Shape(v)) == Triangle(v[0], v[1], v[2]);
  }

  /** The end-to-end case of the source's unmocked test: with the real
      service and a grid size of 10, the triangle (0,0), (0,10), (10,10) is
      cell A1; and four vertices are refused whatever the service. */
  lemma FactoryExamples(infer: (Grid, Triangle) -> Option<GridValue>)
    ensures ShapeService.IsExact(Coordinate(0, 0)) && ShapeService.IsExact(Coordinate(0, 10))
      && ShapeService.IsExact(Coordinate(10, 10))
    ensures CalculateGridValue(ShapeService.ProcessGridValueFromTriangularShape, TriangleShape, Grid(10),
      Shape([Coordinate(0, 0), Coordinate(0, 10), Coordinate(10, 10)])) == Some(GridValue(Some("A"), 1))
    ensures CalculateGridValue(infer, TriangleShape, Grid(10),
      Shape([Coordinate(0, 0), Coordinate(0, 0), Coordinate(0, 0), Coordinate(10, 10)])).None?
    ensures CalculateGridValue(infer, OtherShape, Grid(10),
      Shape([Coordinate(0, 0), Coordinate(0, 0), Coordinate(10, 10)])).None?
  {
  }

  /** The controller's rejection test: a null result or a null Row
      (ShapeController.cs line 107). */
  predicate RejectedByController(r: Option<GridValue>) {
    r.None? || r.value.row.None?
  }

  /** A caller that treats None and a null Row alike as failure sees, from
      the real service, either failure or a fully valid cell reference. */
  lemma CalculateGridValueIsValidOrFailure(shapeEnum: ShapeEnum, grid: Grid, shape: Shape)
    requires |shape.coordinates| == 3
    requires ShapeService.IsExact(shape.coordinates[0]) && ShapeService.IsExact(shape.coordinates[1])
      && ShapeService.IsExact(shape.coordinates[2])
    ensures var r := CalculateGridValue(ShapeService.ProcessGridValueFromTriangularShape, shapeEnum, grid, shape);
      RejectedByController(r) || IsValid(r.value)
  {
  }
}

/** `ShapeService`: from a cell reference to the three vertices of its
    triangle, and back.

    Two columns share each square of side `Grid.size`: an odd column is the
    lower-left half of the square, an even column the upper-right half.

    The source measures sides with `Math.Sqrt(Math.Pow(dx, 2) + Math.Pow(dy, 2))`
    and compares the doubles exactly. Here a side is its squared length, an
    integer: it equals the grid size `g` exactly when `g >= 0` and the square
    is `g * g`, and it is zero exactly when the square is 0. The two agree
    when every coordinate is within `ExactBound` of 0 (`IsExact`): the
    squares are then below 2^53, so they, their sum and the correctly
    rounded square root are exact wherever the comparisons need them. */
module ShapeService {
  import opened Wrappers
  import opened Models
  import opened GridValues

  /** 2^19: coordinates within this bound make the double arithmetic exact. */
  const ExactBound := 0x8_0000

  /** The assumption under which the squared-integer sides model the
      source's double sides. */
  predicate IsExact(p: Coordinate) {
    -ExactBound <= p.x <= ExactBound && -ExactBound <= p.y <= ExactBound
  }

  function Abs(n: int): nat { if n < 0 then -n else n }

  /** C#'s integer `/`, which truncates toward zero. It is characterised by
      its remainder: `a - q * b` has the sign of `a` and is smaller than `b`
      in magnitude. */
  function TruncDiv(a: int, b: int): (q: int)
    requires b != 0
    ensures if a >= 0 then 0 <= q * b <= a else a <= q * b <= 0
    ensures Abs(a - q * b) < Abs(b)
  {
    var m := Abs(a) / Abs(b);
    DivisionBounds(Abs(a), Abs(b));
    if (a >= 0) == (b > 0) then
      SignedProduct(m, b);
      m
    else
      SignedProduct(-m, b);
      -m
  }

  /** Euclidean division on naturals leaves a remainder below the divisor. */
  lemma DivisionBounds(n: nat, d: nat)
    requires d > 0
    ensures (n / d) * d <= n < (n / d) * d + d
  {
  }

  /** A product with `b` is, up to sign, the product with `Abs(b)`. */
  lemma SignedProduct(k: int, b: int)
    ensures k * b == (if (k >= 0) == (b >= 0) then Abs(k) * Abs(b) else -(Abs(k) * Abs(b)))
  {
  }

  /** The square of the source's `Distance(p, q)`. */
  function SquaredDistance(p: Coordinate, q: Coordinate): (d: int)
    ensures d >= 0
    ensures d == 0 <==> p == q
  {
    var dx, dy := q.x - p.x, q.y - p.y;
    dx * dx + dy * dy
  }

  /** `IsEqual(Distance(..), gridSize)` on the squared side. */
  predicate SideEquals(squared: int, gridSize: int) {
    gridSize >= 0 && squared == gridSize * gridSize
  }

  /** `IsZero(Distance(..))` on the squared side. */
  predicate SideIsZero(squared: int) {
    squared == 0
  }

  /** `IsValidTriangle`: some two sides equal the grid size and the third
      is neither zero nor the grid size. This accepts more than right
      isosceles triangles: collinear points and other isosceles triangles
      pass as well. */
  predicate IsValidTriangle(gridSize: int, a: Coordinate, b: Coordinate, c: Coordinate)
    requires IsExact(a) && IsExact(b) && IsExact(c)
    ensures IsValidTriangle(gridSize, a, b, c) ==> gridSize > 0 && a != b && b != c && c != a
  {
    var ab, bc, ca := SquaredDistance(a, b), SquaredDistance(b, c), SquaredDistance(c, a);
    (SideEquals(ab, gridSize) && SideEquals(bc, gridSize) && !SideIsZero(ca) && !SideEquals(ca, gridSize))
    || (SideEquals(bc, gridSize) && SideEquals(ca, gridSize) && !SideIsZero(ab) && !SideEquals(ab, gridSize))
    || (SideEquals(ca, gridSize) && SideEquals(ab, gridSize) && !SideIsZero(bc) && !SideEquals(bc, gridSize))
  }

  /** `ProcessTriangle`: None (the source's null) for a grid size of 0 or
      less, or when the numeric row or the column is not positive, which
      covers the empty cell reference. Otherwise the vertices top-left,
      outer, bottom-right of the triangle in square ((column - 1) / 2,
      row - 1): bottom-right is top-left moved by the grid size on both
      axes, and the outer vertex is the lower-left corner for an odd column
      and the upper-right corner for an even one. */
  function ProcessTriangle(grid: Grid, gridValue: GridValue): (r: Option<Shape>)
    requires HasCharRow(gridValue)
    ensures r.None? <==> grid.size <= 0 || GetNumericRow(gridValue) <= 0 || gridValue.column <= 0
    ensures r.Some? ==>
      var v, s := r.value.coordinates, grid.size;
      |v| == 3
      && v[0] == Coordinate((gridValue.column - 1) / 2 * s, (GetNumericRow(gridValue) - 1) * s)
      && v[2] == Coordinate(v[0].x + s, v[0].y + s)
      && v[1] == (if gridValue.column % 2 == 1 then Coordinate(v[0].x, v[0].y + s)
                  else Coordinate(v[0].x + s, v[0].y))
  {
    if grid.size <= 0 then None
    else
      var numericRow := GetNumericRow(gridValue);
      if numericRow <= 0 || gridValue.column <= 0 then None
      else
        // the column is positive here, so Dafny's `/` and `%` agree with C#'s
        var size := grid.size;
        var x := ((gridValue.column - 1) / 2) * size;
        var y := (numericRow - 1) * size;
        var topLeft := Coordinate(x, y);
        var bottomRight := Coordinate(x + size, y + size);
        if gridValue.column % 2 == 1 then
          Some(Shape([topLeft, Coordinate(x, y + size), bottomRight]))
        else
          Some(Shape([topLeft, Coordinate(x + size, y), bottomRight]))
  }

  /** `ProcessGridValueFromTriangularShape`: None (null) for a grid size of 0
      or less or a triangle `IsValidTriangle` refuses. Otherwise the row is
      the truncated quotient of the top-left Y by the grid size, plus one;
      the column is twice the truncated quotient of the top-left X, plus 2
      when the outer vertex lies to the right of the top-left one and plus 1
      otherwise. The numeric constructor then turns an out-of-range row or
      column into the empty cell reference, which is not None. */
  function ProcessGridValueFromTriangularShape(grid: Grid, triangle: Triangle): (r: Option<GridValue>)
    requires IsExact(triangle.topLeft) && IsExact(triangle.outer) && IsExact(triangle.bottomRight)
    ensures r.None? <==>
      grid.size <= 0 || !IsValidTriangle(grid.size, triangle.topLeft, triangle.outer, triangle.bottomRight)
    ensures r.Some? ==> r.value == Empty || IsValid(r.value)
    ensures r.Some? ==>
      var row := TruncDiv(triangle.topLeft.y, grid.size) + 1;
      var column := TruncDiv(triangle.topLeft.x, grid.size) * 2
                    + (if triangle.outer.x > triangle.topLeft.x then 2 else 1);
      (IsValid(r.value) <==> 1 <= row <= MaxRow && 1 <= column <= MaxColumn)
      && (IsValid(r.value) ==> GetNumericRow(r.value) == row && r.value.column == column)
    ensures r.Some? && IsValid(r.value) ==>
      (r.value.column % 2 == 0 <==> triangle.outer.x > triangle.topLeft.x)
  {
    if grid.size <= 0 || !IsValidTriangle(grid.size, triangle.topLeft, triangle.outer, triangle.bottomRight) then
      None
    else
      var topLeftX, topLeftY := triangle.topLeft.x, triangle.topLeft.y;
      var calculatedRow := TruncDiv(topLeftY, grid.size) + 1;
      var initialColumn := TruncDiv(topLeftX, grid.size) * 2;
      var adjustedColumn := if triangle.outer.x > topLeftX then initialColumn + 2 else initialColumn + 1;
      Some(FromNumeric(calculatedRow, adjustedColumn))
  }

  /** On a multiple of the divisor, truncating division is exact. */
  lemma TruncDivOfMultiple(k: int, s: int)
    requires s > 0
    ensures TruncDiv(k * s, s) == k
  {
    var q := TruncDiv(k * s, s);
    assert k * s - q * s == (k - q) * s;
    SignedProduct(k - q, s);
  }

  /** C#'s `/` rounds toward zero where Dafny's rounds down: -5 / 10 is 0 in
      the source and -1 in Dafny. */
  lemma TruncDivRoundsTowardZero()
    ensures TruncDiv(-5, 10) == 0 && -5 / 10 == -1
    ensures TruncDiv(-15, 10) == -1 && -15 / 10 == -2
  {
  }

  /** `IsValidTriangle` does not depend on the order of its vertices. */
  lemma IsValidTrianglePermutations(g: int, a: Coordinate, b: Coordinate, c: Coordinate)
    requires IsExact(a) && IsExact(b) && IsExact(c)
    ensures IsValidTriangle(g, a, b, c) == IsValidTriangle(g, b, a, c)
    ensures IsValidTriangle(g, a, b, c) == IsValidTriangle(g, a, c, b)
    ensures IsValidTriangle(g, a, b, c) == IsValidTriangle(g, c, b, a)
    ensures IsValidTriangle(g, a, b, c) == IsValidTriangle(g, b, c, a)
    ensures IsValidTriangle(g, a, b, c) == IsValidTriangle(g, c, a, b)
  {
  }

  /** No grid size of 0 or less, and no two coinciding vertices, make a
      valid triangle. */
  lemma IsValidTriangleRejectsDegenerate(g: int, a: Coordinate, b: Coordinate, c: Coordinate)
    requires IsExact(a) && IsExact(b) && IsExact(c)
    requires g <= 0 || a == b || b == c || c == a
    ensures !IsValidTriangle(g, a, b, c)
  {
  }

  /** What `IsValidTriangle` accepts, side by side: exactly two squared sides
      are `g * g` and the third is another positive value; in particular
      the grid size is positive and the vertices are pairwise distinct. */
  lemma IsValidTriangleSides(g: int, a: Coordinate, b: Coordinate, c: Coordinate)
    requires IsExact(a) && IsExact(b) && IsExact(c)
    requires IsValidTriangle(g, a, b, c)
    ensures g > 0 && a != b && b != c && c != a
    ensures var ab, bc, ca := SquaredDistance(a, b), SquaredDistance(b, c), SquaredDistance(c, a);
      !(ab == g * g && bc == g * g && ca == g * g)
      && ((ab == g * g && bc == g * g) || (bc == g * g && ca == g * g) || (ca == g * g && ab == g * g))
  {
  }

  /** The check is weaker than "right isosceles": three collinear points and
      an isosceles triangle without a right angle both pass. */
  lemma IsValidTriangleAcceptsNonRightTriangles()
    ensures IsValidTriangle(10, Coordinate(0, 0), Coordinate(10, 0), Coordinate(20, 0))
    ensures IsValidTriangle(10, Coordinate(0, 0), Coordinate(10, 0), Coordinate(16, 8))
    ensures !IsValidTriangle(10, Coordinate(0, 0), Coordinate(0, 0), Coordinate(10, 10))
  {
  }

  /** Every triangle `ProcessTriangle` builds passes `IsValidTriangle`: its
      two legs have the grid size and its hypotenuse is the diagonal. */
  lemma ProcessTriangleIsValid(grid: Grid, gridValue: GridValue)
    requires HasCharRow(gridValue)
    requires ProcessTriangle(grid, gridValue).Some?
    requires var v := ProcessTriangle(grid, gridValue).value.coordinates;
      IsExact(v[0]) && IsExact(v[1]) && IsExact(v[2])
    ensures var v := ProcessTriangle(grid, gridValue).value.coordinates;
      IsValidTriangle(grid.size, v[0], v[1], v[2])
  {
    var v, s := ProcessTriangle(grid, gridValue).value.coordinates, grid.size;
    var p := v[0];
    SquaredDistanceOfOffset(p, s, s);
    if gridValue.column % 2 == 1 {
      SquaredDistanceOfOffset(p, 0, s);
      SquaredDistanceOfOffset(v[1], s, 0);
    } else {
      SquaredDistanceOfOffset(p, s, 0);
      SquaredDistanceOfOffset(v[1], 0, s);
    }
    LegsAndDiagonalAreValid(s, v[0], v[1], v[2]);
  }

  /** The squared distance between a point and that point moved by (dx, dy). */
  lemma SquaredDistanceOfOffset(p: Coordinate, dx: int, dy: int)
    ensures SquaredDistance(p, Coordinate(p.x + dx, p.y + dy)) == dx * dx + dy * dy
    ensures SquaredDistance(Coordinate(p.x + dx, p.y + dy), p) == dx * dx + dy * dy
  {
    assert (p.x - (p.x + dx)) * (p.x - (p.x + dx)) == dx * dx;
    assert (p.y - (p.y + dy)) * (p.y - (p.y + dy)) == dy * dy;
  }

  /** Two legs of length `g > 0` and a squared third side of `2 * g * g`
      make a valid triangle. */
  lemma LegsAndDiagonalAreValid(g: int, a: Coordinate, b: Coordinate, c: Coordinate)
    requires IsExact(a) && IsExact(b) && IsExact(c) && g > 0
    requires SquaredDistance(a, b) == g * g && SquaredDistance(b, c) == g * g
    requires SquaredDistance(c, a) == g * g + g * g
    ensures IsValidTriangle(g, a, b, c)
  {
    assert g * g > 0;
  }

  /** For a grid small enough that the six rows and twelve columns stay
      within `ExactBound`, the vertices of every cell obey `IsExact`. */
  lemma ProcessTriangleIsExact(grid: Grid, gridValue: GridValue)
    requires IsValid(gridValue) && 0 < grid.size && MaxRow * grid.size <= ExactBound
    ensures ProcessTriangle(grid, gridValue).Some?
    ensures var v := ProcessTriangle(grid, gridValue).value.coordinates;
      IsExact(v[0]) && IsExact(v[1]) && IsExact(v[2])
  {
    var s, n, col := grid.size, GetNumericRow(gridValue), gridValue.column;
    ScaledIndexInRange((col - 1) / 2, s);
    ScaledIndexInRange(n - 1, s);
  }

  lemma ScaledIndexInRange(i: int, s: int)
    requires 0 <= i < MaxRow && 0 < s
    ensures 0 <= i * s && i * s + s <= MaxRow * s
  {
    assert i * s + s == (i + 1) * s;
  }

  /** Round trip: reading back the vertices `ProcessTriangle` builds, in the
      order it returns them, gives the cell reference they came from. */
  lemma RoundTrip(grid: Grid, gridValue: GridValue)
    requires IsValid(gridValue) && 0 < grid.size && MaxRow * grid.size <= ExactBound
    ensures ProcessTriangle(grid, gridValue).Some?
    ensures var v := ProcessTriangle(grid, gridValue).value.coordinates;
      IsExact(v[0]) && IsExact(v[1]) && IsExact(v[2])
      && ProcessGridValueFromTriangularShape(grid, Triangle(v[0], v[1], v[2])) == Some(gridValue)
  {
    var s, n, col := grid.size, GetNumericRow(gridValue), gridValue.column;
    ProcessTriangleIsExact(grid, gridValue);
    ProcessTriangleIsValid(grid, gridValue);
    var v := ProcessTriangle(grid, gridValue).value.coordinates;
    var i := (col - 1) / 2;
    assert v[0] == Coordinate(i * s, (n - 1) * s);
    TruncDivOfMultiple(n - 1, s);
    TruncDivOfMultiple(i, s);
    assert (v[1].x > v[0].x) == (col % 2 == 0);
    assert (if col % 2 == 0 then i * 2 + 2 else i * 2 + 1) == col;
    FromNumericOfValid(gridValue);
  }

  /** Representative cases, with a grid size of 10. */
  lemma ShapeServiceExamples()
    ensures ProcessTriangle(Grid(10), GridValue(Some("A"), 1))
      == Some(Shape([Coordinate(0, 0), Coordinate(0, 10), Coordinate(10, 10)]))
    ensures ProcessTriangle(Grid(10), GridValue(Some("A"), 2))
      == Some(Shape([Coordinate(0, 0), Coordinate(10, 0), Coordinate(10, 10)]))
    ensures ProcessTriangle(Grid(0), GridValue(Some("A"), 1)).None?
    ensures ProcessTriangle(Grid(10), Empty).None?
    ensures ProcessGridValueFromTriangularShape(Grid(10),
      Triangle(Coordinate(0, 0), Coordinate(0, 10), Coordinate(10, 10))) == Some(GridValue(Some("A"), 1))
  {
  }

  /** Inference does not check that the triangle sits on the grid: a
      triangle straddling four squares, with its top-left vertex at
      (-5, -5), is read as A1 because the quotients truncate toward zero;
      three collinear points are read as A2; a valid triangle below row F
      gives the empty cell reference, not None. */
  lemma InferenceAcceptsOffGridTriangles()
    ensures ProcessGridValueFromTriangularShape(Grid(10),
      Triangle(Coordinate(-5, -5), Coordinate(-5, 5), Coordinate(5, 5))) == Some(GridValue(Some("A"), 1))
    ensures ProcessGridValueFromTriangularShape(Grid(10),
      Triangle(Coordinate(0, 0), Coordinate(10, 0), Coordinate(20, 0))) == Some(GridValue(Some("A"), 2))
    ensures ProcessGridValueFromTriangularShape(Grid(10),
      Triangle(Coordinate(0, 60), Coordinate(0, 70), Coordinate(10, 70))) == Some(Empty)
  {
  }
}

# Triangle grid cell references

A model of the core of TechnicalTest, a service that maps between a
spreadsheet-style cell reference (a row letter A–F and a column 1–12) and the
three integer vertices of the half-square triangle that cell names. Two
columns share each square of side `Grid.Size`: an odd column is the lower-left
half of the square, an even column the upper-right half (Y grows downwards).

- `models.dfy` (`Models`): the value types `Coordinate`, `Grid`, `Shape` and
  `Triangle`.
- `grid_value.dfy` (`GridValues`): the cell reference `GridValue`, its string
  constructor (`FromToken`), its numeric constructor (`FromNumeric`) and
  `GetNumericRow`. The source's object, whose constructors either assign both
  `Row` and `Column` or return early, becomes a datatype whose value `Empty`
  is the state an early return leaves (`Row` null, `Column` 0).
- `shape_service.dfy` (`ShapeService`): `ProcessTriangle` (cell to vertices),
  `ProcessGridValueFromTriangularShape` (vertices to cell) and
  `IsValidTriangle`, with C#'s truncating integer division as `TruncDiv`.
- `shape_factory.dfy` (`ShapeFactory`): the dispatcher. Its injected service
  is passed in as two functions, so the facts it states about unsupported
  kinds and wrong vertex counts hold whatever the service does.
- `wrappers.dfy` (`Wrappers`): `Option` for a C# reference that may be null,
  `Result` for a call that may throw.

The model follows the code as written, including four behaviours a reader
might not expect:

- The string constructor's length test (`Length < 2 && Length > 3`) can
  never be true, so tokens of any length pass it: "A012" is cell A12. (The
  comment above it, GridValue.cs line 7, says it was changed to let columns
  10 to 12 through.)
- A remainder that `int.Parse` refuses ("A", "Ax") throws; it does not give
  the empty state. `FromToken` returns `Failure` for it. A bad letter gives
  the empty state before the remainder is parsed, so "Gx" does not throw.
- Inference divides with C#'s `/`, which truncates toward zero, not with a
  floor. The triangle (-5,-5), (-5,5), (5,5) with grid size 10 is read as A1.
- `IsValidTriangle` asks only that two sides have the grid size and the third
  is neither zero nor the grid size. It accepts collinear points such as
  (0,0), (10,0), (20,0) and isosceles triangles without a right angle.
  Inference does not check that the triangle lies on the grid.

Side lengths are doubles in the source (`Math.Sqrt` of `Math.Pow` sums,
compared with `==`). The model compares squared lengths as integers: a side
equals the grid size `g` exactly when `g >= 0` and its square is `g * g`, and
it is zero exactly when its square is 0. Every function that compares side
lengths (`IsValidTriangle`, `ProcessGridValueFromTriangularShape`) requires
`IsExact` of its vertices, meaning each coordinate lies within
±2^19. Under that bound the squares stay below 2^53, so the double arithmetic
is exact wherever the comparisons depend on it, and the two readings agree.

## Model

| member | source | states |
|---|---|---|
| `GridValues.FromToken` | TechnicalTest.Core/Models/GridValue.cs:5-27 | An empty token, or a first letter that is not A–F once upper-cased, gives the empty state without parsing the rest. The result is a failure exactly when the letter is valid and `int.Parse` refuses the remainder, and it carries that exception. Otherwise the result is the empty state or a fully valid cell, never one field alone. A valid cell has the upper-cased letter as Row and the remainder's value as Column. |
| `GridValues.ParseInt` | TechnicalTest.Core/Models/GridValue.cs:18 | `int.Parse` on the remainder succeeds exactly for a non-empty decimal digit string whose value is at most int.MaxValue, and returns that value. An empty or non-digit string throws FormatException. Any other failure is an overflow. |
| `GridValues.FromNumeric` | TechnicalTest.Core/Models/GridValue.cs:30-45 | The result is a valid cell exactly when 1 ≤ row ≤ 6 and 1 ≤ column ≤ 12, and is the empty state otherwise. A valid result's numeric row is the given row and its column is the given column. |
| `GridValues.GetNumericRow` | TechnicalTest.Core/Models/GridValue.cs:51 | 0 when Row is null. For a valid cell, a number n in 1..6 whose letter (the n-th of "ABCDEF") is the Row. |
| `GridValues.FromNumericOfValid` | TechnicalTest.Core/Models/GridValue.cs:30-51 | The numeric constructor applied to a valid cell's numeric row and column rebuilds that cell, so `GetNumericRow` and the numeric constructor invert each other. |
| `GridValues.FromTokenAgreesWithFromNumeric` | TechnicalTest.Core/Models/GridValue.cs:11-45 | Take a letter A–F in either case, followed by a digit string of any length whose value is 1..12. The string constructor gives the same cell as the numeric constructor on the letter's index and that value. |
| `GridValues.DigitsValueLeadingZero` | TechnicalTest.Core/Models/GridValue.cs:18 | A leading zero leaves a digit string's value unchanged. |
| `GridValues.FromTokenLeadingZero` | TechnicalTest.Core/Models/GridValue.cs:8-25 | Inserting a zero between the letter and a non-empty digit string leaves the string constructor's outcome unchanged, so the dead length test rejects no longer token. (With nothing after the letter the outcomes differ: "A" throws, "A0" is the empty state.) |
| `GridValues.FromTokenExamples` | TechnicalTest.Core/Models/GridValue.cs:8-25 | "A1" is A1, "a5" is A5, "F12" is F12 and "A012" is A12. "G1", "A13" and "Gx" give the empty state. "A" and "Ax" throw FormatException. |
| `ShapeService.TruncDiv` | TechnicalTest.Core/Services/ShapeService.cs:71-72 | The C# quotient: `a - q*b` has the sign of `a` and is smaller than `b` in magnitude. This fixes `q` uniquely. |
| `ShapeService.TruncDivOfMultiple` | TechnicalTest.Core/Services/ShapeService.cs:71-72 | Dividing `k*s` by `s > 0` gives `k`. |
| `ShapeService.TruncDivRoundsTowardZero` | TechnicalTest.Core/Services/ShapeService.cs:71-72 | -5/10 is 0 and -15/10 is -1 in C#. Dafny's `/` gives -1 and -2. |
| `ShapeService.SquaredDistance` | TechnicalTest.Core/Services/ShapeService.cs:118-121 | The squared side length is never negative, and it is zero exactly when the two points coincide. |
| `ShapeService.IsValidTriangle` | TechnicalTest.Core/Services/ShapeService.cs:93-143 | The source's three-way disjunction over squared sides: some two sides equal the grid size (`SideEquals`: size ≥ 0 and squared side = size²) and the third is neither zero (`SideIsZero`: squared side 0) nor the grid size. An accepted triangle has a positive grid size and pairwise distinct vertices. |
| `ShapeService.IsValidTrianglePermutations` | TechnicalTest.Core/Services/ShapeService.cs:93-110 | `IsValidTriangle` gives the same answer for all six orders of its vertices. |
| `ShapeService.IsValidTriangleRejectsDegenerate` | TechnicalTest.Core/Services/ShapeService.cs:93-143 | A grid size of 0 or less, or two coinciding vertices, make `IsValidTriangle` false. |
| `ShapeService.IsValidTriangleSides` | TechnicalTest.Core/Services/ShapeService.cs:93-143 | When a triangle is accepted: the grid size is positive, the vertices are pairwise distinct, some two sides have the grid size, and the three sides are not all equal to it. |
| `ShapeService.IsValidTriangleAcceptsNonRightTriangles` | TechnicalTest.Core/Services/ShapeService.cs:93-110 | (0,0), (10,0), (20,0) and (0,0), (10,0), (16,8) pass with size 10. (0,0), (0,0), (10,10) does not. |
| `ShapeService.ProcessTriangle` | TechnicalTest.Core/Services/ShapeService.cs:14-48 | The result is null exactly when the grid size is 0 or less, or the numeric row or the column is 0 or less. Otherwise it is three vertices in order. Top-left is the corner of square ((column−1)/2, row−1). Bottom-right is top-left plus the grid size on both axes. The outer vertex is the lower-left corner for an odd column and the upper-right corner for an even one. |
| `ShapeService.ProcessTriangleIsValid` | TechnicalTest.Core/Services/ShapeService.cs:30-47 | Every triangle `ProcessTriangle` builds passes `IsValidTriangle`. |
| `ShapeService.ProcessTriangleIsExact` | TechnicalTest.Core/Services/ShapeService.cs:30-34 | For a valid cell and 0 < size ≤ 2^19/6, the vertices stay within the exactness bound. |
| `ShapeService.ProcessGridValueFromTriangularShape` | TechnicalTest.Core/Services/ShapeService.cs:58-78 | The result is null exactly when the grid size is 0 or less or `IsValidTriangle` refuses the triangle. Otherwise let row be the truncated quotient of top-left Y by the size, plus one, and column be twice the truncated quotient of top-left X, plus 2 when the outer vertex lies right of the top-left one and plus 1 otherwise. The result is a valid cell exactly when row is 1..6 and column 1..12, and that cell has this numeric row and this column. Out of range, the result is the empty state, not null. |
| `ShapeService.RoundTrip` | TechnicalTest.Core/Services/ShapeService.cs:30-77 | For a valid cell and a positive size within the bound, inference on the vertices `ProcessTriangle` returns (taken as top-left, outer, bottom-right) gives back the same cell. |
| `ShapeService.ShapeServiceExamples` | TechnicalTest.Core/Services/ShapeService.cs:14-78 | With size 10: A1 is (0,0), (0,10), (10,10) and A2 is (0,0), (10,0), (10,10). A size of 0 or the empty cell gives null. (0,0), (0,10), (10,10) is read back as A1. |
| `ShapeService.InferenceAcceptsOffGridTriangles` | TechnicalTest.Core/Services/ShapeService.cs:61-77 | With size 10: top-left (−5,−5) is read as A1, the collinear (0,0), (10,0), (20,0) as A2, and a valid triangle below row F as the empty cell, not null. |
| `ShapeFactory.CalculateCoordinates` | TechnicalTest.Core/Factories/ShapeFactory.cs:15-24 | For any service: null for every kind but Triangle, and exactly the service's `ProcessTriangle` result for Triangle. |
| `ShapeFactory.CalculateGridValue` | TechnicalTest.Core/Factories/ShapeFactory.cs:28-47 | For any service: null for every kind but Triangle, and null for any vertex count other than 3, whatever the coordinates. Otherwise the service's result for the triangle built as top-left = c[0], outer = c[1], bottom-right = c[2], returned unchanged. |
| `ShapeFactory.FactoryRoundTrip` | TechnicalTest.Core/Factories/ShapeFactory.cs:15-47 | With the real service, a valid cell and a positive size within the bound, `CalculateGridValue` on the coordinates from `CalculateCoordinates` gives back that cell. |
| `ShapeFactory.FactoryExamples` | TechnicalTest.Core.Tests/Factories/ShapeFactoryTests.cs:154-200 | With the real service, (0,0), (0,10), (10,10) and size 10 give Row "A", Column 1. For any service, four vertices give null, and so does a kind other than Triangle. |
| `ShapeFactory.CalculateGridValueIsValidOrFailure` | TechnicalTest.API/Controllers/ShapeController.cs:105-108 | With the real service, a caller that treats null and a null Row as failure sees either failure or a fully valid cell. |

## Left out

- The HTTP controller (routing, copying DTOs into lists, mapping to `BadRequest`/`Ok`), dependency injection, the service and factory interfaces and logging. They hold no logic of the core.
- ShapeService.IsValidTriangle: side lengths are squared integers, not doubles from `Math.Sqrt`/`Math.Pow`. The match with the source's exact double comparisons rests on the `IsExact` bound (coordinates within ±2^19), which every member that measures sides requires.
- ShapeService.ProcessTriangle: does not model 32-bit `int` wrap-around of `((Column - 1) / 2) * gridSize`, `(row-1) * size` or `x + size`. Integers are unbounded; the round-trip lemmas require `6 * size <= 2^19`, and there nothing overflows.
- ShapeService.ProcessGridValueFromTriangularShape: requires `IsExact` of the three vertices (see above); the source takes any `int` coordinates.
- GridValues.ParseInt: treats a sign or surrounding whitespace as FormatException. `int.Parse` accepts them ("A+5", "A 5"), and culture-specific formats are not modelled.
- GridValues.FromToken: a null token is not a separate input; the source sends it down the same branch as "". `ToUpper` is modelled on ASCII letters. For the A–F test this is exact, since no other character upper-cases into A–F.
- GridValues.GetNumericRow: requires Row to be null or one character, since `char.Parse` throws otherwise, and only a direct assignment to the `Row` setter can produce that. `char.ToUpper` is modelled on ASCII letters only.
- The public `Row`/`Column` setters: a `GridValue` datatype may hold any row string and any column, which stands for values set through them; there is no separate setter operation.
- Object identity: a `GridValue` is compared structurally here, while the source compares references.
- The Moq-based tests, whose expected values are stubbed (the "A2" expectation (0,0), (10,10), (10,10) is not what the service computes).

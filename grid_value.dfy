/** The spreadsheet-style cell reference `GridValue` (row letter A-F,
    column 1-12) and its two constructors.

    In the source a GridValue is an object whose constructors either assign
    both `Row` and `Column` or return early and leave the defaults
    (`Row == null`, `Column == 0`). Here it is a value: `Empty` is that
    default state, and a constructor that returns early yields `Empty`. */
module GridValues {
  import opened Wrappers

  /** The row letters, in order: row 1 is 'A', row 6 is 'F'. */
  const RowLetters: string := "ABCDEF"
  const MaxRow := 6
  const MaxColumn := 12
  /** `int.MaxValue`, the largest value `int.Parse` returns without throwing. */
  const Int32Max := 0x7fff_ffff

  /** `Row` is the C# `string?` property, `Column` the `int` property. */
  datatype GridValue = GridValue(row: Option<string>, column: int)

  /** The state a constructor leaves when it returns early. */
  const Empty := GridValue(None, 0)

  /** A fully assigned cell reference: one letter A-F and a column 1-12. */
  predicate IsValid(g: GridValue) {
    g.row.Some? && |g.row.value| == 1 && g.row.value[0] in RowLetters
    && 1 <= g.column <= MaxColumn
  }

  /** `char.Parse(Row)` succeeds: Row is null or exactly one character. */
  predicate HasCharRow(g: GridValue) {
    g.row.None? || |g.row.value| == 1
  }

  /** The two exceptions `int.Parse` throws on a string that is not null. */
  datatype ParseError = FormatException | OverflowException

  /** Upper-casing of one character, on the ASCII letters. */
  function UpperAscii(c: char): char {
    if 'a' <= c <= 'z' then (c as int - 32) as char else c
  }

  predicate IsDigit(c: char) { '0' <= c <= '9' }

  predicate AllDigits(s: string) {
    forall i :: 0 <= i < |s| ==> IsDigit(s[i])
  }

  /** The value of a decimal digit string, leading zeros allowed. */
  function DigitsValue(s: string): nat
    requires AllDigits(s)
  {
    if s == [] then 0 else DigitsValue(s[..|s| - 1]) * 10 + (s[|s| - 1] as int - '0' as int)
  }

  /** `int.Parse` on a decimal digit string: an empty or non-digit string
      throws FormatException, a value above int.MaxValue throws
      OverflowException. */
  function ParseInt(s: string): (r: Result<int, ParseError>)
    ensures r.Success? <==> |s| > 0 && AllDigits(s) && DigitsValue(s) <= Int32Max
    ensures r.Success? ==> 0 <= r.value <= Int32Max && r.value == DigitsValue(s)
    ensures r == Failure(FormatException) <==> |s| == 0 || !AllDigits(s)
  {
    if |s| == 0 || !AllDigits(s) then Failure(FormatException)
    else if DigitsValue(s) > Int32Max then Failure(OverflowException)
    else Success(DigitsValue(s))
  }

  /** `new GridValue(string)`. The length test of the source can never be
      true (a length below 2 and above 3), so it rejects nothing; the letter
      is checked before the remainder is parsed, and a remainder `int.Parse`
      refuses is an exception, not the empty state. */
  function FromToken(token: string): (r: Result<GridValue, ParseError>)
    ensures |token| == 0 ==> r == Success(Empty)
    ensures |token| > 0 && UpperAscii(token[0]) !in RowLetters ==> r == Success(Empty)
    ensures r.Failure? <==>
      |token| > 0 && UpperAscii(token[0]) in RowLetters && ParseInt(token[1..]).Failure?
    ensures r.Failure? ==> r.error == ParseInt(token[1..]).error
    ensures r.Success? ==> r.value == Empty || IsValid(r.value)
    ensures r.Success? && IsValid(r.value) ==>
      r.value.row == Some([UpperAscii(token[0])]) && r.value.column == DigitsValue(token[1..])
  {
    if |token| == 0 || (|token| < 2 && |token| > 3) then Success(Empty)
    else
      // `Substring(0, 1).ToUpper()`, then `"ABCDEF".Contains(row)` on that
      // one-character string
      var row := [UpperAscii(token[0])];
      if row[0] !in RowLetters then Success(Empty)
      else
        match ParseInt(token[1..])
        case Failure(e) => Failure(e)
        case Success(column) =>
          if column < 1 || column > MaxColumn then Success(Empty)
          else Success(GridValue(Some(row), column))
  }

  /** `GetNumericRow()`: 0 for a null Row, otherwise the upper-cased letter
      minus 64, so 'A' is 1 and 'F' is 6. */
  function GetNumericRow(g: GridValue): (n: int)
    requires HasCharRow(g)
    ensures g.row.None? ==> n == 0
    ensures IsValid(g) ==> 1 <= n <= MaxRow && RowLetters[n - 1] == g.row.value[0]
  {
    if g.row.None? then 0 else UpperAscii(g.row.value[0]) as int - 64
  }

  /** `new GridValue(int row, int column)`: a row outside 1..6 or a column
      outside 1..12 leaves the empty state; otherwise row `r` becomes the
      letter `'A' + r - 1`. */
  function FromNumeric(row: int, column: int): (g: GridValue)
    ensures IsValid(g) <==> 1 <= row <= MaxRow && 1 <= column <= MaxColumn
    ensures !IsValid(g) ==> g == Empty
    ensures IsValid(g) ==> GetNumericRow(g) == row && g.column == column
  {
    if row < 1 || row > MaxRow then Empty
    else if column < 1 || column > MaxColumn then Empty
    else
      var letter := (64 + row) as char;
      assert letter == RowLetters[row - 1];
      GridValue(Some([letter]), column)
  }

  /** Every fully assigned cell reference is what the numeric constructor
      builds from its numeric row and column. */
  lemma FromNumericOfValid(g: GridValue)
    requires IsValid(g)
    ensures FromNumeric(GetNumericRow(g), g.column) == g
  {
    var n := GetNumericRow(g);
    assert RowLetters[n - 1] == g.row.value[0];
    assert [g.row.value[0]] == g.row.value;
  }

  /** For a valid letter (in either case) followed by a digit string whose
      value is a column 1..12, the string constructor builds the same cell
      reference as the numeric constructor on the letter's index and that
      value, whatever the token's length. */
  lemma FromTokenAgreesWithFromNumeric(token: string)
    requires |token| >= 1 && UpperAscii(token[0]) in RowLetters
    requires AllDigits(token[1..]) && 1 <= DigitsValue(token[1..]) <= MaxColumn
    ensures FromToken(token) == Success(FromNumeric(UpperAscii(token[0]) as int - 64, DigitsValue(token[1..])))
  {
  }

  /** A leading zero does not change a digit string's value. */
  lemma {:induction false} DigitsValueLeadingZero(s: string)
    requires AllDigits(s)
    ensures AllDigits("0" + s) && DigitsValue("0" + s) == DigitsValue(s)
  {
    var t := "0" + s;
    if s != [] {
      assert t[..|t| - 1] == "0" + s[..|s| - 1];
      DigitsValueLeadingZero(s[..|s| - 1]);
    }
  }

  /** A zero between the letter and the column number changes nothing, so a
      token is never refused for being longer than three characters. */
  lemma FromTokenLeadingZero(letter: char, digits: string)
    requires |digits| > 0 && AllDigits(digits)
    ensures FromToken([letter] + "0" + digits) == FromToken([letter] + digits)
  {
    var long, short := [letter] + "0" + digits, [letter] + digits;
    assert long[1..] == "0" + digits;
    assert short[1..] == digits;
    DigitsValueLeadingZero(digits);
  }

  /** Representative tokens and their outcomes. */
  lemma FromTokenExamples()
    ensures FromToken("A1") == Success(GridValue(Some("A"), 1))
    ensures FromToken("G1") == Success(Empty)
    ensures FromToken("A13") == Success(Empty)
    ensures FromToken("a5") == Success(GridValue(Some("A"), 5))
    ensures FromToken("F12") == Success(GridValue(Some("F"), 12))
    ensures FromToken("A012") == Success(GridValue(Some("A"), 12))
    ensures FromToken("A") == Failure(FormatException)
    ensures FromToken("Ax") == Failure(FormatException)
    ensures FromToken("Gx") == Success(Empty)
  {
    assert "A1"[1..] == "1";
    assert "A13"[1..] == "13" && "13"[..1] == "1";
    assert "a5"[1..] == "5";
    assert "F12"[1..] == "12" && "12"[..1] == "1";
    assert "A012"[1..] == "012" && "012"[..2] == "01" && "01"[..1] == "0";
    assert "A"[1..] == "";
    assert "Ax"[1..] == "x" && !IsDigit("x"[0]);
  }
}

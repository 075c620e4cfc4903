/**
 * Formatting of the two display lines: getDisplayNumber,
 * getOperationSymbol, and what updateDisplay writes.
 */
module Display {
  import opened Wrappers
  import opened Numeric
  import Text
  import Machine

  /** getOperationSymbol: the glyph shown after the pending operand. */
  function OperationSymbol(op: Option<Op>): (r: string)
    ensures r == "" <==> op.None?
    ensures op.Some? ==> |r| == 1
  {
    match op
    case Some(Add) => "+"
    case Some(Subtract) => "-"
    case Some(Multiply) => "×"
    case Some(Divide) => "÷"
    case None => ""
  }

  /** Each operation has its own glyph. */
  lemma SymbolsDistinct(a: Op, b: Op)
    ensures OperationSymbol(Some(a)) == OperationSymbol(Some(b)) ==> a == b
  {
  }

  /** The display of the integer part: grouped when it parses, empty when it does not. */
  function IntegerDisplay(p: string, grouped: real -> string): (r: string)
    ensures (forall i :: 0 <= i < |p| ==> !IsDigit(p[i])) ==> r == ""
  {
    match ParseFloat(p)
    case Some(v) => grouped(v)
    case None => ""
  }

  /**
   * getDisplayNumber: the text before the first point, grouped, and the
   * text between the first and the second point, verbatim.
   */
  function GetDisplayNumber(number: string, grouped: real -> string): (r: string)
    ensures '.' in number ==> '.' in r
  {
    var parts := Text.Split(number, '.');
    var integerDisplay := IntegerDisplay(parts[0], grouped);
    Text.SplitCount(number, '.');
    if |parts| > 1 then
      assert (integerDisplay + "." + parts[1])[|integerDisplay|] == '.';
      integerDisplay + "." + parts[1]
    else integerDisplay
  }

  /** Without a point, only the integer display is shown. */
  lemma DisplayWithoutPoint(s: string, grouped: real -> string)
    requires '.' !in s
    ensures GetDisplayNumber(s, grouped) == IntegerDisplay(s, grouped)
  {
  }

  /** With one point, the integer display, the point, and the fraction digits verbatim. */
  lemma DisplayWithPoint(s: string, i: nat, grouped: real -> string)
    requires i < |s| && s[i] == '.' && '.' !in s[..i] && '.' !in s[i + 1..]
    ensures GetDisplayNumber(s, grouped) == IntegerDisplay(s[..i], grouped) + "." + s[i + 1..]
  {
    Text.IndexOfUnique(s, '.', i);
    assert Text.Split(s, '.') == [s[..i]] + Text.Split(s[i + 1..], '.');
    assert Text.Split(s[i + 1..], '.') == [s[i + 1..]];
  }

  /** With more points, the text after the second point is dropped. */
  lemma DisplayWithPoints(s: string, i: nat, j: nat, grouped: real -> string)
    requires i < j < |s| && s[i] == '.' && s[j] == '.'
    requires '.' !in s[..i] && '.' !in s[i + 1..j]
    ensures GetDisplayNumber(s, grouped) == IntegerDisplay(s[..i], grouped) + "." + s[i + 1..j]
  {
    Text.IndexOfUnique(s, '.', i);
    var rest := s[i + 1..];
    assert rest[..j - i - 1] == s[i + 1..j];
    Text.IndexOfUnique(rest, '.', j - i - 1);
    var tail := Text.Split(rest, '.');
    assert tail == [s[i + 1..j]] + Text.Split(rest[j - i..], '.');
    var parts := Text.Split(s, '.');
    assert parts == [s[..i]] + tail;
    assert |parts| > 1 && parts[0] == s[..i] && parts[1] == s[i + 1..j];
  }

  /** A digit run before the point is shown grouped by its integer value. */
  lemma IntegerDigitsDisplay(ds: string, grouped: real -> string)
    requires ds != [] && AllDigits(ds)
    ensures IntegerDisplay(ds, grouped) == grouped(IntValue(ds) as real)
  {
    ParseDigits(ds);
  }

  /** An operand without integer digits shows none: ".5" shows ".5", and "Error" shows nothing. */
  lemma DisplayUnparsedInteger(grouped: real -> string)
    ensures GetDisplayNumber(".5", grouped) == ".5"
    ensures GetDisplayNumber(".", grouped) == "."
    ensures GetDisplayNumber("Error", grouped) == ""
  {
    ParseNoDigits();
    DisplayWithPoint(".5", 0, grouped);
    DisplayWithPoint(".", 0, grouped);
    assert ".5"[..0] == "" && ".5"[1..] == "5";
    assert "."[..0] == "" && "."[1..] == "";
  }

  /** The text content of the previous-operand and current-operand elements. */
  datatype Lines = Lines(previousLine: string, currentLine: string)

  /**
   * updateDisplay: in the error state only the current line changes;
   * otherwise the current line shows the formatted operand and the
   * previous line shows the pending operand and its glyph, or nothing.
   */
  function Render(s: Machine.State, shown: Lines, grouped: real -> string): (r: Lines)
    ensures s.currentOperand == "Error" ==> r == Lines(shown.previousLine, "Error")
    ensures s.currentOperand != "Error" ==>
      r.currentLine == GetDisplayNumber(s.currentOperand, grouped) &&
      (r.previousLine == "" <==> s.operation.None?)
  {
    if s.currentOperand == "Error" then Lines(shown.previousLine, "Error")
    else
      var previousLine :=
        if s.operation.Some? then GetDisplayNumber(s.previousOperand, grouped) + " " + OperationSymbol(s.operation)
        else "";
      Lines(previousLine, GetDisplayNumber(s.currentOperand, grouped))
  }

  /** With an operation pending, the previous line ends in a space and that operation's glyph. */
  lemma PreviousLineShowsOperation(s: Machine.State, shown: Lines, grouped: real -> string)
    requires s.currentOperand != "Error" && s.operation.Some?
    ensures var line := Render(s, shown, grouped).previousLine;
      var sym := OperationSymbol(s.operation);
      |line| >= 2 && line[|line| - 1..] == sym && line[|line| - 2] == ' ' &&
      line[..|line| - 2] == GetDisplayNumber(s.previousOperand, grouped)
  {
    var d := GetDisplayNumber(s.previousOperand, grouped);
    var line := d + " " + OperationSymbol(s.operation);
    assert line[..|line| - 2] == d;
  }
}

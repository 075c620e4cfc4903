/**
 * The calculator's four fields as a value, and each operation of the
 * `Calculator` class as a function from the state before to the state
 * after.  The class in module App is proved against these functions; the
 * properties of the calculator are proved here, about them.
 */
module Machine {
  import opened Wrappers
  import opened Numeric
  import Text

  /** `currentOperand`, `previousOperand` (`""`: nothing pending), `operation`, `shouldResetScreen`. */
  datatype State = State(
    currentOperand: string,
    previousOperand: string,
    operation: Option<Op>,
    shouldResetScreen: bool)

  /** The values the constructor gives the four fields. */
  const Initial: State := State("0", "", None, false)

  /** One key of digit entry: a digit or the point. */
  predicate IsToken(t: string) { |t| == 1 && (IsDigit(t[0]) || t[0] == '.') }

  /** How appendNumber edits an operand `cur` that is being typed. */
  function Extend(cur: string, number: string): string
  {
    if number == "." && '.' in cur then cur
    else if number == "0" && cur == "0" then cur
    else if number != "." && cur == "0" then number
    else cur + number
  }

  /** appendNumber: a pending reset empties the operand first. */
  function AppendNumber(s: State, number: string): (r: State)
    ensures !r.shouldResetScreen
    ensures number != "" ==> r.currentOperand != ""
    ensures r.previousOperand == s.previousOperand && r.operation == s.operation
  {
    var cur := if s.shouldResetScreen then "" else s.currentOperand;
    State(Extend(cur, number), s.previousOperand, s.operation, false)
  }

  /** compute: fold the pending operation into the current operand. */
  function Compute(s: State, lib: FloatLib): (r: State)
    ensures r != s ==> s.operation.Some? && r.previousOperand == "" && r.operation.None? && r.shouldResetScreen
  {
    var prev := ParseFloat(s.previousOperand);
    var current := ParseFloat(s.currentOperand);
    if prev.None? || current.None? || s.operation.None? then s
    else if s.operation.value == Divide && current.value == 0.0 then State("Error", "", None, true)
    else State(lib.Apply(s.operation.value, prev.value, current.value), "", None, true)
  }

  /** chooseOperation: a pending operation is computed first. */
  function ChooseOperation(s: State, op: Op, lib: FloatLib): (r: State)
    ensures s.currentOperand == "" ==> r == s
    ensures s.currentOperand != "" ==>
      r.operation == Some(op) && r.shouldResetScreen && r.previousOperand == r.currentOperand
    ensures s.currentOperand != "" && s.previousOperand == "" ==> r.currentOperand == s.currentOperand
  {
    if s.currentOperand == "" then s
    else
      var t := if s.previousOperand != "" then Compute(s, lib) else s;
      State(t.currentOperand, t.currentOperand, Some(op), true)
  }

  /** JavaScript's `s.slice(0, -1)`. */
  function DropLast(s: string): string
  {
    if s == [] then [] else s[..|s| - 1]
  }

  /** delete: back-space over the operand being typed. */
  function Delete(s: State): (r: State)
    ensures r.previousOperand == s.previousOperand && r.operation == s.operation
    ensures r.shouldResetScreen == s.shouldResetScreen
    ensures !s.shouldResetScreen ==> r.currentOperand != ""
    ensures !s.shouldResetScreen && |s.currentOperand| > 1 ==>
      s.currentOperand == r.currentOperand + [s.currentOperand[|s.currentOperand| - 1]]
  {
    if s.shouldResetScreen then s
    else
      var d := DropLast(s.currentOperand);
      State(if d == "" then "0" else d, s.previousOperand, s.operation, s.shouldResetScreen)
  }

  /** clear: back to the state the constructor sets up, whatever came before. */
  function Clear(s: State): (r: State)
    ensures Inv(r)
    ensures r.currentOperand == "0" && r.previousOperand == "" && r.operation.None? && !r.shouldResetScreen
  {
    Initial
  }

  // ---------------------------------------------------------------- appendNumber

  /** A second point is refused, so an operand never holds two. */
  lemma AppendKeepsOnePoint(s: State, number: string)
    requires IsToken(number)
    requires !s.shouldResetScreen ==> Text.Count(s.currentOperand, '.') <= 1
    ensures Text.Count(AppendNumber(s, number).currentOperand, '.') <= 1
    ensures !s.shouldResetScreen && '.' in s.currentOperand ==>
              AppendNumber(s, ".").currentOperand == s.currentOperand
  {
    var cur := if s.shouldResetScreen then "" else s.currentOperand;
    Text.CountConcat(cur, number, '.');
  }

  /** On the operand "0": another 0 changes nothing, another digit replaces it, a point extends it. */
  lemma AppendOnZero(s: State, number: string)
    requires !s.shouldResetScreen && s.currentOperand == "0" && IsToken(number)
    ensures number == "0" ==> AppendNumber(s, number) == s
    ensures number != "." ==> AppendNumber(s, number).currentOperand == number
    ensures number == "." ==> AppendNumber(s, number).currentOperand == "0."
  {
  }

  /** Apart from those cases the key is appended exactly. */
  lemma AppendOtherwise(s: State, number: string)
    requires !s.shouldResetScreen && s.currentOperand != "0"
    requires !(number == "." && '.' in s.currentOperand)
    ensures AppendNumber(s, number).currentOperand == s.currentOperand + number
  {
  }

  /** After a result or an operator the key starts a new operand; a point alone gives ".", not "0.". */
  lemma AppendAfterReset(s: State, number: string)
    requires s.shouldResetScreen && IsToken(number)
    ensures AppendNumber(s, number).currentOperand == number
  {
  }

  /** The division error is left by typing a digit, not only by clear. */
  lemma DigitLeavesError(s: State, number: string)
    requires s == State("Error", "", None, true) && IsToken(number)
    ensures AppendNumber(s, number) == State(number, "", None, false)
  {
  }

  /** Appending keys one after another. */
  function AppendAll(s: State, ts: seq<string>): State
    decreases |ts|
  {
    if ts == [] then s else AppendAll(AppendNumber(s, ts[0]), ts[1..])
  }

  function Concat(ts: seq<string>): string
  {
    if ts == [] then "" else ts[0] + Concat(ts[1..])
  }

  function StripLeadingZeros(t: string): (r: string)
    ensures r != [] ==> r[0] != '0'
  {
    if t != [] && t[0] == '0' then StripLeadingZeros(t[1..]) else t
  }

  /** The operand that typing the keys of `t` shows: leading zeros collapsed, a point after a "0". */
  function Normalized(t: string): string
  {
    var u := StripLeadingZeros(t);
    if u == [] then "0" else if u[0] == '.' then "0" + u else u
  }

  lemma {:induction false} StripKeepsPoint(t: string)
    ensures '.' in StripLeadingZeros(t) ==> '.' in t
  {
    if t != [] && t[0] == '0' {
      StripKeepsPoint(t[1..]);
    }
  }

  lemma {:induction false} StripLeadingZerosSnoc(c: string, x: char)
    ensures StripLeadingZeros(c + [x]) ==
              if StripLeadingZeros(c) == [] then StripLeadingZeros([x]) else StripLeadingZeros(c) + [x]
  {
    if c != [] {
      assert (c + [x])[1..] == c[1..] + [x];
      StripLeadingZerosSnoc(c[1..], x);
    } else {
      assert c + [x] == [x];
    }
  }

  /** Case of ExtendNormalized: nothing but zeros typed so far. */
  lemma ExtendOnlyZeros(c: string, x: char)
    requires IsDigit(x) || x == '.'
    requires StripLeadingZeros(c) == []
    ensures Extend(Normalized(c), [x]) == Normalized(c + [x])
  {
    StripLeadingZerosSnoc(c, x);
    assert Normalized(c) == "0";
    if x == '0' {
      assert StripLeadingZeros([x]) == StripLeadingZeros([]);
      assert Normalized(c + [x]) == "0";
    } else {
      assert StripLeadingZeros([x]) == [x];
      assert [x] != "0";
      if x == '.' {
        assert Normalized(c + [x]) == "0.";
        assert [x] == ".";
      } else {
        assert Normalized(c + [x]) == [x];
        assert [x] != ".";
      }
    }
  }

  /** Case of ExtendNormalized: a significant character typed so far. */
  lemma ExtendSignificant(c: string, x: char)
    requires IsDigit(x) || x == '.'
    requires x == '.' ==> '.' !in c
    requires StripLeadingZeros(c) != []
    ensures Extend(Normalized(c), [x]) == Normalized(c + [x])
  {
    StripLeadingZerosSnoc(c, x);
    var u := StripLeadingZeros(c);
    var n := Normalized(c);
    assert StripLeadingZeros(c + [x]) == u + [x];
    if '.' in u {
      StripKeepsPoint(c);
      assert [x] != ".";
    }
    if u[0] == '.' {
      assert n == "0" + u;
      assert n != "0";
      assert Normalized(c + [x]) == n + [x];
    } else {
      assert n == u;
      assert n != "0";
      assert Normalized(c + [x]) == n + [x];
    }
  }

  /** One key, on the normalized form of what was typed so far, gives the normalized form of the whole. */
  lemma ExtendNormalized(c: string, number: string)
    requires IsToken(number)
    requires number == "." ==> '.' !in c
    ensures Extend(Normalized(c), number) == Normalized(c + number)
  {
    var x := number[0];
    assert number == [x];
    if StripLeadingZeros(c) == [] {
      ExtendOnlyZeros(c, x);
    } else {
      ExtendSignificant(c, x);
    }
  }

  /**
   * Typing any keys with at most one point from a state showing the
   * normalized form of `c` shows the normalized form of `c` followed by
   * the keys.
   */
  lemma {:induction false} AppendAllNormalized(s: State, c: string, ts: seq<string>)
    requires !s.shouldResetScreen && s.currentOperand == Normalized(c)
    requires forall i :: 0 <= i < |ts| ==> IsToken(ts[i])
    requires Text.Count(c + Concat(ts), '.') <= 1
    ensures !AppendAll(s, ts).shouldResetScreen
    ensures AppendAll(s, ts).currentOperand == Normalized(c + Concat(ts))
    decreases |ts|
  {
    if ts != [] {
      var c' := c + ts[0];
      assert c + Concat(ts) == c' + Concat(ts[1..]);
      Text.CountConcat(c', Concat(ts[1..]), '.');
      Text.CountConcat(c, ts[0], '.');
      if ts[0] == "." {
        assert Text.Count(ts[0], '.') == 1;
        assert '.' !in c;
      }
      ExtendNormalized(c, ts[0]);
      var s' := AppendNumber(s, ts[0]);
      assert s'.currentOperand == Normalized(c') && !s'.shouldResetScreen;
      assert forall i :: 0 <= i < |ts[1..]| ==> ts[1..][i] == ts[i + 1];
      AppendAllNormalized(s', c', ts[1..]);
    } else {
      assert c + Concat(ts) == c;
    }
  }

  /** From the initial state, digit entry shows the typed text with leading zeros collapsed. */
  lemma EntryFromInitial(ts: seq<string>)
    requires forall i :: 0 <= i < |ts| ==> IsToken(ts[i])
    requires Text.Count(Concat(ts), '.') <= 1
    ensures AppendAll(Initial, ts).currentOperand == Normalized(Concat(ts))
  {
    assert "" + Concat(ts) == Concat(ts);
    AppendAllNormalized(Initial, "", ts);
  }

  /** 0, 0, 5 from the initial state shows "5". */
  lemma LeadingZerosCollapse()
    ensures AppendAll(Initial, ["0", "0", "5"]).currentOperand == "5"
  {
    var ts := ["0", "0", "5"];
    assert Concat(ts) == "005";
    assert Text.Count("005", '.') == 0;
    EntryFromInitial(ts);
    assert StripLeadingZeros("005") == "5";
  }

  // ---------------------------------------------------------------- compute

  /** Both operands must parse and an operation must be pending; otherwise nothing changes. */
  predicate Computable(s: State)
  {
    ParseFloat(s.previousOperand).Some? && ParseFloat(s.currentOperand).Some? && s.operation.Some?
  }

  /** compute changes nothing exactly when it has nothing to fold. */
  lemma ComputeNoOp(s: State, lib: FloatLib)
    ensures Compute(s, lib) == s <==> !Computable(s)
  {
  }

  /**
   * When it fires, compute clears the pending operation and marks the
   * result for reset; the result is "Error" exactly on division by zero.
   */
  lemma ComputeFires(s: State, lib: FloatLib)
    requires Computable(s) && lib.Valid()
    ensures var r := Compute(s, lib);
      r.previousOperand == "" && r.operation == None && r.shouldResetScreen &&
      (r.currentOperand == "Error" <==> s.operation == Some(Divide) && ParseFloat(s.currentOperand) == Some(0.0)) &&
      (r.currentOperand != "Error" ==>
         r.currentOperand == lib.Apply(s.operation.value, ParseFloat(s.previousOperand).value, ParseFloat(s.currentOperand).value))
  {
    var r := Compute(s, lib);
    if !(s.operation == Some(Divide) && ParseFloat(s.currentOperand) == Some(0.0)) {
      assert IsNumberText(lib.Apply(s.operation.value, ParseFloat(s.previousOperand).value, ParseFloat(s.currentOperand).value));
    }
  }

  /** Dividing by a typed numeral gives "Error" exactly when the numeral has only zero digits. */
  lemma DivideByTypedZero(s: State, lib: FloatLib)
    requires lib.Valid() && s.operation == Some(Divide)
    requires ParseFloat(s.previousOperand).Some? && IsNumeral(s.currentOperand)
    ensures Compute(s, lib).currentOperand == "Error" <==> AllZero(s.currentOperand)
  {
    NumeralParse(s.currentOperand);
    ComputeFires(s, lib);
  }

  // ---------------------------------------------------------------- chooseOperation

  /**
   * chooseOperation changes nothing without an operand; otherwise the new
   * operation is pending on the (possibly just computed) operand, which is
   * also left as the current one, and the next key starts a new operand.
   */
  lemma ChooseOperationEffect(s: State, op: Op, lib: FloatLib)
    ensures s.currentOperand == "" ==> ChooseOperation(s, op, lib) == s
    ensures s.currentOperand != "" ==>
      var r := ChooseOperation(s, op, lib);
      var folded := if s.previousOperand != "" then Compute(s, lib).currentOperand else s.currentOperand;
      r.operation == Some(op) && r.shouldResetScreen &&
      r.previousOperand == folded && r.currentOperand == folded
  {
  }

  /**
   * Two operators in a row fold the first operand with itself: after
   * "5 +", pressing another operator computes 5 + 5.
   */
  lemma OperatorTwice(s: State, op1: Op, op2: Op, lib: FloatLib)
    requires s.previousOperand == "" && ParseFloat(s.currentOperand).Some?
    requires !(op1 == Divide && ParseFloat(s.currentOperand).value == 0.0)
    ensures var v := ParseFloat(s.currentOperand).value;
      var x := lib.Apply(op1, v, v);
      ChooseOperation(ChooseOperation(s, op1, lib), op2, lib) == State(x, x, Some(op2), true)
  {
    assert s.currentOperand != "" by {
      if s.currentOperand == "" { ParseNoDigits(); }
    }
  }

  // ---------------------------------------------------------------- delete and clear

  /**
   * delete changes nothing while a reset is pending; otherwise it drops the
   * last character, and an operand it empties becomes "0".
   */
  lemma DeleteEffect(s: State)
    ensures s.shouldResetScreen ==> Delete(s) == s
    ensures !s.shouldResetScreen ==>
      var r := Delete(s);
      r.previousOperand == s.previousOperand && r.operation == s.operation && !r.shouldResetScreen &&
      (|s.currentOperand| <= 1 ==> r.currentOperand == "0") &&
      (|s.currentOperand| >= 2 ==> r.currentOperand + [s.currentOperand[|s.currentOperand| - 1]] == s.currentOperand)
  {
  }

  /** delete on "0" leaves "0". */
  lemma DeleteOnZero(s: State)
    requires s.currentOperand == "0"
    ensures Delete(s) == s
  {
  }

  /** clear restores the constructor's values, so clearing twice is clearing once. */
  lemma ClearRestores(s: State)
    ensures Clear(s) == Initial
    ensures Clear(Clear(s)) == Clear(s)
  {
  }

  // ---------------------------------------------------------------- sessions

  /** The five actions the buttons and the keyboard trigger. */
  datatype Action =
    | NumberPressed(number: string)
    | OperatorPressed(op: Op)
    | EqualsPressed
    | DeletePressed
    | ClearPressed

  function Step(s: State, a: Action, lib: FloatLib): (r: State)
    ensures a.NumberPressed? ==> !r.shouldResetScreen
    ensures a.OperatorPressed? && s.currentOperand != "" ==> r.operation == Some(a.op) && r.shouldResetScreen
    ensures a.DeletePressed? && s.shouldResetScreen ==> r == s
    ensures a.ClearPressed? ==> r == Initial
  {
    match a
    case NumberPressed(number) => AppendNumber(s, number)
    case OperatorPressed(op) => ChooseOperation(s, op, lib)
    case EqualsPressed => Compute(s, lib)
    case DeletePressed => Delete(s)
    case ClearPressed => Clear(s)
  }

  /** The actions of a session, in order. */
  function Run(s: State, acts: seq<Action>, lib: FloatLib): State
    decreases |acts|
  {
    if acts == [] then s else Run(Step(s, acts[0], lib), acts[1..], lib)
  }

  /** A session split in two runs the first part, then the second from where it left off. */
  lemma {:induction false} RunConcat(s: State, p: seq<Action>, q: seq<Action>, lib: FloatLib)
    ensures Run(s, p + q, lib) == Run(Run(s, p, lib), q, lib)
    decreases |p|
  {
    if p == [] {
      assert p + q == q;
    } else {
      assert (p + q)[0] == p[0];
      assert (p + q)[1..] == p[1..] + q;
      RunConcat(Step(s, p[0], lib), p[1..], q, lib);
    }
  }

  /** Three actions run as three steps. */
  lemma RunSteps3(s: State, acts: seq<Action>, lib: FloatLib)
    requires |acts| == 3
    ensures Run(s, acts, lib) == Step(Step(Step(s, acts[0], lib), acts[1], lib), acts[2], lib)
  {
    var s1 := Step(s, acts[0], lib);
    var s2 := Step(s1, acts[1], lib);
    assert Run(s, acts, lib) == Run(s1, acts[1..], lib);
    assert Run(s1, acts[1..], lib) == Run(s2, acts[2..], lib);
    assert Run(s2, acts[2..], lib) == Run(Step(s2, acts[2], lib), [], lib);
  }

  /** Digit entry only ever passes single digits or the point. */
  predicate TokensOnly(acts: seq<Action>)
  {
    forall i :: 0 <= i < |acts| && acts[i].NumberPressed? ==> IsToken(acts[i].number)
  }

  /**
   * What holds between operations: the current operand is never empty, has
   * at most one point, and has no leading zero before anything but a point;
   * and an operation is pending exactly when a previous operand is.
   */
  predicate Inv(s: State)
  {
    IsNumberText(s.currentOperand) &&
    (s.previousOperand == "" <==> s.operation.None?) &&
    (s.previousOperand != "" ==> IsNumberText(s.previousOperand))
  }

  lemma AppendPreservesInv(s: State, number: string)
    requires Inv(s) && IsToken(number)
    ensures Inv(AppendNumber(s, number))
  {
    var cur := if s.shouldResetScreen then "" else s.currentOperand;
    Text.CountConcat(cur, number, '.');
  }

  lemma ComputePreservesInv(s: State, lib: FloatLib)
    requires Inv(s) && lib.Valid()
    ensures Inv(Compute(s, lib))
  {
    if Computable(s) {
      ComputeFires(s, lib);
      var r := Compute(s, lib);
      if r.currentOperand == "Error" {
        assert Text.Count("Error", '.') == 0;
      }
    }
  }

  lemma DeletePreservesInv(s: State)
    requires Inv(s)
    ensures Inv(Delete(s))
  {
    var c := s.currentOperand;
    if !s.shouldResetScreen && |c| >= 2 {
      var d := DropLast(c);
      assert c == d + [c[|c| - 1]];
      Text.CountConcat(d, [c[|c| - 1]], '.');
    }
  }

  lemma StepPreservesInv(s: State, a: Action, lib: FloatLib)
    requires Inv(s) && lib.Valid()
    requires a.NumberPressed? ==> IsToken(a.number)
    ensures Inv(Step(s, a, lib))
  {
    match a
    case NumberPressed(number) => AppendPreservesInv(s, number);
    case OperatorPressed(op) => if s.previousOperand != "" { ComputePreservesInv(s, lib); }
    case EqualsPressed => ComputePreservesInv(s, lib);
    case DeletePressed => DeletePreservesInv(s);
    case ClearPressed =>
  }

  /**
   * Every state a session reaches satisfies the invariant; in particular
   * the operand is never empty, so the empty-operand guard of
   * chooseOperation never fires.
   */
  lemma {:induction false} RunPreservesInv(s: State, acts: seq<Action>, lib: FloatLib)
    requires Inv(s) && lib.Valid() && TokensOnly(acts)
    ensures Inv(Run(s, acts, lib))
    decreases |acts|
  {
    if acts != [] {
      StepPreservesInv(s, acts[0], lib);
      assert TokensOnly(acts[1..]) by {
        forall i | 0 <= i < |acts[1..]| && acts[1..][i].NumberPressed? ensures IsToken(acts[1..][i].number) {
          assert acts[1..][i] == acts[i + 1];
        }
      }
      RunPreservesInv(Step(s, acts[0], lib), acts[1..], lib);
    }
  }

  lemma InitialInv()
    ensures Inv(Initial)
  {
    assert Text.Count("0", '.') == 0;
  }

  /** "5 + 3" leaves 5 + pending on the operand "3". */
  lemma SumEntry(lib: FloatLib)
    ensures Step(Step(Step(Initial, NumberPressed("5"), lib), OperatorPressed(Add), lib),
                 NumberPressed("3"), lib)
            == State("3", "5", Some(Add), false)
  {
    var s1 := Step(Initial, NumberPressed("5"), lib);
    assert s1 == State("5", "", None, false);
    var s2 := Step(s1, OperatorPressed(Add), lib);
    assert s2 == State("5", "5", Some(Add), true);
  }

  /** Computing 5 + 3 hands its operands to the library's addition. */
  lemma SumCompute(lib: FloatLib)
    ensures Compute(State("3", "5", Some(Add), false), lib) == State(lib.add(5.0, 3.0), "", None, true)
  {
    ParseDigits("5");
    ParseDigits("3");
    assert IntValue("5") == 5 && IntValue("3") == 3;
  }

  /** "5 + 3 ×" leaves 5 + 3 pending under ×. */
  lemma ChainedPrefix(lib: FloatLib)
    ensures var t := lib.add(5.0, 3.0);
      Step(Step(Step(Step(Initial, NumberPressed("5"), lib), OperatorPressed(Add), lib),
                NumberPressed("3"), lib), OperatorPressed(Multiply), lib)
      == State(t, t, Some(Multiply), true)
  {
    SumEntry(lib);
    SumCompute(lib);
  }

  /** "2" under a pending ×, after a result, starts the operand "2". */
  lemma ProductEntry(t: string, lib: FloatLib)
    ensures Step(State(t, t, Some(Multiply), true), NumberPressed("2"), lib) == State("2", t, Some(Multiply), false)
  {
  }

  /** Computing × 2 on a pending text that parses hands both values to the library's multiplication. */
  lemma ProductCompute(t: string, sum: real, lib: FloatLib)
    requires ParseFloat(t) == Some(sum)
    ensures Compute(State("2", t, Some(Multiply), false), lib).currentOperand == lib.multiply(sum, 2.0)
  {
    ParseDigits("2");
    assert IntValue("2") == 2;
  }

  /** Two actions run as two steps. */
  lemma RunSteps2(s: State, a: Action, b: Action, lib: FloatLib)
    ensures Run(s, [a, b], lib) == Step(Step(s, a, lib), b, lib)
  {
    assert [a, b][1..] == [b];
    assert Run(Step(s, a, lib), [b], lib) == Run(Step(Step(s, a, lib), b, lib), [], lib);
  }

  /** "2 =" under a pending × on the text of 5 + 3. */
  lemma ChainedSuffix(lib: FloatLib, sum: real)
    requires ParseFloat(lib.add(5.0, 3.0)) == Some(sum)
    ensures var t := lib.add(5.0, 3.0);
      Run(State(t, t, Some(Multiply), true), [NumberPressed("2"), EqualsPressed], lib).currentOperand
      == lib.multiply(sum, 2.0)
  {
    var t := lib.add(5.0, 3.0);
    RunSteps2(State(t, t, Some(Multiply), true), NumberPressed("2"), EqualsPressed, lib);
    ProductEntry(t, lib);
    ProductCompute(t, sum, lib);
  }

  /** 5 + 3 × 2 = computes (5 + 3) × 2: operators chain left to right, without precedence. */
  lemma ChainedOperators(lib: FloatLib, sum: real)
    requires ParseFloat(lib.add(5.0, 3.0)) == Some(sum)
    ensures Run(Initial, [NumberPressed("5"), OperatorPressed(Add), NumberPressed("3"),
                          OperatorPressed(Multiply), NumberPressed("2"), EqualsPressed], lib).currentOperand
            == lib.multiply(sum, 2.0)
  {
    var t := lib.add(5.0, 3.0);
    var acts := [NumberPressed("5"), OperatorPressed(Add), NumberPressed("3"),
                 OperatorPressed(Multiply), NumberPressed("2"), EqualsPressed];
    ChainedPrefix(lib);
    assert acts[4..] == [NumberPressed("2"), EqualsPressed];
    assert Run(Initial, acts, lib) == Run(State(t, t, Some(Multiply), true), acts[4..], lib);
    ChainedSuffix(lib, sum);
  }

  /** "7 ÷ 0" leaves 7 ÷ pending on the operand "0". */
  lemma DivisionPrefix(lib: FloatLib)
    ensures Step(Step(Step(Initial, NumberPressed("7"), lib), OperatorPressed(Divide), lib),
                 NumberPressed("0"), lib)
            == State("0", "7", Some(Divide), false)
  {
  }

  /** "=" with 7 ÷ pending on the operand "0" gives the error state. */
  lemma DivisionByZeroStep(lib: FloatLib)
    ensures Step(State("0", "7", Some(Divide), false), EqualsPressed, lib) == State("Error", "", None, true)
  {
    ParseDigits("7");
    ParseDigits("0");
    assert IntValue("0") == 0;
  }

  /** 7 ÷ 0 = shows the error; the next digit starts a new operand. */
  lemma DivisionByZeroSession(lib: FloatLib)
    ensures Run(Initial, [NumberPressed("7"), OperatorPressed(Divide), NumberPressed("0"), EqualsPressed], lib)
            == State("Error", "", None, true)
    ensures Run(Initial, [NumberPressed("7"), OperatorPressed(Divide), NumberPressed("0"), EqualsPressed,
                          NumberPressed("1")], lib)
            == State("1", "", None, false)
  {
    var s3 := State("0", "7", Some(Divide), false);
    var err := State("Error", "", None, true);
    var prefix := [NumberPressed("7"), OperatorPressed(Divide), NumberPressed("0")];
    assert Run(Initial, prefix, lib) == s3 by {
      DivisionPrefix(lib);
      RunSteps3(Initial, prefix, lib);
    }
    DivisionByZeroStep(lib);
    RunConcat(Initial, prefix, [EqualsPressed], lib);
    assert prefix + [EqualsPressed]
           == [NumberPressed("7"), OperatorPressed(Divide), NumberPressed("0"), EqualsPressed];
    RunConcat(Initial, prefix + [EqualsPressed], [NumberPressed("1")], lib);
    assert prefix + [EqualsPressed] + [NumberPressed("1")]
           == [NumberPressed("7"), OperatorPressed(Divide), NumberPressed("0"), EqualsPressed,
               NumberPressed("1")];
  }
}

/**
 * The `Calculator` object: its four fields changed in place by the five
 * operations, and the two display elements, whose text is kept as two
 * string fields.  Each method is proved against its function in module
 * Machine (or Display), so that every property proved there holds of the
 * object.
 */
module App {
  import opened Wrappers
  import opened Numeric
  import Machine
  import Display
  import Input

  class Calculator {
    var previousOperand: string
    var currentOperand: string
    var operation: Option<Op>
    var shouldResetScreen: bool

    /** Text content of the previous-operand element. */
    var previousOperandText: string
    /** Text content of the current-operand element. */
    var currentOperandText: string

    /** The floating-point operations and number formatting of the host. */
    const lib: FloatLib

    /** The four fields as a value. */
    function Snapshot(): Machine.State
      reads this
    {
      Machine.State(currentOperand, previousOperand, operation, shouldResetScreen)
    }

    /** The two display lines as a value. */
    function Shown(): Display.Lines
      reads this
    {
      Display.Lines(previousOperandText, currentOperandText)
    }

    /** The display elements start with whatever text the page gives them. */
    constructor (lib: FloatLib, previousText: string, currentText: string)
      ensures Snapshot() == Machine.Initial
      ensures Shown() == Display.Lines(previousText, currentText)
      ensures this.lib == lib
    {
      previousOperand := "";
      currentOperand := "0";
      operation := None;
      shouldResetScreen := false;
      previousOperandText := previousText;
      currentOperandText := currentText;
      this.lib := lib;
    }

    method AppendNumber(number: string)
      modifies this
      ensures Snapshot() == Machine.AppendNumber(old(Snapshot()), number)
      ensures Shown() == old(Shown())
    {
      if shouldResetScreen {
        currentOperand := "";
        shouldResetScreen := false;
      }
      if number == "." && '.' in currentOperand {
        return;
      }
      if number == "0" && currentOperand == "0" {
        return;
      }
      if number != "." && currentOperand == "0" {
        currentOperand := number;
        return;
      }
      currentOperand := currentOperand + number;
    }

    method ChooseOperation(op: Op)
      modifies this
      ensures Snapshot() == Machine.ChooseOperation(old(Snapshot()), op, lib)
      ensures Shown() == old(Shown())
    {
      if currentOperand == "" {
        return;
      }
      if previousOperand != "" {
        Compute();
      }
      operation := Some(op);
      previousOperand := currentOperand;
      shouldResetScreen := true;
    }

    method Compute()
      modifies this
      ensures Snapshot() == Machine.Compute(old(Snapshot()), lib)
      ensures Shown() == old(Shown())
    {
      var prev := ParseFloat(previousOperand);
      var current := ParseFloat(currentOperand);
      if prev.None? || current.None? {
        return;
      }
      var computation: string;
      match operation {
        case Some(Add) =>
          computation := lib.add(prev.value, current.value);
        case Some(Subtract) =>
          computation := lib.subtract(prev.value, current.value);
        case Some(Multiply) =>
          computation := lib.multiply(prev.value, current.value);
        case Some(Divide) =>
          if current.value == 0.0 {
            currentOperand := "Error";
            operation := None;
            previousOperand := "";
            shouldResetScreen := true;
            return;
          }
          computation := lib.divide(prev.value, current.value);
        case None =>
          return;
      }
      currentOperand := computation;
      operation := None;
      previousOperand := "";
      shouldResetScreen := true;
    }

    method Delete()
      modifies this
      ensures Snapshot() == Machine.Delete(old(Snapshot()))
      ensures Shown() == old(Shown())
    {
      if shouldResetScreen {
        return;
      }
      currentOperand := Machine.DropLast(currentOperand);
      if currentOperand == "" {
        currentOperand := "0";
      }
    }

    method Clear()
      modifies this
      ensures Snapshot() == Machine.Clear(old(Snapshot()))
      ensures Shown() == old(Shown())
    {
      currentOperand := "0";
      previousOperand := "";
      operation := None;
      shouldResetScreen := false;
    }

    method UpdateDisplay()
      modifies this
      ensures Snapshot() == old(Snapshot())
      ensures Shown() == Display.Render(Snapshot(), old(Shown()), lib.grouped)
    {
      if currentOperand == "Error" {
        currentOperandText := "Error";
        return;
      }
      currentOperandText := Display.GetDisplayNumber(currentOperand, lib.grouped);
      if operation.Some? {
        var operationSymbol := Display.OperationSymbol(operation);
        previousOperandText := Display.GetDisplayNumber(previousOperand, lib.grouped) + " " + operationSymbol;
      } else {
        previousOperandText := "";
      }
    }

    /** The method call an action stands for. */
    method Perform(a: Machine.Action)
      modifies this
      ensures Snapshot() == Machine.Step(old(Snapshot()), a, lib)
      ensures Shown() == old(Shown())
    {
      match a {
        case NumberPressed(number) => AppendNumber(number);
        case OperatorPressed(op) => ChooseOperation(op);
        case EqualsPressed => Compute();
        case DeletePressed => Delete();
        case ClearPressed => Clear();
      }
    }

    /** The keydown listener: act on the key if it means something, then redraw. */
    method HandleKeyboardInput(key: string)
      modifies this
      ensures Snapshot() == (match Input.KeyAction(key)
                             case Some(a) => Machine.Step(old(Snapshot()), a, lib)
                             case None => old(Snapshot()))
      ensures Shown() == Display.Render(Snapshot(), old(Shown()), lib.grouped)
    {
      var action := Input.KeyAction(key);
      if action.Some? {
        Perform(action.value);
      }
      UpdateDisplay();
    }

    /** The click listener of a `data-number` button. */
    method NumberButtonClicked(number: string)
      modifies this
      ensures Snapshot() == Machine.AppendNumber(old(Snapshot()), number)
      ensures Shown() == Display.Render(Snapshot(), old(Shown()), lib.grouped)
    {
      AppendNumber(number);
      UpdateDisplay();
    }

    /** The click listener of a `data-action` button. */
    method ActionButtonClicked(action: string)
      modifies this
      ensures Snapshot() == (match Input.ButtonAction(action)
                             case Some(a) => Machine.Step(old(Snapshot()), a, lib)
                             case None => old(Snapshot()))
      ensures Shown() == Display.Render(Snapshot(), old(Shown()), lib.grouped)
    {
      var a := Input.ButtonAction(action);
      if a.Some? {
        Perform(a.value);
      }
      UpdateDisplay();
    }
  }

  /**
   * What a caller learns from the contracts alone: typing 7 ÷ 0 = shows
   * "Error", and the next digit starts a new operand.
   */
  method DivisionByZeroOnScreen(lib: FloatLib)
  {
    var c := new Calculator(lib, "", "0");
    c.NumberButtonClicked("7");
    assert c.Snapshot() == Machine.State("7", "", None, false);
    assert Input.ButtonAction("divide") == Some(Machine.OperatorPressed(Divide));
    c.ActionButtonClicked("divide");
    assert c.Snapshot() == Machine.State("7", "7", Some(Divide), true);
    c.NumberButtonClicked("0");
    assert c.Snapshot() == Machine.State("0", "7", Some(Divide), false);
    assert Input.ButtonAction("equals") == Some(Machine.EqualsPressed);
    c.ActionButtonClicked("equals");
    assert c.Snapshot() == Machine.State("Error", "", None, true) by {
      Machine.DivisionByZeroStep(lib);
    }
    assert c.currentOperandText == "Error";
    Input.SingleCharacterKeys('1');
    c.HandleKeyboardInput("1");
    assert c.currentOperand == "1";
  }
}

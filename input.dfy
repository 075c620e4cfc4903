/**
 * Which of the five actions a key press or a button click triggers
 * (handleKeyboardInput and the click handler's `switch`).
 */
module Input {
  import opened Wrappers
  import opened Numeric
  import Text
  import Machine

  /** `key >= '0' && key <= '9'` with JavaScript's string comparison. */
  predicate InDigitRange(key: string)
  {
    !Text.LexLess(key, "0") && !Text.LexLess("9", key)
  }

  /** handleKeyboardInput: the action for `e.key`, if any. */
  function KeyAction(key: string): (a: Option<Machine.Action>)
    ensures a.Some? && a.value.NumberPressed? ==> a.value.number == key && key != []
  {
    if InDigitRange(key) || key == "." then Some(Machine.NumberPressed(key))
    else if key == "+" || key == "-" then Some(Machine.OperatorPressed(if key == "+" then Add else Subtract))
    else if key == "*" then Some(Machine.OperatorPressed(Multiply))
    else if key == "/" then Some(Machine.OperatorPressed(Divide))
    else if key == "Enter" || key == "=" then Some(Machine.EqualsPressed)
    else if key == "Backspace" then Some(Machine.DeletePressed)
    else if key == "Escape" then Some(Machine.ClearPressed)
    else None
  }

  /**
   * The string comparison accepts exactly the keys that start with 0 to 8,
   * and "9" itself: so every one-character key it accepts is a digit.
   */
  lemma DigitRange(key: string)
    ensures InDigitRange(key) <==> key != [] && ('0' <= key[0] < '9' || key == "9")
  {
    if key != [] {
      assert "0"[1..] == [] && "9"[1..] == [];
      assert Text.LexLess(key, "0") <==> key[0] < '0' by {
        if key[0] == '0' { assert !Text.LexLess(key[1..], []); }
      }
      assert Text.LexLess("9", key) <==> '9' < key[0] || (key[0] == '9' && |key| > 1) by {
        if key[0] == '9' { assert Text.LexLess([], key[1..]) <==> key[1..] != []; }
      }
      assert key[0] == '9' && |key| == 1 <==> key == "9";
    }
  }

  /** A one-character key goes to appendNumber exactly when it is a digit or the point. */
  lemma SingleCharacterKeys(c: char)
    ensures KeyAction([c]) == Some(Machine.NumberPressed([c])) <==> IsDigit(c) || c == '.'
    ensures KeyAction([c]).Some? && KeyAction([c]).value.NumberPressed? ==> Machine.IsToken(KeyAction([c]).value.number)
  {
    DigitRange([c]);
  }

  /** The operator, equals, back-space and escape keys. */
  lemma NamedKeys()
    ensures KeyAction("+") == Some(Machine.OperatorPressed(Add))
    ensures KeyAction("-") == Some(Machine.OperatorPressed(Subtract))
    ensures KeyAction("*") == Some(Machine.OperatorPressed(Multiply))
    ensures KeyAction("/") == Some(Machine.OperatorPressed(Divide))
    ensures KeyAction("Enter") == Some(Machine.EqualsPressed) && KeyAction("=") == Some(Machine.EqualsPressed)
    ensures KeyAction("Backspace") == Some(Machine.DeletePressed)
    ensures KeyAction("Escape") == Some(Machine.ClearPressed)
    ensures KeyAction("Shift") == None
  {
    DigitRange("+");
    DigitRange("-");
    DigitRange("*");
    DigitRange("/");
    DigitRange("Enter");
    DigitRange("=");
    DigitRange("Backspace");
    DigitRange("Escape");
    DigitRange("Shift");
  }

  /** The click handler's `switch` on `data-action`. */
  function ButtonAction(action: string): (a: Option<Machine.Action>)
    ensures a.Some? ==> !a.value.NumberPressed?
  {
    match action
    case "add" => Some(Machine.OperatorPressed(Add))
    case "subtract" => Some(Machine.OperatorPressed(Subtract))
    case "multiply" => Some(Machine.OperatorPressed(Multiply))
    case "divide" => Some(Machine.OperatorPressed(Divide))
    case "equals" => Some(Machine.EqualsPressed)
    case "clear" => Some(Machine.ClearPressed)
    case "delete" => Some(Machine.DeletePressed)
    case _ => None
  }
}

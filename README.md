# Calculator state machine in Dafny

This project models the `Calculator` class of a browser calculator written in
JavaScript (`script.js`). The object keeps four fields:

- `currentOperand`: the operand being typed, or the last result;
- `previousOperand`: the pending operand, where `""` means nothing is pending;
- `operation`: no operation, or add, subtract, multiply or divide;
- `shouldResetScreen`: true when the next digit starts a new operand.

Five methods change these fields in place: `appendNumber`, `chooseOperation`,
`compute`, `delete` and `clear`. `updateDisplay` writes two text lines from them,
using `getDisplayNumber` and `getOperationSymbol`. A key press or a button click
picks one of the five methods and then redraws.

Layout:

- `wrappers.dfy`: the `Option` type.
- `text.dfy` (module `Text`): the JavaScript string operations the code uses. These are `split('.')` with its round trip through `join`, and the `<` comparison of strings. `includes` is Dafny's `in` on sequences.
- `numeric.dfy` (module `Numeric`): `parseFloat` on decimal literals and what it gives for a numeral. It also holds `FloatLib`, the abstract floating-point library.
- `machine.dfy` (module `Machine`): the four fields as a `State` value, and each operation as a function from the old state to the new one. It holds the properties of the operations, the invariant every session keeps, and worked sessions.
- `display.dfy` (module `Display`): `getDisplayNumber`, `getOperationSymbol` and what `updateDisplay` writes.
- `input.dfy` (module `Input`): the key-to-action mapping of `handleKeyboardInput` and the `switch` of the button click handler.
- `calculator.dfy` (module `App`): the class `Calculator`. Its fields and methods change state in place, and the two display elements are string fields. Each method's postcondition ties the new fields to the matching `Machine` or `Display` function.

Numbers are treated abstractly:

- An operand that parses is read as the exact `real` value of its decimal text.
- The four float operators, each with the `toString` of its result, are function fields of `FloatLib` of type `(real, real) -> string`.
- `toLocaleString('en', { maximumFractionDigits: 0 })` is the field `grouped`, of type `real -> string`.
- Every property holds for any such functions. Some invariant lemmas also need `FloatLib.Valid()`. It states what `Number.prototype.toString` guarantees about its output: the text is not empty, has at most one point, has no leading zero except before the point, and is never `"Error"`.

Where the code and a plain reading of the calculator's design differ, the model follows the code:

- After a division by zero, typing a digit starts a new operand (`Machine.DigitLeavesError`). `clear` is not the only way out of `Error`.
- Pressing two operators in a row folds the first operand with itself (`Machine.OperatorTwice`).
- A point typed after a reset gives `"."`, not `"0."` (`Machine.AppendAfterReset`).
- `getDisplayNumber("Error")` is `""`. Only `updateDisplay` shows `Error`, and in that case it leaves the previous line as it was.

## Model

| member | source | states |
|---|---|---|
| `App.Calculator.constructor` | script.js:2-12 | the fields start as `"0"`, `""`, no operation, no reset |
| `App.Calculator.AppendNumber` | script.js:78-95 | the new fields are `Machine.AppendNumber` of the old ones; the display is untouched |
| `App.Calculator.ChooseOperation` | script.js:97-107 | the new fields are `Machine.ChooseOperation` of the old ones, including the nested `compute` |
| `App.Calculator.Compute` | script.js:109-144 | the new fields are `Machine.Compute` of the old ones |
| `App.Calculator.Delete` | script.js:146-154 | the new fields are `Machine.Delete` of the old ones |
| `App.Calculator.Clear` | script.js:156-161 | the new fields are `Machine.Clear` of the old ones |
| `App.Calculator.UpdateDisplay` | script.js:185-200 | the fields are unchanged; the two display lines become `Display.Render` of the state and the old lines |
| `App.Calculator.Perform` | script.js:28-44 | each action calls its method: the fields move by `Machine.Step` |
| `App.Calculator.HandleKeyboardInput` | script.js:56-76 | the key's action, if any, is applied, then the display is redrawn |
| `App.Calculator.NumberButtonClicked` | script.js:16-21 | a number button appends its digit, then the display is redrawn |
| `App.Calculator.ActionButtonClicked` | script.js:24-47 | an action button applies its action, if any, then the display is redrawn |
| `Machine.AppendNumber` | script.js:78-95 | afterwards no reset is pending, and a non-empty key leaves a non-empty operand |
| `Machine.Compute` | script.js:109-144 | a `compute` that changes anything had an operation pending; it then empties the previous operand, drops the operation and sets the reset flag |
| `Machine.ChooseOperation` | script.js:97-107 | nothing changes without an operand; otherwise the chosen operation is pending on the operand, the reset flag is set, and with nothing pending the operand is kept |
| `Machine.Delete` | script.js:146-154 | only the operand can change; without a pending reset it stays non-empty, and a longer operand loses exactly its last character |
| `Machine.Clear` | script.js:156-161 | from any state the fields return to `"0"`, `""`, no operation and no reset, a state that satisfies the invariant |
| `Machine.Step` | script.js:28-44 | a digit clears the reset flag, an operator on an operand becomes pending, Backspace waits while a reset is pending, Escape restores the initial state |
| `Machine.AppendKeepsOnePoint` | script.js:84-94 | a point is refused when one is present, so an operand never gets a second point |
| `Machine.AppendOnZero` | script.js:87-92 | on `"0"`, a 0 changes nothing, another digit replaces it, and a point gives `"0."` |
| `Machine.AppendOtherwise` | script.js:94 | in every other case the key is appended exactly |
| `Machine.AppendAfterReset` | script.js:79-94 | after a reset the operand becomes exactly the key, so `"."` gives `"."` |
| `Machine.DigitLeavesError` | script.js:79-82 | from the division error, a digit starts a new operand with nothing pending |
| `Machine.ExtendNormalized` | script.js:84-94 | one key on the collapsed form of the text typed so far gives the collapsed form of the longer text |
| `Machine.AppendAllNormalized` | script.js:78-95 | typing keys with at most one point shows the typed text with leading zeros collapsed and `"0"` before a leading point |
| `Machine.EntryFromInitial` | script.js:78-95 | from the initial state, digit entry shows the typed text collapsed as above |
| `Machine.LeadingZerosCollapse` | script.js:87-92 | typing 0, 0, 5 from the initial state shows `"5"` |
| `Machine.ComputeNoOp` | script.js:109-138 | `compute` leaves the state unchanged exactly when an operand fails to parse or no operation is pending |
| `Machine.ComputeFires` | script.js:109-144 | otherwise it clears the pending operand and operation and sets the reset flag; the operand becomes `"Error"` exactly on division by an operand that parses to 0, and the library's result text in every other case |
| `Machine.DivideByTypedZero` | script.js:126-133 | dividing by a typed numeral gives `"Error"` exactly when all its digits are zeros |
| `Machine.ChooseOperationEffect` | script.js:97-107 | no change without an operand; otherwise the new operation is pending on the operand, after any pending one is computed, and the reset flag is set |
| `Machine.OperatorTwice` | script.js:97-107 | two operators in a row compute the first operand with itself |
| `Machine.DeleteEffect` | script.js:146-154 | no change while a reset is pending; otherwise the last character goes, and an operand left empty becomes `"0"` |
| `Machine.DeleteOnZero` | script.js:149-153 | `delete` on `"0"` leaves `"0"` |
| `Machine.ClearRestores` | script.js:156-161 | `clear` gives the initial state, so it is idempotent |
| `Machine.InitialInv` | script.js:3-6 | the initial state satisfies the invariant |
| `Machine.StepPreservesInv` | script.js:78-161 | every operation keeps the invariant: the operand is non-empty, has at most one point and no leading zero before anything but a point; an operation is pending exactly when a previous operand is |
| `Machine.RunPreservesInv` | script.js:78-161 | every state a session reaches keeps the invariant, so the operand is never empty and never has two points |
| `Machine.RunConcat` | script.js:14-76 | a session split in two is the first part followed by the second, started from where the first left off |
| `Machine.ChainedOperators` | script.js:97-144 | 5 + 3 × 2 = computes (5 + 3) × 2, left to right and without precedence |
| `Machine.DivisionByZeroSession` | script.js:126-133 | 7 ÷ 0 = gives `"Error"`, and a following 1 gives `"1"` |
| `Numeric.ParseFloat` | script.js:111-112 | a text parses only if it holds a digit, and a text that starts with a digit always parses |
| `Numeric.NumeralParse` | script.js:111-114 | a numeral always parses, to a non-negative value that is 0 exactly when its digits are all zeros |
| `Numeric.ParseNoDigits` | script.js:111-114 | `""`, `"."` and `"Error"` are NaN |
| `Numeric.ParseZeroPoint` | script.js:111-112 | `"0."` and `"0.00"` read as 0 |
| `Numeric.ParseSigned` | script.js:165 | a missing integer part and a sign are read as in JavaScript |
| `Numeric.FracValue` | script.js:111-112 | the digits after the point add a value in [0, 1) |
| `Text.Split` | script.js:165-166 | `split('.')` gives at least one piece, and no piece contains a point |
| `Text.JoinSplit` | script.js:165-166 | joining the pieces of `split('.')` gives the string back |
| `Text.SplitJoin` | script.js:165-166 | splitting a join of pieces without a point gives the pieces back |
| `Text.SplitCount` | script.js:165-166 | `split('.')` gives one more piece than there are points |
| `Text.LexLess` | script.js:57 | no string is less than itself, and nothing is less than the empty string |
| `Text.LexLessAsymmetric` | script.js:57 | of `a < b` and `b < a`, at most one holds |
| `Display.OperationSymbol` | script.js:202-210 | the glyph is empty exactly when no operation is pending, and one character otherwise |
| `Display.SymbolsDistinct` | script.js:202-210 | the four glyphs are distinct |
| `Display.IntegerDisplay` | script.js:165-176 | an integer piece without any digit is NaN and shows nothing |
| `Display.GetDisplayNumber` | script.js:163-183 | a point in the operand always reaches the screen |
| `Display.DisplayWithoutPoint` | script.js:178-182 | without a point only the integer display is shown |
| `Display.DisplayWithPoint` | script.js:164-182 | with one point: the integer display, a point, and the fraction digits verbatim |
| `Display.DisplayWithPoints` | script.js:164-182 | with more points, the text after the second point is dropped |
| `Display.IntegerDigitsDisplay` | script.js:165-176 | a run of integer digits is shown grouped by its value |
| `Display.DisplayUnparsedInteger` | script.js:170-171 | no integer digits give an empty integer display: `".5"` shows `".5"`, `"."` shows `"."`, `"Error"` shows `""` |
| `Display.Render` | script.js:185-200 | in the error state only the current line changes, to `"Error"`; otherwise the current line is the formatted operand, and the previous line is empty exactly when no operation is pending |
| `Display.PreviousLineShowsOperation` | script.js:193-196 | with an operation pending, the previous line is the formatted previous operand, a space and the glyph |
| `Input.KeyAction` | script.js:56-73 | a key that appends passes itself to `appendNumber`, and is never the empty key |
| `Input.DigitRange` | script.js:57 | `key >= '0' && key <= '9'` holds exactly for keys starting with 0 to 8, and for `"9"` |
| `Input.SingleCharacterKeys` | script.js:57-58 | a one-character key appends exactly when it is a digit or the point, and then it is a single entry key |
| `Input.NamedKeys` | script.js:59-73 | the operator keys, Enter and `=`, Backspace and Escape map to their actions; other keys do nothing |
| `Input.ButtonAction` | script.js:28-44 | a `data-action` button never triggers digit entry |

## Left out

- DOM element lookup, listener registration, page start-up and `preventDefault`: browser glue. The listeners are modelled as the methods `HandleKeyboardInput`, `NumberButtonClicked` and `ActionButtonClicked`.
- The initial text of the two display elements comes from the page. The constructor takes it as parameters.
- IEEE-754 arithmetic, `Number.prototype.toString` and `toLocaleString('en')` are not modelled. They are the abstract fields of `FloatLib`; nothing is proved about numeric results.
- `parseFloat` is modelled only on an optional sign, digits, and a point with digits. It does not model leading white space, `Infinity` or exponents. So after a result whose text is `"Infinity"` or of the form `"1e+21"`, the model's `compute` reads that operand differently from the browser. The model reads `"Infinity"` as NaN and `"1e+21"` as 1.
- A parsed numeral is its exact decimal value, so rounding is not modelled. A typed numeral with a nonzero digit after more than about 320 zeros is 0 as a double, and the browser shows `Error` when dividing by it. The model does not.
- `Display.GetDisplayNumber`: the integer part is read as an exact `real` and passed to `grouped`, so three kinds of computed result are shown differently from the browser. A negative result between -1 and 0, such as `"-0.5"`, is shown like `"0.5"`, because the model has no negative zero; the browser shows `"-0.5"`. `"Infinity"` shows `""`, where the browser shows `"∞"`. The exponent form `"1e+21"` is shown as `grouped(1.0)`.
- `Machine.ComputeFires`: the clause that the result is `"Error"` only on division by zero uses `FloatLib.Valid()`. That is a fact about the browser's `toString`, which never writes `Error`.
- The `data-number` values of the number buttons are in the page's HTML, which is not part of this model. `NumberButtonClicked` accepts any string.

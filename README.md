# Multi-function calculator: the Calculate button

A Dafny model of the calculation logic of a one-page Streamlit calculator
(`main.py`). The user enters two numbers `num1` (`a`) and `num2` (`b`), picks
one of seven operations from a menu and presses "Calculate". The page then
shows either a result or an error message.

The model is pure:

- `HostMath` holds the two things the calculator takes from Python without
  defining them: the natural logarithm behind `math.log`, and the `**`
  operator. Neither can be defined over `real`. Each is a parameter of the
  model (a `Host` value). Its subset type records the only facts the model
  uses:
  - `LnFunction`: `ln(1) == 0`, and a positive `x` has `ln(x) == 0` only when `x == 1`;
  - `PowFunction`: with a natural-number exponent, `**` is repeated multiplication (`NatPow`).
- `Calculator` holds the operations and their errors:
  - the closed `Operation` datatype;
  - the `ErrorTag` and `Result` datatypes;
  - one guarded function per operation that can fail (`Quotient`, `Remainder`, `Exponent`, `Log`);
  - `Evaluate`, the operation dispatch;
  - lemmas about all of these.
- `Page` holds the button itself:
  - the menu labels;
  - the string comparisons that select an operation;
  - `Press`, what one press leaves on the page: a success box, an error box,
    or nothing for a label that matches no operation.

Python's float `%` is modelled by its real-number meaning
`a - b * floor(a / b)`. So the remainder takes the sign of the divisor.

In the code, `0.0 ** b` with `b < 0` raises `ZeroDivisionError`, which the
generic `except` at main.py:56-57 shows as an error; the model returns
`Error(PowerFailed)`.

## Model

| member | source | states |
|---|---|---|
| Calculator.Quotient | main.py:30-35 | division fails with DivByZero exactly when b == 0; otherwise the quotient times b gives back a |
| Calculator.Remainder | main.py:36-41 | modulo fails with ModByZero exactly when b == 0, and otherwise yields a value |
| Calculator.Exponent | main.py:42-43 | power fails with PowerFailed exactly when the base is 0 and the exponent is negative; otherwise it yields a value |
| Calculator.Log | main.py:44-49 | logarithm fails with LogDomain exactly when a <= 0, b <= 0 or a == 1; on success ln(a) is non-zero, so the change-of-base division is defined, and result * ln(a) == ln(b) |
| Calculator.Evaluate | main.py:24-49 | the operation dispatch: a calculation fails exactly under its operation's refusal condition (`Rejected`), and the error is the one belonging to its operation (`TagOf`); Add, Subtract and Multiply never fail. Its values are pinned by the contracts of Quotient and Log and by the lemmas below |
| Calculator.ArithmeticNeverFails | main.py:24-29 | addition, subtraction and multiplication always succeed with a+b, a-b and a*b |
| Calculator.SubtractUndoesAdd | main.py:24-27 | subtracting b from the sum of a and b gives back a |
| Calculator.DivideUndoesMultiply | main.py:28-35 | dividing a*b by a non-zero b gives back a; dividing by zero is refused whatever the dividend |
| Calculator.RemainderBounds | main.py:40-41 | for b > 0 the remainder lies in [0, b); for b < 0 it lies in (b, 0] |
| Calculator.RemainderCongruent | main.py:40-41 | the dividend minus the remainder is a whole multiple of b |
| Calculator.RemainderUnique | main.py:40-41 | if a == b*n + r for an integer n and r in the range of RemainderBounds, the remainder is r; with RemainderBounds and RemainderCongruent this characterises the real-number meaning of `%` |
| Calculator.PowerFailsOnlyForZeroBase | main.py:42-43 | with base 0, power fails exactly for a negative exponent; any non-zero base yields the host's a ** b |
| Calculator.PowerOfNatural | main.py:42-43 | with a natural-number exponent n, power is a multiplied by itself n times |
| Calculator.PowerTwoCubed | main.py:42-43 | 2 ** 3 evaluates to 8 |
| Calculator.LogOfBase | main.py:48-49 | the logarithm of a valid base to itself is 1 |
| Calculator.LogOfOne | main.py:48-49 | the logarithm of 1 to any valid base is 0 |
| Calculator.LogZeroOnlyAtOne | main.py:48-49 | a successful logarithm is 0 exactly when its argument is 1 |
| Page.Label | main.py:17-18 | every operation's label is an entry of the menu |
| Page.Selected | main.py:24-51 | the label comparisons resolve a selection exactly when it is a menu entry, and then to the operation carrying that label; anything else reaches the fall-through `else` |
| Page.MenuCoversOperations | main.py:15-19 | the menu holds seven distinct entries; with Label and Selected, entries and operations correspond one to one |
| Page.SelectedLabel | main.py:24-44 | each operation's own label selects it |
| Page.LabelsDistinct | main.py:17-18 | no two operations share a menu label |
| Page.Press | main.py:22-57 | one press: the page stays blank (the fall-through `else` at main.py:50-51) exactly for a selection that is no menu entry; a success box shows the value of an accepted calculation; an error box shows the error of a refused one |
| Page.PressShowsOutcome | main.py:53-54 | the success box appears exactly when the calculation produced a value, and it shows that value; an error box appears exactly for rejected input, with the calculation's error; no error reaches the success box |

## Left out

- Streamlit presentation: page configuration, title, markdown and footer (main.py:5-8, 60-61), the widgets and the button (main.py:11-22), and the message texts (main.py:32, 38, 46, 54, 57). `Press` returns what is shown, not how.
- The six-decimal formatting of the result (main.py:54). This is float-to-string presentation.
- IEEE-754 behaviour. Numbers are Dafny `real`, so the model does not capture rounding in `/` and `%`. One example is a float `%` that returns `b` itself for a tiny negative dividend.
- Calculator.Exponent: models only the failure for 0 raised to a negative power. It does not model the `OverflowError` for results out of float range, or the complex result of a negative base with a fractional exponent. Both need float semantics.
- Calculator.Exponent: the value of `**` is known only for natural-number exponents. For any other exponent it is whatever the host's `pow` gives.
- Calculator.Log: the numeric value of `math.log` is left to the host's `ln`. The model uses only ln(1) == 0 and that ln(x) == 0 only at x == 1. So a claim such as "log to base 10 of 1000 is 3" is not derivable.
- The generic `except Exception` handler (main.py:56-57) is modelled only for the power failure. It has no contract of its own for other exceptions.
- The probability simulator and the world-population viewer are not part of this model. Only the calculator page (`main.py`) is modelled.

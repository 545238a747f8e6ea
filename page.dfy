/** The "Calculate" button: the menu entry the user picked selects an
    operation by its label, the calculation runs, and the page shows either
    the value or an error message. */
module Page {
  import opened HostMath
  import opened Calculator

  datatype Option<T> = None | Some(value: T)

  /** The label the operation menu shows for each operation; every label is
      a menu entry. */
  function Label(op: Operation): (r: string)
    ensures r in Menu
  {
    match op
    case Add => "Addition (+)"
    case Subtract => "Subtraction (\U{2212})"
    case Multiply => "Multiplication (\U{00D7})"
    case Divide => "Division (\U{00F7})"
    case Modulo => "Modular (%)"
    case Power => "Exponentiation (^)"
    case Logarithm => "Logarithm (log\U{2090}b)"
  }

  /** The operation menu, in the order it is offered. */
  const Menu: seq<string> := [
    "Addition (+)",
    "Subtraction (\U{2212})",
    "Multiplication (\U{00D7})",
    "Division (\U{00F7})",
    "Modular (%)",
    "Exponentiation (^)",
    "Logarithm (log\U{2090}b)"
  ]

  /** The chain of label comparisons that picks the operation: a selection
      resolves exactly when it is a menu entry, and then to the operation
      carrying that label; anything else falls through to nothing. */
  function Selected(selection: string): (r: Option<Operation>)
    ensures r.Some? <==> selection in Menu
    ensures r.Some? ==> Label(r.value) == selection
  {
    if selection == "Addition (+)" then Some(Add)
    else if selection == "Subtraction (\U{2212})" then Some(Subtract)
    else if selection == "Multiplication (\U{00D7})" then Some(Multiply)
    else if selection == "Division (\U{00F7})" then Some(Divide)
    else if selection == "Modular (%)" then Some(Modulo)
    else if selection == "Exponentiation (^)" then Some(Power)
    else if selection == "Logarithm (log\U{2090}b)" then Some(Logarithm)
    else None
  }

  /** What one press of the button leaves on the page. */
  datatype Display =
    | Success(shown: real)      // the green result box
    | Failure(reason: ErrorTag) // a red error box
    | Blank                     // nothing at all

  /** One press of the button: select the operation, evaluate, and show the
      value only when the calculation produced one. The page stays blank
      only for a selection that is no menu entry; the success box shows an
      accepted calculation's value, and an error box a refused calculation's
      error. */
  function Press(host: Host, a: real, b: real, selection: string): (r: Display)
    ensures r.Blank? <==> selection !in Menu
    ensures r.Success? ==>
              && Selected(selection).Some?
              && Evaluate(host, a, b, Selected(selection).value) == Value(r.shown)
    ensures r.Failure? ==>
              && Selected(selection).Some?
              && Rejected(a, b, Selected(selection).value)
              && Evaluate(host, a, b, Selected(selection).value) == Error(r.reason)
  {
    match Selected(selection)
    case None => Blank
    case Some(op) =>
      match Evaluate(host, a, b, op)
      case Value(v) => Success(v)
      case Error(t) => Failure(t)
  }

  /** The menu offers seven distinct entries. With Label and Selected this
      makes the menu and the operations correspond one to one. */
  lemma MenuCoversOperations()
    ensures |Menu| == 7
    ensures forall i, j :: 0 <= i < j < |Menu| ==> Menu[i] != Menu[j]
  {
  }

  /** Selecting by label gives back the operation labelled. */
  lemma SelectedLabel(op: Operation)
    ensures Selected(Label(op)) == Some(op)
  {
  }

  /** No two operations share a label. */
  lemma LabelsDistinct(op1: Operation, op2: Operation)
    ensures Label(op1) == Label(op2) ==> op1 == op2
  {
  }

  /** Each press ends in exactly one way, decided by the calculation: the
      success box shows the computed value, an error box the calculation's
      error, and no rejected input ever reaches the success box. */
  lemma PressShowsOutcome(host: Host, a: real, b: real, op: Operation)
    ensures Press(host, a, b, Label(op)).Success? <==> Evaluate(host, a, b, op).Value?
    ensures Press(host, a, b, Label(op)).Success? ==>
              Press(host, a, b, Label(op)).shown == Evaluate(host, a, b, op).value
    ensures Press(host, a, b, Label(op)).Failure? <==> Rejected(a, b, op)
    ensures Press(host, a, b, Label(op)).Failure? ==>
              Press(host, a, b, Label(op)).reason == Evaluate(host, a, b, op).tag
  {
  }
}

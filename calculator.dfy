/** The arithmetic evaluator behind the "Calculate" button: two numbers, one
    of seven operations, and either a value or the error the page reports. */
module Calculator {
  import opened HostMath

  /** The seven entries of the operation menu. */
  datatype Operation =
    | Add
    | Subtract
    | Multiply
    | Divide
    | Modulo
    | Power
    | Logarithm

  /** Why a calculation produced no value. */
  datatype ErrorTag =
    | DivByZero   // "Cannot divide by zero!"
    | ModByZero   // "Cannot take modulo with zero!"
    | LogDomain   // "Base and argument must be positive, and base ≠ 1."
    | PowerFailed // the host raised while computing a ** b

  /** The outcome of one calculation: the value shown on success, or the
      error that took its place. */
  datatype Result = Value(value: real) | Error(tag: ErrorTag)

  /** Floating-point `/`, guarded against a zero divisor. */
  function Quotient(a: real, b: real): (r: Result)
    ensures r.Error? <==> b == 0.0
    ensures r.Error? ==> r.tag == DivByZero
    ensures r.Value? ==> r.value * b == a
  {
    if b == 0.0 then Error(DivByZero) else Value(a / b)
  }

  /** Floating-point `%` with the host's sign convention: the remainder of
      flooring division, which takes the sign of the divisor. */
  function Remainder(a: real, b: real): (r: Result)
    ensures r.Error? <==> b == 0.0
    ensures r.Error? ==> r.tag == ModByZero
  {
    if b == 0.0 then Error(ModByZero)
    else
      var n := (a / b).Floor;
      Value(a - b * n as real)
  }

  /** `a ** b`. The host refuses 0 raised to a negative power; that failure
      reaches the page's generic error handler. */
  function Exponent(host: Host, a: real, b: real): (r: Result)
    ensures r.Error? <==> (a == 0.0 && b < 0.0)
    ensures r.Error? ==> r.tag == PowerFailed
  {
    if a == 0.0 && b < 0.0 then Error(PowerFailed) else Value(host.pow(a, b))
  }

  /** `math.log(b, a)`: the logarithm of b to base a, computed by change of
      base. Base and argument must be positive and the base must not be 1. */
  function Log(host: Host, a: real, b: real): (r: Result)
    ensures r.Error? <==> (a <= 0.0 || b <= 0.0 || a == 1.0)
    ensures r.Error? ==> r.tag == LogDomain
    ensures r.Value? ==> host.ln(a) != 0.0 && r.value * host.ln(a) == host.ln(b)
  {
    if a <= 0.0 || b <= 0.0 || a == 1.0 then Error(LogDomain)
    else Value(host.ln(b) / host.ln(a))
  }

  /** The refusal conditions of all operations in one place. */
  predicate Rejected(a: real, b: real, op: Operation) {
    || (op == Divide && b == 0.0)
    || (op == Modulo && b == 0.0)
    || (op == Power && a == 0.0 && b < 0.0)
    || (op == Logarithm && (a <= 0.0 || b <= 0.0 || a == 1.0))
  }

  /** The error each operation can report. Add, Subtract and Multiply have none. */
  function TagOf(op: Operation): ErrorTag
    requires op !in {Add, Subtract, Multiply}
  {
    match op
    case Divide => DivByZero
    case Modulo => ModByZero
    case Power => PowerFailed
    case Logarithm => LogDomain
  }

  /** One press of "Calculate" with a known operation. It fails exactly when
      the operation's refusal condition holds, and then it reports the error
      belonging to that operation; Add, Subtract and Multiply never fail. */
  function Evaluate(host: Host, a: real, b: real, op: Operation): (r: Result)
    ensures r.Error? <==> Rejected(a, b, op)
    ensures r.Error? ==> op !in {Add, Subtract, Multiply} && r.tag == TagOf(op)
  {
    match op
    case Add => Value(a + b)
    case Subtract => Value(a - b)
    case Multiply => Value(a * b)
    case Divide => Quotient(a, b)
    case Modulo => Remainder(a, b)
    case Power => Exponent(host, a, b)
    case Logarithm => Log(host, a, b)
  }

  /** Addition, subtraction and multiplication never fail. */
  lemma ArithmeticNeverFails(host: Host, a: real, b: real)
    ensures Evaluate(host, a, b, Add) == Value(a + b)
    ensures Evaluate(host, a, b, Subtract) == Value(a - b)
    ensures Evaluate(host, a, b, Multiply) == Value(a * b)
  {
  }

  /** Subtracting b undoes adding b. */
  lemma SubtractUndoesAdd(host: Host, a: real, b: real)
    ensures Evaluate(host, Evaluate(host, a, b, Add).value, b, Subtract) == Value(a)
  {
  }

  /** Dividing by a non-zero b undoes multiplying by b, and the division by
      zero is refused whatever the dividend. */
  lemma DivideUndoesMultiply(host: Host, a: real, b: real)
    ensures b != 0.0 ==> Evaluate(host, Evaluate(host, a, b, Multiply).value, b, Divide) == Value(a)
    ensures b == 0.0 ==> Evaluate(host, a * b, b, Divide) == Error(DivByZero)
  {
  }

  /** The floor of q is the integer just at or below q. */
  lemma FloorBounds(q: real)
    ensures q.Floor as real <= q < q.Floor as real + 1.0
  {
  }

  /** If a == b * q and k is the floor of q, then a - b * k lies between 0
      and b. Stated without division or Floor, which the solver handles poorly
      together with multiplication. */
  lemma ScaledFloorBounds(a: real, b: real, q: real, k: real)
    requires a == b * q
    requires k <= q < k + 1.0
    ensures b > 0.0 ==> 0.0 <= a - b * k < b
    ensures b < 0.0 ==> b < a - b * k <= 0.0
  {
    var below, above := q - k, k + 1.0 - q;
    assert a - b * k == b * below;
    assert b - (a - b * k) == b * above;
    if b > 0.0 {
      assert b * below >= 0.0 && b * above > 0.0;
    } else if b < 0.0 {
      assert b * below <= 0.0 && b * above < 0.0;
    }
  }

  /** If r == b * f lies in the divisor's range, f lies in [0, 1). Stated
      without division, like ScaledFloorBounds. */
  lemma UnitFraction(b: real, f: real, r: real)
    requires b != 0.0 && r == b * f
    requires b > 0.0 ==> 0.0 <= r < b
    requires b < 0.0 ==> b < r <= 0.0
    ensures 0.0 <= f < 1.0
  {
    assert b * f == b + b * (f - 1.0);
  }

  /** A successful remainder lies between 0 and the divisor: in [0, b) for a
      positive divisor, in (b, 0] for a negative one. */
  lemma RemainderBounds(a: real, b: real)
    requires b != 0.0
    ensures Remainder(a, b).Value?
    ensures b > 0.0 ==> 0.0 <= Remainder(a, b).value < b
    ensures b < 0.0 ==> b < Remainder(a, b).value <= 0.0
  {
    var q := a / b;
    var n := q.Floor;
    FloorBounds(q);
    ScaledFloorBounds(a, b, q, n as real);
  }

  /** A successful remainder differs from the dividend by a whole multiple of
      the divisor. */
  lemma RemainderCongruent(a: real, b: real)
    requires b != 0.0
    ensures Remainder(a, b).Value?
    ensures var m := (a - Remainder(a, b).value) / b; m == m.Floor as real
  {
    var k := (a / b).Floor as real;
    assert a - Remainder(a, b).value == b * k;
    assert (b * k) / b == k;
  }

  /** The remainder is the only number in the divisor's range that is
      congruent to the dividend: whenever a == b * n + r with n an integer
      and r in the range of RemainderBounds, the calculator answers r. */
  lemma RemainderUnique(a: real, b: real, n: int, r: real)
    requires b != 0.0
    requires a == b * n as real + r
    requires b > 0.0 ==> 0.0 <= r < b
    requires b < 0.0 ==> b < r <= 0.0
    ensures Remainder(a, b) == Value(r)
  {
    var q := a / b;
    assert a == b * q;
    var f := q - n as real;
    assert b * f == b * q - b * n as real;
    UnitFraction(b, f, r);
    FloorBounds(q);
    assert q.Floor == n;
  }

  /** 0 to a negative power gives no value; any other base does. */
  lemma PowerFailsOnlyForZeroBase(host: Host, a: real, b: real)
    ensures Evaluate(host, 0.0, b, Power).Error? <==> b < 0.0
    ensures a != 0.0 ==> Evaluate(host, a, b, Power) == Value(host.pow(a, b))
  {
  }

  /** On a natural-number exponent, power is repeated multiplication. */
  lemma PowerOfNatural(host: Host, a: real, n: nat)
    ensures Evaluate(host, a, n as real, Power) == Value(NatPow(a, n))
  {
  }

  /** Two to the third power is eight. */
  lemma PowerTwoCubed(host: Host)
    ensures Evaluate(host, 2.0, 3.0, Power) == Value(8.0)
  {
    PowerOfNatural(host, 2.0, 3);
    assert NatPow(2.0, 3) == 2.0 * NatPow(2.0, 2);
  }

  /** The logarithm of a valid base to itself is 1. */
  lemma LogOfBase(host: Host, a: real)
    requires a > 0.0 && a != 1.0
    ensures Evaluate(host, a, a, Logarithm) == Value(1.0)
  {
  }

  /** The logarithm of 1 to any valid base is 0. */
  lemma LogOfOne(host: Host, a: real)
    requires a > 0.0 && a != 1.0
    ensures Evaluate(host, a, 1.0, Logarithm) == Value(0.0)
  {
  }

  /** A successful logarithm is 0 exactly when its argument is 1. */
  lemma LogZeroOnlyAtOne(host: Host, a: real, b: real)
    requires Evaluate(host, a, b, Logarithm).Value?
    ensures Evaluate(host, a, b, Logarithm).value == 0.0 <==> b == 1.0
  {
  }
}

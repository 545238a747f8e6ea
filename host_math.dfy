/** The two numeric primitives the calculator borrows from its host language:
    the natural logarithm behind `math.log` and the `**` operator. Neither can
    be defined over `real`, so each is a parameter of the model whose type
    records the only facts the calculator relies on. */
module HostMath {

  /** x raised to a natural-number power, by repeated multiplication. */
  function NatPow(x: real, n: nat): real
    decreases n
  {
    if n == 0 then 1.0 else x * NatPow(x, n - 1)
  }

  /** The facts about the natural logarithm that the calculator needs:
      ln(1) is 0, and 1 is the only positive argument with logarithm 0. */
  ghost predicate IsNaturalLog(ln: real -> real) {
    && ln(1.0) == 0.0
    && forall x: real :: x > 0.0 && ln(x) == 0.0 ==> x == 1.0
  }

  /** The facts about `**` the model uses: on a natural-number exponent it is
      repeated multiplication (so 0.0 ** 0.0 is 1.0, as in the host). */
  ghost predicate IsRealPower(pow: (real, real) -> real) {
    forall x: real, n: nat :: pow(x, n as real) == NatPow(x, n)
  }

  /** A stand-in satisfying IsNaturalLog, so that the type is inhabited. */
  function LogWitness(x: real): real {
    x - 1.0
  }

  /** A stand-in satisfying IsRealPower, so that the type is inhabited. */
  function PowWitness(x: real, y: real): real {
    if 0.0 <= y && y == y.Floor as real then NatPow(x, y.Floor) else 0.0
  }

  type LnFunction = ln: real -> real | IsNaturalLog(ln) witness LogWitness

  type PowFunction = pow: (real, real) -> real | IsRealPower(pow) witness PowWitness

  /** The host's numeric library as the calculator sees it. */
  datatype Host = Host(ln: LnFunction, pow: PowFunction)
}

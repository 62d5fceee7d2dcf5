/** JavaScript number values as the calculator engine sees them.
    A finite double is modelled as an exact real: rounding and overflow to
    Infinity are not modelled. NaN and the two infinities are kept apart,
    because `isFinite`, `< 0` and the truthiness test `x || 0` treat them
    differently. The sign of zero is not modelled. */
module Numbers {

  datatype Num = Fin(r: real) | NaN | Inf(negative: bool)

  /** `isFinite(n)` */
  predicate IsFinite(n: Num) { n.Fin? }

  /** `n < 0` */
  predicate IsNegative(n: Num) {
    match n
    case Fin(x) => x < 0.0
    case NaN => false
    case Inf(neg) => neg
  }

  /** `n === 0` */
  predicate IsZero(n: Num) { n == Fin(0.0) }

  /** A number used as a condition: 0 and NaN are falsy. */
  predicate IsTruthy(n: Num) { !IsZero(n) && !n.NaN? }

  /** Unary `-a` */
  function Neg(a: Num): Num {
    match a
    case Fin(x) => Fin(-x)
    case NaN => NaN
    case Inf(neg) => Inf(!neg)
  }

  /** `a + b` */
  function Add(a: Num, b: Num): Num {
    match a
    case NaN => NaN
    case Fin(x) =>
      (match b
       case Fin(y) => Fin(x + y)
       case NaN => NaN
       case Inf(q) => Inf(q))
    case Inf(p) =>
      (match b
       case Fin(_) => Inf(p)
       case NaN => NaN
       case Inf(q) => if p == q then Inf(p) else NaN)
  }

  /** `a - b` */
  function Sub(a: Num, b: Num): Num { Add(a, Neg(b)) }

  /** 0 is a left identity of `+` on every number, NaN and the infinities included. */
  lemma ZeroPlus(a: Num)
    ensures Add(Fin(0.0), a) == a
  {
    match a {
      case Fin(x) =>
      case NaN =>
      case Inf(_) =>
    }
  }

  /** `a * b` */
  function Mul(a: Num, b: Num): Num {
    match a
    case NaN => NaN
    case Fin(x) =>
      (match b
       case Fin(y) => Fin(x * y)
       case NaN => NaN
       case Inf(q) => if x == 0.0 then NaN else Inf(q != (x < 0.0)))
    case Inf(p) =>
      (match b
       case Fin(y) => if y == 0.0 then NaN else Inf(p != (y < 0.0))
       case NaN => NaN
       case Inf(q) => Inf(p != q))
  }

  /** `a / b` for a divisor other than zero (every division the engine
      performs is either guarded against a zero divisor or divides by 100). */
  function Div(a: Num, b: Num): Num
    requires !IsZero(b)
  {
    match a
    case NaN => NaN
    case Fin(x) =>
      (match b
       case Fin(y) => Fin(x / y)
       case NaN => NaN
       case Inf(_) => Fin(0.0))
    case Inf(p) =>
      (match b
       case Fin(y) => Inf(p != (y < 0.0))
       case _ => NaN)
  }

  /** `+` is finite exactly on two finite operands, where it is the real
      sum; it is NaN exactly when an operand is NaN or the infinities have
      opposite signs; and it is commutative. */
  lemma AddFacts(a: Num, b: Num)
    ensures IsFinite(Add(a, b)) <==> IsFinite(a) && IsFinite(b)
    ensures IsFinite(Add(a, b)) ==> Add(a, b).r == a.r + b.r
    ensures Add(a, b).NaN? <==> a.NaN? || b.NaN? || (a.Inf? && b.Inf? && a.negative != b.negative)
    ensures Add(a, b) == Add(b, a)
  {
    match a {
      case Fin(x) =>
      case NaN =>
      case Inf(_) =>
    }
  }

  /** `*` is finite exactly on two finite operands, where it is the real
      product; 0 times an infinity is NaN; and it is commutative. */
  lemma MulFacts(a: Num, b: Num)
    ensures IsFinite(Mul(a, b)) <==> IsFinite(a) && IsFinite(b)
    ensures IsFinite(Mul(a, b)) ==> Mul(a, b).r == a.r * b.r
    ensures (IsZero(a) && b.Inf?) || (a.Inf? && IsZero(b)) ==> Mul(a, b).NaN?
    ensures Mul(a, b) == Mul(b, a)
  {
    match a {
      case Fin(x) =>
        match b {
          case Fin(y) => assert x * y == y * x;
          case NaN =>
          case Inf(_) =>
        }
      case NaN =>
      case Inf(_) =>
    }
  }

  /** `/` by a non-zero divisor: the real quotient of finite operands, 0 for
      a finite value over an infinity, NaN when both are infinite or either
      is NaN. */
  lemma DivFacts(a: Num, b: Num)
    requires !IsZero(b)
    ensures IsFinite(a) && IsFinite(b) ==> Div(a, b) == Fin(a.r / b.r)
    ensures IsFinite(a) && b.Inf? ==> Div(a, b) == Fin(0.0)
    ensures IsFinite(Div(a, b)) <==> IsFinite(a) && !b.NaN?
    ensures a.NaN? || b.NaN? || (a.Inf? && b.Inf?) ==> Div(a, b).NaN?
  {
  }
}

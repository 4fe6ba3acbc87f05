/** The operator table of `math` and JavaScript's number operations on it.
    Numbers are exact reals; the only non-finite results the operations can
    produce are the ones division and remainder by zero give. */
module Arithmetic {
  import opened Values

  datatype Op = Plus | Minus | Times | Divide | Remainder

  /** The `ops` object literal: exactly five own keys. */
  function Operator(symbol: string): (op: Option<Op>)
    ensures op.Some? <==> symbol in {"+", "-", "*", "/", "%"}
    ensures op == Some(Plus) <==> symbol == "+"
    ensures op == Some(Minus) <==> symbol == "-"
    ensures op == Some(Times) <==> symbol == "*"
    ensures op == Some(Divide) <==> symbol == "/"
    ensures op == Some(Remainder) <==> symbol == "%"
  {
    if symbol == "+" then Some(Plus)
    else if symbol == "-" then Some(Minus)
    else if symbol == "*" then Some(Times)
    else if symbol == "/" then Some(Divide)
    else if symbol == "%" then Some(Remainder)
    else None
  }

  /** A JavaScript number result: finite, or one of Infinity, -Infinity and
      NaN, which the model does not tell apart. */
  datatype Number = Finite(value: real) | NonFinite

  /** What `JSON.stringify` then `JSON.parse` make of a number: a non-finite
      number is written as `null`. */
  function Stored(x: Number): (v: Json)
    ensures v.Num? <==> x.Finite?
    ensures x.Finite? ==> v == Num(x.value)
    ensures x.NonFinite? ==> v == Null
  {
    match x
    case Finite(r) => Num(r)
    case NonFinite => Null
  }

  /** The truncation toward zero inside JavaScript's `%`. */
  function Trunc(x: real): (t: int)
    ensures 0.0 <= x ==> 0 <= t && t as real <= x < t as real + 1.0
    ensures x < 0.0 ==> t <= 0 && t as real - 1.0 < x <= t as real
  {
    if 0.0 <= x then x.Floor else -((-x).Floor)
  }

  /** JavaScript's `a % b`: the remainder of the quotient truncated toward
      zero, which has the sign of the dividend (Dafny's own `%` is Euclidean). */
  function JsRemainder(a: real, b: real): (r: real)
    requires b != 0.0
    ensures a == b * Trunc(a / b) as real + r
  {
    a - b * Trunc(a / b) as real
  }

  function Abs(x: real): real {
    if x < 0.0 then -x else x
  }

  lemma ProductSign(x: real, y: real)
    ensures x * y > 0.0 <==> (x > 0.0 && y > 0.0) || (x < 0.0 && y < 0.0)
    ensures x * y == 0.0 <==> x == 0.0 || y == 0.0
  {
  }

  lemma ScaleBelowOne(b: real, f: real)
    requires b != 0.0 && Abs(f) < 1.0
    ensures Abs(b * f) < Abs(b)
  {
    assert Abs(b * f) == Abs(b) * Abs(f);
    assert Abs(b) - Abs(b) * Abs(f) == Abs(b) * (1.0 - Abs(f));
    ProductSign(Abs(b), 1.0 - Abs(f));
  }

  /** The remainder is smaller than the divisor in magnitude and is zero or
      has the dividend's sign. */
  lemma JsRemainderBounds(a: real, b: real)
    requires b != 0.0
    ensures Abs(JsRemainder(a, b)) < Abs(b)
    ensures JsRemainder(a, b) == 0.0 || (JsRemainder(a, b) > 0.0 <==> a > 0.0)
  {
    var q := a / b;
    var f := q - Trunc(q) as real;
    assert a == b * q;
    assert JsRemainder(a, b) == b * f;
    assert Abs(f) < 1.0;
    assert f == 0.0 || (f > 0.0 <==> q > 0.0);
    ScaleBelowOne(b, f);
    ProductSign(b, f);
    ProductSign(b, q);
  }

  /** `current op amount` in JavaScript. */
  function Apply(op: Op, current: real, amount: real): (x: Number)
    ensures op == Plus ==> x == Finite(current + amount)
    ensures op == Minus ==> x == Finite(current - amount)
    ensures op == Times ==> x == Finite(current * amount)
    ensures op == Divide ==> (x.NonFinite? <==> amount == 0.0)
    ensures op == Divide && amount != 0.0 ==> x.value * amount == current
    ensures op == Remainder ==> (x.NonFinite? <==> amount == 0.0)
    ensures op == Remainder && amount != 0.0 ==> x == Finite(JsRemainder(current, amount))
  {
    match op
    case Plus => Finite(current + amount)
    case Minus => Finite(current - amount)
    case Times => Finite(current * amount)
    case Divide => if amount == 0.0 then NonFinite else Finite(current / amount)
    case Remainder =>
      if amount == 0.0 then NonFinite
      else Finite(JsRemainder(current, amount))
  }
}

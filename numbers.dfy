/** Python's integer division as the source uses it: `int(a / b)` truncates toward zero. */
module Numbers {

  function Abs(x: int): (r: nat)
    ensures r == x || r == -x
  {
    if x < 0 then -x else x
  }

  /** A divisor Python would not refuse with ZeroDivisionError. */
  type Divisor = d: int | d != 0 witness 1

  /**
   * `int(x / d)` for integers: the quotient truncated toward zero. Unlike Dafny's `/`
   * (Euclidean), the remainder takes the sign of the dividend.
   */
  function TruncDiv(x: int, d: Divisor): (q: int)
    ensures Abs(x - q * d) < Abs(d)
    ensures x - q * d == 0 || ((x - q * d < 0) <==> (x < 0))
    ensures Abs(q) * Abs(d) <= Abs(x)
  {
    var m: int := Abs(x) / Abs(d);
    var q: int := if (x < 0) == (d < 0) then m else -m;
    TruncDivRemainder(x, d, m, q);
    q
  }

  lemma TruncDivRemainder(x: int, d: Divisor, m: int, q: int)
    requires m == Abs(x) / Abs(d)
    requires q == if (x < 0) == (d < 0) then m else -m
    ensures x - q * d == (if x < 0 then -(Abs(x) - m * Abs(d)) else Abs(x) - m * Abs(d))
    ensures 0 <= Abs(x) - m * Abs(d) < Abs(d)
    ensures Abs(q) * Abs(d) == m * Abs(d)
  {
    var a: int, b: int := Abs(x), Abs(d);
    DivBound(a, b);
    MulSigns(m, b);
    assert d == b || d == -b;
  }

  /** What Euclidean division leaves of a non-negative dividend. */
  lemma DivBound(a: nat, b: int)
    requires b > 0
    ensures 0 <= a / b && 0 <= a - (a / b) * b < b
  {
    assert a == (a / b) * b + a % b;
  }

  lemma MulSigns(m: int, b: int)
    ensures (-m) * (-b) == m * b && (-m) * b == -(m * b) && m * (-b) == -(m * b)
  {
  }
}

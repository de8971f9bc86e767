/** Python's built-in `round`: to the nearest integer (or decimal digit), ties to even. */
module Rounding {

  /** `round(x)`. The two ensures determine the result: nearest, and even on a tie. */
  function RoundHalfEven(x: real): (r: int)
    ensures x - 0.5 <= r as real <= x + 0.5
    ensures r as real == x - 0.5 || r as real == x + 0.5 ==> r % 2 == 0
  {
    var below := x.Floor;
    var rest := x - below as real;
    if rest < 0.5 then below
    else if rest > 0.5 then below + 1
    else if below % 2 == 0 then below else below + 1
  }

  lemma RoundMonotone(x: real, y: real)
    requires x <= y
    ensures RoundHalfEven(x) <= RoundHalfEven(y)
  {
  }

  /** `round(x, n)`, with `unit` standing for ten to the minus n. */
  function RoundTo(x: real, unit: real): (r: real)
    requires unit > 0.0
    ensures x - unit / 2.0 <= r <= x + unit / 2.0
  {
    HalfUnit(x, unit, RoundHalfEven(x / unit) as real);
    RoundHalfEven(x / unit) as real * unit
  }

  /** Within a half before scaling, within half a unit after. */
  lemma HalfUnit(x: real, unit: real, n: real)
    requires unit > 0.0 && x / unit - 0.5 <= n <= x / unit + 0.5
    ensures x - unit / 2.0 <= n * unit <= x + unit / 2.0
  {
    var q := x / unit;
    assert q * unit == x;
    var d := n - q;
    ScaleOrder(-0.5, d, unit);
    ScaleOrder(d, 0.5, unit);
    assert n * unit == q * unit + d * unit;
  }

  /** The result is a whole number of units, an even one when the value lies halfway between two of them. */
  lemma RoundToMultiple(x: real, unit: real) returns (n: int)
    requires unit > 0.0
    ensures RoundTo(x, unit) == n as real * unit
    ensures RoundTo(x, unit) == x - unit / 2.0 || RoundTo(x, unit) == x + unit / 2.0 ==> n % 2 == 0
  {
    n := RoundHalfEven(x / unit);
    OffBy(x, unit, n as real);
  }

  /** Half a unit off before scaling, when it is so after. */
  lemma OffBy(x: real, unit: real, m: real)
    requires unit > 0.0
    ensures m * unit == x - unit / 2.0 ==> m == x / unit - 0.5
    ensures m * unit == x + unit / 2.0 ==> m == x / unit + 0.5
  {
    var q := x / unit;
    assert q * unit == x;
    assert (q - m) * unit == x - m * unit;
    SameScale(q - m, 0.5, unit);
    SameScale(q - m, -0.5, unit);
  }

  lemma SameScale(a: real, b: real, s: real)
    requires s > 0.0
    ensures a * s == b * s ==> a == b
  {
    assert (a - b) * s == a * s - b * s;
    assert a > b ==> (a - b) * s > 0.0;
    assert b > a ==> (b - a) * s > 0.0;
  }

  lemma RoundToIs(x: real, unit: real)
    requires unit > 0.0
    ensures RoundTo(x, unit) == RoundHalfEven(x / unit) as real * unit
  {
  }

  lemma RoundToMonotone(x: real, y: real, unit: real)
    requires unit > 0.0 && x <= y
    ensures RoundTo(x, unit) <= RoundTo(y, unit)
  {
    RoundToIs(x, unit);
    RoundToIs(y, unit);
    hide RoundTo, RoundHalfEven;
    DivideOrder(x, y, unit);
    RoundMonotone(x / unit, y / unit);
    ScaledOrder(RoundTo(x, unit), RoundTo(y, unit), RoundHalfEven(x / unit), RoundHalfEven(y / unit), unit);
  }

  /** A value that already has at most n decimals is left alone. */
  lemma RoundToExact(x: real, unit: real, units: int)
    requires unit > 0.0
    requires x == units as real * unit
    ensures RoundTo(x, unit) == x
  {
    assert x / unit == units as real;
    assert RoundHalfEven(units as real) == units;
  }

  /** What lies strictly between half a unit and one and a half rounds to the unit. */
  lemma RoundToOne(x: real, unit: real)
    requires unit > 0.0 && unit / 2.0 < x < 1.5 * unit
    ensures RoundTo(x, unit) == unit
  {
    var q := x / unit;
    DivideStrict(0.5 * unit, x, unit);
    DivideStrict(x, 1.5 * unit, unit);
    assert 0.5 * unit / unit == 0.5 && 1.5 * unit / unit == 1.5;
    assert RoundHalfEven(q) == 1;
  }

  lemma ScaledOrder(x: real, y: real, m: int, n: int, unit: real)
    requires unit > 0.0 && m <= n && x == m as real * unit && y == n as real * unit
    ensures x <= y
  {
    ScaleOrder(m as real, n as real, unit);
  }

  lemma ScaleOrder(a: real, b: real, s: real)
    requires s >= 0.0 && a <= b
    ensures a * s <= b * s
  {
    assert (b - a) * s >= 0.0;
  }

  lemma DivideOrder(a: real, b: real, d: real)
    requires d > 0.0 && a <= b
    ensures a / d <= b / d
  {
    var p, q := a / d, b / d;
    assert p * d == a && q * d == b;
    assert p > q ==> (p - q) * d > 0.0;
  }

  lemma DivideStrict(a: real, b: real, d: real)
    requires d > 0.0 && a < b
    ensures a / d < b / d
  {
    var p, q := a / d, b / d;
    assert p * d == a && q * d == b;
    assert p >= q ==> (p - q) * d >= 0.0;
  }
}

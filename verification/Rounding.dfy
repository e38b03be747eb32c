/** Python's `max`, `abs` and `round` (to nearest, ties to even) over exact reals. */
module Rounding {

  function RoundHalfEven(x: real): int {
    var f := x.Floor;
    var rest := x - f as real;
    if rest < 0.5 then f else if rest > 0.5 then f + 1 else if f % 2 == 0 then f else f + 1
  }

  function Max(a: real, b: real): real {
    if a < b then b else a
  }

  function Abs(x: real): real {
    if x < 0.0 then -x else x
  }

  lemma RoundIsNear(x: real)
    ensures Abs(RoundHalfEven(x) as real - x) <= 0.5
  {
    var f := x.Floor;
    assert f as real <= x < f as real + 1.0;
  }

  /** No integer is nearer, and of two as near the even one is taken. */
  lemma RoundIsNearest(x: real, n: int)
    ensures var r := RoundHalfEven(x);
      var here, there := x - r as real, x - n as real;
      && (if here < 0.0 then -here else here) <= (if there < 0.0 then -there else there)
      && (n != r && (if here < 0.0 then -here else here) == (if there < 0.0 then -there else there) ==> r % 2 == 0)
  {
    var f := x.Floor;
    assert f as real <= x < f as real + 1.0;
    assert n <= f ==> n as real <= f as real;
    assert n > f ==> n as real >= f as real + 1.0;
  }

  lemma MaxMeans(a: real, b: real)
    ensures Max(a, b) >= a && Max(a, b) >= b && (Max(a, b) == a || Max(a, b) == b)
  {
  }

  lemma RoundIsMonotone(x: real, y: real)
    requires x <= y
    ensures RoundHalfEven(x) <= RoundHalfEven(y)
  {
    var f, g := x.Floor, y.Floor;
    assert f as real <= x < f as real + 1.0;
    assert g as real <= y < g as real + 1.0;
    assert f <= g;
  }

  lemma RoundOfInt(n: int)
    ensures RoundHalfEven(n as real) == n
  {
    assert (n as real).Floor == n;
  }

  /** `round(x, 3)` */
  function Round3(x: real): real {
    RoundHalfEven(x * 1000.0) as real / 1000.0
  }

  lemma Round3IsNear(x: real)
    ensures -0.0005 <= Round3(x) - x <= 0.0005
  {
    RoundIsNear(x * 1000.0);
  }

  /** `round(x, 6)` */
  function Round6(x: real): real {
    RoundHalfEven(x * 1000000.0) as real / 1000000.0
  }

  lemma Round6IsNear(x: real)
    ensures Abs(Round6(x) - x) <= 0.0000005
  {
    RoundIsNear(x * 1000000.0);
  }

  lemma Round6KeepsSign(x: real)
    ensures x <= 0.0 ==> Round6(x) <= 0.0
  {
    if x <= 0.0 {
      RoundIsMonotone(x * 1000000.0, 0.0);
      RoundOfInt(0);
    }
  }
}

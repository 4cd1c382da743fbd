/** Small facts about products and quotients of reals. */
module RealMath {

  /** Quantity arithmetic by name, so that a proof can leave products and quotients unopened. */
  function MultipliedBy(x: real, y: real): real {
    x * y
  }

  function DividedBy(x: real, y: real): real
    requires y != 0.0
  {
    x / y
  }

  lemma ScaleLe(x: real, y: real, z: real)
    requires x <= y && 0.0 <= z
    ensures x * z <= y * z && z * x <= z * y
  {
  }

  lemma ScaleLt(x: real, y: real, z: real)
    requires x < y && 0.0 < z
    ensures x * z < y * z && z * x < z * y
  {
  }

  lemma DivideTimes(x: real, c: real)
    requires c != 0.0
    ensures x / c * c == x
  {
  }

  lemma Cancel(x: real, y: real, c: real)
    requires c != 0.0 && x * c == y * c
    ensures x == y
  {
    assert (x - y) * c == 0.0;
  }

  /** Comparing a quotient with a bound is comparing the numerator with the bound times the denominator. */
  lemma DivideCompare(x: real, c: real, bound: real)
    requires 0.0 < c
    ensures x / c < bound <==> x < bound * c
    ensures x / c > bound <==> x > bound * c
    ensures x / c == bound <==> x == bound * c
  {
    var r := x / c;
    DivideTimes(x, c);
    if r < bound {
      ScaleLt(r, bound, c);
    } else if bound < r {
      ScaleLt(bound, r, c);
    }
  }

  lemma DivideSum(x: real, y: real, c: real)
    requires c != 0.0
    ensures (x + y) / c == x / c + y / c
    ensures (x - y) / c == x / c - y / c
  {
  }

  lemma DivideLe(x: real, y: real, c: real)
    requires 0.0 < c && x <= y
    ensures x / c <= y / c
  {
    DivideTimes(y, c);
    DivideCompare(x, c, y / c);
  }

  lemma DivideScaled(x: real, t: real, c: real)
    requires c != 0.0
    ensures (x / c) * t == (x * t) / c
  {
  }

  /** The least integer at or above `x`. */
  function Ceil(x: real): (n: int)
    ensures x <= n as real < x + 1.0
  {
    -((-x).Floor)
  }
}

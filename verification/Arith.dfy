/** Nonlinear arithmetic facts shared by the other modules. */
module Arith {

  lemma MulMono(a: int, b: int, c: int)
    requires a <= b && 0 <= c
    ensures a * c <= b * c && c * a <= c * b
  {
    assert (b - a) * c >= 0;
  }

  /** Quotient and remainder are determined by their defining equation. */
  lemma DivModUnique(x: int, d: int, q: int, r: int)
    requires d > 0 && x == d * q + r && 0 <= r < d
    ensures x / d == q && x % d == r
  {
    var k := q - x / d;
    assert d * k == x % d - r by {
      assert x == d * (x / d) + x % d;
      assert d * k == d * q - d * (x / d);
    }
    if k >= 1 { MulMono(1, k, d); }
    if k <= -1 { MulMono(k, -1, d); }
  }

  lemma SmallMod(x: int, d: int)
    requires 0 <= x < d
    ensures x % d == x && x / d == 0
  {
    DivModUnique(x, d, 0, x);
  }

  lemma ModAdd(x: int, y: int, m: int)
    requires m > 0
    ensures (x % m + y) % m == (x + y) % m
  {
    var s := x % m + y;
    assert x + y == m * (x / m + s / m) + s % m;
    DivModUnique(x + y, m, x / m + s / m, s % m);
  }

  /** `x / d` is the largest multiplier of `d` that stays at or below `x`. */
  lemma DivIsFloor(x: int, d: int, q: int)
    requires d > 0
    ensures d * (x / d) <= x < d * (x / d) + d
    ensures d * q <= x <==> q <= x / d
  {
    if q <= x / d { MulMono(q, x / d, d); }
    if q > x / d { MulMono(x / d + 1, q, d); assert d * (x / d + 1) == d * (x / d) + d; }
  }

  lemma DivMono(x: int, y: int, d: int)
    requires d > 0 && x <= y
    ensures x / d <= y / d
  {
    DivIsFloor(x, d, x / d);
    DivIsFloor(y, d, x / d);
  }

  lemma DivDiv(x: nat, a: nat, b: nat)
    requires a > 0 && b > 0
    ensures a * b > 0 && x / a / b == x / (a * b)
  {
    MulMono(1, a, b);
    var q, r := x / a, x % a;
    var q2, r2 := q / b, q % b;
    MulMono(r2, b - 1, a);
    assert a * (b - 1) == a * b - a;
    assert x == a * (b * q2 + r2) + r;
    assert a * (b * q2 + r2) == (a * b) * q2 + a * r2;
    DivModUnique(x, a * b, q2, a * r2 + r);
  }
}

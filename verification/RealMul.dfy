/** Real multiplication under a name, so that proofs can use its laws one at a time. */
module RealMul {

  function Mul(x: real, y: real): real { x * y }

  lemma Comm(x: real, y: real)
    ensures Mul(x, y) == Mul(y, x)
  {
  }

  lemma Assoc(x: real, y: real, z: real)
    ensures Mul(Mul(x, y), z) == Mul(x, Mul(y, z))
  {
  }

  lemma Units(x: real)
    ensures Mul(1.0, x) == x == Mul(x, 1.0) && Mul(0.0, x) == 0.0 == Mul(x, 0.0)
  {
  }

  lemma Distrib(x: real, y: real, z: real)
    ensures Mul(x + y, z) == Mul(x, z) + Mul(y, z) && Mul(z, x + y) == Mul(z, x) + Mul(z, y)
    ensures Mul(x - y, z) == Mul(x, z) - Mul(y, z) && Mul(z, x - y) == Mul(z, x) - Mul(z, y)
  {
  }

  lemma Positive(x: real, y: real)
    ensures 0.0 <= x && 0.0 <= y ==> 0.0 <= Mul(x, y)
    ensures 0.0 < x && 0.0 < y ==> 0.0 < Mul(x, y)
  {
  }

  lemma Mono(a: real, b: real, c: real)
    requires a <= b && 0.0 <= c
    ensures Mul(a, c) <= Mul(b, c) && Mul(c, a) <= Mul(c, b)
    ensures a < b && 0.0 < c ==> Mul(a, c) < Mul(b, c) && Mul(c, a) < Mul(c, b)
  {
    hide Mul;
    Positive(b - a, c);
    Distrib(b, a, c);
    Comm(b - a, c);
  }

  lemma Mono2(a: real, b: real, c: real, d: real)
    requires 0.0 <= a <= b && 0.0 <= c <= d
    ensures 0.0 <= Mul(a, c) <= Mul(b, d)
  {
    hide Mul;
    Positive(a, c);
    Mono(a, b, c);
    Mono(c, d, b);
  }

  lemma Swap(a: real, b: real, c: real, d: real)
    ensures Mul(Mul(a, b), Mul(c, d)) == Mul(Mul(a, c), Mul(b, d))
  {
    hide Mul;
    Assoc(a, b, Mul(c, d));
    Assoc(b, c, d);
    Comm(b, c);
    Assoc(c, b, d);
    Assoc(a, c, Mul(b, d));
  }

  lemma OfInts(m: int, n: int)
    ensures Mul(m as real, n as real) == (m * n) as real
  {
  }

  lemma Quotient(a: real, b: real)
    requires b > 0.0
    ensures Mul(a / b, b) == a
  {
  }

  /** Comparing with a quotient is comparing products. */
  lemma DivIs(a: real, b: real, y: real)
    requires b > 0.0
    ensures Mul(a / b, b) == a
    ensures Mul(y, b) == a ==> y == a / b
    ensures Mul(y, b) <= a ==> y <= a / b
    ensures Mul(y, b) >= a ==> y >= a / b
    ensures Mul(y, b) < a ==> y < a / b
    ensures Mul(y, b) > a ==> y > a / b
  {
    hide Mul;
    var q := a / b;
    Quotient(a, b);
    if y <= q { Mono(y, q, b); }
    if q <= y { Mono(q, y, b); }
  }
}

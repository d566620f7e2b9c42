/** Facts about products and floored quotients. */
module Arithmetic {

  lemma Distributes(a: int, b: int, d: int)
    ensures (a - b) * d == a * d - b * d
    ensures (a + b) * d == a * d + b * d
  {
  }

  lemma Associates(a: int, b: int, c: int)
    ensures a * b * c == a * (b * c)
  {
  }

  lemma MulMonotone(x: nat, y: nat, k: nat)
    requires x <= y
    ensures 0 <= x * k <= y * k
  {
    Distributes(y, x, k);
  }

  /** A positive factor cannot hide how large the other one is. */
  lemma FactorGrows(x: nat, k: nat)
    requires k > 0
    ensures x * k >= x && k * x >= x
  {
    MulMonotone(1, k, x);
  }

  lemma DivMod(n: nat, d: nat)
    requires d > 0
    ensures n / d * d + n % d == n && 0 <= n / d && 0 <= n % d < d
  {
  }

  lemma MulGap(k: int, d: int, e: int)
    requires k * d == e && -d < e < d
    ensures k == 0
  {
    assert k >= 1 ==> (k - 1) * d >= 0;
    assert k <= -1 ==> (-k - 1) * d >= 0;
  }

  lemma QuotientUnique(n: nat, d: nat, q: int, r: int)
    requires d > 0 && n == q * d + r && 0 <= r < d
    ensures n / d == q
  {
    DivMod(n, d);
    Distributes(q, n / d, d);
    MulGap(q - n / d, d, n % d - r);
  }

  /** Dividing twice is dividing by the product. */
  lemma DivTwice(x: nat, a: nat, b: nat)
    requires a > 0 && b > 0
    ensures a * b > 0 && x / a / b == x / (a * b)
  {
    FactorGrows(a, b);
    var q, r := x / a, x % a;
    var p, m := q / b, q % b;
    DivMod(x, a);
    DivMod(q, b);
    Distributes(p * b, m, a);
    Associates(p, b, a);
    MulMonotone(m, b - 1, a);
    Distributes(b, 1, a);
    QuotientUnique(x, a * b, p, m * a + r);
  }

  /** A common factor cancels from a floored quotient. */
  lemma DivCancels(x: nat, y: nat, k: nat)
    requires y > 0 && k > 0
    ensures y * k > 0 && x * k / (y * k) == x / y
  {
    var q, r := x / y, x % y;
    DivMod(x, y);
    Distributes(q * y, r, k);
    Associates(q, y, k);
    MulMonotone(1, y - r, k);
    Distributes(y, r, k);
    MulMonotone(0, r, k);
    QuotientUnique(x * k, y * k, q, r * k);
  }

  /** The floors of two quotients add up to no more than the floor of their sum. */
  lemma FloorAdds(x: nat, y: nat, d: nat)
    requires d > 0
    ensures x / d + y / d <= (x + y) / d
  {
    DivMod(x, d);
    DivMod(y, d);
    var p, q, r := x / d, y / d, x % d + y % d;
    Distributes(p, q, d);
    if r < d {
      QuotientUnique(x + y, d, p + q, r);
    } else {
      Distributes(p + q, 1, d);
      QuotientUnique(x + y, d, p + q + 1, r - d);
    }
  }
}

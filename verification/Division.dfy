// Quotients and remainders of natural numbers, which the layouts of an id are read back by.
module Division {
  lemma MulMonotone(a: int, b: int, d: nat)
    requires a < b
    ensures a * d + d <= b * d
  {
    var k: nat := b - a - 1;
    assert (a + 1 + k) * d == a * d + d + k * d;
  }

  // A quotient and a remainder are known when they fit.
  lemma Divides(value: nat, d: nat, q: nat, r: nat)
    requires r < d && value == q * d + r
    ensures value / d == q && value % d == r
  {
    var q' := value / d;
    assert value == q' * d + value % d;
    if q' < q {
      MulMonotone(q', q, d);
    } else if q < q' {
      MulMonotone(q, q', d);
    }
  }
}

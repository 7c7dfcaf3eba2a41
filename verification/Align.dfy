// Multiples of a page or of an alignment.
module Align {
  predicate Aligned(x: nat, a: nat) {
    a > 0 && x % a == 0
  }

  function RoundDown(x: nat, a: nat): nat
    requires a > 0
  {
    x - x % a
  }

  lemma Order(a: nat, b: nat, n: nat)
    ensures a <= b ==> a * n <= b * n
    ensures a < b ==> a * n + n <= b * n
  {
    if a < b {
      var d := b - a - 1;
      assert b * n == a * n + n + d * n;
      assert d * n >= 0;
    }
  }

  lemma Quotient(x: nat, a: nat) returns (q: nat)
    requires a > 0
    ensures x == q * a + x % a && x % a < a && q == x / a
  {
    q := x / a;
  }

  lemma AlignedGap(x: nat, y: nat, a: nat)
    requires Aligned(x, a) && Aligned(y, a)
    ensures x < y ==> x + a <= y
  {
    var p := Quotient(x, a);
    var q := Quotient(y, a);
    Order(p, q, a);
    Order(q, p, a);
  }

  lemma SelfAligned(a: nat)
    requires a > 0
    ensures Aligned(0, a) && Aligned(a, a)
  {
  }

  lemma MultipleAligned(q: nat, a: nat)
    requires a > 0
    ensures Aligned(q * a, a) && q * a / a == q
  {
    var p := Quotient(q * a, a);
    Order(p, q, a);
    Order(q, p, a);
    Order(q + 1, p, a);
  }

  lemma AlignedSum(x: nat, y: nat, a: nat)
    requires Aligned(x, a) && Aligned(y, a)
    ensures Aligned(x + y, a)
  {
    var p := Quotient(x, a);
    var q := Quotient(y, a);
    MultipleAligned(p + q, a);
    assert (p + q) * a == p * a + q * a;
  }

  lemma AlignedDifference(x: nat, y: nat, a: nat)
    requires Aligned(x, a) && Aligned(y, a) && x <= y
    ensures Aligned(y - x, a)
  {
    var p := Quotient(x, a);
    var q := Quotient(y, a);
    Order(q, p, a);
    if p <= q {
      MultipleAligned(q - p, a);
      assert (q - p) * a == q * a - p * a;
    }
  }

  lemma AlignedThrough(x: nat, a: nat, b: nat)
    requires Aligned(x, a) && Aligned(a, b)
    ensures Aligned(x, b)
  {
    var p := Quotient(x, a);
    var q := Quotient(a, b);
    MultipleAligned(p * q, b);
    assert p * q * b == p * (q * b);
  }

  lemma RoundedDown(x: nat, a: nat)
    requires a > 0
    ensures RoundDown(x, a) <= x < RoundDown(x, a) + a && Aligned(RoundDown(x, a), a)
  {
    var q := Quotient(x, a);
    MultipleAligned(q, a);
  }
}

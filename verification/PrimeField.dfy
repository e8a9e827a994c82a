/** Scalars of a prime field, as integers below a prime: the operations the coin tosser takes from its
    group library, and the congruences they satisfy. */
module PrimeField {

  ghost predicate Prime(p: int) {
    p > 1 && forall d :: 1 < d < p ==> p % d != 0
  }

  function Mul(p: int, a: int, b: int): int
    requires p > 0
  {
    (a * b) % p
  }

  function Neg(p: int, a: int): int
    requires p > 0
  {
    (-a) % p
  }

  function Sub(p: int, a: int, b: int): int
    requires p > 0
  {
    (a - b) % p
  }

  // Extended Euclid.
  function Bezout(a: nat, b: nat): (r: (int, int, int))
    ensures a * r.1 + b * r.2 == r.0
    decreases b
  {
    if b == 0 then (a, 1, 0)
    else
      var (g, x, y) := Bezout(b, a % b);
      BezoutStep(a, b, g, x, y);
      (g, y, x - (a / b) * y)
  }

  lemma BezoutStep(a: nat, b: nat, g: int, x: int, y: int)
    requires b > 0 && b * x + (a % b) * y == g
    ensures a * y + b * (x - (a / b) * y) == g
  {
    assert a == b * (a / b) + a % b;
    assert a * y == (b * (a / b) + a % b) * y;
  }

  function Inv(p: int, a: int): int
    requires p > 0
  {
    Bezout(a % p, p).1 % p
  }

  // ---- congruence modulo p

  ghost predicate Eq(p: int, a: int, b: int)
    requires p > 0
  {
    (a - b) % p == 0
  }

  lemma MultipleMod(p: int, m: int)
    requires p > 0
    ensures (p * m) % p == 0
  {
    var q, r := (p * m) / p, (p * m) % p;
    assert p * m == p * q + r;
    assert p * (m - q) == r;
    Small(p, m - q);
  }

  lemma Small(p: int, k: int)
    requires -p < p * k < p
    ensures k == 0
  {
  }

  lemma EqBy(p: int, a: int, b: int, m: int)
    requires p > 0 && a == b + p * m
    ensures Eq(p, a, b)
  {
    MultipleMod(p, m);
  }

  lemma EqFactor(p: int, a: int, b: int) returns (m: int)
    requires p > 0 && Eq(p, a, b)
    ensures a == b + p * m
  {
    m := (a - b) / p;
  }

  lemma EqMod(p: int, a: int)
    requires p > 0
    ensures Eq(p, a % p, a) && Eq(p, a, a % p)
  {
    EqBy(p, a, a % p, a / p);
    EqBy(p, a % p, a, -(a / p));
  }

  lemma EqTrans(p: int, a: int, b: int, c: int)
    requires p > 0 && Eq(p, a, b) && Eq(p, b, c)
    ensures Eq(p, a, c)
  {
    var k := EqFactor(p, a, b);
    var l := EqFactor(p, b, c);
    assert p * k + p * l == p * (k + l);
    EqBy(p, a, c, k + l);
  }

  lemma EqSym(p: int, a: int, b: int)
    requires p > 0 && Eq(p, a, b)
    ensures Eq(p, b, a)
  {
    var k := EqFactor(p, a, b);
    EqBy(p, b, a, -k);
  }

  lemma EqAdd(p: int, a: int, b: int, c: int, d: int)
    requires p > 0 && Eq(p, a, b) && Eq(p, c, d)
    ensures Eq(p, a + c, b + d)
  {
    var k := EqFactor(p, a, b);
    var l := EqFactor(p, c, d);
    assert p * k + p * l == p * (k + l);
    EqBy(p, a + c, b + d, k + l);
  }

  lemma EqMul(p: int, a: int, b: int, c: int, d: int)
    requires p > 0 && Eq(p, a, b) && Eq(p, c, d)
    ensures Eq(p, a * c, b * d)
  {
    var k := EqFactor(p, a, b);
    var l := EqFactor(p, c, d);
    var m := k * d + a * l;
    assert a * c == a * (d + p * l) == a * d + p * (a * l);
    assert a * d == (b + p * k) * d == b * d + p * (k * d);
    assert p * m == p * (k * d) + p * (a * l);
    EqBy(p, a * c, b * d, m);
  }

  lemma EqScale(p: int, k: int, a: int, b: int)
    requires p > 0 && Eq(p, a, b)
    ensures Eq(p, k * a, k * b)
  {
    MultipleMod(p, 0);
    EqMul(p, k, k, a, b);
  }

  // Equal residues.
  lemma EqResidue(p: int, a: int, b: int)
    requires p > 0 && Eq(p, a, b)
    ensures a % p == b % p
  {
    EqMod(p, a);
    EqMod(p, b);
    EqTrans(p, a % p, a, b);
    EqTrans(p, a % p, b, b % p);
    var m := EqFactor(p, a % p, b % p);
    Small(p, m);
  }

  // ---- inverses

  lemma DividesSum(g: int, a: int, b: int, k: int)
    requires g > 0 && a % g == 0 && b % g == 0
    ensures (a + k * b) % g == 0
  {
    var m, l := a / g, b / g;
    assert a + k * b == g * m + k * (g * l) == g * (m + k * l);
    MultipleMod(g, m + k * l);
  }

  lemma {:induction false} GcdDivides(a: nat, b: nat)
    requires a > 0 || b > 0
    ensures var g := Bezout(a, b).0; g > 0 && a % g == 0 && b % g == 0
    decreases b
  {
    if b == 0 {
      MultipleMod(a, 1);
      MultipleMod(a, 0);
    } else {
      var g := Bezout(b, a % b).0;
      GcdDivides(b, a % b);
      DividesSum(g, a % b, b, a / b);
      assert a == a % b + (a / b) * b;
      assert Bezout(a, b).0 == g;
    }
  }

  lemma DivisorBound(g: int, r: int)
    requires g > 0 && r > 0 && r % g == 0
    ensures g <= r
  {
  }

  lemma UnitGcd(p: int, r: int)
    requires Prime(p) && 0 < r < p
    ensures Bezout(r, p).0 == 1
  {
    GcdDivides(r, p);
    DivisorBound(Bezout(r, p).0, r);
  }

  lemma InverseLaw(p: int, a: int)
    requires Prime(p) && a % p != 0
    ensures Eq(p, a * Inv(p, a), 1)
  {
    var r := a % p;
    var x, y := Bezout(r, p).1, Bezout(r, p).2;
    UnitGcd(p, r);
    EqBy(p, r * x, 1, -y);
    EqMod(p, x);
    EqMod(p, a);
    EqMul(p, a, r, x % p, x);
    EqTrans(p, a * (x % p), r * x, 1);
  }

  lemma ProductNonzero(p: int, a: int, b: int)
    requires Prime(p) && a % p != 0 && b % p != 0
    ensures (a * b) % p != 0
  {
    if (a * b) % p == 0 {
      var i := Inv(p, a);
      InverseLaw(p, a);
      EqScale(p, b, a * i, 1);
      EqScale(p, i, a * b, 0);
      assert b * (a * i) == i * (a * b);
      EqSym(p, b * (a * i), b);
      EqTrans(p, b, i * (a * b), 0);
    }
  }

  // A nonzero factor cancels.
  lemma Cancel(p: int, d: int, a: int, b: int)
    requires Prime(p) && d % p != 0 && Eq(p, d * a, d * b)
    ensures Eq(p, a, b)
  {
    assert d * (a - b) == d * a - d * b;
    if (a - b) % p != 0 {
      ProductNonzero(p, d, a - b);
    }
  }
}

/** Recovery of a shared secret "in the exponent": Lagrange interpolation at zero of points that hide
    the evaluations of a polynomial, over any prime field and any group it acts on. */
module Lagrange {
  import opened PrimeField

  // The group operations on points: addition, and multiplication by a scalar below p.
  datatype Points<!G> = Points(add: (G, G) -> G, mul: (G, int) -> G)

  ghost predicate IsModule<G(!new)>(p: int, ops: Points<G>)
    requires p > 0
  {
    && (forall x, a, b :: 0 <= a < p && 0 <= b < p ==> ops.add(ops.mul(x, a), ops.mul(x, b)) == ops.mul(x, (a + b) % p))
    && (forall x, a, b :: 0 <= a < p && 0 <= b < p ==> ops.mul(ops.mul(x, a), b) == ops.mul(x, (a * b) % p))
  }

  // ---- the program

  datatype PointShare<G> = PointShare(id: int, point: G)

  function Others(i: int, indices: seq<int>): seq<int> {
    if indices == [] then []
    else
      var k := |indices| - 1;
      Others(i, indices[..k]) + (if indices[k] != i then [indices[k]] else [])
  }

  function Numerator(p: int, js: seq<int>): int
    requires p > 0
  {
    if js == [] then 1 else Mul(p, Neg(p, js[|js| - 1]), Numerator(p, js[..|js| - 1]))
  }

  function Denominator(p: int, i: int, js: seq<int>): int
    requires p > 0
  {
    if js == [] then 1 else Mul(p, Denominator(p, i, js[..|js| - 1]), Sub(p, i, js[|js| - 1]))
  }

  function LagrangeCoefficient(p: int, i: int, indices: seq<int>): int
    requires p > 0
  {
    Mul(p, Numerator(p, Others(i, indices)), Inv(p, Denominator(p, i, Others(i, indices))))
  }

  function Ids<G>(shares: seq<PointShare<G>>): seq<int> {
    seq(|shares|, i requires 0 <= i < |shares| => shares[i].id)
  }

  function AddTerms<G>(p: int, ops: Points<G>, shares: seq<PointShare<G>>, indices: seq<int>): G
    requires p > 0 && shares != []
  {
    var k := |shares| - 1;
    var term := ops.mul(shares[k].point, LagrangeCoefficient(p, shares[k].id, indices));
    if k == 0 then term else ops.add(AddTerms(p, ops, shares[..k], indices), term)
  }

  function RecoverSecretFromPoints<G>(p: int, ops: Points<G>, shares: seq<PointShare<G>>): G
    requires p > 0 && shares != []
  {
    AddTerms(p, ops, shares, Ids(shares))
  }

  // ---- polynomials, lowest coefficient first

  function Eval(poly: seq<int>, x: int): int {
    if poly == [] then 0 else poly[0] + x * Eval(poly[1..], x)
  }

  // Synthetic division by (x - y).
  function Quotient(poly: seq<int>, y: int): seq<int>
    requires poly != []
  {
    if |poly| == 1 then [] else [Eval(poly[1..], y)] + Quotient(poly[1..], y)
  }

  lemma {:induction false} Division(poly: seq<int>, y: int, x: int)
    requires poly != []
    ensures |Quotient(poly, y)| == |poly| - 1
    ensures Eval(poly, x) == Eval(poly, y) + (x - y) * Eval(Quotient(poly, y), x)
  {
    if |poly| > 1 {
      var b := poly[1..];
      var q := Quotient(b, y);
      Division(b, y, x);
      assert Quotient(poly, y) == [Eval(b, y)] + q;
      assert ([Eval(b, y)] + q)[1..] == q;
      assert Eval(Quotient(poly, y), x) == Eval(b, y) + x * Eval(q, x);
      DivisionStep(poly[0], x, y, Eval(b, x), Eval(b, y), Eval(q, x));
    } else {
      assert Eval(poly[1..], x) == 0 && Eval(poly[1..], y) == 0;
    }
  }

  lemma DivisionStep(a: int, x: int, y: int, b1: int, b0: int, qx: int)
    requires b1 == b0 + (x - y) * qx
    ensures a + x * b1 == (a + y * b0) + (x - y) * (b0 + x * qx)
  {
    assert x * b1 == x * b0 + x * ((x - y) * qx);
    assert x * ((x - y) * qx) == (x - y) * (x * qx);
  }

  // ---- coefficients after dropping one index

  // Ids are reduced and pairwise distinct.
  ghost predicate Distinct(p: int, xs: seq<int>) {
    && (forall i :: 0 <= i < |xs| ==> 0 <= xs[i] < p)
    && (forall i, j :: 0 <= i < j < |xs| ==> xs[i] != xs[j])
  }

  lemma {:induction false} OthersFront(i: int, y: int, s: seq<int>)
    ensures Others(i, [y] + s) == (if y != i then [y] else []) + Others(i, s)
  {
    if s != [] {
      var k := |s| - 1;
      OthersFront(i, y, s[..k]);
      assert ([y] + s)[..|s|] == [y] + s[..k];
    }
  }

  // A product of residues is congruent to the product.
  lemma ResidueProduct(p: int, a: int, k: int)
    requires p > 0
    ensures Eq(p, Mul(p, a % p, k), a * k) && Eq(p, Mul(p, k, a % p), a * k)
  {
    var r := a % p;
    EqMod(p, a);
    EqMod(p, r * k);
    EqScale(p, k, r, a);
    EqTrans(p, Mul(p, r, k), r * k, a * k);
  }

  lemma NumeratorBack(p: int, js: seq<int>, y: int)
    requires p > 0
    ensures Eq(p, Numerator(p, js + [y]), -y * Numerator(p, js))
  {
    assert (js + [y])[..|js|] == js;
    ResidueProduct(p, -y, Numerator(p, js));
  }

  lemma DenominatorBack(p: int, i: int, js: seq<int>, y: int)
    requires p > 0
    ensures Eq(p, Denominator(p, i, js + [y]), (i - y) * Denominator(p, i, js))
  {
    assert (js + [y])[..|js|] == js;
    ResidueProduct(p, i - y, Denominator(p, i, js));
  }

  // Factors come out in either order: a = l * (y * c) and d = l * c give a = y * d.
  lemma Reordered(p: int, a: int, b: int, c: int, d: int, l: int, y: int)
    requires p > 0 && Eq(p, a, l * b) && Eq(p, b, y * c) && Eq(p, d, l * c)
    ensures Eq(p, a, y * d)
  {
    EqScale(p, l, b, y * c);
    EqTrans(p, a, l * b, l * (y * c));
    EqScale(p, y, d, l * c);
    EqSym(p, y * d, y * (l * c));
    assert l * (y * c) == y * (l * c);
    EqTrans(p, a, y * (l * c), y * d);
  }

  lemma {:induction false} NumeratorFront(p: int, y: int, js: seq<int>)
    requires p > 0
    ensures Eq(p, Numerator(p, [y] + js), -y * Numerator(p, js))
  {
    if js == [] {
      NumeratorBack(p, [], y);
      assert [] + [y] == [y] + js;
    } else {
      var k := |js| - 1;
      var l, rest := js[k], js[..k];
      NumeratorFront(p, y, rest);
      NumeratorBack(p, [y] + rest, l);
      NumeratorBack(p, rest, l);
      assert [y] + rest + [l] == [y] + js && rest + [l] == js;
      Reordered(p, Numerator(p, [y] + js), Numerator(p, [y] + rest), Numerator(p, rest), Numerator(p, js), -l, -y);
    }
  }

  lemma {:induction false} DenominatorFront(p: int, i: int, y: int, js: seq<int>)
    requires p > 0
    ensures Eq(p, Denominator(p, i, [y] + js), (i - y) * Denominator(p, i, js))
  {
    if js == [] {
      DenominatorBack(p, i, [], y);
      assert [] + [y] == [y] + js;
    } else {
      var k := |js| - 1;
      var l, rest := js[k], js[..k];
      DenominatorFront(p, i, y, rest);
      DenominatorBack(p, i, [y] + rest, l);
      DenominatorBack(p, i, rest, l);
      assert [y] + rest + [l] == [y] + js && rest + [l] == js;
      Reordered(p, Denominator(p, i, [y] + js), Denominator(p, i, [y] + rest), Denominator(p, i, rest), Denominator(p, i, js), i - l, i - y);
    }
  }

  lemma DifferenceNonzero(p: int, a: int, b: int)
    requires p > 0 && 0 <= a < p && 0 <= b < p && a != b
    ensures (a - b) % p != 0
  {
    if (a - b) % p == 0 {
      var m := EqFactor(p, a, b);
      Small(p, m);
    }
  }

  lemma {:induction false} DenominatorNonzero(p: int, i: int, js: seq<int>)
    requires Prime(p) && 0 <= i < p && forall k :: 0 <= k < |js| ==> 0 <= js[k] < p && js[k] != i
    ensures Denominator(p, i, js) % p != 0
  {
    if js != [] {
      var k := |js| - 1;
      var d := Denominator(p, i, js[..k]);
      DenominatorNonzero(p, i, js[..k]);
      DifferenceNonzero(p, i, js[k]);
      ResidueNonzero(p, i - js[k]);
      ProductNonzero(p, d, Sub(p, i, js[k]));
      ResidueNonzero(p, d * Sub(p, i, js[k]));
    }
  }

  lemma ResidueNonzero(p: int, a: int)
    requires p > 0 && a % p != 0
    ensures (a % p) % p != 0
  {
    EqMod(p, a);
    EqResidue(p, a % p, a);
  }

  // Multiplying by the dropped factor: (i - y) * L over the longer list is -y * L over the shorter.
  lemma CoefficientStep(p: int, i: int, y: int, num: int, num': int, den: int, den': int)
    requires Prime(p) && Eq(p, num', -y * num) && Eq(p, den', (i - y) * den)
    requires den % p != 0 && den' % p != 0
    ensures Eq(p, (i - y) * Mul(p, num', Inv(p, den')), -y * Mul(p, num, Inv(p, den)))
  {
    // both sides times den, which cancels, are -y * num
    var c, c', d := Mul(p, num, Inv(p, den)), Mul(p, num', Inv(p, den')), i - y;
    Fraction(p, num, den);
    Fraction(p, num', den');
    LongSide(p, d, y, num, num', den, den', c');
    ShortSide(p, y, num, den, c);
    EqSym(p, den * (-y * c), -y * num);
    EqTrans(p, den * (d * c'), -y * num, den * (-y * c));
    Cancel(p, den, d * c', -y * c);
  }

  lemma LongSide(p: int, d: int, y: int, num: int, num': int, den: int, den': int, c': int)
    requires p > 0 && Eq(p, den', d * den) && Eq(p, den' * c', num') && Eq(p, num', -y * num)
    ensures Eq(p, den * (d * c'), -y * num)
  {
    EqScale(p, c', den', d * den);
    assert c' * (d * den) == den * (d * c');
    EqSym(p, c' * den', den * (d * c'));
    EqTrans(p, den * (d * c'), den' * c', num');
    EqTrans(p, den * (d * c'), num', -y * num);
  }

  lemma ShortSide(p: int, y: int, num: int, den: int, c: int)
    requires p > 0 && Eq(p, den * c, num)
    ensures Eq(p, den * (-y * c), -y * num)
  {
    EqScale(p, -y, den * c, num);
    assert -y * (den * c) == den * (-y * c);
  }

  lemma Fraction(p: int, num: int, den: int)
    requires Prime(p) && den % p != 0
    ensures Eq(p, den * Mul(p, num, Inv(p, den)), num)
  {
    var i := Inv(p, den);
    InverseLaw(p, den);
    EqMod(p, num * i);
    EqScale(p, den, Mul(p, num, i), num * i);
    EqScale(p, num, den * i, 1);
    assert den * (num * i) == num * (den * i);
    EqTrans(p, den * Mul(p, num, i), num * (den * i), num);
  }

  lemma {:induction false} OthersRange(p: int, i: int, xs: seq<int>)
    requires Distinct(p, xs)
    ensures forall k :: 0 <= k < |Others(i, xs)| ==> 0 <= Others(i, xs)[k] < p && Others(i, xs)[k] != i
  {
    if xs != [] {
      OthersRange(p, i, xs[..|xs| - 1]);
    }
  }

  // Dropping the last, or the first, index y of a list other than i.
  lemma DropLast(p: int, i: int, s: seq<int>, y: int)
    requires Prime(p) && Distinct(p, s + [y]) && 0 <= i < p && i != y
    ensures Eq(p, (i - y) * LagrangeCoefficient(p, i, s + [y]), -y * LagrangeCoefficient(p, i, s))
  {
    var js := Others(i, s);
    assert (s + [y])[..|s|] == s;
    assert Others(i, s + [y]) == js + [y];
    assert Distinct(p, s) by {
      assert forall k :: 0 <= k < |s| ==> (s + [y])[k] == s[k];
    }
    OthersRange(p, i, s);
    OthersRange(p, i, s + [y]);
    NumeratorBack(p, js, y);
    DenominatorBack(p, i, js, y);
    DenominatorNonzero(p, i, js);
    DenominatorNonzero(p, i, js + [y]);
    CoefficientStep(p, i, y, Numerator(p, js), Numerator(p, js + [y]), Denominator(p, i, js), Denominator(p, i, js + [y]));
  }

  lemma DropFirst(p: int, i: int, y: int, s: seq<int>)
    requires Prime(p) && Distinct(p, [y] + s) && 0 <= i < p && i != y
    ensures Eq(p, (i - y) * LagrangeCoefficient(p, i, [y] + s), -y * LagrangeCoefficient(p, i, s))
  {
    var js := Others(i, s);
    OthersFront(i, y, s);
    assert Distinct(p, s) by {
      assert forall k :: 0 <= k < |s| ==> ([y] + s)[k + 1] == s[k];
    }
    OthersRange(p, i, s);
    OthersRange(p, i, [y] + s);
    NumeratorFront(p, y, js);
    DenominatorFront(p, i, y, js);
    DenominatorNonzero(p, i, js);
    DenominatorNonzero(p, i, [y] + js);
    CoefficientStep(p, i, y, Numerator(p, js), Numerator(p, [y] + js), Denominator(p, i, js), Denominator(p, i, [y] + js));
  }

  // ---- sums of weighted coefficients

  // The interpolation sum over the part `xs` of the list `all`.
  ghost function Sum(p: int, poly: seq<int>, xs: seq<int>, all: seq<int>): int
    requires p > 0
  {
    if xs == [] then 0
    else
      var k := |xs| - 1;
      Sum(p, poly, xs[..k], all) + Eval(poly, xs[k]) * LagrangeCoefficient(p, xs[k], all)
  }

  // A sum after one more summand v * c.
  ghost predicate OneMore(total: int, part: int, v: int, c: int) {
    total == part + v * c
  }

  lemma {:induction false} SumFront(p: int, poly: seq<int>, y: int, s: seq<int>, all: seq<int>)
    requires p > 0
    ensures OneMore(Sum(p, poly, [y] + s, all), Sum(p, poly, s, all), Eval(poly, y), LagrangeCoefficient(p, y, all))
  {
    if s == [] {
      assert ([y] + s)[..0] == [];
    } else {
      var k := |s| - 1;
      SumFront(p, poly, y, s[..k], all);
      assert ([y] + s)[..|s|] == [y] + s[..k];
    }
  }

  // One summand: f(x) * c with f(x) = f(y) + (x - y) * q(x) and (x - y) * c = -y * d.
  lemma Summand(p: int, fx: int, fy: int, qx: int, x: int, y: int, c: int, d: int)
    requires p > 0 && fx == fy + (x - y) * qx && Eq(p, (x - y) * c, -y * d)
    ensures Eq(p, fx * c, fy * c + -y * (qx * d))
  {
    EqScale(p, qx, (x - y) * c, -y * d);
    assert fx * c == fy * c + qx * ((x - y) * c) by {
      assert ((x - y) * qx) * c == qx * ((x - y) * c);
    }
    assert qx * (-y * d) == -y * (qx * d);
    MultipleMod(p, 0);
    EqAdd(p, fy * c, fy * c, qx * ((x - y) * c), -y * (qx * d));
  }

  // The polynomials 1 and x.
  const One: seq<int> := [1]
  const Var: seq<int> := [0, 1]

  lemma EvalOneVar(x: int)
    ensures Eval(One, x) == 1 && Eval(Var, x) == x
  {
    assert Eval(One[1..], x) == 0;
    assert Var[1..] == One;
  }

  // f(x) = f(y) + (x - y) * q(x) everywhere.
  ghost predicate DividesBy(f: seq<int>, q: seq<int>, y: int) {
    forall x :: Divided(f, q, y, x)
  }

  ghost predicate Divided(f: seq<int>, q: seq<int>, y: int, x: int) {
    Eval(f, x) == Eval(f, y) + (x - y) * Eval(q, x)
  }

  // The coefficient of x over `all` is that over `s` with the factor for y taken out.
  ghost predicate Dropped(p: int, y: int, x: int, all: seq<int>, s: seq<int>)
    requires p > 0
  {
    Eq(p, (x - y) * LagrangeCoefficient(p, x, all), -y * LagrangeCoefficient(p, x, s))
  }

  // total = f(y) * unit - y * rest.
  ghost predicate SplitsAt(p: int, y: int, fy: int, total: int, unit: int, rest: int)
    requires p > 0
  {
    Eq(p, total, fy * unit + -y * rest)
  }

  // Sum of f over xs, in the longer list, through its value at y and its quotient in the shorter.
  lemma {:induction false} SplitSum(p: int, f: seq<int>, q: seq<int>, y: int, xs: seq<int>, all: seq<int>, s: seq<int>)
    requires p > 0 && DividesBy(f, q, y)
    requires forall x :: x in xs ==> Dropped(p, y, x, all, s)
    ensures SplitsAt(p, y, Eval(f, y), Sum(p, f, xs, all), Sum(p, One, xs, all), Sum(p, q, xs, s))
  {
    if xs == [] {
      MultipleMod(p, 0);
    } else {
      var k := |xs| - 1;
      var x, fy := xs[k], Eval(f, y);
      var c, d := LagrangeCoefficient(p, x, all), LagrangeCoefficient(p, x, s);
      var s1, sq := Sum(p, One, xs[..k], all), Sum(p, q, xs[..k], s);
      assert x in xs && Divided(f, q, y, x) && Dropped(p, y, x, all, s);
      SplitSum(p, f, q, y, xs[..k], all, s);
      Summand(p, Eval(f, x), fy, Eval(q, x), x, y, c, d);
      EqAdd(p, Sum(p, f, xs[..k], all), fy * s1 + -y * sq, Eval(f, x) * c, fy * c + -y * (Eval(q, x) * d));
      EvalOneVar(x);
      SplitStep(fy, y, s1, sq, c, Eval(q, x) * d);
    }
  }

  lemma SplitStep(fy: int, y: int, s1: int, sq: int, c: int, qd: int)
    ensures (fy * s1 + -y * sq) + (fy * c + -y * qd) == fy * (s1 + c) + -y * (sq + qd)
  {
    assert fy * (s1 + c) == fy * s1 + fy * c;
    assert y * (sq + qd) == y * sq + y * qd;
  }

  lemma AllDroppedLast(p: int, s: seq<int>, y: int)
    requires Prime(p) && Distinct(p, s + [y])
    ensures forall x :: x in s ==> Dropped(p, y, x, s + [y], s)
  {
    forall x | x in s ensures Dropped(p, y, x, s + [y], s) {
      NotLast(p, s, y, x);
      DropLast(p, x, s, y);
    }
  }

  lemma AllDroppedFirst(p: int, y: int, s: seq<int>)
    requires Prime(p) && Distinct(p, [y] + s)
    ensures forall x :: x in s ==> Dropped(p, y, x, [y] + s, s)
  {
    forall x | x in s ensures Dropped(p, y, x, [y] + s, s) {
      NotFirst(p, s, y, x);
      DropFirst(p, x, y, s);
    }
  }

  lemma SumBack(p: int, poly: seq<int>, s: seq<int>, y: int, all: seq<int>)
    requires p > 0
    ensures OneMore(Sum(p, poly, s + [y], all), Sum(p, poly, s, all), Eval(poly, y), LagrangeCoefficient(p, y, all))
  {
    assert (s + [y])[..|s|] == s;
  }

  // The summand at y itself is f(y) times its coefficient, so it joins the first sum.
  lemma JoinLast(p: int, f: seq<int>, q: seq<int>, s: seq<int>, y: int)
    requires Prime(p) && Distinct(p, s + [y]) && DividesBy(f, q, y)
    ensures SplitsAt(p, y, Eval(f, y), Sum(p, f, s + [y], s + [y]), Sum(p, One, s + [y], s + [y]), Sum(p, q, s, s))
  {
    var all := s + [y];
    AllDroppedLast(p, s, y);
    SumBack(p, f, s, y, all);
    SumBack(p, One, s, y, all);
    EvalOneVar(y);
    JoinSum(p, f, q, s, y, all);
  }

  lemma JoinFirst(p: int, f: seq<int>, q: seq<int>, y: int, s: seq<int>)
    requires Prime(p) && Distinct(p, [y] + s) && DividesBy(f, q, y)
    ensures SplitsAt(p, y, Eval(f, y), Sum(p, f, [y] + s, [y] + s), Sum(p, One, [y] + s, [y] + s), Sum(p, q, s, s))
  {
    var all := [y] + s;
    AllDroppedFirst(p, y, s);
    SumFront(p, f, y, s, all);
    SumFront(p, One, y, s, all);
    EvalOneVar(y);
    JoinSum(p, f, q, s, y, all);
  }

  lemma JoinSum(p: int, f: seq<int>, q: seq<int>, s: seq<int>, y: int, all: seq<int>)
    requires p > 0 && DividesBy(f, q, y) && forall x :: x in s ==> Dropped(p, y, x, all, s)
    requires OneMore(Sum(p, f, all, all), Sum(p, f, s, all), Eval(f, y), LagrangeCoefficient(p, y, all))
    requires OneMore(Sum(p, One, all, all), Sum(p, One, s, all), 1, LagrangeCoefficient(p, y, all))
    ensures SplitsAt(p, y, Eval(f, y), Sum(p, f, all, all), Sum(p, One, all, all), Sum(p, q, s, s))
  {
    SplitSum(p, f, q, y, s, all, s);
    Join(p, Sum(p, f, all, all), Sum(p, One, all, all), Sum(p, f, s, all), Sum(p, One, s, all),
      Eval(f, y), LagrangeCoefficient(p, y, all), y, Sum(p, q, s, s));
  }

  lemma Join(p: int, total: int, unit: int, a: int, s1: int, fy: int, c: int, y: int, rest: int)
    requires p > 0 && SplitsAt(p, y, fy, a, s1, rest) && OneMore(total, a, fy, c) && OneMore(unit, s1, 1, c)
    ensures SplitsAt(p, y, fy, total, unit, rest)
  {
    MultipleMod(p, 0);
    EqAdd(p, a, fy * s1 + -y * rest, fy * c, fy * c);
    assert unit == s1 + c;
    assert fy * unit == fy * s1 + fy * c;
  }

  lemma NotLast(p: int, s: seq<int>, y: int, x: int)
    requires Distinct(p, s + [y]) && x in s
    ensures x != y && 0 <= x < p
  {
    var k :| 0 <= k < |s| && s[k] == x;
    assert (s + [y])[k] == x && (s + [y])[|s|] == y;
  }

  lemma NotFirst(p: int, s: seq<int>, y: int, x: int)
    requires Distinct(p, [y] + s) && x in s
    ensures x != y && 0 <= x < p
  {
    var k :| 0 <= k < |s| && s[k] == x;
    assert ([y] + s)[k + 1] == x && ([y] + s)[0] == y;
  }

  lemma Slices(p: int, xs: seq<int>)
    requires Distinct(p, xs) && xs != []
    ensures var k := |xs| - 1;
            && xs == xs[..k] + [xs[k]] && xs == [xs[0]] + xs[1..]
            && Distinct(p, xs[..k]) && Distinct(p, xs[1..])
  {
  }

  lemma VarByOne(y: int)
    ensures DividesBy(Var, One, y)
  {
    forall x ensures Divided(Var, One, y, x) {
      EvalOneVar(x);
      EvalOneVar(y);
    }
  }

  // The coefficients of any nonempty list of distinct ids add up to one.
  lemma {:induction false} UnitSum(p: int, xs: seq<int>)
    requires Prime(p) && Distinct(p, xs) && xs != []
    ensures Eq(p, Sum(p, One, xs, xs), 1)
    decreases |xs|
  {
    if |xs| == 1 {
      UnitSingle(p, xs[0]);
      assert xs == [xs[0]];
    } else {
      var k := |xs| - 1;
      var y, z, w, s1 := xs[k], xs[0], Sum(p, Var, xs, xs), Sum(p, One, xs, xs);
      Slices(p, xs);
      UnitSum(p, xs[..k]);
      UnitSum(p, xs[1..]);
      VarByOne(y);
      VarByOne(z);
      JoinLast(p, Var, One, xs[..k], y);
      JoinFirst(p, Var, One, z, xs[1..]);
      EvalOneVar(y);
      EvalOneVar(z);
      DifferenceNonzero(p, z, y);
      TwoViews(p, w, s1, y, z, Sum(p, One, xs[..k], xs[..k]), Sum(p, One, xs[1..], xs[1..]));
    }
  }

  lemma UnitSingle(p: int, x: int)
    requires Prime(p)
    ensures Eq(p, Sum(p, One, [x], [x]), 1)
  {
    assert [x][..0] == [];
    assert Others(x, [x]) == [];
    Fraction(p, 1, 1);
    EvalOneVar(x);
    assert Sum(p, One, [x], [x]) == 0 + 1 * LagrangeCoefficient(p, x, [x]);
  }

  // w = y * s - y * a = z * s - z * b with a = b = 1 and y != z leaves s = 1.
  lemma TwoViews(p: int, w: int, s: int, y: int, z: int, a: int, b: int)
    requires Prime(p) && (z - y) % p != 0 && Eq(p, a, 1) && Eq(p, b, 1)
    requires SplitsAt(p, y, y, w, s, a) && SplitsAt(p, z, z, w, s, b)
    ensures Eq(p, s, 1)
  {
    var i := EqFactor(p, a, 1);
    var j := EqFactor(p, b, 1);
    var k := EqFactor(p, w, y * s + -y * a);
    var l := EqFactor(p, w, z * s + -z * b);
    assert y * a == y + p * (y * i);
    assert z * b == z + p * (z * j);
    assert (z - y) * s == z * s - y * s;
    assert z * s - y * s == (z - y) + p * (z * j - y * i + k - l) by {
      assert p * (z * j - y * i + k - l) == p * (z * j) - p * (y * i) + p * k - p * l;
    }
    EqBy(p, (z - y) * s, (z - y) * 1, z * j - y * i + k - l);
    Cancel(p, z - y, s, 1);
  }

  lemma QuotientDivides(poly: seq<int>, y: int)
    requires poly != []
    ensures |Quotient(poly, y)| == |poly| - 1 && DividesBy(poly, Quotient(poly, y), y)
  {
    forall x ensures Divided(poly, Quotient(poly, y), y, x) {
      Division(poly, y, x);
    }
    Division(poly, y, 0);
  }

  // Interpolation at zero, for every polynomial with no more coefficients than there are ids.
  lemma {:induction false} Interpolation(p: int, poly: seq<int>, xs: seq<int>)
    requires Prime(p) && Distinct(p, xs) && |poly| <= |xs|
    ensures Eq(p, Sum(p, poly, xs, xs), Eval(poly, 0))
    decreases |xs|
  {
    if poly == [] {
      ZeroSum(p, xs, xs);
      MultipleMod(p, 0);
    } else {
      var k := |xs| - 1;
      var s, y, q := xs[..k], xs[k], Quotient(poly, xs[k]);
      Slices(p, xs);
      QuotientDivides(poly, y);
      assert Divided(poly, q, y, 0);
      Interpolation(p, q, s);
      JoinLast(p, poly, q, s, y);
      UnitSum(p, xs);
      Assemble(p, Sum(p, poly, xs, xs), Eval(poly, y), Sum(p, One, xs, xs), y, Sum(p, q, s, s), Eval(q, 0), Eval(poly, 0));
    }
  }

  lemma {:induction false} ZeroSum(p: int, xs: seq<int>, all: seq<int>)
    requires p > 0
    ensures Sum(p, [], xs, all) == 0
  {
    if xs != [] {
      ZeroSum(p, xs[..|xs| - 1], all);
      assert Eval([], xs[|xs| - 1]) == 0;
    }
  }

  lemma Assemble(p: int, total: int, fy: int, unit: int, y: int, rest: int, q0: int, f0: int)
    requires p > 0 && SplitsAt(p, y, fy, total, unit, rest) && Eq(p, unit, 1) && Eq(p, rest, q0)
    requires f0 == fy + (0 - y) * q0
    ensures Eq(p, total, f0)
  {
    EqScale(p, fy, unit, 1);
    EqScale(p, -y, rest, q0);
    EqAdd(p, fy * unit, fy * 1, -y * rest, -y * q0);
    EqTrans(p, total, fy * unit + -y * rest, fy * 1 + -y * q0);
  }

  // ---- recovery

  // Each point hides the polynomial's value at the share's id.
  ghost predicate SharesOf<G>(p: int, ops: Points<G>, base: G, poly: seq<int>, shares: seq<PointShare<G>>)
    requires p > 0
  {
    forall i :: 0 <= i < |shares| ==> shares[i].point == ops.mul(base, Eval(poly, shares[i].id) % p)
  }

  lemma Term<G(!new)>(p: int, ops: Points<G>, base: G, v: int, c: int)
    requires p > 0 && IsModule(p, ops) && 0 <= c < p
    ensures ops.mul(ops.mul(base, v % p), c) == ops.mul(base, (v * c) % p)
  {
    EqMod(p, v);
    EqScale(p, c, v % p, v);
    EqResidue(p, c * (v % p), c * v);
    assert ops.mul(ops.mul(base, v % p), c) == ops.mul(base, ((v % p) * c) % p);
  }

  lemma Plus<G(!new)>(p: int, ops: Points<G>, base: G, a: int, b: int)
    requires p > 0 && IsModule(p, ops)
    ensures ops.add(ops.mul(base, a % p), ops.mul(base, b % p)) == ops.mul(base, (a + b) % p)
  {
    EqMod(p, a);
    EqMod(p, b);
    EqAdd(p, a % p, a, b % p, b);
    EqResidue(p, a % p + b % p, a + b);
  }

  lemma FirstTerm<G(!new)>(p: int, ops: Points<G>, base: G, total: int, v: int, c: int)
    requires p > 0 && IsModule(p, ops) && 0 <= c < p && OneMore(total, 0, v, c)
    ensures ops.mul(ops.mul(base, v % p), c) == ops.mul(base, total % p)
  {
    Term(p, ops, base, v, c);
  }

  lemma NextTerm<G(!new)>(p: int, ops: Points<G>, base: G, total: int, part: int, v: int, c: int)
    requires p > 0 && IsModule(p, ops) && 0 <= c < p && OneMore(total, part, v, c)
    ensures ops.add(ops.mul(base, part % p), ops.mul(ops.mul(base, v % p), c)) == ops.mul(base, total % p)
  {
    Term(p, ops, base, v, c);
    Plus(p, ops, base, part, v * c);
  }

  lemma IdsBack<G>(shares: seq<PointShare<G>>)
    requires shares != []
    ensures var k := |shares| - 1; Ids(shares) == Ids(shares[..k]) + [shares[k].id]
  {
  }

  lemma {:induction false} TermsHideSum<G(!new)>(p: int, ops: Points<G>, base: G, poly: seq<int>, shares: seq<PointShare<G>>, all: seq<int>)
    requires p > 0 && IsModule(p, ops) && shares != [] && SharesOf(p, ops, base, poly, shares)
    ensures AddTerms(p, ops, shares, all) == ops.mul(base, Sum(p, poly, Ids(shares), all) % p)
    decreases |shares|
  {
    var k := |shares| - 1;
    var front, id := shares[..k], shares[k].id;
    var v, c := Eval(poly, id), LagrangeCoefficient(p, id, all);
    var total, part := Sum(p, poly, Ids(shares), all), Sum(p, poly, Ids(front), all);
    IdsBack(shares);
    SumBack(p, poly, Ids(front), id, all);
    if k == 0 {
      FirstTerm(p, ops, base, total, v, c);
    } else {
      TermsHideSum(p, ops, base, poly, front, all);
      NextTerm(p, ops, base, total, part, v, c);
    }
  }

  function Secret(poly: seq<int>): int {
    if poly == [] then 0 else poly[0]
  }

  /** The recovered point is the base times the constant term, whichever distinct shares are used, as long
      as they are at least as many as the polynomial has coefficients. */
  lemma Recovery<G(!new)>(p: int, ops: Points<G>, base: G, poly: seq<int>, shares: seq<PointShare<G>>)
    requires Prime(p) && IsModule(p, ops)
    requires shares != [] && Distinct(p, Ids(shares)) && |poly| <= |shares|
    requires SharesOf(p, ops, base, poly, shares)
    ensures RecoverSecretFromPoints(p, ops, shares) == ops.mul(base, Secret(poly) % p)
  {
    var ids := Ids(shares);
    TermsHideSum(p, ops, base, poly, shares, ids);
    Interpolation(p, poly, ids);
    EqResidue(p, Sum(p, poly, ids, ids), Eval(poly, 0));
  }

  lemma AnySharesRecoverTheSame<G(!new)>(p: int, ops: Points<G>, base: G, poly: seq<int>,
                                         one: seq<PointShare<G>>, two: seq<PointShare<G>>)
    requires Prime(p) && IsModule(p, ops)
    requires one != [] && Distinct(p, Ids(one)) && |poly| <= |one| && SharesOf(p, ops, base, poly, one)
    requires two != [] && Distinct(p, Ids(two)) && |poly| <= |two| && SharesOf(p, ops, base, poly, two)
    ensures RecoverSecretFromPoints(p, ops, one) == RecoverSecretFromPoints(p, ops, two)
  {
    Recovery(p, ops, base, poly, one);
    Recovery(p, ops, base, poly, two);
  }
}

/** The scalar field: integers modulo a prime.
  *
  * `Q` has no definition on purpose. It stands for any odd prime that fits 32
  * bytes, so every theorem below holds for every such group order, the
  * secp256k1 order among them.
  */
module Field {
  import opened Results

  ghost predicate IsPrime(p: int) {
    2 <= p && forall d {:trigger p % d} :: 2 <= d < p ==> p % d != 0
  }

  // 256 to the power 32
  const WIDE_LIMIT := 0x1_0000_0000_0000_0000_0000_0000_0000_0000_0000_0000_0000_0000_0000_0000_0000_0000

  ghost predicate IsOrder(p: int) {
    p <= WIDE_LIMIT && IsPrime(p)
  }

  type Order = p: int | 3 <= p && IsOrder(p) witness 3

  const Q: Order

  type Scalar = x: int | 0 <= x < Q witness 0

  /** The scalar of an integer. */
  function Residue(x: int): Scalar { x % Q }

  function Add(a: Scalar, b: Scalar): Scalar { Residue(a + b) }

  function Neg(a: Scalar): Scalar { Residue(Q - a) }

  function Mul(a: Scalar, b: Scalar): Scalar { Residue(a * b) }

  function Sub(a: Scalar, b: Scalar): Scalar { Add(a, Neg(b)) }

  lemma {:induction false} OrderIsOdd()
    ensures Q % 2 == 1
  {
    assert Q % 2 != 0;
  }

  // ----- integers modulo Q

  lemma {:induction false} MultipleBound(d: int, m: int)
    requires m > 0
    ensures d >= 1 ==> d * m >= m
    ensures d <= -1 ==> d * m <= -m
  {
    if d >= 1 { assert (d - 1) * m >= 0; }
    if d <= -1 { assert (-1 - d) * m >= 0; }
  }

  lemma {:induction false} DivisionUnique(m: int, a: int, k: int, r: int)
    requires m > 0 && a == k * m + r && 0 <= r < m
    ensures a / m == k && a % m == r
  {
    var d, t := a / m, a % m;
    assert a == m * d + t;
    assert (d - k) * m == r - t by { assert (d - k) * m == m * d - k * m; }
    MultipleBound(d - k, m);
  }

  lemma {:induction false} ResidueIs(a: int, k: int, r: int)
    requires a == k * Q + r && 0 <= r < Q
    ensures Residue(a) == r
  {
    hide IsOrder;
    DivisionUnique(Q, a, k, r);
  }

  lemma {:induction false} ResidueOf(a: int)
    ensures a == (a / Q) * Q + Residue(a)
  {
    hide IsOrder;
    var m: int := Q;
    assert a == m * (a / m) + a % m;
  }

  /** Adding a multiple of Q does not change a residue. */
  lemma {:induction false} ResidueShift(a: int, k: int)
    ensures Residue(a + k * Q) == Residue(a)
  {
    hide IsOrder, Residue;
    ResidueOf(a);
    var d := a / Q;
    assert a + k * Q == (d + k) * Q + Residue(a) by { assert (d + k) * Q == d * Q + k * Q; }
    ResidueIs(a + k * Q, d + k, Residue(a));
  }

  lemma {:induction false} ResidueAdd(a: int, b: int)
    ensures Residue(Residue(a) + b) == Residue(a + b)
  {
    hide IsOrder, Residue;
    ResidueOf(a);
    ResidueShift(Residue(a) + b, a / Q);
  }

  lemma {:induction false} ResidueMul(a: int, b: int)
    ensures Residue(Residue(a) * b) == Residue(a * b)
  {
    hide IsOrder, Residue;
    ResidueOf(a);
    var d, r := a / Q, Residue(a);
    assert a * b == r * b + (b * d) * Q by {
      assert (d * Q + r) * b == (d * Q) * b + r * b;
      assert (d * Q) * b == (b * d) * Q;
    }
    ResidueShift(r * b, b * d);
  }

  // ----- field laws

  lemma {:induction false} AddComm(a: Scalar, b: Scalar)
    ensures Add(a, b) == Add(b, a)
  {
    hide IsOrder, Residue;
  }

  lemma {:induction false} AddAssoc(a: Scalar, b: Scalar, c: Scalar)
    ensures Add(Add(a, b), c) == Add(a, Add(b, c))
  {
    hide IsOrder, Residue;
    ResidueAdd(a + b, c);
    ResidueAdd(b + c, a);
    AddComm(Add(b, c), a);
  }

  lemma {:induction false} AddZero(a: Scalar)
    ensures Add(a, 0) == a && Add(0, a) == a
  {
    hide IsOrder, Residue;
    ResidueIs(a, 0, a);
  }

  lemma {:induction false} AddNeg(a: Scalar)
    ensures Add(a, Neg(a)) == 0 && Add(Neg(a), a) == 0
  {
    hide IsOrder, Residue;
    ResidueAdd(Q - a, a);
    ResidueIs(Q, 1, 0);
    AddComm(Neg(a), a);
  }

  lemma {:induction false} MulComm(a: Scalar, b: Scalar)
    ensures Mul(a, b) == Mul(b, a)
  {
    hide IsOrder, Residue;
    assert a * b == b * a;
  }

  lemma {:induction false} IntMulAssoc(x: int, y: int, z: int)
    ensures (x * y) * z == (y * z) * x
  {}

  lemma {:induction false} MulAssoc(a: Scalar, b: Scalar, c: Scalar)
    ensures Mul(Mul(a, b), c) == Mul(a, Mul(b, c))
  {
    hide IsOrder, Residue;
    ResidueMul(a * b, c);
    ResidueMul(b * c, a);
    IntMulAssoc(a, b, c);
    MulComm(a, Mul(b, c));
  }

  lemma {:induction false} MulOne(a: Scalar)
    ensures Mul(a, 1) == a && Mul(1, a) == a
  {
    hide IsOrder, Residue;
    ResidueIs(a, 0, a);
  }

  lemma {:induction false} MulZero(a: Scalar)
    ensures Mul(a, 0) == 0 && Mul(0, a) == 0
  {
    hide IsOrder, Residue;
    ResidueIs(0, 0, 0);
  }

  lemma {:induction false} Distribute(a: Scalar, b: Scalar, c: Scalar)
    ensures Mul(a, Add(b, c)) == Add(Mul(a, b), Mul(a, c))
    ensures Mul(Add(b, c), a) == Add(Mul(b, a), Mul(c, a))
  {
    hide IsOrder, Residue;
    ResidueMul(b + c, a);
    assert (b + c) * a == b * a + c * a;
    ResidueAdd(b * a, c * a);
    ResidueAdd(c * a, Mul(b, a));
    MulComm(a, b);
    MulComm(a, c);
    MulComm(a, Add(b, c));
  }

  // ----- inverses

  /** The extended Euclidean algorithm: `g` divides both inputs (`ka`, `kb` are
    * the quotients) and is an integer combination of them.
    */
  datatype Bezout = Bezout(g: int, x: int, y: int, ka: int, kb: int)
  {
    ghost predicate For(a: int, b: int) {
      g > 0 && a * x + b * y == g && a == ka * g && b == kb * g
    }
  }

  lemma {:induction false} EuclidStep(a: int, b: int, q: int, r: int, c: Bezout)
    requires a == q * b + r
    requires c.For(b, r)
    ensures Bezout(c.g, c.y, c.x - q * c.y, q * c.ka + c.kb, c.ka).For(a, b)
  {
    calc {
      a * c.y + b * (c.x - q * c.y);
      { assert (q * b + r) * c.y == q * b * c.y + r * c.y;
        assert b * (c.x - q * c.y) == b * c.x - q * b * c.y; }
      b * c.x + r * c.y;
      c.g;
    }
    calc {
      (q * c.ka + c.kb) * c.g;
      q * (c.ka * c.g) + c.kb * c.g;
      q * b + r;
    }
  }

  function Euclid(a: nat, b: nat): (c: Bezout)
    requires a > 0 || b > 0
    ensures c.For(a, b)
    decreases b
  {
    if b == 0 then Bezout(a, 1, 0, 1, 0)
    else
      var c := Euclid(b, a % b);
      assert a == (a / b) * b + a % b;
      EuclidStep(a, b, a / b, a % b, c);
      Bezout(c.g, c.y, c.x - (a / b) * c.y, (a / b) * c.ka + c.kb, c.ka)
  }

  lemma {:induction false} DivisorLeavesNothing(p: int, g: int, k: int)
    requires g > 0 && p == k * g
    ensures p % g == 0
  {
    var d, t := p / g, p % g;
    assert p == g * d + t;
    assert (k - d) * g == t by { assert (k - d) * g == k * g - g * d; }
    MultipleBound(k - d, g);
  }

  lemma {:induction false} DivisorOfPrime(c: Bezout, a: Scalar)
    requires a != 0 && c.For(Q, a)
    ensures c.g == 1
  {
    MultipleBound(c.kb, c.g);
    assert c.kb == 0 ==> c.kb * c.g == 0;
    DivisorLeavesNothing(Q, c.g, c.ka);
  }

  lemma {:induction false} InverseExists(a: Scalar)
    requires a != 0
    ensures exists b: Scalar :: Mul(a, b) == 1
    ensures forall b: Scalar, c: Scalar :: Mul(a, b) == 1 && Mul(a, c) == 1 ==> b == c
  {
    hide Mul, Residue, IsOrder;
    var z := Euclid(Q, a);
    DivisorOfPrime(z, a);
    InverseIsRight(z, a);
    forall b: Scalar, c: Scalar | Mul(a, b) == 1 && Mul(a, c) == 1 ensures b == c {
      MulOne(b);
      MulOne(c);
      MulAssoc(b, a, c);
      MulComm(a, b);
    }
  }

  /** The multiplicative inverse; zero has none. */
  function Invert(a: Scalar): (r: Option<Scalar>)
    ensures r.None? <==> a == 0
    ensures r.Some? ==> Mul(a, r.value) == 1 && r.value != 0
  {
    if a == 0 then None
    else
      InverseExists(a);
      var b: Scalar :| Mul(a, b) == 1;
      MulZero(a);
      Some(b)
  }

  lemma {:induction false} InverseIsRight(c: Bezout, a: Scalar)
    requires c.For(Q, a) && c.g == 1
    ensures Mul(a, Residue(c.y)) == 1 && Residue(c.y) != 0
  {
    hide IsOrder, Residue;
    ResidueMul(c.y, a);
    assert c.y * a == (-c.x) * Q + 1;
    ResidueIs(c.y * a, -c.x, 1);
    MulComm(a, Residue(c.y));
    if Residue(c.y) == 0 { MulZero(a); }
  }

  function Inv(a: Scalar): (r: Scalar)
    requires a != 0
    ensures Mul(a, r) == 1 && r != 0
  {
    Invert(a).value
  }

  // ----- consequences of the field laws

  lemma {:induction false} NoZeroDivisors(a: Scalar, b: Scalar)
    requires Mul(a, b) == 0
    ensures a == 0 || b == 0
  {
    hide Mul, Inv, IsOrder;
    if a != 0 {
      calc {
        b;
        { MulOne(b); }
        Mul(1, b);
        { MulComm(Inv(a), a); }
        Mul(Mul(Inv(a), a), b);
        { MulAssoc(Inv(a), a, b); }
        Mul(Inv(a), 0);
        { MulZero(Inv(a)); }
        0;
      }
    }
  }

  lemma {:induction false} MulCancel(a: Scalar, b: Scalar, c: Scalar)
    requires c != 0 && Mul(a, c) == Mul(b, c)
    ensures a == b
  {
    hide Mul, Inv, IsOrder;
    MulAssoc(a, c, Inv(c));
    MulAssoc(b, c, Inv(c));
    MulOne(a);
    MulOne(b);
  }

  lemma {:induction false} AddCancel(a: Scalar, b: Scalar, c: Scalar)
    requires Add(a, c) == Add(b, c)
    ensures a == b
  {
    hide Add, Neg, IsOrder;
    AddAssoc(a, c, Neg(c));
    AddAssoc(b, c, Neg(c));
    AddNeg(c);
    AddZero(a);
    AddZero(b);
  }

  lemma {:induction false} SubZeroIff(a: Scalar, b: Scalar)
    ensures Sub(a, b) == 0 <==> a == b
  {
    hide Add, Neg, IsOrder;
    AddNeg(b);
    if Sub(a, b) == 0 { AddCancel(a, b, Neg(b)); }
  }

  lemma {:induction false} SubAdd(a: Scalar, b: Scalar)
    ensures Add(Sub(a, b), b) == a
  {
    hide Add, Neg, IsOrder;
    AddAssoc(a, Neg(b), b);
    AddNeg(b);
    AddZero(a);
  }

  lemma {:induction false} NegMul(a: Scalar, b: Scalar)
    ensures Mul(Neg(a), b) == Neg(Mul(a, b))
    ensures Mul(a, Neg(b)) == Neg(Mul(a, b))
  {
    hide Add, Neg, Mul, IsOrder;
    Distribute(b, a, Neg(a));
    AddNeg(a);
    MulZero(b);
    AddNeg(Mul(a, b));
    AddComm(Mul(Neg(a), b), Mul(a, b));
    AddComm(Neg(Mul(a, b)), Mul(a, b));
    AddCancel(Mul(Neg(a), b), Neg(Mul(a, b)), Mul(a, b));
    Distribute(a, b, Neg(b));
    AddNeg(b);
    MulZero(a);
    AddComm(Mul(a, Neg(b)), Mul(a, b));
    AddCancel(Mul(a, Neg(b)), Neg(Mul(a, b)), Mul(a, b));
  }

  lemma {:induction false} NegNeg(a: Scalar)
    ensures Neg(Neg(a)) == a
    ensures Neg(a) == 0 <==> a == 0
  {
    hide Add, Neg, IsOrder;
    AddNeg(a);
    AddNeg(Neg(a));
    AddCancel(Neg(Neg(a)), a, Neg(a));
    AddZero(a);
    AddZero(Neg(a));
    AddNeg(0);
    AddZero(Neg(0));
  }

  /** Rearranges a sum of two sums. */
  lemma {:induction false} AddSwap(a: Scalar, b: Scalar, c: Scalar, d: Scalar)
    ensures Add(Add(a, b), Add(c, d)) == Add(Add(a, c), Add(b, d))
  {
    hide Add, IsOrder;
    AddAssoc(a, b, Add(c, d));
    AddAssoc(b, c, d);
    AddComm(b, c);
    AddAssoc(c, b, d);
    AddAssoc(a, c, Add(b, d));
  }

}

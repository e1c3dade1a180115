/** Shamir polynomials and Lagrange interpolation at zero (src/shamir.rs). */
module Shamir {
  import opened Results
  import opened Field
  import opened Sums
  import opened Algebra

  /** A nonzero evaluation node. */
  type Node = x: Scalar | x != 0 witness 1

  // ----- evaluation

  /** The Horner fold, highest coefficient first, for constant-first input. */
  function Evaluate(p: seq<Scalar>, x: Scalar): Scalar {
    if p == [] then 0 else Add(Mul(Evaluate(p[1..], x), x), p[0])
  }

  /** The same fold over coefficient commitments. */
  function EvaluatePoints(c: seq<Element>, x: Scalar): Element {
    if c == [] then IDENTITY else Plus(Times(EvaluatePoints(c[1..], x), x), c[0])
  }

  lemma {:induction false} EvaluateLogs(c: seq<Element>, x: Scalar)
    ensures EvaluatePoints(c, x) == Element(Evaluate(Logs(c), x))
  {
    if c != [] {
      EvaluateLogs(c[1..], x);
      assert Logs(c)[1..] == Logs(c[1..]);
    }
  }

  lemma {:induction false} EvaluateAdd(p: seq<Scalar>, q: seq<Scalar>, s: seq<Scalar>, x: Scalar)
    requires |p| == |q| == |s|
    requires forall i :: 0 <= i < |s| ==> s[i] == Add(p[i], q[i])
    ensures Evaluate(s, x) == Add(Evaluate(p, x), Evaluate(q, x))
  {
    hide Add, Mul;
    if s == [] {
      AddZero(0);
    } else {
      EvaluateAdd(p[1..], q[1..], s[1..], x);
      Distribute(x, Evaluate(p[1..], x), Evaluate(q[1..], x));
      AddSwap(Mul(Evaluate(p[1..], x), x), Mul(Evaluate(q[1..], x), x), p[0], q[0]);
    }
  }

  // ----- the Lagrange row

  ghost predicate Distinct(nodes: seq<Scalar>) {
    forall i, j :: 0 <= i < j < |nodes| ==> nodes[i] != nodes[j]
  }

  function Others(nodes: seq<Scalar>, i: nat): seq<Scalar>
    requires i < |nodes|
  {
    nodes[..i] + nodes[i + 1..]
  }

  function Numerator(others: seq<Scalar>): Scalar {
    if others == [] then 1
    else Mul(Numerator(others[..|others| - 1]), Sub(0, others[|others| - 1]))
  }

  function Denominator(x: Scalar, others: seq<Scalar>): Scalar {
    if others == [] then 1
    else Mul(Denominator(x, others[..|others| - 1]), Sub(x, others[|others| - 1]))
  }

  lemma {:induction false} DenominatorNonzero(x: Scalar, others: seq<Scalar>)
    ensures Denominator(x, others) == 0 <==> x in others
  {
    hide Mul, Add, Neg;
    if others != [] {
      var n := |others| - 1;
      DenominatorNonzero(x, others[..n]);
      SubZeroIff(x, others[n]);
      assert others == others[..n] + [others[n]];
      var d, f := Denominator(x, others[..n]), Sub(x, others[n]);
      if Mul(d, f) == 0 { NoZeroDivisors(d, f); }
      MulZero(f);
      MulZero(d);
    }
  }

  lemma {:induction false} DistinctOthers(nodes: seq<Scalar>, i: nat)
    requires i < |nodes| && Distinct(nodes)
    ensures nodes[i] !in Others(nodes, i)
    ensures Denominator(nodes[i], Others(nodes, i)) != 0
  {
    DenominatorNonzero(nodes[i], Others(nodes, i));
  }

  /** The coefficient of node `i` at zero. */
  function Weight(nodes: seq<Scalar>, i: nat): Scalar
    requires i < |nodes| && Distinct(nodes)
  {
    DistinctOthers(nodes, i);
    Mul(Numerator(Others(nodes, i)), Inv(Denominator(nodes[i], Others(nodes, i))))
  }

  function Weights(nodes: seq<Scalar>): (r: seq<Scalar>)
    requires Distinct(nodes)
    ensures |r| == |nodes|
  {
    seq(|nodes|, i requires 0 <= i < |nodes| => Weight(nodes, i))
  }

  // ----- exactness of interpolation

  lemma {:induction false} NumeratorHead(z: Scalar, others: seq<Scalar>)
    ensures Numerator([z] + others) == Mul(Sub(0, z), Numerator(others))
  {
    hide Mul, Add, Neg;
    if others == [] {
      assert [z] + others == [z] && [z][..0] == [];
      MulOne(Sub(0, z));
    } else {
      var n := |others| - 1;
      assert ([z] + others)[..n + 1] == [z] + others[..n];
      NumeratorHead(z, others[..n]);
      MulAssoc(Sub(0, z), Numerator(others[..n]), Sub(0, others[n]));
    }
  }

  lemma {:induction false} DenominatorHead(x: Scalar, z: Scalar, others: seq<Scalar>)
    ensures Denominator(x, [z] + others) == Mul(Sub(x, z), Denominator(x, others))
  {
    hide Mul, Add, Neg;
    if others == [] {
      assert [z] + others == [z] && [z][..0] == [];
      MulOne(Sub(x, z));
    } else {
      var n := |others| - 1;
      assert ([z] + others)[..n + 1] == [z] + others[..n];
      DenominatorHead(x, z, others[..n]);
      MulAssoc(Sub(x, z), Denominator(x, others[..n]), Sub(x, others[n]));
    }
  }

  lemma {:induction false} InverseOfProduct(d: Scalar, f: Scalar)
    requires d != 0 && Mul(d, f) != 0
    ensures Mul(Inv(Mul(d, f)), f) == Inv(d)
  {
    hide Mul, Inv;
    var g := Mul(d, f);
    MulAssoc(Inv(g), f, d);
    MulComm(f, d);
    MulComm(Inv(g), g);
    MulComm(Inv(d), d);
    MulCancel(Mul(Inv(g), f), Inv(d), d);
  }

  /** Dropping the node `z` from a row costs the factor `(x - z) / (0 - z)`. */
  lemma {:induction false} DropNode(nodes: seq<Scalar>, i: nat, rest: seq<Scalar>, k: nat, z: Scalar)
    requires i < |nodes| && k < |rest| && Distinct(nodes) && Distinct(rest)
    requires nodes[i] == rest[k] != z
    requires Others(nodes, i) == Others(rest, k) + [z] || Others(nodes, i) == [z] + Others(rest, k)
    ensures Mul(Weight(nodes, i), Sub(nodes[i], z)) == Mul(Sub(0, z), Weight(rest, k))
  {
    hide Mul, Add, Neg, Inv;
    var o, x := Others(rest, k), nodes[i];
    DistinctOthers(nodes, i);
    DistinctOthers(rest, k);
    var num, den, m, f := Numerator(o), Denominator(x, o), Sub(0, z), Sub(x, z);
    assert Numerator(Others(nodes, i)) == Mul(num, m) && Denominator(x, Others(nodes, i)) == Mul(den, f) by {
      assert (o + [z])[..|o|] == o;
      NumeratorHead(z, o);
      DenominatorHead(x, z, o);
      MulComm(m, num);
      MulComm(f, den);
    }
    InverseOfProduct(den, f);
    MulAssoc(Mul(num, m), Inv(Mul(den, f)), f);
    MulComm(num, m);
    MulAssoc(m, num, Inv(den));
  }

  /** Weighting `(x - z) * v(x)` with the last node `z` reduces to the row without it. */
  lemma {:induction false} DropLast(nodes: seq<Scalar>, v: seq<Scalar>, t: seq<Scalar>)
    requires |nodes| == |v| == |t| >= 2 && Distinct(nodes)
    requires forall i :: 0 <= i < |t| ==> t[i] == Mul(Sub(nodes[i], nodes[|nodes| - 1]), v[i])
    ensures var n := |nodes| - 1;
      Dot(Weights(nodes), t) == Mul(Sub(0, nodes[n]), Dot(Weights(nodes[..n]), v[..n]))
  {
    hide Mul, Add, Neg, Inv, Weight;
    var n := |nodes| - 1;
    var w, w', z := Weights(nodes), Weights(nodes[..n]), nodes[n];
    forall i | 0 <= i < n ensures Mul(w[i], t[i]) == Mul(Sub(0, z), Mul(w'[i], v[i])) {
      assert Others(nodes, i) == Others(nodes[..n], i) + [z];
      DropNode(nodes, i, nodes[..n], i, z);
      MulAssoc(w[i], Sub(nodes[i], z), v[i]);
      MulAssoc(Sub(0, z), w'[i], v[i]);
    }
    DotTwist(w[..n], t[..n], Sub(0, z), w', v[..n]);
    SubZeroIff(z, z);
    MulZero(v[n]);
    MulZero(w[n]);
    AddZero(Dot(w[..n], t[..n]));
  }

  /** The same with the first node. */
  lemma {:induction false} DropFirst(nodes: seq<Scalar>, v: seq<Scalar>, t: seq<Scalar>)
    requires |nodes| == |v| == |t| >= 2 && Distinct(nodes)
    requires forall i :: 0 <= i < |t| ==> t[i] == Mul(Sub(nodes[i], nodes[0]), v[i])
    ensures Dot(Weights(nodes), t) == Mul(Sub(0, nodes[0]), Dot(Weights(nodes[1..]), v[1..]))
  {
    hide Mul, Add, Neg, Inv, Weight;
    var w, w', z := Weights(nodes), Weights(nodes[1..]), nodes[0];
    forall i | 0 <= i < |w'| ensures Mul(w[1..][i], t[1..][i]) == Mul(Sub(0, z), Mul(w'[i], v[1..][i])) {
      assert Others(nodes, i + 1) == [z] + Others(nodes[1..], i);
      DropNode(nodes, i + 1, nodes[1..], i, z);
      MulAssoc(w[i + 1], Sub(nodes[i + 1], z), v[i + 1]);
      MulAssoc(Sub(0, z), w'[i], v[i + 1]);
    }
    DotHead(w, t);
    DotTwist(w[1..], t[1..], Sub(0, z), w', v[1..]);
    SubZeroIff(z, z);
    MulZero(v[0]);
    MulZero(w[0]);
    AddZero(Dot(w[1..], t[1..]));
  }

  function Ones(n: nat): seq<Scalar> { seq(n, _ => 1) }

  function Shifted(nodes: seq<Scalar>, z: Scalar, v: seq<Scalar>): (t: seq<Scalar>)
    requires |nodes| == |v|
    ensures |t| == |v|
  {
    seq(|v|, i requires 0 <= i < |v| => Mul(Sub(nodes[i], z), v[i]))
  }

  /** The row of any nonempty support sums to one. */
  lemma {:induction false} WeightsSumToOne(nodes: seq<Scalar>)
    requires nodes != [] && Distinct(nodes)
    ensures Dot(Weights(nodes), Ones(|nodes|)) == 1
    decreases |nodes|
  {
    hide Mul, Add, Neg, Inv, Weight;
    var n := |nodes| - 1;
    if n == 0 {
      assert Others(nodes, 0) == [];
      SingleWeight(nodes);
    } else {
      var a, z, one := nodes[0], nodes[n], Ones(|nodes|);
      var w := Weights(nodes);
      var first, last := Shifted(nodes, a, one), Shifted(nodes, z, one);
      DropFirst(nodes, one, first);
      DropLast(nodes, one, last);
      assert one[1..] == Ones(n) && one[..n] == Ones(n);
      WeightsSumToOne(nodes[1..]);
      WeightsSumToOne(nodes[..n]);
      assert nodes[1..] != [] && nodes[..n] != [];
      // (x - z) - (x - a) = a - z at every node
      var gap := seq(n + 1, _ => Sub(a, z));
      forall i | 0 <= i <= n ensures last[i] == Add(first[i], gap[i]) {
        MulOne(first[i]);
        MulOne(Sub(nodes[i], z));
        MulOne(Sub(nodes[i], a));
        SubThrough(nodes[i], a, z);
      }
      DotAdd(w, first, gap, last);
      forall i | 0 <= i <= n ensures Mul(w[i], gap[i]) == Mul(Sub(a, z), Mul(w[i], one[i])) {
        MulComm(w[i], gap[i]);
        MulOne(w[i]);
      }
      DotTwist(w, gap, Sub(a, z), w, one);
      MulOne(Sub(0, a));
      MulOne(Sub(0, z));
      // hence (a - z) * total = a - z
      var total := Dot(w, one);
      SubThrough(0, a, z);
      AddComm(Sub(0, a), Mul(Sub(a, z), total));
      AddComm(Sub(0, a), Sub(a, z));
      AddCancel(Mul(Sub(a, z), total), Sub(a, z), Sub(0, a));
      SubZeroIff(a, z);
      MulComm(Sub(a, z), total);
      MulOne(Sub(a, z));
      MulCancel(total, 1, Sub(a, z));
    }
  }

  lemma {:induction false} SubThrough(x: Scalar, a: Scalar, z: Scalar)
    ensures Sub(x, z) == Add(Sub(x, a), Sub(a, z))
  {
    hide Add, Neg;
    AddAssoc(Sub(x, a), a, Neg(z));
    SubAdd(x, a);
  }

  lemma {:induction false} SingleWeight(nodes: seq<Scalar>)
    requires |nodes| == 1
    ensures Dot(Weights(nodes), Ones(1)) == 1
  {
    hide Mul, Add, Inv;
    assert Others(nodes, 0) == [];
    MulOne(1);
    MulOne(Inv(1));
    var w := Weights(nodes);
    assert w[..0] == [] && Ones(1)[..0] == [];
    AddZero(1);
  }

  function Evaluations(p: seq<Scalar>, nodes: seq<Scalar>): (r: seq<Scalar>)
    ensures |r| == |nodes|
  {
    seq(|nodes|, i requires 0 <= i < |nodes| => Evaluate(p, nodes[i]))
  }

  /** Lagrange interpolation at zero is exact: a polynomial no longer than its
    * support is recovered at zero from its values on the support.
    */
  lemma {:induction false} Exactness(nodes: seq<Scalar>, p: seq<Scalar>)
    requires Distinct(nodes) && 1 <= |p| <= |nodes|
    ensures Dot(Weights(nodes), Evaluations(p, nodes)) == p[0]
    decreases |p|, 0
  {
    hide Mul, Add, Neg, Inv, Weight;
    var w, n, q := Weights(nodes), |nodes| - 1, p[1..];
    var qs := Evaluations(q, nodes);
    var high := seq(n + 1, i requires 0 <= i <= n => Mul(qs[i], nodes[i]));
    var low := seq(n + 1, _ => p[0]);
    DotAdd(w, high, low, Evaluations(p, nodes));
    HighPartVanishes(nodes, q, high);
    var one := Ones(n + 1);
    WeightsSumToOne(nodes);
    forall i | 0 <= i <= n ensures Mul(w[i], low[i]) == Mul(p[0], Mul(w[i], one[i])) {
      MulOne(w[i]);
      MulComm(w[i], p[0]);
    }
    DotTwist(w, low, p[0], w, one);
    MulOne(p[0]);
    AddZero(p[0]);
  }

  lemma {:induction false} HighPartVanishes(nodes: seq<Scalar>, q: seq<Scalar>, high: seq<Scalar>)
    requires Distinct(nodes) && |q| < |nodes| == |high|
    requires forall i :: 0 <= i < |high| ==> high[i] == Mul(Evaluate(q, nodes[i]), nodes[i])
    ensures Dot(Weights(nodes), high) == 0
    decreases |q|, 1
  {
    hide Mul, Add, Neg, Inv, Weight;
    var w, n := Weights(nodes), |nodes| - 1;
    if q == [] {
      var zero := seq(n + 1, _ => 0);
      forall i | 0 <= i <= n ensures Mul(w[i], high[i]) == Mul(0, Mul(w[i], zero[i])) {
        MulZero(nodes[i]);
        MulZero(w[i]);
        MulZero(Mul(w[i], zero[i]));
      }
      DotTwist(w, high, 0, w, zero);
      MulZero(Dot(w, zero));
    } else {
      // x q(x) = (x - z) q(x) + z q(x), with z the last node
      var z, qs := nodes[n], Evaluations(q, nodes);
      var shifted := Shifted(nodes, z, qs);
      var scaled := seq(n + 1, i requires 0 <= i <= n => Mul(z, qs[i]));
      forall i | 0 <= i <= n ensures high[i] == Add(shifted[i], scaled[i]) {
        Distribute(qs[i], Sub(nodes[i], z), z);
        SubAdd(nodes[i], z);
        MulComm(qs[i], nodes[i]);
      }
      DotAdd(w, shifted, scaled, high);
      DropLast(nodes, qs, shifted);
      assert qs[..n] == Evaluations(q, nodes[..n]);
      forall i | 0 <= i <= n ensures Mul(w[i], scaled[i]) == Mul(z, Mul(w[i], qs[i])) {
        MulAssoc(w[i], z, qs[i]);
        MulComm(w[i], z);
        MulAssoc(z, w[i], qs[i]);
      }
      DotTwist(w, scaled, z, w, qs);
      Exactness(nodes, q);
      Exactness(nodes[..n], q);
      AddComm(Sub(0, z), z);
      Distribute(q[0], Sub(0, z), z);
      SubAdd(0, z);
      MulZero(q[0]);
    }
  }

  // ----- the functions of the crate

  function Row(nodes: seq<Node>): (r: Result<seq<Scalar>>)
  {
    if nodes == [] then Err(EmptyInput)
    else if !DistinctNodes(nodes) then Err(DuplicateNode)
    else Ok(Weights(nodes))
  }

  predicate DistinctNodes(nodes: seq<Scalar>)
    ensures DistinctNodes(nodes) <==> Distinct(nodes)
  {
    forall i, j :: 0 <= i < j < |nodes| ==> nodes[i] != nodes[j]
  }

  /** Rejects an empty support or a repeated node. */
  method ValidateSupport(nodes: seq<Node>) returns (r: Result<()>)
    ensures r == if nodes == [] then Err(EmptyInput) else Need(Distinct(nodes), DuplicateNode)
  {
    if nodes == [] { return Err(EmptyInput); }
    for i := 0 to |nodes|
      invariant forall k, j :: 0 <= k < j < i ==> nodes[k] != nodes[j]
    {
      if nodes[i] in nodes[..i] { return Err(DuplicateNode); }
    }
    return Ok(());
  }

  lemma {:induction false} RowSteps(nodes: seq<Node>, i: nat, j: nat)
    requires i < |nodes| && j < |nodes|
    ensures i == j ==> Prefix(nodes, i, j + 1) == Prefix(nodes, i, j)
    ensures i != j ==> Numerator(Prefix(nodes, i, j + 1)) == Mul(Numerator(Prefix(nodes, i, j)), Sub(0, nodes[j]))
    ensures i != j ==>
      Denominator(nodes[i], Prefix(nodes, i, j + 1)) ==
        Mul(Denominator(nodes[i], Prefix(nodes, i, j)), Sub(nodes[i], nodes[j]))
  {
    hide Mul, Add, Neg;
    if i != j {
      var before := Prefix(nodes, i, j);
      assert Prefix(nodes, i, j + 1) == before + [nodes[j]];
      assert (before + [nodes[j]])[..|before|] == before;
    }
  }

  lemma {:induction false} WeightIs(nodes: seq<Node>, i: nat)
    requires i < |nodes| && Distinct(nodes)
    ensures var inverse := Invert(Denominator(nodes[i], Others(nodes, i)));
      inverse.Some? && Weight(nodes, i) == Mul(Numerator(Others(nodes, i)), inverse.value)
  {
    hide Mul, Add, Neg, Sub, Numerator, Denominator, Others;
    DistinctOthers(nodes, i);
  }

  lemma {:induction false} RowEnds(nodes: seq<Node>, i: nat)
    requires i < |nodes|
    ensures Numerator(Prefix(nodes, i, 0)) == 1 && Denominator(nodes[i], Prefix(nodes, i, 0)) == 1
    ensures Prefix(nodes, i, |nodes|) == Others(nodes, i)
  {}

  /** The nodes with index below `j` other than node `i`. */
  function Prefix(nodes: seq<Node>, i: nat, j: nat): seq<Scalar>
    requires i < |nodes| && j <= |nodes|
  {
    if j <= i then nodes[..j] else nodes[..i] + nodes[i + 1..j]
  }

  /** The Lagrange row by nested loops. It never meets a zero denominator, so the
    * only failures are those of `ValidateSupport`.
    */
  method LagrangeAtZero(nodes: seq<Node>) returns (r: Result<seq<Scalar>>)
    ensures r == Row(nodes)
  {
    hide Mul, Add, Neg, Invert, Sub, Numerator, Denominator, Prefix, Others, Weight, Inv, IsOrder;
    var valid := ValidateSupport(nodes);
    if valid.Err? { return Err(valid.error); }
    var row: seq<Scalar> := [];
    for i := 0 to |nodes|
      invariant |row| == i
      invariant forall k :: 0 <= k < i ==> row[k] == Weight(nodes, k)
    {
      RowEnds(nodes, i);
      var numerator, denominator := 1, 1;
      for j := 0 to |nodes|
        invariant numerator == Numerator(Prefix(nodes, i, j))
        invariant denominator == Denominator(nodes[i], Prefix(nodes, i, j))
      {
        RowSteps(nodes, i, j);
        if i != j {
          numerator := Mul(numerator, Sub(0, nodes[j]));
          denominator := Mul(denominator, Sub(nodes[i], nodes[j]));
        }
      }
      WeightIs(nodes, i);
      var inverse := Invert(denominator);
      if inverse.None? { return Err(DuplicateNode); }
      row := row + [Mul(numerator, inverse.value)];
    }
    assert row == Weights(nodes);
    return Ok(row);
  }

  function InterpolateConstant(nodes: seq<Node>, values: seq<Scalar>): Result<Scalar> {
    if |nodes| != |values| then Err(LengthMismatch)
    else
      var row :- Row(nodes);
      Ok(Dot(row, values))
  }

  /** Reconstruction succeeds exactly on nonempty supports without repetition, and
    * then returns the constant of any polynomial no longer than the support.
    */
  lemma {:induction false} InterpolationIsExact(nodes: seq<Node>, p: seq<Scalar>)
    ensures InterpolateConstant(nodes, Evaluations(p, nodes)).Ok? <==> nodes != [] && Distinct(nodes)
    ensures nodes != [] && Distinct(nodes) && 1 <= |p| <= |nodes| ==>
      InterpolateConstant(nodes, Evaluations(p, nodes)) == Ok(p[0])
  {
    if Distinct(nodes) && 1 <= |p| <= |nodes| { Exactness(nodes, p); }
  }
}

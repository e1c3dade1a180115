/** Finite sums and inner products of scalars. */
module Sums {
  import opened Field

  /** Left-to-right accumulation. */
  function Sum(s: seq<Scalar>): Scalar {
    if s == [] then 0 else Add(Sum(s[..|s| - 1]), s[|s| - 1])
  }

  /** Left-to-right accumulation of `w[i] * v[i]`. */
  function Dot(w: seq<Scalar>, v: seq<Scalar>): Scalar
    requires |w| == |v|
  {
    if w == [] then 0
    else
      var n := |w| - 1;
      Add(Dot(w[..n], v[..n]), Mul(w[n], v[n]))
  }

  lemma {:induction false} SumAdd(a: seq<Scalar>, b: seq<Scalar>, c: seq<Scalar>)
    requires |a| == |b| == |c|
    requires forall i :: 0 <= i < |c| ==> c[i] == Add(a[i], b[i])
    ensures Sum(c) == Add(Sum(a), Sum(b))
  {
    hide Add;
    if c == [] {
      AddZero(0);
    } else {
      var n := |c| - 1;
      SumAdd(a[..n], b[..n], c[..n]);
      AddSwap(Sum(a[..n]), Sum(b[..n]), a[n], b[n]);
    }
  }

  lemma {:induction false} SumScale(a: seq<Scalar>, k: Scalar, c: seq<Scalar>)
    requires |a| == |c|
    requires forall i :: 0 <= i < |c| ==> c[i] == Mul(a[i], k)
    ensures Sum(c) == Mul(Sum(a), k)
  {
    hide Add, Mul;
    if c == [] {
      MulZero(k);
    } else {
      var n := |c| - 1;
      SumScale(a[..n], k, c[..n]);
      Distribute(k, Sum(a[..n]), a[n]);
    }
  }

  lemma {:induction false} DotIsSum(w: seq<Scalar>, v: seq<Scalar>, s: seq<Scalar>)
    requires |w| == |v| == |s|
    requires forall i :: 0 <= i < |s| ==> s[i] == Mul(w[i], v[i])
    ensures Dot(w, v) == Sum(s)
  {
    if s != [] {
      var n := |s| - 1;
      DotIsSum(w[..n], v[..n], s[..n]);
    }
  }

  lemma {:induction false} DotAdd(w: seq<Scalar>, u: seq<Scalar>, v: seq<Scalar>, s: seq<Scalar>)
    requires |w| == |u| == |v| == |s|
    requires forall i :: 0 <= i < |s| ==> s[i] == Add(u[i], v[i])
    ensures Dot(w, s) == Add(Dot(w, u), Dot(w, v))
  {
    hide Add, Mul;
    if s == [] {
      AddZero(0);
    } else {
      var n := |s| - 1;
      DotAdd(w[..n], u[..n], v[..n], s[..n]);
      Distribute(w[n], u[n], v[n]);
      AddSwap(Dot(w[..n], u[..n]), Dot(w[..n], v[..n]), Mul(w[n], u[n]), Mul(w[n], v[n]));
    }
  }

  /** Term-by-term comparison of two inner products up to a factor. */
  lemma {:induction false} DotTwist(w: seq<Scalar>, v: seq<Scalar>, k: Scalar, w': seq<Scalar>, v': seq<Scalar>)
    requires |w| == |v| == |w'| == |v'|
    requires forall i :: 0 <= i < |w| ==> Mul(w[i], v[i]) == Mul(k, Mul(w'[i], v'[i]))
    ensures Dot(w, v) == Mul(k, Dot(w', v'))
  {
    hide Add, Mul;
    if w == [] {
      MulZero(k);
    } else {
      var n := |w| - 1;
      DotTwist(w[..n], v[..n], k, w'[..n], v'[..n]);
      Distribute(k, Dot(w'[..n], v'[..n]), Mul(w'[n], v'[n]));
    }
  }

  lemma {:induction false} DotHead(w: seq<Scalar>, v: seq<Scalar>)
    requires |w| == |v| > 0
    ensures Dot(w, v) == Add(Mul(w[0], v[0]), Dot(w[1..], v[1..]))
  {
    hide Add, Mul;
    var n := |w| - 1;
    if n == 0 {
      AddZero(Mul(w[0], v[0]));
      AddComm(0, Mul(w[0], v[0]));
    } else {
      DotHead(w[..n], v[..n]);
      assert w[..n][1..] == w[1..][..n - 1] && v[..n][1..] == v[1..][..n - 1];
      AddAssoc(Mul(w[0], v[0]), Dot(w[1..][..n - 1], v[1..][..n - 1]), Mul(w[n], v[n]));
    }
  }
}

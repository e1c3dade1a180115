/** Group elements of prime order, written as their discrete logarithms. */
module Algebra {
  import opened Field
  import opened Sums

  datatype Element = Element(log: Scalar)

  const IDENTITY := Element(0)

  /** A nonidentity element. */
  type Point = e: Element | e != IDENTITY witness Element(1)

  /** The multiple of the generator; injective by construction. */
  function FromScalar(s: Scalar): Element { Element(s) }

  function Plus(a: Element, b: Element): Element { Element(Add(a.log, b.log)) }

  function Times(a: Element, s: Scalar): Element { Element(Mul(a.log, s)) }

  function Logs(es: seq<Element>): (r: seq<Scalar>)
    ensures |r| == |es|
  {
    seq(|es|, i requires 0 <= i < |es| => es[i].log)
  }

  function Total(es: seq<Element>): Element {
    if es == [] then IDENTITY else Plus(Total(es[..|es| - 1]), es[|es| - 1])
  }

  lemma {:induction false} TotalIsSum(es: seq<Element>)
    ensures Total(es) == Element(Sum(Logs(es)))
  {
    if es != [] {
      var n := |es| - 1;
      TotalIsSum(es[..n]);
      assert Logs(es)[..n] == Logs(es[..n]);
    }
  }
}

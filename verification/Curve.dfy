/** The coordinates of the group: parity, x-coordinate and the even lift.
  *
  * `SECP` has no definition on purpose: it stands for any coordinate map with the
  * laws below, which secp256k1 has because negation flips the parity of y and
  * keeps x.
  */
module Curve {
  import opened Results
  import opened Field
  import opened Ids

  datatype Coordinates =
    Coordinates(odd: Scalar -> bool, x: Scalar -> Id, lift: Id -> Option<Scalar>)

  ghost predicate Lawful(c: Coordinates) {
    && (forall s: Scalar :: s != 0 ==>
      && c.odd(Neg(s)) != c.odd(s)
      && c.x(Neg(s)) == c.x(s)
      && c.lift(c.x(s)) == Some(if c.odd(s) then Neg(s) else s))
    && (forall v: Id :: c.lift(v).Some? ==>
      && c.lift(v).value != 0
      && !c.odd(c.lift(v).value)
      && c.x(c.lift(v).value) == v)
  }

  // Calling the lower half of the scalars even shows that the type is inhabited.
  function HalfX(s: Scalar): (v: Id) { if s <= Q / 2 then s else Q - s }

  function HalfLift(v: Id): Option<Scalar> {
    if 0 < v <= Q / 2 then Some(v) else None
  }

  function HalfCoordinates(): (c: Coordinates)
    ensures Lawful(c)
  {
    HalvesAreLawful();
    Coordinates((s: Scalar) => s > Q / 2, HalfX, HalfLift)
  }

  lemma {:induction false} HalvesAreLawful()
    ensures Lawful(Coordinates((s: Scalar) => s > Q / 2, HalfX, HalfLift))
  {
    OrderIsOdd();
    forall s: Scalar | s != 0 ensures Neg(s) == Q - s {
      ResidueIs(Q - s, 0, Q - s);
    }
  }

  type LawfulCoordinates = c: Coordinates | Lawful(c) witness HalfCoordinates()

  const SECP: LawfulCoordinates

}

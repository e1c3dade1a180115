/** The scalar-valued hash families (src/hash.rs, src/profile.rs).
  *
  * `HASHES` has no definition on purpose: the theorems hold for every choice of
  * functions. Lemmas that need more say so.
  */
module Hashes {
  import opened Field
  import opened Encoding

  datatype Families = Families(
    deal: bytes -> Scalar,
    member: bytes -> Scalar,
    nonce: bytes -> Scalar,
    bind: bytes -> Scalar,
    challenge: bytes -> Scalar)

  const HASHES: Families

  /** Two different inputs with one hash. */
  predicate Collide(h: bytes -> Scalar, a: bytes, b: bytes) { a != b && h(a) == h(b) }
}

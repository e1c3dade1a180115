/** Canonical byte encodings (src/encoding.rs).
  *
  * A `Codec` pairs an encoder with a decoder that also returns the unread input.
  * The law asks that decoding inverts encoding in front of any further bytes, and
  * that a decoder accepts nothing but encodings. The combinators keep the law.
  */
module Encoding {
  import opened Results
  import opened Field
  import opened Algebra
  import opened Shamir
  import opened Ids
  import opened Curve

  /** The leading byte of structured objects in the secp256k1 profile. */
  const WIRE_ID: bytes := [1]

  type byte = n: nat | n < 256
  type bytes = seq<byte>

  // ----- big-endian integers

  /** 256 to the power `n`. */
  function Pow256(n: nat): (r: nat)
    ensures r > 0
  {
    if n == 0 then 1 else 256 * Pow256(n - 1)
  }

  /** The low `width` bytes of `n`, all of it when it fits. */
  function ToBytes(n: nat, width: nat): (s: bytes)
    ensures |s| == width
  {
    if width == 0 then [] else ToBytes(n / 256, width - 1) + [n % 256]
  }

  function FromBytes(s: bytes): (n: nat)
    ensures n < Pow256(|s|)
  {
    if s == [] then 0 else 256 * FromBytes(s[..|s| - 1]) + s[|s| - 1]
  }

  lemma {:induction false} FromToBytes(n: nat, width: nat)
    requires n < Pow256(width)
    ensures FromBytes(ToBytes(n, width)) == n
  {
    if width > 0 {
      FromToBytes(n / 256, width - 1);
      var s := ToBytes(n, width);
      assert s[..|s| - 1] == ToBytes(n / 256, width - 1);
    }
  }

  lemma {:induction false} ToFromBytes(s: bytes)
    ensures ToBytes(FromBytes(s), |s|) == s
  {
    if s != [] {
      ToFromBytes(s[..|s| - 1]);
      assert FromBytes(s) / 256 == FromBytes(s[..|s| - 1]);
    }
  }

  lemma {:induction false} Widths()
    ensures Pow256(1) == 256 && Pow256(2) == U16_LIMIT && Pow256(4) == U32_LIMIT && Pow256(8) == U64_LIMIT
    ensures Pow256(32) == WIDE_LIMIT
  {
    assert Pow256(4) == 256 * (256 * (256 * (256 * Pow256(0))));
    PowSum(4, 4);
    PowSum(8, 8);
    PowSum(16, 16);
  }

  lemma {:induction false} PowSum(m: nat, n: nat)
    ensures Pow256(m + n) == Pow256(m) * Pow256(n)
  {
    if m > 0 {
      PowSum(m - 1, n);
      assert Pow256(m + n) == 256 * Pow256(m - 1 + n) == 256 * (Pow256(m - 1) * Pow256(n)) == Pow256(m) * Pow256(n);
    }
  }

  /** The value of 32 bytes. */
  function FromWide(s: bytes): (n: nat)
    requires |s| == 32
    ensures n < WIDE_LIMIT
  {
    Widths();
    FromBytes(s)
  }

  lemma {:induction false} WideRoundTrip(n: nat, s: bytes)
    requires n < WIDE_LIMIT && |s| == 32
    ensures FromWide(ToBytes(n, 32)) == n
    ensures ToBytes(FromWide(s), 32) == s
  {
    Widths();
    FromToBytes(n, 32);
    ToFromBytes(s);
  }

  // ----- codecs

  datatype Codec<!T(!new)> = Codec(enc: T -> bytes, dec: bytes -> Result<(T, bytes)>, wf: T -> bool)
  {
    ghost predicate Lawful() {
      && (forall x: T, rest: bytes :: wf(x) ==> dec(enc(x) + rest) == Ok((x, rest)))
      && (forall s: bytes :: dec(s).Ok? ==> wf(dec(s).value.0) && s == enc(dec(s).value.0) + dec(s).value.1)
    }

    /** No two values share an encoding, even with other bytes behind it. */
    lemma {:induction false} Injective(x: T, s: bytes, y: T, t: bytes)
      requires Lawful() && wf(x) && wf(y) && enc(x) + s == enc(y) + t
      ensures x == y && s == t
    {
      assert dec(enc(x) + s) == Ok((x, s));
      assert dec(enc(y) + t) == Ok((y, t));
    }
  }

  // ----- primitive fields

  function Uint(width: nat): Codec<nat> {
    Codec(
      (n: nat) => if n < Pow256(width) then ToBytes(n, width) else [],
      s => if |s| < width then Err(UnexpectedEnd) else Ok((FromBytes(s[..width]), s[width..])),
      (n: nat) => n < Pow256(width))
  }

  lemma {:induction false} UintLawful(width: nat)
    ensures Uint(width).Lawful()
  {
    var c := Uint(width);
    forall n: nat, rest: bytes | c.wf(n) ensures c.dec(c.enc(n) + rest) == Ok((n, rest)) {
      FromToBytes(n, width);
      var s := c.enc(n) + rest;
      assert s[..width] == c.enc(n) && s[width..] == rest;
    }
    forall s: bytes | c.dec(s).Ok? ensures s == c.enc(c.dec(s).value.0) + c.dec(s).value.1 {
      ToFromBytes(s[..width]);
    }
  }

  /** The same bytes read at another type. */
  function Map<T(!new), U(!new,==)>(c: Codec<T>, to: T -> U, from: U -> T): Codec<U> {
    Codec(
      u => c.enc(from(u)),
      s => var r := c.dec(s); if r.Err? then Err(r.error) else Ok((to(r.value.0), r.value.1)),
      u => c.wf(from(u)) && to(from(u)) == u)
  }

  lemma {:induction false} MapLawful<T(!new), U(!new)>(c: Codec<T>, to: T -> U, from: U -> T)
    requires c.Lawful() && forall t: T :: c.wf(t) ==> from(to(t)) == t
    ensures Map(c, to, from).Lawful()
  {}

  /** Rejects decoded values outside `p`. */
  function Guard<T(!new)>(c: Codec<T>, p: T -> bool, error: Error): Codec<T> {
    Codec(
      c.enc,
      s => var r := c.dec(s); if r.Ok? && !p(r.value.0) then Err(error) else r,
      x => c.wf(x) && p(x))
  }

  lemma {:induction false} GuardLawful<T(!new)>(c: Codec<T>, p: T -> bool, error: Error)
    requires c.Lawful()
    ensures Guard(c, p, error).Lawful()
  {}

  function Then<A(!new), B(!new)>(c: Codec<A>, d: Codec<B>): Codec<(A, B)> {
    Codec(
      (x: (A, B)) => c.enc(x.0) + d.enc(x.1),
      s =>
        var r := c.dec(s);
        if r.Err? then Err(r.error)
        else
          var t := d.dec(r.value.1);
          if t.Err? then Err(t.error) else Ok(((r.value.0, t.value.0), t.value.1)),
      (x: (A, B)) => c.wf(x.0) && d.wf(x.1))
  }

  lemma {:induction false} ThenLawful<A(!new), B(!new)>(c: Codec<A>, d: Codec<B>)
    requires c.Lawful() && d.Lawful()
    ensures Then(c, d).Lawful()
  {
    var e := Then(c, d);
    forall x: (A, B), rest: bytes | e.wf(x) ensures e.dec(e.enc(x) + rest) == Ok((x, rest)) {
      assert e.enc(x) + rest == c.enc(x.0) + (d.enc(x.1) + rest);
      assert c.dec(c.enc(x.0) + (d.enc(x.1) + rest)) == Ok((x.0, d.enc(x.1) + rest));
      assert d.dec(d.enc(x.1) + rest) == Ok((x.1, rest));
    }
    forall s: bytes | e.dec(s).Ok? ensures s == e.enc(e.dec(s).value.0) + e.dec(s).value.1 {
      var r := c.dec(s).value;
      var t := d.dec(r.1).value;
      assert s == c.enc(r.0) + (d.enc(t.0) + t.1);
      assert s == (c.enc(r.0) + d.enc(t.0)) + t.1;
    }
  }

  /** A second field whose format depends on the first. */
  function Depend<A(!new), B(!new)>(c: Codec<A>, d: A -> Codec<B>): Codec<(A, B)> {
    Codec(
      (x: (A, B)) => c.enc(x.0) + d(x.0).enc(x.1),
      s =>
        var r := c.dec(s);
        if r.Err? then Err(r.error)
        else
          var t := d(r.value.0).dec(r.value.1);
          if t.Err? then Err(t.error) else Ok(((r.value.0, t.value.0), t.value.1)),
      (x: (A, B)) => c.wf(x.0) && d(x.0).wf(x.1))
  }

  lemma {:induction false} DependLawful<A(!new), B(!new)>(c: Codec<A>, d: A -> Codec<B>)
    requires c.Lawful() && forall a: A :: c.wf(a) ==> d(a).Lawful()
    ensures Depend(c, d).Lawful()
  {
    var e := Depend(c, d);
    forall x: (A, B), rest: bytes | e.wf(x) ensures e.dec(e.enc(x) + rest) == Ok((x, rest)) {
      assert e.enc(x) + rest == c.enc(x.0) + (d(x.0).enc(x.1) + rest);
      assert c.dec(c.enc(x.0) + (d(x.0).enc(x.1) + rest)) == Ok((x.0, d(x.0).enc(x.1) + rest));
      assert d(x.0).dec(d(x.0).enc(x.1) + rest) == Ok((x.1, rest));
    }
    forall s: bytes | e.dec(s).Ok? ensures e.wf(e.dec(s).value.0) && s == e.enc(e.dec(s).value.0) + e.dec(s).value.1 {
      var r := c.dec(s).value;
      assert c.wf(r.0) && s == c.enc(r.0) + r.1;
      var t := d(r.0).dec(r.1).value;
      assert d(r.0).wf(t.0) && r.1 == d(r.0).enc(t.0) + t.1;
      assert s == (c.enc(r.0) + d(r.0).enc(t.0)) + t.1;
    }
  }

  // ----- lists

  function EncodeAll<T(!new)>(c: Codec<T>, xs: seq<T>): bytes {
    if xs == [] then [] else c.enc(xs[0]) + EncodeAll(c, xs[1..])
  }

  function DecodeAll<T(!new)>(c: Codec<T>, count: nat, s: bytes): Result<(seq<T>, bytes)> {
    if count == 0 then Ok(([], s))
    else
      var head :- c.dec(s);
      var tail :- DecodeAll(c, count - 1, head.1);
      Ok(([head.0] + tail.0, tail.1))
  }

  lemma {:induction false} DecodeEncodeAll<T(!new)>(c: Codec<T>, xs: seq<T>, rest: bytes)
    requires c.Lawful() && forall x :: x in xs ==> c.wf(x)
    ensures DecodeAll(c, |xs|, EncodeAll(c, xs) + rest) == Ok((xs, rest))
  {
    if xs != [] {
      var tail := EncodeAll(c, xs[1..]) + rest;
      assert EncodeAll(c, xs) + rest == c.enc(xs[0]) + tail;
      assert c.wf(xs[0]) && c.dec(c.enc(xs[0]) + tail) == Ok((xs[0], tail));
      DecodeEncodeAll(c, xs[1..], rest);
      assert [xs[0]] + xs[1..] == xs;
    } else {
      assert EncodeAll(c, xs) + rest == rest;
    }
  }

  lemma {:induction false} EncodeDecodeAll<T(!new)>(c: Codec<T>, count: nat, s: bytes)
    requires c.Lawful() && DecodeAll(c, count, s).Ok?
    ensures var r := DecodeAll(c, count, s).value;
      |r.0| == count && (forall x :: x in r.0 ==> c.wf(x)) && s == EncodeAll(c, r.0) + r.1
  {
    if count > 0 {
      var head := c.dec(s).value;
      EncodeDecodeAll(c, count - 1, head.1);
      var tail := DecodeAll(c, count - 1, head.1).value;
      var xs := [head.0] + tail.0;
      assert xs[1..] == tail.0;
      assert s == c.enc(head.0) + (EncodeAll(c, tail.0) + tail.1);
      assert s == (c.enc(head.0) + EncodeAll(c, tail.0)) + tail.1;
    } else {
      assert s == EncodeAll<T>(c, []) + s;
    }
  }

  function EncodeCounted<T(!new)>(width: nat, c: Codec<T>, xs: seq<T>): bytes {
    if |xs| < Pow256(width) then ToBytes(|xs|, width) + EncodeAll(c, xs) else []
  }

  function DecodeCounted<T(!new)>(width: nat, least: nat, c: Codec<T>, s: bytes): Result<(seq<T>, bytes)> {
    if |s| < width then Err(UnexpectedEnd)
    else if FromBytes(s[..width]) < least then Err(EmptyInput)
    else DecodeAll(c, FromBytes(s[..width]), s[width..])
  }

  /** A count of `width` bytes, at least `least`, then the items. */
  function Counted<T(!new)>(width: nat, least: nat, c: Codec<T>): Codec<seq<T>> {
    Codec(
      xs => EncodeCounted(width, c, xs),
      s => DecodeCounted(width, least, c, s),
      xs => least <= |xs| < Pow256(width) && forall i :: 0 <= i < |xs| ==> c.wf(xs[i]))
  }

  lemma {:induction false} CountedDecodes<T(!new)>(width: nat, least: nat, c: Codec<T>, xs: seq<T>, rest: bytes)
    requires c.Lawful() && least <= |xs| < Pow256(width) && forall x :: x in xs ==> c.wf(x)
    ensures DecodeCounted(width, least, c, EncodeCounted(width, c, xs) + rest) == Ok((xs, rest))
  {
    hide Pow256, EncodeAll, DecodeAll, ToBytes, FromBytes, Codec.Lawful;
    FromToBytes(|xs|, width);
    var s := EncodeCounted(width, c, xs) + rest;
    assert s[..width] == ToBytes(|xs|, width) && s[width..] == EncodeAll(c, xs) + rest;
    DecodeEncodeAll(c, xs, rest);
  }

  lemma {:induction false} CountedCanonical<T(!new)>(width: nat, least: nat, c: Codec<T>, s: bytes)
    requires c.Lawful() && DecodeCounted(width, least, c, s).Ok?
    ensures var r := DecodeCounted(width, least, c, s).value;
      && least <= |r.0| < Pow256(width) && (forall x :: x in r.0 ==> c.wf(x))
      && s == EncodeCounted(width, c, r.0) + r.1
  {
    hide Pow256, EncodeAll, DecodeAll, ToBytes, FromBytes, Codec.Lawful;
    var count := FromBytes(s[..width]);
    EncodeDecodeAll(c, count, s[width..]);
    ToFromBytes(s[..width]);
    var r := DecodeAll(c, count, s[width..]).value;
    assert s == s[..width] + s[width..];
    assert EncodeCounted(width, c, r.0) + r.1 == s[..width] + (EncodeAll(c, r.0) + r.1);
  }

  lemma {:induction false} CountedLawful<T(!new)>(width: nat, least: nat, c: Codec<T>)
    requires c.Lawful()
    ensures Counted(width, least, c).Lawful()
  {
    hide Pow256, EncodeCounted, DecodeCounted;
    var e := Counted(width, least, c);
    forall xs: seq<T>, rest: bytes | e.wf(xs) ensures e.dec(e.enc(xs) + rest) == Ok((xs, rest)) {
      CountedDecodes(width, least, c, xs, rest);
    }
    forall s: bytes | e.dec(s).Ok?
      ensures e.wf(e.dec(s).value.0) && s == e.enc(e.dec(s).value.0) + e.dec(s).value.1
    {
      CountedCanonical(width, least, c, s);
    }
  }

  /** One value in each of the given formats. */
  function EncodeEach<T(!new)>(cs: seq<Codec<T>>, xs: seq<T>): bytes {
    if cs == [] || xs == [] then [] else cs[0].enc(xs[0]) + EncodeEach(cs[1..], xs[1..])
  }

  function DecodeEach<T(!new)>(cs: seq<Codec<T>>, s: bytes): Result<(seq<T>, bytes)> {
    if cs == [] then Ok(([], s))
    else
      var head :- cs[0].dec(s);
      var tail :- DecodeEach(cs[1..], head.1);
      Ok(([head.0] + tail.0, tail.1))
  }

  function Each<T(!new)>(cs: seq<Codec<T>>): Codec<seq<T>> {
    Codec(
      xs => EncodeEach(cs, xs),
      s => DecodeEach(cs, s),
      xs => |xs| == |cs| && forall i :: 0 <= i < |xs| ==> cs[i].wf(xs[i]))
  }

  lemma {:induction false} EachDecodes<T(!new)>(cs: seq<Codec<T>>, xs: seq<T>, rest: bytes)
    requires (forall i :: 0 <= i < |cs| ==> cs[i].Lawful()) && Each(cs).wf(xs)
    ensures DecodeEach(cs, EncodeEach(cs, xs) + rest) == Ok((xs, rest))
  {
    if cs == [] {
      assert EncodeEach(cs, xs) + rest == rest;
    } else {
      var tail := EncodeEach(cs[1..], xs[1..]) + rest;
      assert EncodeEach(cs, xs) + rest == cs[0].enc(xs[0]) + tail;
      assert cs[0].Lawful() && cs[0].wf(xs[0]) && cs[0].dec(cs[0].enc(xs[0]) + tail) == Ok((xs[0], tail));
      EachDecodes(cs[1..], xs[1..], rest);
      assert [xs[0]] + xs[1..] == xs;
    }
  }

  lemma {:induction false} EachCanonical<T(!new)>(cs: seq<Codec<T>>, s: bytes)
    requires (forall i :: 0 <= i < |cs| ==> cs[i].Lawful()) && DecodeEach(cs, s).Ok?
    ensures var r := DecodeEach(cs, s).value;
      Each(cs).wf(r.0) && s == EncodeEach(cs, r.0) + r.1
  {
    if cs == [] {
      assert s == EncodeEach<T>(cs, []) + s;
    } else {
      assert cs[0].Lawful();
      var head := cs[0].dec(s).value;
      EachCanonical(cs[1..], head.1);
      var tail := DecodeEach(cs[1..], head.1).value;
      var xs := [head.0] + tail.0;
      assert xs[1..] == tail.0;
      forall i | 0 <= i < |xs| ensures cs[i].wf(xs[i]) {
        if i > 0 { assert cs[1..][i - 1].wf(tail.0[i - 1]); }
      }
      assert s == cs[0].enc(head.0) + (EncodeEach(cs[1..], tail.0) + tail.1);
      assert s == (cs[0].enc(head.0) + EncodeEach(cs[1..], tail.0)) + tail.1;
    }
  }

  lemma {:induction false} EachLawful<T(!new)>(cs: seq<Codec<T>>)
    requires forall i :: 0 <= i < |cs| ==> cs[i].Lawful()
    ensures Each(cs).Lawful()
  {
    var e := Each(cs);
    forall xs: seq<T>, rest: bytes | e.wf(xs) ensures e.dec(e.enc(xs) + rest) == Ok((xs, rest)) {
      EachDecodes(cs, xs, rest);
    }
    forall s: bytes | e.dec(s).Ok?
      ensures e.wf(e.dec(s).value.0) && s == e.enc(e.dec(s).value.0) + e.dec(s).value.1
    {
      EachCanonical(cs, s);
    }
  }

  // ----- length-prefixed byte strings

  function Blob(): Codec<bytes> {
    Codec(
      x => if |x| < U32_LIMIT then ToBytes(|x|, 4) + x else [],
      s =>
        if |s| < 4 then Err(UnexpectedEnd)
        else
          var n := FromBytes(s[..4]);
          if |s| < 4 + n then Err(UnexpectedEnd) else Ok((s[4..4 + n], s[4 + n..])),
      x => |x| < U32_LIMIT)
  }

  lemma {:induction false} BlobLawful()
    ensures Blob().Lawful()
  {
    hide Pow256;
    Widths();
    var c := Blob();
    forall x: bytes, rest: bytes | c.wf(x) ensures c.dec(c.enc(x) + rest) == Ok((x, rest)) {
      FromToBytes(|x|, 4);
      var s := c.enc(x) + rest;
      assert s[..4] == ToBytes(|x|, 4) && s[4..4 + |x|] == x && s[4 + |x|..] == rest;
    }
    forall s: bytes | c.dec(s).Ok?
      ensures c.wf(c.dec(s).value.0) && s == c.enc(c.dec(s).value.0) + c.dec(s).value.1
    {
      ToFromBytes(s[..4]);
      var n := FromBytes(s[..4]);
      assert s == s[..4] + s[4..4 + n] + s[4 + n..];
    }
  }

  // ----- complete records

  /** An encoder and a decoder of complete byte strings. */
  datatype Format<!T(!new)> = Format(encode: T -> bytes, decode: bytes -> Result<T>, wf: T -> bool)
  {
    /** Decoding inverts encoding, and accepted bytes are canonical. */
    ghost predicate Lawful() {
      && (forall x: T :: wf(x) ==> decode(encode(x)) == Ok(x))
      && (forall s: bytes :: decode(s).Ok? ==> wf(decode(s).value) && encode(decode(s).value) == s)
    }
  }

  /** Reads one value and expects the end of the input. */
  function Whole<T(!new)>(c: Codec<T>): Format<T> {
    Format(
      c.enc,
      s =>
        var r := c.dec(s);
        if r.Err? then Err(r.error)
        else if r.value.1 == [] then Ok(r.value.0) else Err(TrailingBytes),
      c.wf)
  }

  lemma {:induction false} WholeLawful<T(!new)>(c: Codec<T>)
    requires c.Lawful()
    ensures Whole(c).Lawful()
  {
    var f := Whole(c);
    forall x: T | f.wf(x) ensures f.decode(f.encode(x)) == Ok(x) {
      assert c.enc(x) + [] == c.enc(x);
      assert c.dec(c.enc(x) + []) == Ok((x, []));
    }
    forall s: bytes | f.decode(s).Ok? ensures f.encode(f.decode(s).value) == s {
      assert s == c.enc(f.decode(s).value) + [];
    }
  }

  /** Builds a value from decoded parts; `parts` is what the encoder writes. */
  function Checked<T(!new), U(!new, ==)>(f: Format<T>, build: T -> Result<U>, parts: U -> T): Format<U> {
    Format(
      u => f.encode(parts(u)),
      s => var r := f.decode(s); if r.Err? then Err(r.error) else build(r.value),
      u => f.wf(parts(u)) && build(parts(u)) == Ok(u))
  }

  lemma {:induction false} CheckedLawful<T(!new), U(!new)>(f: Format<T>, build: T -> Result<U>, parts: U -> T)
    requires f.Lawful()
    requires forall t: T :: f.wf(t) && build(t).Ok? ==> parts(build(t).value) == t
    ensures Checked(f, build, parts).Lawful()
  {}

  /** A complete record inside a byte string. */
  function Nested<T(!new)>(f: Format<T>): Codec<T> {
    Codec(
      x => Blob().enc(f.encode(x)),
      s =>
        var r := Blob().dec(s);
        if r.Err? then Err(r.error)
        else
          var t := f.decode(r.value.0);
          if t.Err? then Err(t.error) else Ok((t.value, r.value.1)),
      x => f.wf(x) && |f.encode(x)| < U32_LIMIT)
  }

  lemma {:induction false} NestedLawful<T(!new)>(f: Format<T>)
    requires f.Lawful()
    ensures Nested(f).Lawful()
  {
    BlobLawful();
    var b, e := Blob(), Nested(f);
    forall x: T, rest: bytes | e.wf(x) ensures e.dec(e.enc(x) + rest) == Ok((x, rest)) {
      assert b.wf(f.encode(x));
      assert b.dec(b.enc(f.encode(x)) + rest) == Ok((f.encode(x), rest));
    }
    forall s: bytes | e.dec(s).Ok?
      ensures e.wf(e.dec(s).value.0) && s == e.enc(e.dec(s).value.0) + e.dec(s).value.1
    {
      var r := b.dec(s).value;
      assert b.wf(r.0) && s == b.enc(r.0) + r.1;
      assert f.decode(r.0).Ok?;
    }
  }

  // ----- scalars, points and elements

  function ScalarField(): Codec<Scalar> {
    Codec(
      (x: Scalar) => ToBytes(x, 32),
      s =>
        if |s| < 32 then Err(UnexpectedEnd)
        else if FromWide(s[..32]) < Q then Ok((FromWide(s[..32]), s[32..]))
        else Err(InvalidScalar),
      (x: Scalar) => true)
  }

  lemma {:induction false} ScalarLawful()
    ensures ScalarField().Lawful()
  {
    hide ToBytes, FromWide;
    var c := ScalarField();
    forall x: Scalar, rest: bytes ensures c.dec(c.enc(x) + rest) == Ok((x, rest)) {
      WideRoundTrip(x, ToBytes(x, 32));
      var s := c.enc(x) + rest;
      assert s[..32] == c.enc(x) && s[32..] == rest;
    }
    forall s: bytes | c.dec(s).Ok? ensures s == c.enc(c.dec(s).value.0) + c.dec(s).value.1 {
      WideRoundTrip(0, s[..32]);
    }
  }

  /** A compressed point: the parity tag, then the x-coordinate. */
  function PointBytes(p: Point): (s: bytes)
    ensures |s| == 33
  {
    [if SECP.odd(p.log) then 3 else 2] + ToBytes(SECP.x(p.log), 32)
  }

  function ParsePoint(s: bytes): Result<Point>
    requires |s| == 33
  {
    var even := SECP.lift(FromWide(s[1..]));
    if even.None? then Err(InvalidPoint)
    else
      NegNeg(even.value);
      if s[0] == 2 then Ok(Element(even.value))
      else if s[0] == 3 then Ok(Element(Neg(even.value)))
      else Err(InvalidPoint)
  }

  lemma {:induction false} PointRoundTrip(p: Point, s: bytes)
    requires |s| == 33
    ensures ParsePoint(PointBytes(p)) == Ok(p)
    ensures ParsePoint(s) == Ok(p) ==> s == PointBytes(p)
  {
    hide ToBytes, FromWide, Neg;
    var t := PointBytes(p);
    assert t[1..] == ToBytes(SECP.x(p.log), 32);
    WideRoundTrip(SECP.x(p.log), s[1..]);
    NegNeg(p.log);
    if ParsePoint(s) == Ok(p) {
      var even := SECP.lift(FromWide(s[1..])).value;
      NegNeg(even);
      assert s == [s[0]] + s[1..];
      assert SECP.odd(Neg(even)) != SECP.odd(even) && SECP.x(Neg(even)) == SECP.x(even);
    }
  }

  function PointField(): Codec<Point> {
    Codec(
      (p: Point) => PointBytes(p),
      s =>
        if |s| < 33 then Err(UnexpectedEnd)
        else
          var r := ParsePoint(s[..33]);
          if r.Err? then Err(r.error) else Ok((r.value, s[33..])),
      (p: Point) => true)
  }

  lemma {:induction false} PointLawful()
    ensures PointField().Lawful()
  {
    var c := PointField();
    forall p: Point, rest: bytes ensures c.dec(c.enc(p) + rest) == Ok((p, rest)) {
      PointRoundTrip(p, PointBytes(p));
      var s := c.enc(p) + rest;
      assert s[..33] == PointBytes(p) && s[33..] == rest;
    }
    forall s: bytes | c.dec(s).Ok? ensures s == c.enc(c.dec(s).value.0) + c.dec(s).value.1 {
      PointRoundTrip(c.dec(s).value.0, s[..33]);
    }
  }

  function Zeros(n: nat): (s: bytes)
    ensures |s| == n
  {
    seq(n, _ => 0)
  }

  /** An element behind an explicit identity tag. */
  function ElementField(): Codec<Element> {
    Codec(
      (e: Element) => if e == IDENTITY then Zeros(34) else [1] + PointBytes(e),
      s =>
        if |s| < 34 then Err(UnexpectedEnd)
        else if s[0] == 0 then
          if s[..34] == Zeros(34) then Ok((IDENTITY, s[34..])) else Err(InvalidIdentity)
        else if s[0] == 1 then
          var r := ParsePoint(s[1..34]);
          if r.Err? then Err(r.error) else Ok((r.value, s[34..]))
        else Err(InvalidElementTag),
      (e: Element) => true)
  }

  lemma {:induction false} ElementLawful()
    ensures ElementField().Lawful()
  {
    var c := ElementField();
    forall e: Element, rest: bytes ensures c.dec(c.enc(e) + rest) == Ok((e, rest)) {
      var s := c.enc(e) + rest;
      assert s[..34] == c.enc(e) && s[34..] == rest;
      if e != IDENTITY {
        PointRoundTrip(e, PointBytes(e));
        assert s[1..34] == PointBytes(e);
      }
    }
    forall s: bytes | c.dec(s).Ok? ensures s == c.enc(c.dec(s).value.0) + c.dec(s).value.1 {
      assert s == s[..34] + s[34..];
      if s[0] == 1 {
        PointRoundTrip(c.dec(s).value.0, s[1..34]);
        assert s[..34] == [1] + s[1..34];
      }
    }
  }

  // ----- fixed-width fields at their own types

  function ToId(n: nat): Id { if n < WIDE_LIMIT then n else 0 }
  function ToU16(n: nat): U16 { if n < U16_LIMIT then n else 0 }
  function ToU64(n: nat): U64 { if n < U64_LIMIT then n else 0 }

  function IdField(): Codec<Id> { Map<nat, Id>(Uint(32), ToId, (x: Id) => x) }
  function U16Field(): Codec<U16> { Map<nat, U16>(Uint(2), ToU16, (x: U16) => x) }
  function U64Field(): Codec<U64> { Map<nat, U64>(Uint(8), ToU64, (x: U64) => x) }

  /** A field behind literal bytes; other bytes give `error`. */
  function Marked<T(!new)>(mark: bytes, error: Error, c: Codec<T>): Codec<T> {
    Codec(
      x => mark + c.enc(x),
      s =>
        if |s| < |mark| then Err(UnexpectedEnd)
        else if s[..|mark|] == mark then c.dec(s[|mark|..]) else Err(error),
      c.wf)
  }

  lemma {:induction false} MarkedLawful<T(!new)>(mark: bytes, error: Error, c: Codec<T>)
    requires c.Lawful()
    ensures Marked(mark, error, c).Lawful()
  {
    var e := Marked(mark, error, c);
    forall x: T, rest: bytes | e.wf(x) ensures e.dec(e.enc(x) + rest) == Ok((x, rest)) {
      var s := e.enc(x) + rest;
      assert s[..|mark|] == mark && s[|mark|..] == c.enc(x) + rest;
    }
    forall s: bytes | e.dec(s).Ok? ensures s == e.enc(e.dec(s).value.0) + e.dec(s).value.1 {
      var r := c.dec(s[|mark|..]).value;
      assert s == s[..|mark|] + s[|mark|..];
      assert s == (mark + c.enc(r.0)) + r.1;
    }
  }

  lemma {:induction false} FieldsLawful()
    ensures IdField().Lawful() && U16Field().Lawful() && U64Field().Lawful()
    ensures ScalarField().Lawful() && PointField().Lawful() && ElementField().Lawful()
    ensures Blob().Lawful()
  {
    Widths();
    UintLawful(32);
    UintLawful(2);
    UintLawful(8);
    MapLawful<nat, Id>(Uint(32), ToId, (x: Id) => x);
    MapLawful<nat, U16>(Uint(2), ToU16, (x: U16) => x);
    MapLawful<nat, U64>(Uint(8), ToU64, (x: U64) => x);
    ScalarLawful();
    PointLawful();
    ElementLawful();
    BlobLawful();
  }

  /** Every value of a field's own type fits the field. */
  lemma {:induction false} FieldsFit()
    ensures forall x: Id :: IdField().wf(x)
    ensures forall x: U16 :: U16Field().wf(x)
    ensures forall x: U64 :: U64Field().wf(x)
    ensures forall x: Scalar :: ScalarField().wf(x)
    ensures forall x: Point :: PointField().wf(x)
    ensures forall x: Element :: ElementField().wf(x)
  {
    hide Pow256, ToBytes, FromBytes;
    Widths();
  }

  lemma {:induction false} FieldLengths()
    ensures forall x: Id :: |IdField().enc(x)| == 32
    ensures forall x: U16 :: |U16Field().enc(x)| == 2
    ensures forall x: U64 :: |U64Field().enc(x)| == 8
    ensures forall x: Scalar :: |ScalarField().enc(x)| == 32
    ensures forall x: Point :: |PointField().enc(x)| == 33
    ensures forall x: Element :: |ElementField().enc(x)| == 34
  {
    hide ToBytes, Pow256, FromBytes;
    Widths();
  }

  /** A length-prefixed byte string. */
  function PutBytes(s: bytes): Result<bytes> {
    if |s| < U32_LIMIT then Ok(ToBytes(|s|, 4) + s) else Err(LengthOverflow)
  }


  function NodeField(): Codec<Node> {
    Map<Scalar, Node>(Guard(ScalarField(), IsNode, ZeroNode), ToNode, (x: Node) => x)
  }

  predicate IsNode(x: Scalar) { x != 0 }
  function ToNode(x: Scalar): Node { if x == 0 then 1 else x }

  lemma {:induction false} NodeLawful()
    ensures NodeField().Lawful()
  {
    hide Codec.Lawful, Format.Lawful;
    ScalarLawful();
    GuardLawful(ScalarField(), IsNode, ZeroNode);
    MapLawful<Scalar, Node>(Guard(ScalarField(), IsNode, ZeroNode), ToNode, (x: Node) => x);
  }

  lemma {:induction false} NodesFit()
    ensures forall x: Node :: NodeField().wf(x)
  {
    forall x: Node ensures NodeField().wf(x) {
      var s: Scalar := x;
      assert ScalarField().wf(s) && IsNode(s);
      assert Guard(ScalarField(), IsNode, ZeroNode).wf(s);
    }
  }


  // ----- alternatives

  datatype Either<+A, +B> = Left(left: A) | Right(right: B)

  /** One of two formats behind a tag byte. */
  function Choice<A(!new), B(!new)>(c: Codec<A>, d: Codec<B>): Codec<Either<A, B>> {
    Codec(
      (x: Either<A, B>) => match x case Left(a) => [0] + c.enc(a) case Right(b) => [1] + d.enc(b),
      s =>
        if s == [] then Err(UnexpectedEnd)
        else if s[0] == 0 then
          var r := c.dec(s[1..]);
          if r.Err? then Err(r.error) else Ok((Left(r.value.0), r.value.1))
        else if s[0] == 1 then
          var r := d.dec(s[1..]);
          if r.Err? then Err(r.error) else Ok((Right(r.value.0), r.value.1))
        else Err(InvalidTranscript),
      (x: Either<A, B>) => match x case Left(a) => c.wf(a) case Right(b) => d.wf(b))
  }

  lemma {:induction false} ChoiceLawful<A(!new), B(!new)>(c: Codec<A>, d: Codec<B>)
    requires c.Lawful() && d.Lawful()
    ensures Choice(c, d).Lawful()
  {
    var e := Choice(c, d);
    forall x: Either<A, B>, rest: bytes | e.wf(x) ensures e.dec(e.enc(x) + rest) == Ok((x, rest)) {
      ChoiceDecodes(c, d, x, rest);
    }
    forall s: bytes | e.dec(s).Ok?
      ensures e.wf(e.dec(s).value.0) && s == e.enc(e.dec(s).value.0) + e.dec(s).value.1
    {
      ChoiceCanonical(c, d, s);
    }
  }

  lemma {:induction false} ChoiceDecodes<A(!new), B(!new)>(c: Codec<A>, d: Codec<B>, x: Either<A, B>, rest: bytes)
    requires c.Lawful() && d.Lawful() && Choice(c, d).wf(x)
    ensures Choice(c, d).dec(Choice(c, d).enc(x) + rest) == Ok((x, rest))
  {
    var s := Choice(c, d).enc(x) + rest;
    match x
    case Left(a) => assert s[1..] == c.enc(a) + rest;
    case Right(b) => assert s[1..] == d.enc(b) + rest;
  }

  lemma {:induction false} ChoiceCanonical<A(!new), B(!new)>(c: Codec<A>, d: Codec<B>, s: bytes)
    requires c.Lawful() && d.Lawful() && Choice(c, d).dec(s).Ok?
    ensures var r := Choice(c, d).dec(s).value; Choice(c, d).wf(r.0) && s == Choice(c, d).enc(r.0) + r.1
  {
    assert s == [s[0]] + s[1..];
    var r := Choice(c, d).dec(s).value;
    match r.0
    case Left(a) => assert s == ([0] + c.enc(a)) + r.1;
    case Right(b) => assert s == ([1] + d.enc(b)) + r.1;
  }
}

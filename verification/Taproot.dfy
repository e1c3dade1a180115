/** The Taproot transform of nested signing (src/taproot/key.rs, src/taproot/sign.rs). */
module Taproot {
  import opened Results
  import opened Field
  import opened Sums
  import opened Sorting
  import opened Algebra
  import opened Shamir
  import opened Support
  import opened Genesis
  import opened Ids
  import opened Encoding
  import opened Hashes
  import opened Curve
  import opened Transcript
  import opened Signing
  import opened NestedSigning

  /** The tagged hashes of BIP-340 and BIP-341, as arbitrary functions. */
  datatype TaggedHashes = TaggedHashes(tweak: bytes -> Id, challenge: bytes -> Id)

  const TAGGED: TaggedHashes

  // ----- signs and even points

  datatype Sign = Positive | Negative
  {
    function Factor(): Scalar { if Positive? then 1 else Neg(1) }
  }

  function XOnly(p: Point): Id { SECP.x(p.log) }

  function LiftEven(coordinate: Id): Result<Point> {
    var even := SECP.lift(coordinate);
    if even.Some? && even.value != 0 then Ok(Element(even.value)) else Err(InvalidPoint)
  }

  /** The even-Y representative of a point, and the sign that leads to it. */
  function EvenNormalize(p: Point): (r: (Sign, Point)) {
    NegNeg(p.log);
    if SECP.odd(p.log) then (Negative, Element(Neg(p.log))) else (Positive, p)
  }

  lemma {:induction false} SignSquare(s: Sign)
    ensures Mul(s.Factor(), s.Factor()) == 1
  {
    hide Mul, Neg;
    MulOne(1);
    NegMul(1, Neg(1));
    NegMul(1, 1);
    NegNeg(1);
  }

  /** Normalising multiplies by the sign, and the even point is found again from
    * its x-coordinate alone.
    */
  lemma {:induction false} EvenPoint(p: Point)
    ensures var (s, e) := EvenNormalize(p);
      e == Times(p, s.Factor()) && !SECP.odd(e.log) && XOnly(e) == XOnly(p) && LiftEven(XOnly(e)) == Ok(e)
  {
    hide Mul, Neg;
    MulOne(p.log);
    NegMul(p.log, 1);
    NegNeg(p.log);
    assert SECP.odd(Neg(p.log)) != SECP.odd(p.log);
  }

  // ----- keys

  function TapTweak(internal: Point, root: Option<Id>): Result<Scalar> {
    var x := ToBytes(XOnly(internal), 32);
    var hash := TAGGED.tweak(if root.None? then x else x + ToBytes(root.value, 32));
    if hash < Q then Ok(hash) else Err(InvalidTweak)
  }

  /** A key-path key derived from the plain vault key and a script tree. */
  datatype Key = Key(vault: Point, root: Option<Id>, internalSign: Sign, outputSign: Sign, tweak: Scalar, output: Id)
  {
    static function New(vault: Point, root: Option<Id>): Result<Key> {
      var (internalSign, internal) := EvenNormalize(vault);
      var tweak :- TapTweak(internal, root);
      var tweaked := Plus(internal, FromScalar(tweak));
      if tweaked == IDENTITY then Err(IdentityPoint)
      else
        var (outputSign, output) := EvenNormalize(tweaked);
        Ok(Key(vault, root, internalSign, outputSign, tweak, XOnly(output)))
    }
  }

  /** `b(aQ + tG)` for the two signs `a` and `b` of a key. */
  function TweakedKey(vault: Element, key: Key): Element {
    Times(Plus(Times(vault, key.internalSign.Factor()), FromScalar(key.tweak)), key.outputSign.Factor())
  }

  /** The x-only output key lifts back to the tweaked vault key. */
  lemma {:induction false} OutputKey(vault: Point, root: Option<Id>)
    ensures var r := Key.New(vault, root);
      r.Ok? ==> LiftEven(r.value.output) == Ok(TweakedKey(vault, r.value))
  {
    hide Plus, Times, ToBytes;
    var r := Key.New(vault, root);
    if r.Ok? {
      EvenPoint(vault);
      EvenPoint(Plus(EvenNormalize(vault).1, FromScalar(r.value.tweak)));
    }
  }

  // ----- packages and contexts

  // "coupery-ksnf/taproot/v1"
  const TAPROOT_ID: bytes := [
    99, 111, 117, 112, 101, 114, 121, 45, 107, 115, 110, 102, 47,
    116, 97, 112, 114, 111, 111, 116, 47, 118, 49]
  const PACKAGE_KIND: byte := 2

  datatype Package = Package(root: RootPackage, key: Key)
  {
    static function New(root: RootPackage, key: Key): Result<Package> {
      if root.head.key != key.vault then Err(InvalidTranscript)
      else if |root.head.message| != 32 then Err(InvalidSighash)
      else Ok(Package(root, key))
    }

    /** The signed hash. */
    function Sighash(): bytes { root.head.message }

    function Bytes(): Result<bytes> {
      var payload :- PackageBytes(root);
      var name :- PutBytes(TAPROOT_ID);
      var packed :- PutBytes(payload);
      Ok([1] + name + [PACKAGE_KIND] + packed + if key.root.None? then [0] else [1] + ToBytes(key.root.value, 32))
    }
  }

  function TapChallenge(nonce: Point, output: Point, sighash: bytes): Scalar {
    TAGGED.challenge(ToBytes(XOnly(nonce), 32) + ToBytes(XOnly(output), 32) + sighash) % Q
  }

  /** The binding factors of the first `n` entries. */
  function TapFactors(packageBytes: bytes, n: nat): (r: Result<seq<Scalar>>)
    ensures r.Ok? ==> |r.value| == n
  {
    if n == 0 then Ok([])
    else
      var front :- TapFactors(packageBytes, n - 1);
      if n - 1 >= U16_LIMIT then Err(LengthOverflow)
      else
        var packed :- PutBytes(packageBytes);
        Ok(front + [HASHES.bind([1] + packed + ToBytes(n - 1, 2))])
  }

  /** The plain context with the raw nonce and the BIP-340 challenge, and the sign
    * that makes the nonce even.
    */
  datatype TapContext = TapContext(package: Package, view: SigningContext, nonceSign: Sign)
  {
    static function New(package: Package): Result<TapContext> {
      Widths();
      var packageBytes :- package.Bytes();
      var entries := package.root.entries;
      var factors :- TapFactors(packageBytes, |entries|);
      var raw := Total(BoundNonces(entries, factors));
      if entries == [] then Err(EmptyInput)
      else if raw == IDENTITY then Err(IdentityNonce)
      else
        var (nonceSign, nonce) := EvenNormalize(raw);
        var output :- LiftEven(package.key.output);
        var challenge := TapChallenge(nonce, output, package.Sighash());
        Ok(TapContext(package, SigningContext(package.root, factors, raw, challenge), nonceSign))
    }

    /** The even aggregate nonce. */
    function Nonce(): Point { EvenNormalize(view.nonce).1 }

    /** The challenge with all three signs folded in. */
    function Folded(): Scalar {
      Mul(Mul(Mul(view.challenge, package.key.internalSign.Factor()), package.key.outputSign.Factor()),
        nonceSign.Factor())
    }

    /** The plain context whose signers the transform reuses. */
    function Plainly(): SigningContext { view.(challenge := Folded()) }

    /** Restores the nonce sign and adds this coefficient's part of the tweak. */
    function Twist(coefficient: Scalar, partial: Scalar): Scalar {
      Add(
        Mul(nonceSign.Factor(), partial),
        Mul(Mul(Mul(view.challenge, coefficient), package.key.outputSign.Factor()), package.key.tweak))
    }

    /** The partial equation of either tier. */
    predicate Holds(z: Scalar, nonce: NoncePair, rho: Scalar, coefficient: Scalar, share: Element) {
      var signed := Plus(Times(share, package.key.internalSign.Factor()), FromScalar(package.key.tweak));
      FromScalar(z) == Plus(
        Times(Bind(nonce, rho), nonceSign.Factor()),
        Times(signed, Mul(Mul(view.challenge, coefficient), package.key.outputSign.Factor())))
    }

    function RespondDevice(nonce: Signing.Nonce, t: MemberTranscript, nonces: DeviceNonceSet, device: DeviceId,
        share: Scalar): Result<DeviceResponse> {
      var _ :- ValidateMemberInputs(t, view, nonces);
      var participant :- t.Body().inner.Participant(device);
      if participant.share != FromScalar(share) then Err(ShareMismatch)
      else
        var entry :- nonces.Lookup(device);
        if nonce.Commitments() != entry.nonce then Err(NonceMismatch)
        else
          var inner :- t.Body().inner.Coefficient(device);
          var coefficient := Mul(inner, t.Body().outer.scalar);
          var rho :- view.Binding(t.Slot());
          var partial := nonce.Respond(rho, Folded(), coefficient, share);
          Ok(DeviceResponse(entry.attempt, Twist(coefficient, partial)))
    }

    function AggregateSignatureSpec(support: OuterSupport, responses: seq<MemberResponse>): Result<TapSignature> {
      var response :- CollectSpec(TapEquation(this), view, support, responses);
      var signature := TapSignature(XOnly(Nonce()), response);
      var _ :- signature.Verify(package.key.output, package.Sighash());
      Ok(signature)
    }
  }

  function TapEquation(ctx: TapContext): Equation {
    (z: Scalar, nonce: NoncePair, rho: Scalar, coefficient: Scalar, share: Element) =>
      ctx.Holds(z, nonce, rho, coefficient, share)
  }

  /** A BIP-340 signature. */
  datatype TapSignature = TapSignature(nonceX: Id, response: Scalar)
  {
    function Verify(key: Id, sighash: bytes): Result<()> {
      var nonce :- LiftEven(nonceX);
      var output :- LiftEven(key);
      var challenge := TapChallenge(nonce, output, sighash);
      Need(FromScalar(response) == Plus(nonce, Times(output, challenge)), InvalidSignature)
    }
  }

  /** Verifies member responses and returns a BIP-340 signature. */
  method AggregateTapSignature(ctx: TapContext, support: OuterSupport, responses: seq<MemberResponse>)
    returns (r: Result<TapSignature>)
    ensures r == ctx.AggregateSignatureSpec(support, responses)
  {
    var response := Collect(TapEquation(ctx), ctx.view, support, responses);
    if response.Err? { return Err(response.error); }
    var signature := TapSignature(XOnly(ctx.Nonce()), response.value);
    var verified := signature.Verify(ctx.package.key.output, ctx.package.Sighash());
    if verified.Err? { return Err(verified.error); }
    return Ok(signature);
  }

  // ----- the transform

  /** The factor algebra behind the transform: the nonce sign cancels itself. */
  lemma {:induction false} FoldedFactors(c: Scalar, a: Scalar, b: Scalar, r: Scalar, k: Scalar, x: Scalar)
    requires Mul(r, r) == 1
    ensures Mul(r, Mul(x, Mul(Mul(Mul(Mul(c, a), b), r), k))) == Mul(Mul(x, a), Mul(Mul(c, k), b))
  {
    hide Mul;
    var m := Mul(Mul(Mul(c, a), b), k);
    calc {
      Mul(Mul(Mul(Mul(c, a), b), r), k);
      { MulAssoc(Mul(Mul(c, a), b), r, k); MulComm(r, k); MulAssoc(Mul(Mul(c, a), b), k, r); }
      Mul(m, r);
    }
    calc {
      Mul(r, Mul(x, Mul(m, r)));
      { MulAssoc(x, m, r); MulComm(Mul(x, m), r); MulAssoc(r, r, Mul(x, m)); MulOne(Mul(x, m)); }
      Mul(x, m);
      { MulComm(c, a); MulAssoc(a, c, b); MulAssoc(a, Mul(c, b), k); }
      Mul(x, Mul(a, Mul(Mul(c, b), k)));
      { MulAssoc(x, a, Mul(Mul(c, b), k)); }
      Mul(Mul(x, a), Mul(Mul(c, b), k));
      { MulAssoc(c, b, k); MulComm(b, k); MulAssoc(c, k, b); }
      Mul(Mul(x, a), Mul(Mul(c, k), b));
    }
  }

  /** A partial that holds plainly under the folded challenge holds, twisted, in the
    * Taproot equation.
    */
  lemma {:induction false} TwistHolds(ctx: TapContext, p: Scalar, nonce: NoncePair, rho: Scalar, coefficient: Scalar,
      share: Element)
    requires PartialHolds(p, nonce, rho, ctx.Folded(), coefficient, share)
    ensures ctx.Holds(ctx.Twist(coefficient, p), nonce, rho, coefficient, share)
  {
    hide Add, Mul, Bind, Sign.Factor;
    var key := ctx.package.key;
    var a, b, r, t := key.internalSign.Factor(), key.outputSign.Factor(), ctx.nonceSign.Factor(), key.tweak;
    var c, n := ctx.view.challenge, Bind(nonce, rho).log;
    var weight := Mul(Mul(c, coefficient), b);
    SignSquare(ctx.nonceSign);
    FoldedFactors(c, a, b, r, coefficient, share.log);
    Distribute(r, n, Mul(share.log, Mul(ctx.Folded(), coefficient)));
    MulComm(r, n);
    Distribute(weight, Mul(share.log, a), t);
    MulComm(t, weight);
    AddAssoc(Mul(n, r), Mul(Mul(share.log, a), weight), Mul(weight, t));
  }

  /** Twisted partials whose coefficients sum to `total` add up to the twisted sum. */
  lemma {:induction false} TwistSum(ctx: TapContext, ps: seq<Scalar>, ks: seq<Scalar>, zs: seq<Scalar>, total: Scalar)
    requires |ps| == |ks| == |zs| && Sum(ks) == total
    requires forall i :: 0 <= i < |zs| ==> zs[i] == ctx.Twist(ks[i], ps[i])
    ensures Sum(zs) == ctx.Twist(total, Sum(ps))
  {
    hide Add, Mul, Sign.Factor;
    var n := |zs|;
    var c, b, r, t := ctx.view.challenge, ctx.package.key.outputSign.Factor(), ctx.nonceSign.Factor(),
      ctx.package.key.tweak;
    var signed := seq(n, i requires 0 <= i < n => Mul(r, ps[i]));
    var tweaks := seq(n, i requires 0 <= i < n => Mul(Mul(Mul(c, ks[i]), b), t));
    var factor := Mul(Mul(c, b), t);
    SumAdd(signed, tweaks, zs);
    forall i | 0 <= i < n ensures signed[i] == Mul(ps[i], r) { MulComm(r, ps[i]); }
    SumScale(ps, r, signed);
    MulComm(Sum(ps), r);
    forall i | 0 <= i < n ensures tweaks[i] == Mul(ks[i], factor) { TweakFactor(c, ks[i], b, t); }
    SumScale(ks, factor, tweaks);
    TweakFactor(c, total, b, t);
  }

  lemma {:induction false} TweakFactor(c: Scalar, k: Scalar, b: Scalar, t: Scalar)
    ensures Mul(Mul(Mul(c, k), b), t) == Mul(k, Mul(Mul(c, b), t))
  {
    hide Mul;
    MulComm(c, k);
    MulAssoc(k, c, b);
    MulAssoc(k, Mul(c, b), t);
  }

  // ----- honest runs

  /** The twisted response of each device, in support order. */
  function TapResponses(ctx: TapContext, run: MemberRun): (r: seq<DeviceResponse>)
    ensures |r| == |run.secrets|
  {
    seq(|run.secrets|, i requires 0 <= i < |run.secrets| =>
      var plain := Responses(ctx.Plainly(), run)[i];
      DeviceResponse(plain.attempt, ctx.Twist(Source(run, i), plain.scalar)))
  }

  /** The source coefficient of device `i`. */
  function Source(run: MemberRun, i: nat): Scalar {
    var body := run.transcript.Body();
    if i < |body.inner.coefficients| then Mul(body.inner.coefficients[i], body.outer.scalar) else 0
  }

  /** No honest device is refused. */
  lemma {:induction false} TapDeviceResponds(ctx: TapContext, run: MemberRun, i: nat)
    requires Honest(ctx.Plainly(), run) && i < |run.secrets|
    ensures var s := run.secrets[i];
      ctx.RespondDevice(s.nonce, run.transcript, run.nonces, s.attempt.device, s.share) == Ok(TapResponses(ctx, run)[i])
  {
    hide Nonce.Respond, Total, Add, Mul, Sort, DeviceNonceSet.New, TapContext.Folded, DeviceNonceSet.Lookup;
    hide InnerSupport.Participant, InnerSupport.Coefficient, Sign.Factor, TapContext.Twist, ValidateMemberInputs;
    var plain := ctx.Plainly();
    DeviceResponds(plain, run, i);
    Lookups(plain, run, i);
    assert ctx.view.Binding(run.transcript.Slot()) == plain.Binding(run.transcript.Slot());
    assert ValidateMemberInputs(run.transcript, ctx.view, run.nonces) ==
      ValidateMemberInputs(run.transcript, plain, run.nonces) by {
      SameInputs(ctx, run);
    }
  }

  lemma {:induction false} SameInputs(ctx: TapContext, run: MemberRun)
    ensures ValidateMemberInputs(run.transcript, ctx.view, run.nonces) ==
      ValidateMemberInputs(run.transcript, ctx.Plainly(), run.nonces)
  {}

  lemma {:induction false} TapPartialsAdd(ctx: TapContext, run: MemberRun, n: nat)
    requires Honest(ctx.Plainly(), run) && n <= |run.secrets|
    ensures AddDevicePartials(TapEquation(ctx), run.transcript, run.nonces,
      ctx.view.Binding(run.transcript.Slot()).value, TapResponses(ctx, run)[..n])
      == Ok(Sum(Scalars(TapResponses(ctx, run)[..n])))
  {
    hide PartialHolds, Add, Mul, Sort, Find, Dot, Weight, Nonce.Respond, DeviceNonceSet.Lookup, DeviceNonceSet.New,
      Sign.Factor;
    hide InnerSupport.Coefficient, RootPackage.Entry, TapContext.Holds, TapContext.Twist, TapContext.Folded,
      SigningContext.Binding;
    if n > 0 {
      TapPartialsAdd(ctx, run, n - 1);
      var rs := TapResponses(ctx, run)[..n];
      assert rs[..n - 1] == TapResponses(ctx, run)[..n - 1];
      assert Scalars(rs)[..n - 1] == Scalars(rs[..n - 1]);
      Lookups(ctx.Plainly(), run, n - 1);
      SameBinding(ctx, run.transcript.Slot());
      var s, body, rho := run.secrets[n - 1], run.transcript.Body(), ctx.view.Binding(run.transcript.Slot()).value;
      var coefficient, share := Source(run, n - 1), body.inner.participants[n - 1].share;
      var p := s.nonce.Respond(rho, ctx.Folded(), coefficient, s.share);
      ResponseHolds(s.nonce, rho, ctx.Folded(), coefficient, s.share);
      TwistHolds(ctx, p, s.nonce.Commitments(), rho, coefficient, share);
    }
  }

  lemma {:induction false} SameBinding(ctx: TapContext, slot: Slot)
    ensures ctx.Plainly().Binding(slot) == ctx.view.Binding(slot)
  {}

  /** The member's sum is the twist of its plain sum by its outer coefficient. */
  lemma {:induction false} TapMemberSum(ctx: TapContext, run: MemberRun)
    requires Honest(ctx.Plainly(), run)
    ensures Sum(Scalars(TapResponses(ctx, run))) ==
      ctx.Twist(run.transcript.Body().outer.scalar, Sum(Scalars(Responses(ctx.Plainly(), run))))
  {
    hide Add, Mul, Weight, TapContext.Twist, Nonce.Respond, DeviceNonceSet.New, RootPackage.Entry,
      SigningContext.Binding, TapContext.Folded;
    var body, n := run.transcript.Body(), |run.secrets|;
    var ks := seq(n, i requires 0 <= i < n => Source(run, i));
    CoefficientsSumToOne(body.inner);
    SumScale(body.inner.coefficients, body.outer.scalar, ks);
    MulOne(body.outer.scalar);
    TwistSum(ctx, Scalars(Responses(ctx.Plainly(), run)), ks, Scalars(TapResponses(ctx, run)), body.outer.scalar);
  }

  /** The member response of an honest run, whatever the delivery order. */
  lemma {:induction false} TapMemberAggregates(ctx: TapContext, run: MemberRun, delivered: seq<DeviceResponse>)
    requires Honest(ctx.Plainly(), run)
    requires multiset(delivered) == multiset(TapResponses(ctx, run))
    ensures AggregateMemberSpec(TapEquation(ctx), run.transcript, ctx.view, run.nonces, delivered)
      == Ok(MemberResponse(run.transcript.Slot(), Sum(Scalars(TapResponses(ctx, run)))))
  {
    hide PartialHolds, Nonce.Respond, Sum, Total, Sort, Find, Dot, Weight, Add, Mul, SigningContext.Binding,
      TapContext.Folded;
    hide InnerSupport.Coefficient, DeviceNonceSet.Lookup, AddDevicePartials, DeviceNonceSet.New, Logs,
      TapContext.Holds, TapContext.Twist;
    var plain, rs := ctx.Plainly(), TapResponses(ctx, run);
    TapResponsesSorted(ctx, run);
    SortPermute(rs, delivered, ResponseDevice);
    SortSorted(rs, ResponseDevice);
    assert |delivered| == |multiset(delivered)| == |rs|;
    AdjacentIsStrict(rs, ResponseDevice);
    NonceSetNew(run.transcript.Body().inner, PublicNonces(run.secrets));
    TapPartialsAdd(ctx, run, |rs|);
    assert rs[..|rs|] == rs;
    SameBinding(ctx, run.transcript.Slot());
    MemberEquation(plain, run);
    TapMemberSum(ctx, run);
    TwistHolds(ctx, Sum(Scalars(Responses(plain, run))), run.nonces.aggregate,
      ctx.view.Binding(run.transcript.Slot()).value,
      run.transcript.Body().outer.scalar, run.transcript.Body().member);
  }

  lemma {:induction false} TapResponsesSorted(ctx: TapContext, run: MemberRun)
    requires Honest(ctx.Plainly(), run)
    ensures StrictlySorted(TapResponses(ctx, run), ResponseDevice)
  {
    hide Honest, TapContext.Twist, ResponseScalar, TapContext.Folded;
    var rs, plain := TapResponses(ctx, run), Responses(ctx.Plainly(), run);
    SecretsAreSorted(ctx.Plainly(), run);
    forall i, j | 0 <= i < j < |rs| ensures ResponseDevice(rs[i]) < ResponseDevice(rs[j]) {
      assert ResponseDevice(plain[i]) < ResponseDevice(plain[j]);
    }
  }

  // ----- all members

  function TapMemberScalars(ctx: TapContext, runs: seq<MemberRun>): (r: seq<Scalar>)
    ensures |r| == |runs|
  {
    seq(|runs|, j requires 0 <= j < |runs| => Sum(Scalars(TapResponses(ctx, runs[j]))))
  }

  /** The honest member responses, in support order. */
  function TapMemberResponses(ctx: TapContext, runs: seq<MemberRun>): (r: seq<MemberResponse>)
    ensures |r| == |runs|
  {
    seq(|runs|, j requires 0 <= j < |runs| =>
      MemberResponse(runs[j].transcript.Slot(), Sum(Scalars(TapResponses(ctx, runs[j])))))
  }

  lemma {:induction false} TapMemberHolds(g: PublicGenesis, selected: seq<PersonId>, os: OuterSupport,
      ctx: TapContext, runs: seq<MemberRun>, j: nat)
    requires Prepared(g, selected, os, ctx.Plainly(), runs) && j < |runs|
    ensures |ctx.view.root.entries| == |os.participants| == |os.coefficients|
    ensures var e := ctx.view.root.entries[j];
      && runs[j].transcript.Slot() == os.participants[j].slot == e.record.slot
      && os.Coefficient(os.participants[j].person).Ok?
      && os.Coefficient(os.participants[j].person).value.scalar == os.coefficients[j]
      && ctx.view.Binding(os.participants[j].slot).Ok?
      && ctx.Holds(TapMemberScalars(ctx, runs)[j], e.nonce, ctx.view.Binding(os.participants[j].slot).value,
        os.coefficients[j], os.participants[j].member)
    ensures TapMemberScalars(ctx, runs)[j] == ctx.Twist(os.coefficients[j], MemberScalars(ctx.Plainly(), runs)[j])
  {
    hide Honest, Session, PartialHolds, Ceremony, Scalars, Responses, TapResponses, OuterSupport.Coefficient,
      SigningContext.Binding, OuterSupport.Valid;
    hide TapContext.Twist, TapContext.Holds, TapContext.Folded, Sum;
    var plain := ctx.Plainly();
    SessionIsHonest(g, selected, os, plain, runs, j);
    CeremonyLookups(g, selected, os, plain, runs, j);
    assert |os.participants| == |os.coefficients| == |ctx.view.root.entries| && j < |os.participants| by {
      CeremonyCounts(g, selected, os, plain, runs);
    }
    SameBinding(ctx, os.participants[j].slot);
    MemberEquation(plain, runs[j]);
    TapMemberSum(ctx, runs[j]);
    TwistHolds(ctx, MemberScalars(plain, runs)[j], ctx.view.root.entries[j].nonce, plain.factors[j],
      os.coefficients[j], os.participants[j].member);
  }

  lemma {:induction false} CeremonyCounts(g: PublicGenesis, selected: seq<PersonId>, os: OuterSupport,
      ctx: SigningContext, runs: seq<MemberRun>)
    requires Prepared(g, selected, os, ctx, runs) && runs != []
    ensures |os.participants| == |runs| == |os.coefficients| == |ctx.root.entries|
  {
    hide Session, PublicGenesis.OuterSupportOf, Consistent, PublicGenesis.Valid, Weight;
    CeremonyLookups(g, selected, os, ctx, runs, 0);
  }

  lemma {:induction false} TapMembersAdd(g: PublicGenesis, selected: seq<PersonId>, os: OuterSupport, ctx: TapContext,
      runs: seq<MemberRun>, n: nat)
    requires Prepared(g, selected, os, ctx.Plainly(), runs) && n <= |runs|
    requires |ctx.view.root.entries| == |os.participants| == |runs|
    ensures AddMemberPartials(TapEquation(ctx), ctx.view, os, TapMemberResponses(ctx, runs)[..n]) ==
      Ok(Sum(TapMemberScalars(ctx, runs)[..n]))
  {
    hide Ceremony, Scalars, Add, TapResponses, OuterSupport.Coefficient, SigningContext.Binding, TapContext.Twist,
      TapContext.Holds;
    if n > 0 {
      var rs, zs := TapMemberResponses(ctx, runs)[..n], TapMemberScalars(ctx, runs)[..n];
      assert rs[..n - 1] == TapMemberResponses(ctx, runs)[..n - 1]
        && zs[..n - 1] == TapMemberScalars(ctx, runs)[..n - 1];
      TapMembersAdd(g, selected, os, ctx, runs, n - 1);
      TapMemberHolds(g, selected, os, ctx, runs, n - 1);
    }
  }

  /** The tweak enters once: the outer coefficients also sum to one. */
  lemma {:induction false} TapTotal(g: PublicGenesis, selected: seq<PersonId>, os: OuterSupport, ctx: TapContext,
      runs: seq<MemberRun>)
    requires Prepared(g, selected, os, ctx.Plainly(), runs)
    ensures Sum(TapMemberScalars(ctx, runs)) == ctx.Twist(1, Sum(MemberScalars(ctx.Plainly(), runs)))
  {
    hide Session, Honest, Add, Mul, TapMemberScalars, MemberScalars, TapContext.Twist, TapContext.Holds, Consistent,
      Weight, PublicGenesis.OuterSupportOf;
    OuterSupportRecombines(g, selected);
    OuterCoefficientsSumToOne(os);
    forall j | 0 <= j < |runs|
      ensures TapMemberScalars(ctx, runs)[j] == ctx.Twist(os.coefficients[j], MemberScalars(ctx.Plainly(), runs)[j])
    {
      TapMemberHolds(g, selected, os, ctx, runs, j);
    }
    TwistSum(ctx, MemberScalars(ctx.Plainly(), runs), os.coefficients, TapMemberScalars(ctx, runs), 1);
  }

  /** Multiplying the plain equation by the nonce sign and adding the tweak gives the
    * BIP-340 equation under the output key.
    */
  lemma {:induction false} EvenEquation(ctx: TapContext, z: Scalar)
    requires FromScalar(z) == Plus(ctx.view.nonce, Times(ctx.package.key.vault, ctx.Folded()))
    ensures FromScalar(ctx.Twist(1, z)) ==
      Plus(Times(ctx.view.nonce, ctx.nonceSign.Factor()),
        Times(TweakedKey(ctx.package.key.vault, ctx.package.key), ctx.view.challenge))
  {
    hide Add, Mul, Sign.Factor;
    var key, c := ctx.package.key, ctx.view.challenge;
    var a, b, r, q, n, t := key.internalSign.Factor(), key.outputSign.Factor(), ctx.nonceSign.Factor(), key.vault.log,
      ctx.view.nonce.log, key.tweak;
    SignSquare(ctx.nonceSign);
    FoldedFactors(c, a, b, r, 1, q);
    MulOne(ctx.Folded());
    MulOne(c);
    Distribute(r, n, Mul(q, ctx.Folded()));
    MulComm(r, n);
    Distribute(Mul(c, b), Mul(q, a), t);
    MulComm(t, Mul(c, b));
    AddAssoc(Mul(n, r), Mul(Mul(q, a), Mul(c, b)), Mul(Mul(c, b), t));
    MulComm(c, b);
    MulAssoc(Add(Mul(q, a), t), b, c);
  }

  lemma {:induction false} TapIsConsistent(package: Package)
    ensures var r := TapContext.New(package); r.Ok? ==> Consistent(r.value.Plainly())
  {
    hide TapFactors, BoundNonces, Total, TapChallenge, LiftEven, EvenNormalize, Package.Bytes;
  }

  /** The Taproot transform is correct for every combination of the three signs: no
    * honest device is refused, every member aggregates, and the signature verifies
    * under the output key, in any delivery order at both tiers.
    */
  lemma {:induction false} TaprootSigningIsComplete(
    g: PublicGenesis, selected: seq<PersonId>, os: OuterSupport, root: Option<Id>, ctx: TapContext,
      runs: seq<MemberRun>,
    delivered: seq<seq<DeviceResponse>>, members: seq<MemberResponse>)
    requires Key.New(g.outer.constant, root) == Ok(ctx.package.key)
    requires Package.New(ctx.package.root, ctx.package.key) == Ok(ctx.package)
    requires TapContext.New(ctx.package) == Ok(ctx)
    requires Ceremony(g, selected, os, ctx.Plainly(), runs)
    requires |delivered| == |runs|
    requires forall j :: 0 <= j < |runs| ==> multiset(delivered[j]) == multiset(TapResponses(ctx, runs[j]))
    requires multiset(members) == multiset(TapMemberResponses(ctx, runs))
    ensures forall j, i :: 0 <= j < |runs| && 0 <= i < |runs[j].secrets| ==>
      var s := runs[j].secrets[i];
      ctx.RespondDevice(s.nonce, runs[j].transcript, runs[j].nonces, s.attempt.device, s.share) ==
        Ok(TapResponses(ctx, runs[j])[i])
    ensures forall j :: 0 <= j < |runs| ==>
      AggregateMemberSpec(TapEquation(ctx), runs[j].transcript, ctx.view, runs[j].nonces, delivered[j]) ==
        Ok(TapMemberResponses(ctx, runs)[j])
    ensures var r := ctx.AggregateSignatureSpec(os, members);
      && r.Ok? && r.value.nonceX == XOnly(ctx.Nonce())
      && r.value.Verify(ctx.package.key.output, ctx.package.Sighash()).Ok?
  {
    TapIsConsistent(ctx.package);
    hide Honest, Session, Sum, Scalars, TapContext.RespondDevice, AggregateMemberSpec, Key.New, TapContext.New,
      Ceremony, TapContext.AggregateSignatureSpec;
    hide TapSignature.Verify, TapResponses, TapEquation, Package.New, TapContext.Nonce;
    CeremonyIsHonest(g, selected, os, ctx.Plainly(), runs);
    forall j, i | 0 <= j < |runs| && 0 <= i < |runs[j].secrets|
      ensures var s := runs[j].secrets[i];
        ctx.RespondDevice(s.nonce, runs[j].transcript, runs[j].nonces, s.attempt.device, s.share) ==
          Ok(TapResponses(ctx, runs[j])[i])
    {
      TapDeviceResponds(ctx, runs[j], i);
    }
    forall j | 0 <= j < |runs|
      ensures AggregateMemberSpec(TapEquation(ctx), runs[j].transcript, ctx.view, runs[j].nonces, delivered[j]) ==
        Ok(TapMemberResponses(ctx, runs)[j])
    {
      TapMemberAggregates(ctx, runs[j], delivered[j]);
    }
    TapCollects(g, selected, os, ctx, runs, members);
    TapVerifies(g, selected, os, root, ctx, runs);
    assert ctx.AggregateSignatureSpec(os, members) ==
      Ok(TapSignature(XOnly(ctx.Nonce()), Sum(TapMemberScalars(ctx, runs)))) by {
      Assemble(ctx, os, members, Sum(TapMemberScalars(ctx, runs)));
    }
  }

  lemma {:induction false} Assemble(ctx: TapContext, os: OuterSupport, members: seq<MemberResponse>, z: Scalar)
    requires CollectSpec(TapEquation(ctx), ctx.view, os, members) == Ok(z)
    requires TapSignature(XOnly(ctx.Nonce()), z).Verify(ctx.package.key.output, ctx.package.Sighash()).Ok?
    ensures ctx.AggregateSignatureSpec(os, members) == Ok(TapSignature(XOnly(ctx.Nonce()), z))
  {
    hide CollectSpec, TapSignature.Verify, TapContext.Nonce;
  }

  lemma {:induction false} TapCollects(g: PublicGenesis, selected: seq<PersonId>, os: OuterSupport, ctx: TapContext,
      runs: seq<MemberRun>, members: seq<MemberResponse>)
    requires Prepared(g, selected, os, ctx.Plainly(), runs)
    requires multiset(members) == multiset(TapMemberResponses(ctx, runs))
    ensures CollectSpec(TapEquation(ctx), ctx.view, os, members) == Ok(Sum(TapMemberScalars(ctx, runs)))
  {
    hide Honest, Session, Sum, Scalars, Sort, PublicGenesis.OuterSupportOf, AddMemberPartials, TapResponses,
      Consistent, Weight;
    var rs := TapMemberResponses(ctx, runs);
    OuterSupportRecombines(g, selected);
    forall i, j | 0 <= i < j < |rs| ensures ResponseSlot(rs[i]) < ResponseSlot(rs[j]) {
      SessionIsHonest(g, selected, os, ctx.Plainly(), runs, i);
      SessionIsHonest(g, selected, os, ctx.Plainly(), runs, j);
      assert SlotKey(os.participants[i]) < SlotKey(os.participants[j]);
    }
    SortPermute(rs, members, ResponseSlot);
    SortSorted(rs, ResponseSlot);
    assert |members| == |multiset(members)| == |rs|;
    AdjacentIsStrict(rs, ResponseSlot);
    TapMembersAdd(g, selected, os, ctx, runs, |rs|);
    assert rs[..|rs|] == rs && TapMemberScalars(ctx, runs)[..|rs|] == TapMemberScalars(ctx, runs);
  }

  lemma {:induction false} TapVerifies(g: PublicGenesis, selected: seq<PersonId>, os: OuterSupport, root: Option<Id>,
      ctx: TapContext, runs: seq<MemberRun>)
    requires Key.New(g.outer.constant, root) == Ok(ctx.package.key)
    requires TapContext.New(ctx.package) == Ok(ctx)
    requires Prepared(g, selected, os, ctx.Plainly(), runs)
    ensures TapSignature(XOnly(ctx.Nonce()), Sum(TapMemberScalars(ctx, runs))).Verify(ctx.package.key.output,
      ctx.package.Sighash()).Ok?
  {
    hide Session, Honest, Sum, TapMemberScalars, TapContext.Twist, TapContext.Folded, Times, Plus, TapChallenge,
      Consistent, PublicGenesis.OuterSupportOf;
    hide Total, BoundNonces, TapFactors, Package.Bytes, PublicGenesis.Valid;
    KeyVault(g.outer.constant, root);
    OutputKey(g.outer.constant, root);
    EvenPoint(ctx.view.nonce);
    forall j | 0 <= j < |runs| ensures Honest(ctx.Plainly(), runs[j]) {
      SessionIsHonest(g, selected, os, ctx.Plainly(), runs, j);
    }
    SchnorrEquation(g, selected, os, ctx.Plainly(), runs);
    TapTotal(g, selected, os, ctx, runs);
    EvenEquation(ctx, Sum(MemberScalars(ctx.Plainly(), runs)));
  }

  lemma {:induction false} KeyVault(vault: Point, root: Option<Id>)
    ensures Key.New(vault, root).Ok? ==> Key.New(vault, root).value.vault == vault
  {}
}

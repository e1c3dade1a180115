/** Completeness of two-tier signing: honest responses always aggregate, at both
  * tiers and in any delivery order, to a signature that verifies.
  */
module NestedSigning {
  import opened Results
  import opened Field
  import opened Sums
  import opened Sorting
  import opened Algebra
  import opened Shamir
  import opened Support
  import opened Genesis
  import opened Ids
  import opened Transcript
  import opened Signing

  // ----- one member

  /** What one device holds: its attempt, its nonce and its signing share. */
  datatype DeviceSecret = DeviceSecret(attempt: LeafAttempt, nonce: Nonce, share: Scalar)

  /** One member's session: its transcript and nonce set, with the secrets behind
    * them in support order.
    */
  datatype MemberRun = MemberRun(transcript: MemberTranscript, nonces: DeviceNonceSet, secrets: seq<DeviceSecret>)

  function PublicNonces(ss: seq<DeviceSecret>): (r: seq<DeviceNonce>)
    ensures |r| == |ss|
  {
    seq(|ss|, i requires 0 <= i < |ss| => DeviceNonce(ss[i].attempt, ss[i].nonce.Commitments()))
  }

  /** Every device is in the support under its own share, the nonce set is the
    * canonical one, and the root package carries its sum.
    */
  ghost predicate Honest(ctx: SigningContext, run: MemberRun) {
    var body := run.transcript.Body();
    var ps := body.inner.participants;
    && run.transcript.root == ctx.root
    && body.inner.Valid()
    && |run.secrets| == |ps|
    && (forall i :: 0 <= i < |ps| ==>
      && run.secrets[i].attempt.device == ps[i].device
      && FromScalar(run.secrets[i].share) == ps[i].share)
    && DeviceNonceSet.New(body.inner, PublicNonces(run.secrets)) == Ok(run.nonces)
    && ctx.root.Entry(run.transcript.Slot()).Ok?
    && ctx.root.Entry(run.transcript.Slot()).value.nonce == run.nonces.aggregate
    && ctx.Binding(run.transcript.Slot()).Ok?
    && Dot(body.inner.coefficients, Logs(Shares(ps))) == body.member.log
  }

  /** The response scalar of device `i`. */
  function ResponseScalar(ctx: SigningContext, run: MemberRun, i: nat): Scalar
    requires i < |run.secrets|
  {
    var s, body, rho := run.secrets[i], run.transcript.Body(), ctx.Binding(run.transcript.Slot());
    if rho.Err? || i >= |body.inner.coefficients| then 0
    else s.nonce.Respond(rho.value, ctx.challenge, Mul(body.inner.coefficients[i], body.outer.scalar), s.share)
  }

  function Responses(ctx: SigningContext, run: MemberRun): (r: seq<DeviceResponse>)
    ensures |r| == |run.secrets|
  {
    seq(|run.secrets|, i requires 0 <= i < |run.secrets| =>
      DeviceResponse(run.secrets[i].attempt, ResponseScalar(ctx, run, i)))
  }

  lemma {:induction false} SecretsAreSorted(ctx: SigningContext, run: MemberRun)
    requires Honest(ctx, run)
    ensures run.nonces.entries == PublicNonces(run.secrets)
    ensures StrictlySorted(run.nonces.entries, NonceDevice)
    ensures StrictlySorted(Responses(ctx, run), ResponseDevice)
  {
    hide Nonce.Respond, Total, Sort, Find, Dot, Weight, Add, Mul, RootPackage.Entry, SigningContext.Binding;
    var ps, ns := run.transcript.Body().inner.participants, PublicNonces(run.secrets);
    forall i, j | 0 <= i < j < |ns| ensures NonceDevice(ns[i]) < NonceDevice(ns[j]) {
      assert DeviceKey(ps[i]) < DeviceKey(ps[j]);
    }
    SortSorted(ns, NonceDevice);
    NonceSetNew(run.transcript.Body().inner, ns);
    var rs := Responses(ctx, run);
    forall i, j | 0 <= i < j < |rs| ensures ResponseDevice(rs[i]) < ResponseDevice(rs[j]) {
      assert DeviceKey(ps[i]) < DeviceKey(ps[j]);
    }
  }

  lemma {:induction false} Lookups(ctx: SigningContext, run: MemberRun, i: nat)
    requires Honest(ctx, run) && i < |run.secrets|
    ensures var device := run.secrets[i].attempt.device; var inner := run.transcript.Body().inner;
      && run.nonces.Lookup(device) == Ok(PublicNonces(run.secrets)[i])
      && inner.Participant(device) == Ok(inner.participants[i])
      && inner.Coefficient(device) == Ok(inner.coefficients[i])
  {
    SecretsAreSorted(ctx, run);
    FindAt(run.nonces.entries, NonceDevice, i);
    FindAt(run.transcript.Body().inner.participants, DeviceKey, i);
  }

  /** No honest device is refused. */
  lemma {:induction false} DeviceResponds(ctx: SigningContext, run: MemberRun, i: nat)
    requires Honest(ctx, run) && i < |run.secrets|
    ensures var s := run.secrets[i];
      RespondDevice(s.nonce, run.transcript, ctx, run.nonces, s.attempt.device, s.share) == Ok(Responses(ctx, run)[i])
  {
    hide Nonce.Respond, Total;
    Lookups(ctx, run, i);
    NonceSetNew(run.transcript.Body().inner, PublicNonces(run.secrets));
  }

  lemma {:induction false} ResponseHolds(n: Nonce, rho: Scalar, challenge: Scalar, coefficient: Scalar, share: Scalar)
    ensures PartialHolds(n.Respond(rho, challenge, coefficient, share), n.Commitments(), rho, challenge, coefficient,
      FromScalar(share))
  {
    hide Add, Mul;
    MulComm(rho, n.binding);
    MulComm(Mul(challenge, coefficient), share);
  }

  lemma {:induction false} HonestPartialsAdd(ctx: SigningContext, run: MemberRun, n: nat)
    requires Honest(ctx, run) && n <= |run.secrets|
    ensures AddDevicePartials(Plain(ctx), run.transcript, run.nonces, ctx.Binding(run.transcript.Slot()).value,
      Responses(ctx, run)[..n])
      == Ok(Sum(Scalars(Responses(ctx, run)[..n])))
  {
    hide PartialHolds, Add, Mul, Sort, Find, Dot, Weight, Nonce.Respond, DeviceNonceSet.Lookup, DeviceNonceSet.New;
    hide InnerSupport.Coefficient, RootPackage.Entry, SigningContext.Binding;
    if n > 0 {
      HonestPartialsAdd(ctx, run, n - 1);
      var rs := Responses(ctx, run)[..n];
      assert rs[..n - 1] == Responses(ctx, run)[..n - 1];
      assert Scalars(rs)[..n - 1] == Scalars(rs[..n - 1]);
      Lookups(ctx, run, n - 1);
      var s, body := run.secrets[n - 1], run.transcript.Body();
      ResponseHolds(s.nonce, ctx.Binding(run.transcript.Slot()).value, ctx.challenge,
        Mul(body.inner.coefficients[n - 1], body.outer.scalar), s.share);
    }
  }

  function Scalars(rs: seq<DeviceResponse>): (r: seq<Scalar>)
    ensures |r| == |rs|
  {
    seq(|rs|, i requires 0 <= i < |rs| => rs[i].scalar)
  }

  /** The sum of a member's device responses satisfies the member's own equation:
    * the inner coefficients recombine the member point, and the nonces add up.
    */
  lemma {:induction false} MemberSum(hs: seq<Scalar>, bs: seq<Scalar>, xs: seq<Scalar>, ls: seq<Scalar>,
      zs: seq<Scalar>, rho: Scalar, c: Scalar, outer: Scalar)
    requires |hs| == |bs| == |xs| == |ls| == |zs|
    requires forall i :: 0 <= i < |zs| ==>
      zs[i] == Add(Add(hs[i], Mul(rho, bs[i])), Mul(Mul(c, Mul(ls[i], outer)), xs[i]))
    ensures Sum(zs) == Add(Add(Sum(hs), Mul(Sum(bs), rho)), Mul(Dot(ls, xs), Mul(c, outer)))
  {
    hide Add, Mul;
    var n := |zs|;
    var bound := seq(n, i requires 0 <= i < n => Mul(bs[i], rho));
    var nonce := seq(n, i requires 0 <= i < n => Add(hs[i], bound[i]));
    var shares := seq(n, i requires 0 <= i < n => Mul(ls[i], xs[i]));
    var keyed := seq(n, i requires 0 <= i < n => Mul(shares[i], Mul(c, outer)));
    forall i | 0 <= i < n ensures zs[i] == Add(nonce[i], keyed[i]) {
      MulComm(rho, bs[i]);
      calc {
        Mul(Mul(c, Mul(ls[i], outer)), xs[i]);
        { MulComm(ls[i], outer); MulAssoc(c, outer, ls[i]); }
        Mul(Mul(Mul(c, outer), ls[i]), xs[i]);
        { MulAssoc(Mul(c, outer), ls[i], xs[i]); MulComm(Mul(c, outer), shares[i]); }
        keyed[i];
      }
    }
    SumAdd(nonce, keyed, zs);
    SumAdd(hs, bound, nonce);
    SumScale(bs, rho, bound);
    SumScale(shares, Mul(c, outer), keyed);
    DotIsSum(ls, xs, shares);
  }

  lemma {:induction false} MemberEquation(ctx: SigningContext, run: MemberRun)
    requires Honest(ctx, run)
    ensures var t := run.transcript;
      PartialHolds(Sum(Scalars(Responses(ctx, run))), run.nonces.aggregate, ctx.Binding(t.Slot()).value,
        ctx.challenge, t.Body().outer.scalar, t.Body().member)
  {
    hide Add, Mul, Weight, Sort;
    var ns, n := run.nonces.entries, |run.secrets|;
    var body := run.transcript.Body();
    SecretsAreSorted(ctx, run);
    NonceSetNew(body.inner, PublicNonces(run.secrets));
    var hs, bs := Logs(Hidings(ns)), Logs(Bindings(ns));
    TotalIsSum(Hidings(ns));
    TotalIsSum(Bindings(ns));
    var zs := Scalars(Responses(ctx, run));
    var xs := Logs(Shares(body.inner.participants));
    var rho := ctx.Binding(run.transcript.Slot()).value;
    forall i | 0 <= i < n
      ensures zs[i] == Add(Add(hs[i], Mul(rho, bs[i])),
        Mul(Mul(ctx.challenge, Mul(body.inner.coefficients[i], body.outer.scalar)), xs[i]))
    {}
    MemberSum(hs, bs, xs, body.inner.coefficients, zs, rho, ctx.challenge, body.outer.scalar);
  }

  /** The member response of an honest run, whatever the delivery order. */
  lemma {:induction false} MemberAggregates(ctx: SigningContext, run: MemberRun, delivered: seq<DeviceResponse>)
    requires Honest(ctx, run)
    requires multiset(delivered) == multiset(Responses(ctx, run))
    ensures AggregateMemberSpec(Plain(ctx), run.transcript, ctx, run.nonces, delivered) ==
      Ok(MemberResponse(run.transcript.Slot(), Sum(Scalars(Responses(ctx, run)))))
  {
    hide PartialHolds, Nonce.Respond, Sum, Total, Sort, Find, Dot, Weight, Add, Mul, SigningContext.Binding;
    hide InnerSupport.Coefficient, DeviceNonceSet.Lookup, AddDevicePartials, DeviceNonceSet.New, Logs;
    var rs := Responses(ctx, run);
    SecretsAreSorted(ctx, run);
    SortPermute(rs, delivered, ResponseDevice);
    SortSorted(rs, ResponseDevice);
    assert |delivered| == |multiset(delivered)| == |rs|;
    AdjacentIsStrict(rs, ResponseDevice);
    NonceSetNew(run.transcript.Body().inner, PublicNonces(run.secrets));
    HonestPartialsAdd(ctx, run, |rs|);
    assert rs[..|rs|] == rs;
    MemberEquation(ctx, run);
  }

  // ----- all members

  /** The run of the `j`-th participant of `os`, set up from validated public data. */
  ghost predicate Session(g: PublicGenesis, os: OuterSupport, ctx: SigningContext, run: MemberRun, j: nat)
    requires j < |os.participants|
  {
    var p, body := os.participants[j], run.transcript.Body();
    var ps := body.inner.participants;
    && run.transcript.root == ctx.root
    && (exists devices: seq<DeviceId> :: g.InnerSupportOf(p.person, devices) == Ok(body.inner))
    && os.Coefficient(p.person) == Ok(body.outer)
    && body.member == body.outer.member
    && |run.secrets| == |ps|
    && (forall i :: 0 <= i < |ps| ==>
      && run.secrets[i].attempt.device == ps[i].device
      && FromScalar(run.secrets[i].share) == ps[i].share)
    && DeviceNonceSet.New(body.inner, PublicNonces(run.secrets)) == Ok(run.nonces)
    && j < |ctx.root.entries|
    && ctx.root.entries[j].nonce == run.nonces.aggregate
  }

  /** One binding factor per entry, and the sum of the bound nonces. */
  ghost predicate Consistent(ctx: SigningContext) {
    |ctx.factors| == |ctx.root.entries| && ctx.nonce == Total(BoundNonces(ctx.root.entries, ctx.factors))
  }

  lemma {:induction false} ContextIsConsistent(root: RootPackage)
    ensures var r := SigningContext.New(root); r.Ok? ==> Consistent(r.value) && r.value.root == root
  {
    hide BindingFactors, BoundNonces, Total, Challenge;
  }

  /** A context and one session for every member of one exact outer support. */
  ghost predicate Ceremony(g: PublicGenesis, selected: seq<PersonId>, os: OuterSupport, ctx: SigningContext,
      runs: seq<MemberRun>) {
    && g.Valid()
    && g.OuterSupportOf(selected) == Ok(os)
    && ctx.root.Valid()
    && ctx.root.head.key == g.outer.constant
    && ctx.root.ValidateSupport(os).Ok?
    && |runs| == |os.participants|
    && forall j :: 0 <= j < |runs| ==> Session(g, os, ctx, runs[j], j)
  }

  /** A ceremony on a consistent context. */
  ghost predicate Prepared(g: PublicGenesis, selected: seq<PersonId>, os: OuterSupport, ctx: SigningContext,
      runs: seq<MemberRun>) {
    Ceremony(g, selected, os, ctx, runs) && Consistent(ctx)
  }

  lemma {:induction false} SlotLookups(os: OuterSupport, ctx: SigningContext, j: nat)
    requires os.Valid() && ctx.root.Valid() && ctx.root.ValidateSupport(os).Ok?
    requires Consistent(ctx) && j < |os.participants|
    ensures |ctx.root.entries| == |ctx.factors| == |os.participants|
    ensures ctx.root.entries[j].record.slot == os.participants[j].slot
    ensures ctx.root.Entry(os.participants[j].slot) == Ok(ctx.root.entries[j])
    ensures ctx.Binding(os.participants[j].slot) == Ok(ctx.factors[j])
    ensures os.Coefficient(os.participants[j].person) ==
      Ok(OuterCoefficient(os.participants[j].person, os.participants[j].slot, os.participants[j].member,
        os.coefficients[j]))
  {
    hide BoundNonces, BindingFactors, Challenge, Weight;
    FindAt(ctx.root.entries, EntrySlot, j);
    FindAt(os.participants, PersonKey, j);
  }

  lemma {:induction false} SessionIsHonest(g: PublicGenesis, selected: seq<PersonId>, os: OuterSupport,
      ctx: SigningContext, runs: seq<MemberRun>, j: nat)
    requires Prepared(g, selected, os, ctx, runs) && j < |runs|
    ensures Honest(ctx, runs[j]) && os.Valid()
    ensures runs[j].transcript.Slot() == os.participants[j].slot
    ensures var body := runs[j].transcript.Body();
      && |os.coefficients| == |os.participants|
      && body.outer.scalar == os.coefficients[j] && body.member == os.participants[j].member
  {
    hide RootPackage.Entry, SigningContext.Binding, DeviceNonceSet.New, Dot, RootPackage.Valid;
    hide PublicGenesis.OuterSupportOf, PublicGenesis.InnerSupportOf, PublicGenesis.Person, OuterSupport.Coefficient;
    hide Weight, PublicGenesis.Valid, Nonce.Commitments, Logs;
    OuterSupportRecombines(g, selected);
    assert ctx.root.Valid();
    SlotLookups(os, ctx, j);
    assert Session(g, os, ctx, runs[j], j);
    var p, body := os.participants[j], runs[j].transcript.Body();
    assert p in os.participants;
    OuterSupportMembers(g, selected, p);
    var devices: seq<DeviceId> :| g.InnerSupportOf(p.person, devices) == Ok(body.inner);
    InnerSupportRecombines(g, p.person, devices);
  }

  function MemberScalars(ctx: SigningContext, runs: seq<MemberRun>): (r: seq<Scalar>)
    ensures |r| == |runs|
  {
    seq(|runs|, j requires 0 <= j < |runs| => Sum(Scalars(Responses(ctx, runs[j]))))
  }

  /** The honest member responses, in support order. */
  function MemberResponses(ctx: SigningContext, runs: seq<MemberRun>): (r: seq<MemberResponse>)
    ensures |r| == |runs|
  {
    seq(|runs|, j requires 0 <= j < |runs| =>
      MemberResponse(runs[j].transcript.Slot(), Sum(Scalars(Responses(ctx, runs[j])))))
  }

  lemma {:induction false} CeremonyIsHonest(g: PublicGenesis, selected: seq<PersonId>, os: OuterSupport,
      ctx: SigningContext, runs: seq<MemberRun>)
    requires Prepared(g, selected, os, ctx, runs)
    ensures forall j :: 0 <= j < |runs| ==> Honest(ctx, runs[j])
    ensures os.Valid()
    ensures StrictlySorted(MemberResponses(ctx, runs), ResponseSlot)
  {
    hide Honest, Session, Sum, Weight;
    OuterSupportRecombines(g, selected);
    forall j | 0 <= j < |runs| ensures Honest(ctx, runs[j]) { SessionIsHonest(g, selected, os, ctx, runs, j); }
    var rs := MemberResponses(ctx, runs);
    forall i, j | 0 <= i < j < |rs| ensures ResponseSlot(rs[i]) < ResponseSlot(rs[j]) {
      SessionIsHonest(g, selected, os, ctx, runs, i);
      SessionIsHonest(g, selected, os, ctx, runs, j);
      assert SlotKey(os.participants[i]) < SlotKey(os.participants[j]);
    }
  }

  lemma {:induction false} MembersAdd(g: PublicGenesis, selected: seq<PersonId>, os: OuterSupport,
      ctx: SigningContext, runs: seq<MemberRun>, n: nat)
    requires Prepared(g, selected, os, ctx, runs) && n <= |runs|
    requires forall j :: 0 <= j < |runs| ==> Honest(ctx, runs[j])
    requires |ctx.root.entries| == |os.participants|
    ensures AddMemberPartials(Plain(ctx), ctx, os, MemberResponses(ctx, runs)[..n]) ==
      Ok(Sum(MemberScalars(ctx, runs)[..n]))
  {
    hide Honest, Session, PartialHolds, Ceremony, Scalars, Add, Responses, OuterSupport.Coefficient,
      SigningContext.Binding, OuterSupport.Valid;
    if n > 0 {
      var rs, zs := MemberResponses(ctx, runs)[..n], MemberScalars(ctx, runs)[..n];
      assert rs[..n - 1] == MemberResponses(ctx, runs)[..n - 1] && zs[..n - 1] == MemberScalars(ctx, runs)[..n - 1];
      MembersAdd(g, selected, os, ctx, runs, n - 1);
      SessionIsHonest(g, selected, os, ctx, runs, n - 1);
      CeremonyLookups(g, selected, os, ctx, runs, n - 1);
      MemberEquation(ctx, runs[n - 1]);
    }
  }

  lemma {:induction false} CeremonyLookups(g: PublicGenesis, selected: seq<PersonId>, os: OuterSupport,
      ctx: SigningContext, runs: seq<MemberRun>, j: nat)
    requires Prepared(g, selected, os, ctx, runs) && j < |runs|
    ensures |ctx.root.entries| == |ctx.factors| == |os.participants| == |os.coefficients|
    ensures ctx.root.entries[j].record.slot == os.participants[j].slot
    ensures ctx.Binding(os.participants[j].slot) == Ok(ctx.factors[j])
    ensures os.Coefficient(os.participants[j].person).Ok?
    ensures os.Coefficient(os.participants[j].person).value.scalar == os.coefficients[j]
    ensures runs[j].nonces.aggregate == ctx.root.entries[j].nonce
  {
    hide SigningContext.Binding, PublicGenesis.OuterSupportOf, OuterSupport.Coefficient, Weight;
    OuterSupportRecombines(g, selected);
    SlotLookups(os, ctx, j);
    assert Session(g, os, ctx, runs[j], j);
  }

  /** The member equations add up to the Schnorr equation of the vault key. */
  lemma {:induction false} OuterSum(ns: seq<Element>, vs: seq<Scalar>, ls: seq<Scalar>, zs: seq<Scalar>, c: Scalar)
    requires |ns| == |vs| == |ls| == |zs|
    requires forall j :: 0 <= j < |zs| ==> zs[j] == Add(ns[j].log, Mul(vs[j], Mul(c, ls[j])))
    ensures Sum(zs) == Add(Total(ns).log, Mul(Dot(ls, vs), c))
  {
    hide Add, Mul;
    var n := |zs|;
    var weighted := seq(n, j requires 0 <= j < n => Mul(ls[j], vs[j]));
    var keyed := seq(n, j requires 0 <= j < n => Mul(weighted[j], c));
    forall j | 0 <= j < n ensures keyed[j] == Mul(vs[j], Mul(c, ls[j])) {
      MulComm(c, ls[j]);
      MulAssoc(vs[j], ls[j], c);
      MulComm(vs[j], ls[j]);
    }
    SumAdd(Logs(ns), keyed, zs);
    SumScale(weighted, c, keyed);
    DotIsSum(ls, vs, weighted);
    TotalIsSum(ns);
  }

  lemma {:induction false} SchnorrEquation(g: PublicGenesis, selected: seq<PersonId>, os: OuterSupport,
      ctx: SigningContext, runs: seq<MemberRun>)
    requires Prepared(g, selected, os, ctx, runs)
    requires forall j :: 0 <= j < |runs| ==> Honest(ctx, runs[j])
    ensures FromScalar(Sum(MemberScalars(ctx, runs))) == Plus(ctx.nonce, Times(ctx.root.head.key, ctx.challenge))
  {
    hide Honest, Session, Add, Mul, Bind, Scalars, Weight, PublicGenesis.OuterSupportOf, OuterSupport.Coefficient,
      SigningContext.Binding, BindingFactors, Challenge;
    OuterSupportRecombines(g, selected);
    var zs := MemberScalars(ctx, runs);
    if |runs| > 0 { CeremonyLookups(g, selected, os, ctx, runs, 0); }
    var ns, vs := BoundNonces(ctx.root.entries, ctx.factors), Logs(Members(os.participants));
    forall j | 0 <= j < |zs| ensures zs[j] == Add(ns[j].log, Mul(vs[j], Mul(ctx.challenge, os.coefficients[j]))) {
      SessionIsHonest(g, selected, os, ctx, runs, j);
      CeremonyLookups(g, selected, os, ctx, runs, j);
      MemberEquation(ctx, runs[j]);
    }
    OuterSum(ns, vs, os.coefficients, zs, ctx.challenge);
  }

  /** Nested signing is complete. For every accepted genesis, every exact outer
    * support with every exact inner support below it and all nonces whose sums are
    * not the identity: no honest device is refused, every member aggregates, and
    * the signature aggregates and satisfies `zG = R + cQ` for the vault key, in any
    * delivery order at both tiers.
    */
  lemma {:induction false} NestedSigningIsComplete(
    g: PublicGenesis, selected: seq<PersonId>, os: OuterSupport, ctx: SigningContext, runs: seq<MemberRun>,
    delivered: seq<seq<DeviceResponse>>, members: seq<MemberResponse>)
    requires Ceremony(g, selected, os, ctx, runs)
    requires SigningContext.New(ctx.root) == Ok(ctx)
    requires |delivered| == |runs|
    requires forall j :: 0 <= j < |runs| ==> multiset(delivered[j]) == multiset(Responses(ctx, runs[j]))
    requires multiset(members) == multiset(MemberResponses(ctx, runs))
    ensures forall j, i :: 0 <= j < |runs| && 0 <= i < |runs[j].secrets| ==>
      var s := runs[j].secrets[i];
      RespondDevice(s.nonce, runs[j].transcript, ctx, runs[j].nonces, s.attempt.device, s.share) ==
        Ok(Responses(ctx, runs[j])[i])
    ensures forall j :: 0 <= j < |runs| ==>
      AggregateMemberSpec(Plain(ctx), runs[j].transcript, ctx, runs[j].nonces, delivered[j]) ==
        Ok(MemberResponses(ctx, runs)[j])
    ensures var r := AggregateSignatureSpec(ctx, os, members);
      && r.Ok? && r.value.nonce == ctx.nonce
      && FromScalar(r.value.response) == Plus(ctx.nonce, Times(g.outer.constant, ctx.challenge))
      && r.value.Verify(g.outer.constant, ctx.root.head.message).Ok?
  {
    ContextIsConsistent(ctx.root);
    hide Honest, Session, Sum, Scalars, RespondDevice, AggregateMemberSpec;
    CeremonyIsHonest(g, selected, os, ctx, runs);
    forall j, i | 0 <= j < |runs| && 0 <= i < |runs[j].secrets|
      ensures var s := runs[j].secrets[i];
        RespondDevice(s.nonce, runs[j].transcript, ctx, runs[j].nonces, s.attempt.device, s.share) ==
          Ok(Responses(ctx, runs[j])[i])
    {
      DeviceResponds(ctx, runs[j], i);
    }
    forall j | 0 <= j < |runs|
      ensures AggregateMemberSpec(Plain(ctx), runs[j].transcript, ctx, runs[j].nonces, delivered[j]) ==
        Ok(MemberResponses(ctx, runs)[j])
    {
      MemberAggregates(ctx, runs[j], delivered[j]);
    }
    SignatureAggregates(g, selected, os, ctx, runs, members);
  }

  lemma {:induction false} SignatureAggregates(g: PublicGenesis, selected: seq<PersonId>, os: OuterSupport,
      ctx: SigningContext, runs: seq<MemberRun>, members: seq<MemberResponse>)
    requires Prepared(g, selected, os, ctx, runs)
    requires SigningContext.New(ctx.root) == Ok(ctx)
    requires multiset(members) == multiset(MemberResponses(ctx, runs))
    ensures AggregateSignatureSpec(ctx, os, members) == Ok(Signature(ctx.nonce, Sum(MemberScalars(ctx, runs))))
    ensures FromScalar(Sum(MemberScalars(ctx, runs))) == Plus(ctx.nonce, Times(g.outer.constant, ctx.challenge))
  {
    hide Honest, Session, Sum, Scalars, Sort, PartialHolds, Add, Mul, BoundNonces, BindingFactors, Total, Times,
      PublicGenesis.OuterSupportOf, AddMemberPartials;
    CeremonyIsHonest(g, selected, os, ctx, runs);
    var rs := MemberResponses(ctx, runs);
    SortPermute(rs, members, ResponseSlot);
    SortSorted(rs, ResponseSlot);
    assert |members| == |multiset(members)| == |rs|;
    AdjacentIsStrict(rs, ResponseSlot);
    MembersAdd(g, selected, os, ctx, runs, |rs|);
    assert rs[..|rs|] == rs && MemberScalars(ctx, runs)[..|rs|] == MemberScalars(ctx, runs);
    SchnorrEquation(g, selected, os, ctx, runs);
  }
}

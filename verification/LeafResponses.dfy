/** When a reachable leaf's response succeeds (src/leaf.rs, src/signing.rs,
  * src/taproot/sign.rs).
  */
module LeafResponses {
  import opened Results
  import opened Field
  import opened Algebra
  import opened Sorting
  import opened Support
  import opened Genesis
  import opened Ids
  import opened Encoding
  import opened Hashes
  import opened Transcript
  import opened Signing
  import opened Taproot
  import opened Auth
  import opened Leaf
  import opened Material
  import opened LeafLive

  /** The fixed set lists another pair for this attempt with the same commitment. */
  predicate ListedNonceCollides(l: Live, inputs: ResponseInputs) {
    var found := inputs.nonces.Lookup(inputs.device);
    found.Ok? && Collide(HASHES.nonce, NonceInput(l.attempt, l.reservationBytes, found.value.nonce),
      NonceInput(l.attempt, l.reservationBytes, inputs.nonce.Commitments()))
  }

  /** The checks on the transcript that a device cannot settle alone. */
  predicate Accepts(t: MemberTranscript, ctx: SigningContext, nonces: DeviceNonceSet) {
    ValidateMemberInputs(t, ctx, nonces).Ok? && ctx.Binding(t.Slot()).Ok?
  }

  /** On a reachable registry the device's own share, nonce and coefficient never stop a
    * response: it succeeds exactly when the transcript is accepted, short of a named
    * collision.
    */
  lemma {:induction false} DeviceAnswers(r: Registry, mode: ResponseMode, t: MemberTranscript, ctx: SigningContext)
    requires Reachable(r) && r.live.Some? && r.Inputs(r.live.value, mode).Ok?
    requires t.opening == r.live.value.reservation.opening
    ensures var l, x := r.live.value, r.Inputs(r.live.value, mode).value;
      var o := RespondDevice(x.nonce, t, ctx, x.nonces, x.device, x.share);
      && o != Err(ShareMismatch)
      && (o.Ok? ==> Accepts(t, ctx, x.nonces) && o.value.attempt == l.attempt)
      && (Accepts(t, ctx, x.nonces) ==> o.Ok? || ListedNonceCollides(l, x))
  {
    hide Reachable, SigningShare, Collide, NonceInput, InnerSupport.Participant, DeviceNonceSet.MatchesSupport,
      Nonce.Respond, Mul, Find;
    ResponseUsesCurrentShare(r, mode);
    ResponseUsesOwnNonce(r, mode);
    OwnCoefficient(r, mode);
  }

  /** The Taproot response passes and fails by the same checks. */
  lemma {:induction false} TapAnswersAlike(ctx: TapContext, nonce: Nonce, t: MemberTranscript, nonces: DeviceNonceSet,
      device: DeviceId, share: Scalar)
    ensures var plain := RespondDevice(nonce, t, ctx.view, nonces, device, share);
      var tap := ctx.RespondDevice(nonce, t, nonces, device, share);
      && (plain.Ok? <==> tap.Ok?) && (plain.Ok? ==> plain.value.attempt == tap.value.attempt)
      && (plain.Err? ==> tap.error == plain.error)
  {
    hide ValidateMemberInputs, SigningContext.Binding, TapContext.Folded, TapContext.Twist, Nonce.Respond, Mul;
  }

  lemma {:induction false} OwnCoefficient(r: Registry, mode: ResponseMode)
    requires Reachable(r) && r.live.Some? && r.live.value.Support().Participant(r.device).Ok?
    ensures r.live.value.Support().Coefficient(r.device).Ok?
  {
    hide Fits, CommitHolds, RevealHolds, FixHolds, Registry.ValidateReservation;
  }

  /** A root package that names the reservation's prepackage, has a signing context, and
    * carries the fixed aggregate nonce in the reservation's slot.
    */
  predicate Matches(root: RootPackage, x: ResponseInputs) {
    && root.Prepackage() == x.reservation.prepackage && SigningContext.New(root).Ok?
    && root.Entry(x.reservation.Slot()).Ok?
    && root.Entry(x.reservation.Slot()).value.nonce == x.nonces.aggregate
  }

  lemma {:induction false} MatchesAccepts(r: Registry, mode: ResponseMode, root: RootPackage)
    requires Reachable(r) && r.live.Some? && r.Inputs(r.live.value, mode).Ok?
    requires SigningContext.New(root).Ok?
    ensures var x := r.Inputs(r.live.value, mode).value;
      var t, ctx := MemberTranscript(root, x.reservation.opening), SigningContext.New(root).value;
      Accepts(t, ctx, x.nonces) && root.Prepackage() == x.reservation.prepackage <==> Matches(root, x)
  {
    hide Fits, CommitHolds, RevealHolds, ReservationHolds, Total, BindingFactors, Challenge, BoundNonces;
    var l := r.live.value;
    assert l.fixed.value.nonces.MatchesSupport(l.Support());
  }

  /** A plain response succeeds exactly on canonical bytes of a matching root package,
    * short of a named collision.
    */
  lemma {:induction false} PlainAnswers(r: Registry, rootBytes: bytes)
    requires Reachable(r) && r.live.Some? && r.Inputs(r.live.value, PlainMode).Ok?
    ensures var l, x := r.live.value, r.Inputs(r.live.value, PlainMode).value;
      var root, o := PackageFormat().decode(rootBytes), PlainResponse(x, rootBytes);
      && (o.Ok? ==> root.Ok? && Matches(root.value, x) && o.value.attempt == l.attempt)
      && (root.Ok? && Matches(root.value, x) ==> o.Ok? || ListedNonceCollides(l, x))
      && (root.Ok? && SigningContext.New(root.value).Ok? ==> o != Err(ShareMismatch))
  {
    hide Reachable, ListedNonceCollides, Accepts, RootPackage.Entry, PackageFormat, PackageBytes, SigningContext.New,
      RespondDevice;
    var root := PackageFormat().decode(rootBytes);
    if root.Ok? {
      PackageCanonical(rootBytes, root.value);
      var t := MemberTranscript(root.value, r.live.value.reservation.opening);
      if SigningContext.New(root.value).Ok? {
        var ctx := SigningContext.New(root.value).value;
        MatchesAccepts(r, PlainMode, root.value);
        DeviceAnswers(r, PlainMode, t, ctx);
      }
    }
  }
}

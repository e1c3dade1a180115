/** Two-tier Schnorr signing (src/signing.rs, with the signing context of
  * src/transcript.rs).
  */
module Signing {
  import opened Results
  import opened Field
  import opened Sorting
  import opened Algebra
  import opened Shamir
  import opened Support
  import opened Ids
  import opened Encoding
  import opened Hashes
  import opened Transcript

  // ----- nonces

  /** Combines a public pair under a binding factor. */
  function Bind(n: NoncePair, rho: Scalar): Element {
    Plus(n.hiding, Times(n.binding, rho))
  }

  /** A volatile dual nonce; both scalars are nonzero. */
  datatype Nonce = Nonce(hiding: Node, binding: Node)
  {
    function Commitments(): NoncePair { NoncePair(FromScalar(hiding), FromScalar(binding)) }

    function Respond(rho: Scalar, challenge: Scalar, coefficient: Scalar, share: Scalar): Scalar {
      Add(Add(hiding, Mul(rho, binding)), Mul(Mul(challenge, coefficient), share))
    }
  }

  datatype DeviceNonce = DeviceNonce(attempt: LeafAttempt, nonce: NoncePair)

  function NonceDevice(n: DeviceNonce): int { n.attempt.device }

  function Hidings(ns: seq<DeviceNonce>): (r: seq<Element>)
    ensures |r| == |ns|
  {
    seq(|ns|, i requires 0 <= i < |ns| => ns[i].nonce.hiding)
  }

  function Bindings(ns: seq<DeviceNonce>): (r: seq<Element>)
    ensures |r| == |ns|
  {
    seq(|ns|, i requires 0 <= i < |ns| => ns[i].nonce.binding)
  }

  function SumPairs(ns: seq<DeviceNonce>): Result<NoncePair> {
    var hiding, binding := Total(Hidings(ns)), Total(Bindings(ns));
    if hiding == IDENTITY || binding == IDENTITY then Err(IdentityNonce)
    else Ok(NoncePair(hiding, binding))
  }

  /** A fixed, canonical set of device nonces. */
  datatype DeviceNonceSet = DeviceNonceSet(entries: seq<DeviceNonce>, aggregate: NoncePair)
  {
    predicate MatchesSupport(support: InnerSupport) {
      && |entries| == |support.participants|
      && forall i :: 0 <= i < |entries| ==> entries[i].attempt.device == support.participants[i].device
    }

    /** What `New` establishes. */
    ghost predicate Valid(support: InnerSupport) {
      && StrictlySorted(entries, NonceDevice)
      && MatchesSupport(support)
      && SumPairs(entries) == Ok(aggregate)
    }

    static function New(support: InnerSupport, entries: seq<DeviceNonce>): Result<DeviceNonceSet> {
      var sorted := Sort(entries, NonceDevice);
      if |sorted| != |support.participants| then Err(SupportMismatch)
      else if !AdjacentDistinct(sorted, NonceDevice) then Err(DuplicateParticipant)
      else if exists i :: 0 <= i < |sorted| && sorted[i].attempt.device != support.participants[i].device
        then Err(SupportMismatch)
      else
        var aggregate :- SumPairs(sorted);
        Ok(DeviceNonceSet(sorted, aggregate))
    }

    function Lookup(device: DeviceId): Result<DeviceNonce> {
      var i := Find(entries, NonceDevice, device);
      if i.Some? then Ok(entries[i.value]) else Err(ParticipantNotFound)
    }
  }

  lemma {:induction false} NonceSetNew(support: InnerSupport, entries: seq<DeviceNonce>)
    ensures var r := DeviceNonceSet.New(support, entries);
      r.Ok? ==> r.value.Valid(support) && r.value.entries == Sort(entries, NonceDevice)
  {
    hide Total;
    AdjacentIsStrict(Sort(entries, NonceDevice), NonceDevice);
  }

  // ----- transcripts and signing contexts

  /** A verified root package and private member opening. */
  datatype MemberTranscript = MemberTranscript(root: RootPackage, opening: MemberOpening)
  {
    static function Finalize(root: RootPackage, reservation: MemberReservation): Result<MemberTranscript> {
      if root.Prepackage() != reservation.prepackage then Err(InvalidTranscript)
      else Ok(MemberTranscript(root, reservation.opening))
    }

    function Body(): MemberBody { opening.body }
    function Slot(): Slot { opening.body.outer.slot }
  }

  function BindingPreimage(root: RootPackage, slot: Slot): Result<bytes> {
    var index := Find(root.entries, EntrySlot, slot);
    if index.None? then Err(ParticipantNotFound)
    else
      var package :- PackageBytes(root);
      var packed :- PutBytes(package);
      if index.value >= U16_LIMIT then Err(LengthOverflow)
      else Ok(WIRE_ID + packed + U16Field().enc(index.value))
  }

  /** The binding factors of the first `n` entries. */
  function BindingFactors(root: RootPackage, n: nat): (r: Result<seq<Scalar>>)
    requires n <= |root.entries|
    ensures r.Ok? ==> |r.value| == n
  {
    if n == 0 then Ok([])
    else
      var front :- BindingFactors(root, n - 1);
      var preimage :- BindingPreimage(root, root.entries[n - 1].record.slot);
      Ok(front + [HASHES.bind(preimage)])
  }

  function BoundNonces(entries: seq<RootEntry>, factors: seq<Scalar>): (r: seq<Element>)
    requires |entries| == |factors|
    ensures |r| == |entries|
  {
    seq(|entries|, i requires 0 <= i < |entries| => Bind(entries[i].nonce, factors[i]))
  }

  /** The plain Schnorr challenge. */
  function Challenge(nonce: Point, key: Point, message: bytes): Result<Scalar> {
    var packed :- PutBytes(message);
    Ok(HASHES.challenge(WIRE_ID + PointBytes(nonce) + PointBytes(key) + packed))
  }

  /** Hashes derived from one finalized root package. */
  datatype SigningContext = SigningContext(root: RootPackage, factors: seq<Scalar>, nonce: Point, challenge: Scalar)
  {
    static function New(root: RootPackage): Result<SigningContext> {
      var factors :- BindingFactors(root, |root.entries|);
      var nonce := Total(BoundNonces(root.entries, factors));
      if root.entries == [] then Err(EmptyInput)
      else if nonce == IDENTITY then Err(IdentityNonce)
      else
        var challenge :- Challenge(nonce, root.head.key, root.head.message);
        Ok(SigningContext(root, factors, nonce, challenge))
    }

    function Binding(slot: Slot): Result<Scalar> {
      var i := Find(root.entries, EntrySlot, slot);
      if i.Some? && i.value < |factors| then Ok(factors[i.value]) else Err(ParticipantNotFound)
    }
  }

  // ----- the signing equations

  datatype DeviceResponse = DeviceResponse(attempt: LeafAttempt, scalar: Scalar)
  datatype MemberResponse = MemberResponse(slot: Slot, scalar: Scalar)
  datatype Signature = Signature(nonce: Point, response: Scalar)
  {
    /** The Schnorr equation `zG = R + cQ`. */
    function Verify(key: Point, message: bytes): Result<()> {
      var challenge :- Challenge(nonce, key, message);
      Need(FromScalar(response) == Plus(nonce, Times(key, challenge)), InvalidSignature)
    }
  }

  function ResponseDevice(r: DeviceResponse): int { r.attempt.device }
  function ResponseSlot(r: MemberResponse): int { r.slot }

  /** The partial equation of either tier. */
  predicate PartialHolds(response: Scalar, nonce: NoncePair, rho: Scalar, challenge: Scalar, coefficient: Scalar,
      share: Element) {
    FromScalar(response) == Plus(Bind(nonce, rho), Times(share, Mul(challenge, coefficient)))
  }

  /** A partial equation: response, nonce pair, binding factor, coefficient, share. */
  type Equation = (Scalar, NoncePair, Scalar, Scalar, Element) -> bool

  /** The plain profile's equation. */
  function Plain(ctx: SigningContext): Equation {
    (z: Scalar, nonce: NoncePair, rho: Scalar, coefficient: Scalar, share: Element) =>
      PartialHolds(z, nonce, rho, ctx.challenge, coefficient, share)
  }

  function ValidateMemberInputs(t: MemberTranscript, ctx: SigningContext, nonces: DeviceNonceSet): Result<()> {
    if t.root != ctx.root then Err(InvalidTranscript)
    else if !nonces.MatchesSupport(t.Body().inner) then Err(SupportMismatch)
    else
      var entry :- t.root.Entry(t.Slot());
      Need(entry.nonce == nonces.aggregate, NonceMismatch)
  }

  function RespondDevice(nonce: Nonce, t: MemberTranscript, ctx: SigningContext, nonces: DeviceNonceSet,
      device: DeviceId, share: Scalar): Result<DeviceResponse> {
    var _ :- ValidateMemberInputs(t, ctx, nonces);
    var participant :- t.Body().inner.Participant(device);
    if participant.share != FromScalar(share) then Err(ShareMismatch)
    else
      var entry :- nonces.Lookup(device);
      if nonce.Commitments() != entry.nonce then Err(NonceMismatch)
      else
        var inner :- t.Body().inner.Coefficient(device);
        var rho :- ctx.Binding(t.Slot());
        var response := nonce.Respond(rho, ctx.challenge, Mul(inner, t.Body().outer.scalar), share);
        Ok(DeviceResponse(entry.attempt, response))
  }

  /** Verifies sorted partials against the support, left to right, and adds them. */
  function AddDevicePartials(
    holds: Equation, t: MemberTranscript, nonces: DeviceNonceSet, rho: Scalar,
      sorted: seq<DeviceResponse>): Result<Scalar>
    requires |sorted| <= |t.Body().inner.participants|
  {
    if sorted == [] then Ok(0)
    else
      var n := |sorted| - 1;
      var front :- AddDevicePartials(holds, t, nonces, rho, sorted[..n]);
      var partial, participant := sorted[n], t.Body().inner.participants[n];
      var entry := nonces.Lookup(partial.attempt.device);
      if partial.attempt.device != participant.device then Err(SupportMismatch)
      else if entry.Err? then Err(entry.error)
      else if partial.attempt != entry.value.attempt then Err(AttemptMismatch)
      else
        var inner :- t.Body().inner.Coefficient(partial.attempt.device);
        if !holds(partial.scalar, entry.value.nonce, rho, Mul(inner, t.Body().outer.scalar), participant.share)
          then Err(InvalidPartial)
        else Ok(Add(front, partial.scalar))
  }

  function AggregateMemberSpec(holds: Equation, t: MemberTranscript, ctx: SigningContext, nonces: DeviceNonceSet,
      responses: seq<DeviceResponse>): Result<MemberResponse> {
    var _ :- ValidateMemberInputs(t, ctx, nonces);
    if |responses| != |t.Body().inner.participants| then Err(SupportMismatch)
    else
      var sorted := Sort(responses, ResponseDevice);
      if !AdjacentDistinct(sorted, ResponseDevice) then Err(DuplicateParticipant)
      else
        var rho :- ctx.Binding(t.Slot());
        var response :- AddDevicePartials(holds, t, nonces, rho, sorted);
        if !holds(response, nonces.aggregate, rho, t.Body().outer.scalar, t.Body().member) then Err(InvalidPartial)
        else Ok(MemberResponse(t.Slot(), response))
  }

  lemma {:induction false} DeviceStep(holds: Equation, t: MemberTranscript, nonces: DeviceNonceSet, rho: Scalar,
      sorted: seq<DeviceResponse>, i: nat)
    requires i < |sorted| <= |t.Body().inner.participants| && AddDevicePartials(holds, t, nonces, rho, sorted[..i]).Ok?
    ensures AddDevicePartials(holds, t, nonces, rho, sorted[..i + 1]) ==
      var partial, participant := sorted[i], t.Body().inner.participants[i];
      var entry, inner := nonces.Lookup(partial.attempt.device), t.Body().inner.Coefficient(partial.attempt.device);
      if partial.attempt.device != participant.device then Err(SupportMismatch)
      else if entry.Err? then Err(entry.error)
      else if partial.attempt != entry.value.attempt then Err(AttemptMismatch)
      else if inner.Err? then Err(inner.error)
      else if !holds(partial.scalar, entry.value.nonce, rho, Mul(inner.value, t.Body().outer.scalar), participant.share)
        then Err(InvalidPartial)
      else Ok(Add(AddDevicePartials(holds, t, nonces, rho, sorted[..i]).value, partial.scalar))
  {
    hide Find, Add, Mul, InnerSupport.Coefficient, DeviceNonceSet.Lookup;
    assert sorted[..i + 1][..i] == sorted[..i];
  }

  /** Verifies and aggregates one member's device responses. */
  method AggregateMember(holds: Equation, t: MemberTranscript, ctx: SigningContext, nonces: DeviceNonceSet,
      responses: seq<DeviceResponse>)
    returns (r: Result<MemberResponse>)
    ensures r == AggregateMemberSpec(holds, t, ctx, nonces, responses)
  {
    hide Sort, Find, Add, Mul, InnerSupport.Coefficient, DeviceNonceSet.Lookup;
    var valid := ValidateMemberInputs(t, ctx, nonces);
    if valid.Err? { return Err(valid.error); }
    var support := t.Body().inner;
    if |responses| != |support.participants| { return Err(SupportMismatch); }
    var sorted := Sort(responses, ResponseDevice);
    if !AdjacentDistinct(sorted, ResponseDevice) { return Err(DuplicateParticipant); }
    var binding := ctx.Binding(t.Slot());
    if binding.Err? { return Err(binding.error); }
    var rho, outer := binding.value, t.Body().outer.scalar;
    var response: Scalar := 0;
    assert AddDevicePartials(holds, t, nonces, rho, sorted[..0]) == Ok(0);
    hide AddDevicePartials;
    for i := 0 to |sorted|
      invariant AddDevicePartials(holds, t, nonces, rho, sorted[..i]) == Ok(response)
    {
      DeviceStep(holds, t, nonces, rho, sorted, i);
      var partial, participant := sorted[i], support.participants[i];
      var failed: Option<Error> := None;
      if partial.attempt.device != participant.device {
        failed := Some(SupportMismatch);
      } else {
        var entry := nonces.Lookup(partial.attempt.device);
        if entry.Err? {
          failed := Some(entry.error);
        } else if partial.attempt != entry.value.attempt {
          failed := Some(AttemptMismatch);
        } else {
          var inner := support.Coefficient(partial.attempt.device);
          if inner.Err? {
            failed := Some(inner.error);
          } else if !holds(partial.scalar, entry.value.nonce, rho, Mul(inner.value, outer), participant.share) {
            failed := Some(InvalidPartial);
          }
        }
      }
      if failed.Some? {
        DeviceFailureStays(holds, t, nonces, rho, sorted, i + 1);
        return Err(failed.value);
      }
      response := Add(response, partial.scalar);
    }
    assert sorted[..|sorted|] == sorted;
    if !holds(response, nonces.aggregate, rho, outer, t.Body().member) {
      return Err(InvalidPartial);
    }
    return Ok(MemberResponse(t.Slot(), response));
  }

  lemma {:induction false} DeviceFailureStays(holds: Equation, t: MemberTranscript, nonces: DeviceNonceSet,
      rho: Scalar, sorted: seq<DeviceResponse>, n: nat)
    requires n <= |sorted| <= |t.Body().inner.participants|
    requires AddDevicePartials(holds, t, nonces, rho, sorted[..n]).Err?
    ensures AddDevicePartials(holds, t, nonces, rho, sorted) == AddDevicePartials(holds, t, nonces, rho, sorted[..n])
  {
    if n < |sorted| {
      var m := |sorted| - 1;
      assert sorted[..m][..n] == sorted[..n];
      DeviceFailureStays(holds, t, nonces, rho, sorted[..m], n);
    } else {
      assert sorted[..n] == sorted;
    }
  }

  /** Verifies sorted member partials against support and package, left to right. */
  function AddMemberPartials(holds: Equation, ctx: SigningContext, support: OuterSupport,
      sorted: seq<MemberResponse>): Result<Scalar>
    requires |sorted| <= |support.participants| && |sorted| <= |ctx.root.entries|
  {
    if sorted == [] then Ok(0)
    else
      var n := |sorted| - 1;
      var front :- AddMemberPartials(holds, ctx, support, sorted[..n]);
      var partial, participant, entry := sorted[n], support.participants[n], ctx.root.entries[n];
      if partial.slot != participant.slot || entry.record.slot != participant.slot then Err(SupportMismatch)
      else
        var coefficient :- support.Coefficient(participant.person);
        var rho :- ctx.Binding(partial.slot);
        if !holds(partial.scalar, entry.nonce, rho, coefficient.scalar, participant.member) then Err(InvalidPartial)
        else Ok(Add(front, partial.scalar))
  }

  /** The sum of all member responses, each verified against its participant. */
  function CollectSpec(holds: Equation, ctx: SigningContext, support: OuterSupport,
      responses: seq<MemberResponse>): Result<Scalar> {
    var _ :- ctx.root.ValidateSupport(support);
    if |responses| != |support.participants| then Err(SupportMismatch)
    else
      var sorted := Sort(responses, ResponseSlot);
      if !AdjacentDistinct(sorted, ResponseSlot) then Err(DuplicateSlot)
      else AddMemberPartials(holds, ctx, support, sorted)
  }

  function AggregateSignatureSpec(ctx: SigningContext, support: OuterSupport,
      responses: seq<MemberResponse>): Result<Signature> {
    var response :- CollectSpec(Plain(ctx), ctx, support, responses);
    var signature := Signature(ctx.nonce, response);
    var _ :- signature.Verify(ctx.root.head.key, ctx.root.head.message);
    Ok(signature)
  }

  lemma {:induction false} MemberFailureStays(holds: Equation, ctx: SigningContext, support: OuterSupport,
      sorted: seq<MemberResponse>, n: nat)
    requires n <= |sorted| <= |support.participants| && |sorted| <= |ctx.root.entries|
    requires AddMemberPartials(holds, ctx, support, sorted[..n]).Err?
    ensures AddMemberPartials(holds, ctx, support, sorted) == AddMemberPartials(holds, ctx, support, sorted[..n])
  {
    if n < |sorted| {
      var m := |sorted| - 1;
      assert sorted[..m][..n] == sorted[..n];
      MemberFailureStays(holds, ctx, support, sorted[..m], n);
    } else {
      assert sorted[..n] == sorted;
    }
  }

  /** Verifies and adds the member responses. */
  method Collect(holds: Equation, ctx: SigningContext, support: OuterSupport, responses: seq<MemberResponse>)
    returns (r: Result<Scalar>)
    ensures r == CollectSpec(holds, ctx, support, responses)
  {
    hide SigningContext.Binding, OuterSupport.Coefficient, Sort, Find, Add;
    var valid := ctx.root.ValidateSupport(support);
    if valid.Err? { return Err(valid.error); }
    if |responses| != |support.participants| { return Err(SupportMismatch); }
    var sorted := Sort(responses, ResponseSlot);
    if !AdjacentDistinct(sorted, ResponseSlot) { return Err(DuplicateSlot); }
    var response: Scalar := 0;
    for i := 0 to |sorted|
      invariant AddMemberPartials(holds, ctx, support, sorted[..i]) == Ok(response)
    {
      assert sorted[..i + 1][..i] == sorted[..i];
      var partial, participant, entry := sorted[i], support.participants[i], ctx.root.entries[i];
      var failed: Option<Error> := None;
      if partial.slot != participant.slot || entry.record.slot != participant.slot {
        failed := Some(SupportMismatch);
      } else {
        var coefficient := support.Coefficient(participant.person);
        var rho := ctx.Binding(partial.slot);
        if coefficient.Err? {
          failed := Some(coefficient.error);
        } else if rho.Err? {
          failed := Some(rho.error);
        } else if !holds(partial.scalar, entry.nonce, rho.value, coefficient.value.scalar, participant.member) {
          failed := Some(InvalidPartial);
        }
      }
      if failed.Some? {
        MemberFailureStays(holds, ctx, support, sorted, i + 1);
        return Err(failed.value);
      }
      response := Add(response, partial.scalar);
    }
    assert sorted[..|sorted|] == sorted;
    return Ok(response);
  }

  /** Verifies outer responses and returns a plain Schnorr signature. */
  method AggregateSignature(ctx: SigningContext, support: OuterSupport, responses: seq<MemberResponse>)
    returns (r: Result<Signature>)
    ensures r == AggregateSignatureSpec(ctx, support, responses)
  {
    var response := Collect(Plain(ctx), ctx, support, responses);
    if response.Err? { return Err(response.error); }
    var signature := Signature(ctx.nonce, response.value);
    var verified := signature.Verify(ctx.root.head.key, ctx.root.head.message);
    if verified.Err? { return Err(verified.error); }
    return Ok(signature);
  }
}

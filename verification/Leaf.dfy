/** One-use device signing state, as a value (src/leaf.rs).
  *
  * Each call is a function from the registry to the next registry and the result.
  * The source keeps a reservation and a nonce behind options that are empty only
  * while `respond` consumes them; here they are plain fields.
  */
module Leaf {
  import opened Results
  import opened Field
  import opened Sorting
  import opened Algebra
  import opened Shamir
  import opened Support
  import opened Genesis
  import opened Ids
  import opened Encoding
  import opened Transcript
  import opened Signing
  import opened Auth
  import opened Shape
  import opened Contribution
  import opened Target

  // ----- state

  datatype ResponseMode = PlainMode | TaprootMode

  datatype ResponseBinding = ResponseBinding(mode: ResponseMode, tag: Option<Id>)

  const PLAIN := ResponseBinding(PlainMode, None)

  datatype CommitState = CommitState(nonce: Nonce, pair: NoncePair, commitment: Scalar)
  datatype RevealState = RevealState(body: bytes, view: View<Scalar>, viewedPair: NoncePair)
  datatype FixedState = FixedState(body: bytes, nonces: DeviceNonceSet)

  datatype Live = Live(
    attempt: LeafAttempt, session: SessionId, vault: VaultId, expiry: U64,
    reservationBytes: bytes, response: ResponseBinding, reservation: MemberReservation,
    commit: Option<CommitState>, shown: Option<RevealState>, fixed: Option<FixedState>)
  {
    function Support(): InnerSupport { reservation.Body().inner }
  }

  datatype VaultState = VaultState(
    outerNode: Node, outerEpoch: Epoch, memberHandle: Handle, memberPoint: Point, vaultKey: Point,
    anchor: Scalar, memberMap: MemberMap, outerMap: OuterMap)

  function IdentityKeyOf(d: IdentityDevice): int { d.device }
  function OuterPersonKey(p: OuterPerson): int { p.person }
  function VaultKey(v: VaultId): int { v }

  /** What a response is computed from. */
  datatype ResponseInputs = ResponseInputs(
    nonce: Nonce, reservation: MemberReservation, nonces: DeviceNonceSet, device: DeviceId, share: Scalar,
    session: SessionId, expiry: U64)

  /** One vault's new member share with the epoch it opens. */
  datatype MemberShare = MemberShare(epoch: KeyEpoch, share: InstalledShare)

  function MemberVaultKey(m: MemberShare): int { m.epoch.anchor.vault }

  // ----- maps from installed blocks

  function EvaluateDevices(shape: SingleShape, points: ContributionPoints,
      devices: seq<TargetDevice>): Result<seq<IdentityDevice>> {
    if devices == [] then Ok([])
    else
      var n := |devices| - 1;
      var front :- EvaluateDevices(shape, points, devices[..n]);
      var share :- points.Evaluate(OneSharing(shape), SingleTarget(devices[n].device));
      Ok(front + [IdentityDevice(devices[n].device, devices[n].node, share)])
  }

  function IdentityMapOf(shape: SingleShape, points: ContributionPoints): Result<IdentityMap> {
    if !points.OnePolynomial? then Err(SupportMismatch)
    else if |points.points| != shape.threshold then Err(SupportMismatch)
    else
      var devices :- EvaluateDevices(shape, points, shape.devices);
      Ok(IdentityMap(points.points, devices))
  }

  function MemberMapOf(shape: SingleShape, points: ContributionPoints): Result<MemberMap> {
    if !points.OnePolynomial? then Err(SupportMismatch)
    else if |points.points| != shape.threshold then Err(SupportMismatch)
    else Ok(MemberMap(points.points))
  }

  function OuterPeopleOf(people: seq<OuterTarget>, members: seq<MemberPoints>): Result<seq<OuterPerson>>
    requires |people| == |members|
  {
    if people == [] then Ok([])
    else
      var n := |people| - 1;
      var front :- OuterPeopleOf(people[..n], members[..n]);
      var t, m := people[n], members[n];
      if t.person != m.person || |m.points| != t.inner.threshold then Err(SupportMismatch)
      else if m.points == [] then Err(EmptyInput)
      else if m.points[0] == IDENTITY then Err(IdentityPoint)
      else Ok(front + [OuterPerson(t.person, t.node, m.points[0])])
  }

  function OuterMapsOf(shape: OuterShape, points: ContributionPoints, person: PersonId): Result<(OuterMap, MemberMap)> {
    if !points.Linked? then Err(SupportMismatch)
    else if |points.outer| != shape.threshold || |points.members| != |shape.people| then Err(SupportMismatch)
    else
      var people :- OuterPeopleOf(shape.people, points.members);
      var i := Find(points.members, MemberKey, person);
      if i.None? then Err(ParticipantNotFound)
      else Ok((OuterMap(points.outer, people), MemberMap(points.members[i.value].points)))
  }

  predicate SameRoster(m: IdentityMap, shape: SingleShape) {
    && |m.commitments| == shape.threshold
    && |m.devices| == |shape.devices|
    && forall i :: 0 <= i < |m.devices| ==>
      m.devices[i].device == shape.devices[i].device && m.devices[i].node == shape.devices[i].node
  }

  // ----- the registry

  datatype Registry = Registry(
    device: DeviceId, person: PersonId, node: Node, identityMap: IdentityMap, identityKey: Point, identity: Scalar,
    innerEpoch: Epoch, identityHandle: Handle, vaults: map<VaultId, VaultState>, live: Option<Live>, nextSequence: U64)
  {
    function VaultOrder(): (r: seq<VaultId>)
      ensures |r| == |vaults.Keys| && StrictlySorted(r, VaultKey) && forall v :: v in r <==> v in vaults
    {
      Ascending(vaults.Keys, VaultKey)
    }

    // --- creation

    static function VaultFrom(d: DeviceGenesis, epoch: KeyEpoch): VaultState {
      VaultState(d.outerNode, epoch.outer, epoch.anchor.member, d.memberPoint, d.vaultKey, d.anchor, d.memberMap,
        d.outerMap)
    }

    static function CheckGenesisEpoch(d: DeviceGenesis, epoch: KeyEpoch): Result<()> {
      Need(epoch.anchor.vault == d.vault && epoch.anchor.person == d.person, EpochMismatch)
    }

    static function New(d: DeviceGenesis, epoch: KeyEpoch): Result<Registry> {
      var _ :- CheckGenesisEpoch(d, epoch);
      Ok(Registry(
        d.device, d.person, d.node, d.identityMap, d.identityKey, d.identity, epoch.inner, epoch.anchor.identity,
        map[d.vault := VaultFrom(d, epoch)], None, 0))
    }

    function AddVault(d: DeviceGenesis, epoch: KeyEpoch): (Registry, Result<()>) {
      if live.Some? then (this, Err(Busy))
      else
        var checked := CheckGenesisEpoch(d, epoch);
        if checked.Err? then (this, checked)
        else if
          || d.device != device || d.person != person || d.node != node
          || d.identityMap != identityMap || d.identityKey != identityKey
          || FromScalar(d.identity) != FromScalar(identity)
          || epoch.inner != innerEpoch || epoch.anchor.identity != identityHandle || d.vault in vaults
          then (this, Err(EpochMismatch))
        else (this.(vaults := vaults[d.vault := VaultFrom(d, epoch)]), Ok(()))
    }

    // --- attempts

    predicate IsClosed(attempt: LeafAttempt) {
      attempt.device == device && attempt.sequence < nextSequence && (live.None? || live.value.attempt != attempt)
    }

    /** The live attempt, if it is the given one. */
    function TakeLive(attempt: LeafAttempt): (r: Result<Live>)
      ensures r.Ok? <==> live.Some? && live.value.attempt == attempt
      ensures r.Ok? ==> r.value == live.value
    {
      if IsClosed(attempt) then Err(AttemptClosed)
      else if live.None? then Err(WrongStage)
      else if live.value.attempt == attempt then Ok(live.value)
      else Err(if attempt.device == device then Busy else AttemptMismatch)
    }

    function Closed(): Registry { this.(live := None) }

    function EpochOf(vault: VaultId): Result<KeyEpoch> {
      if vault !in vaults then Err(ParticipantNotFound)
      else Ok(KeyEpoch(vaults[vault].outerEpoch, innerEpoch,
        AnchorId(vault, person, identityHandle, vaults[vault].memberHandle)))
    }

    // --- reservations

    function InnerRows(vault: VaultState, support: InnerSupport,
        participants: seq<DeviceParticipant>): Result<Element> {
      if participants == [] then Ok(IDENTITY)
      else
        var n := |participants| - 1;
        var sum :- InnerRows(vault, support, participants[..n]);
        var p := participants[n];
        var i := Find(identityMap.devices, IdentityKeyOf, p.device);
        if i.None? then Err(ParticipantNotFound)
        else
          var node := identityMap.devices[i.value].node;
          if p.node != node || p.share != EvaluatePoints(vault.memberMap.commitments, node) then Err(ShareMismatch)
          else
            var coefficient :- support.Coefficient(p.device);
            Ok(Plus(sum, Times(p.share, coefficient)))
    }

    function CheckInnerSupport(vault: VaultState, support: InnerSupport): Result<()> {
      if |support.participants| != |vault.memberMap.commitments| then Err(SupportMismatch)
      else
        var reconstructed :- InnerRows(vault, support, support.participants);
        Need(reconstructed == vault.memberPoint, ShareMismatch)
    }

    static function OuterRows(vault: VaultState, support: OuterSupport,
        participants: seq<PersonParticipant>): Result<Element> {
      if participants == [] then Ok(IDENTITY)
      else
        var n := |participants| - 1;
        var sum :- OuterRows(vault, support, participants[..n]);
        var p := participants[n];
        if n + 1 >= U16_LIMIT then Err(LengthOverflow)
        else
          var i := Find(vault.outerMap.people, OuterPersonKey, p.person);
          if i.None? then Err(ParticipantNotFound)
          else
            var known := vault.outerMap.people[i.value];
            if p.slot != n + 1 || p.node != known.node || p.member != known.member
              || known.member != EvaluatePoints(vault.outerMap.commitments, known.node)
              then Err(ShareMismatch)
            else
              var coefficient :- support.Coefficient(p.person);
              Ok(Plus(sum, Times(known.member, coefficient.scalar)))
    }

    static function CheckOuterSupport(vault: VaultState, support: OuterSupport): Result<()> {
      if |support.participants| != |vault.outerMap.commitments| then Err(SupportMismatch)
      else
        var reconstructed :- OuterRows(vault, support, support.participants);
        Need(reconstructed == vault.vaultKey, ShareMismatch)
    }

    function ValidateReservation(r: MemberReservation, os: OuterSupport): Result<VaultId> {
      var body := r.Body();
      var vaultId := body.epoch.anchor.vault;
      if vaultId !in vaults then Err(EpochMismatch)
      else
        var vault := vaults[vaultId];
        var epoch :- EpochOf(vaultId);
        if body.epoch != epoch then Err(EpochMismatch)
        else if body.identity != identityKey || body.member != vault.memberPoint
          || r.prepackage.head.key != vault.vaultKey
          then Err(InvalidTranscript)
        else
          var _ :- CheckInnerSupport(vault, body.inner);
          var _ :- CheckOuterSupport(vault, os);
          var p :- body.inner.Participant(device);
          if p.node != node then Err(ParticipantMismatch)
          else if FromScalar(SigningShare(identity, vault.anchor)) != p.share then Err(ShareMismatch)
          else Ok(vaultId)
    }

    function IssueAttempt(): Result<LeafAttempt> {
      if nextSequence + 1 >= U64_LIMIT then Err(AttemptExhausted) else Ok(LeafAttempt(device, nextSequence))
    }

    /** Reserves with an already parsed reservation; `parsed` is what decoding gave. */
    function ReserveWith(
      session: SessionId, now: U64, body: bytes, response: ResponseBinding, os: OuterSupport,
      parsed: Result<SealedReservation>): (Registry, Result<LeafAttempt>)
    {
      if live.Some? then
        if live.value.session != session then (this, Err(Busy))
        else if live.value.reservationBytes == body
          && live.value.response == response then (this, Ok(live.value.attempt))
        else (Closed(), Err(ReplayMismatch))
      else if parsed.Err? then (this, Err(parsed.error))
      else if parsed.value.session != session then (this, Err(InvalidTranscript))
      else if parsed.value.expiry <= now then (this, Err(Expired))
      else
        var vault := ValidateReservation(parsed.value.reservation, os);
        if vault.Err? then (this, Err(vault.error))
        else
          var attempt := IssueAttempt();
          if attempt.Err? then (this, attempt)
          else
            var started := Live(
              attempt.value, session, vault.value, parsed.value.expiry, body, response, parsed.value.reservation,
                None, None, None);
            (this.(live := Some(started), nextSequence := nextSequence + 1), attempt)
    }

    static function ParsePlain(body: bytes, os: OuterSupport): Result<SealedReservation> {
      var s :- ReservationFormat(os).decode(body);
      var again :- ReservationBytes(s, os);
      if again != body then Err(InvalidTranscript) else Ok(s)
    }

    function Reserve(session: SessionId, now: U64, body: bytes, os: OuterSupport): (Registry, Result<LeafAttempt>) {
      ReserveWith(session, now, body, PLAIN, os, ParsePlain(body, os))
    }

    // --- nonces

    /** `nonce` is the sampled nonce; an exact replay does not use it. */
    function Commit(attempt: LeafAttempt, body: bytes, nonce: Nonce): (Registry, Result<Scalar>) {
      var taken := TakeLive(attempt);
      if taken.Err? then (this, Err(taken.error))
      else
        var l := taken.value;
        if l.reservationBytes != body then (Closed(), Err(ReplayMismatch))
        else if l.commit.Some? then (this, Ok(l.commit.value.commitment))
        else
          var pair := nonce.Commitments();
          var commitment := NonceCommitment(attempt, body, pair);
          if commitment.Err? then (Closed(), commitment)
          else (this.(live := Some(l.(commit := Some(CommitState(nonce, pair, commitment.value))))), commitment)
    }

    function Reveal(attempt: LeafAttempt, deliveries: seq<Delivery<Scalar>>): (Registry, Result<NoncePair>) {
      var taken := TakeLive(attempt);
      if taken.Err? then (this, Err(taken.error))
      else
        var l := taken.value;
        var view := View.New(l.Support(), deliveries);
        if view.Err? then (Closed(), Err(view.error))
        else
          var body := Auth.ViewBytes(ScalarField(), view.value);
          if body.Err? then (Closed(), Err(body.error))
          else if l.shown.Some? then
            if l.shown.value.body != body.value then (Closed(), Err(ReplayMismatch))
            else (this, Ok(l.shown.value.viewedPair))
          else
            var checked := CheckReveal(l, view.value);
            if checked.Err? then (Closed(), checked)
            else (this.(live := Some(l.(shown := Some(RevealState(body.value, view.value, checked.value))))), checked)
    }

    static function CheckReveal(l: Live, view: View<Scalar>): Result<NoncePair> {
      if l.commit.None? then Err(WrongStage)
      else if view.receiver != l.attempt || view.session != l.session || view.reservation != l.reservationBytes
        then Err(InvalidTranscript)
      else
        var own :- view.Lookup(l.attempt);
        if own != l.commit.value.commitment then Err(CommitmentMismatch) else Ok(l.commit.value.pair)
    }

    function Fix(attempt: LeafAttempt, deliveries: seq<Delivery<NoncePair>>): (Registry, Result<NoncePair>) {
      var taken := TakeLive(attempt);
      if taken.Err? then (this, Err(taken.error))
      else
        var l := taken.value;
        var view := View.New(l.Support(), deliveries);
        if view.Err? then (Closed(), Err(view.error))
        else
          var body := Auth.ViewBytes(PairField(), view.value);
          if body.Err? then (Closed(), Err(body.error))
          else if l.fixed.Some? then
            if l.fixed.value.body != body.value then (Closed(), Err(ReplayMismatch))
            else (this, Ok(l.fixed.value.nonces.aggregate))
          else
            var nonces := CheckFix(l, view.value);
            if nonces.Err? then (Closed(), Err(nonces.error))
            else (this.(live := Some(l.(fixed := Some(FixedState(body.value, nonces.value))))),
              Ok(nonces.value.aggregate))
    }

    static function CheckFix(l: Live, view: View<NoncePair>): Result<DeviceNonceSet> {
      if l.shown.None? then Err(WrongStage)
      else if view.receiver != l.attempt || view.session != l.session || view.reservation != l.reservationBytes
        then Err(InvalidTranscript)
      else VerifyOpenings(view, l.shown.value.view, l.Support())
    }

    // --- responses and closing

    /** The inputs of a response in the given mode. */
    function Inputs(l: Live, mode: ResponseMode): Result<ResponseInputs> {
      if l.response.mode != mode then Err(ProtocolMismatch)
      else if l.fixed.None? || l.commit.None? then Err(WrongStage)
      else if l.vault !in vaults then Err(EpochMismatch)
      else Ok(ResponseInputs(
        l.commit.value.nonce, l.reservation, l.fixed.value.nonces, device,
        SigningShare(identity, vaults[l.vault].anchor), l.session, l.expiry))
    }

    /** Every call on the live attempt closes it. */
    function RespondWith(attempt: LeafAttempt, mode: ResponseMode,
        respond: (ResponseInputs, bytes) -> Result<DeviceResponse>): (Registry, Result<DeviceResponse>) {
      var taken := TakeLive(attempt);
      if taken.Err? then (this, Err(taken.error))
      else
        var inputs := Inputs(taken.value, mode);
        (Closed(), if inputs.Err? then Err(inputs.error) else respond(inputs.value, taken.value.reservationBytes))
    }

    function Respond(attempt: LeafAttempt, rootBytes: bytes): (Registry, Result<DeviceResponse>) {
      RespondWith(attempt, PlainMode, (inputs: ResponseInputs, body: bytes) => PlainResponse(inputs, rootBytes))
    }

    function Close(attempt: LeafAttempt): (Registry, Result<()>) {
      if IsClosed(attempt) then (this, Err(AttemptClosed))
      else if live.None? then (this, Err(WrongStage))
      else if live.value.attempt != attempt then (this, Err(if attempt.device == device then Busy else AttemptMismatch))
      else (Closed(), Ok(()))
    }

    function ReceiveAbort(abort: AuthenticatedAbort): (Registry, Result<()>) {
      if abort.receiver.device != device then (this, Err(ReceiverMismatch))
      else if live.Some? && live.value.attempt == abort.receiver && live.value.session != abort.session
        then (this, Err(InvalidTranscript))
      else
        var taken := TakeLive(abort.receiver);
        if taken.Err? then (this, Err(taken.error))
        else
          var sender := taken.value.Support().Participant(abort.sender.device);
          (Closed(),
            if sender.Err? then Err(sender.error)
            else Need(taken.value.session == abort.session
              && taken.value.reservationBytes == abort.reservation, InvalidTranscript))
    }

    function CloseExpired(now: U64): (Registry, Option<LeafAttempt>) {
      if live.Some? && live.value.expiry <= now then (Closed(), Some(live.value.attempt)) else (this, None)
    }

    // --- installation

    function CheckMember(m: MemberShare, vaultId: VaultId, identityShare: InstalledShare,
        next: Option<Epoch>): Result<()>
      requires vaultId in vaults
    {
      var vault, anchor, handle := vaults[vaultId], m.epoch.anchor, identityShare.handle;
      if
        || anchor.vault != vaultId || anchor.person != person
        || m.epoch.outer != vault.outerEpoch || m.epoch.inner <= innerEpoch
        || (next.Some? && next.value != m.epoch.inner)
        || anchor.identity != handle || anchor.member != handle || m.share.handle != handle
        || m.share.target != SingleTarget(device) || m.share.shape != identityShare.shape
        || !m.share.points.OnePolynomial?
        then Err(EpochMismatch)
      else
        var constant :- m.share.points.Constant();
        Need(constant == vault.memberPoint, EpochMismatch)
    }

    /** The inner epoch that all members agree on, checked vault by vault. */
    function CheckMembers(members: seq<MemberShare>, order: seq<VaultId>,
        identityShare: InstalledShare): Result<Option<Epoch>>
      requires |members| == |order| && forall v :: v in order ==> v in vaults
    {
      if members == [] then Ok(None)
      else
        var n := |members| - 1;
        var next :- CheckMembers(members[..n], order[..n], identityShare);
        var _ :- CheckMember(members[n], order[n], identityShare, next);
        Ok(Some(members[n].epoch.inner))
    }

    static function NextMaps(members: seq<MemberShare>, shape: SingleShape): (r: Result<seq<MemberMap>>)
      ensures r.Ok? ==> |r.value| == |members|
    {
      if members == [] then Ok([])
      else
        var n := |members| - 1;
        var front :- NextMaps(members[..n], shape);
        var m :- MemberMapOf(shape, members[n].share.points);
        Ok(front + [m])
    }

    /** The vaults with the new anchors, handles and maps, in vault order. */
    static function InstallMembers(
      vaults: map<VaultId, VaultState>, order: seq<VaultId>, members: seq<MemberShare>, maps: seq<MemberMap>,
      identity: Scalar, handle: Handle): map<VaultId, VaultState>
      requires |order| == |members| == |maps| && forall v :: v in order ==> v in vaults
    {
      map v | v in vaults ::
        var i := Find(order, VaultKey, v);
        if i.None? then vaults[v]
        else vaults[v].(
          anchor := AnchorShare(members[i.value].share.share, identity),
          memberHandle := handle,
          memberMap := maps[i.value])
    }

    /** The checks of an inner activation: the new identity map and epoch, and the
      * members in vault order with their maps.
      */
    function CheckInner(identityShare: InstalledShare,
        members: seq<MemberShare>): Result<(IdentityMap, Epoch, seq<MemberShare>, seq<MemberMap>)> {
      var sorted := Sort(members, MemberVaultKey);
      var handle := identityShare.handle;
      if !identityShare.shape.OneSharing? then Err(SupportMismatch)
      else
        var shape := identityShare.shape.single;
        var nextMap :- IdentityMapOf(shape, identityShare.points);
        var own :- shape.Device(device);
        if
          || |members| != |vaults| || handle == identityHandle
          || (exists v :: v in vaults && vaults[v].memberHandle == handle)
          || identityShare.target != SingleTarget(device) || own.node != node
          then Err(EpochMismatch)
        else
          var constant :- identityShare.points.Constant();
          if constant != identityKey then Err(EpochMismatch)
          else
            var next :- CheckMembers(sorted, VaultOrder(), identityShare);
            if next.None? then Err(EmptyInput)
            else
              var maps :- NextMaps(sorted, shape);
              Ok((nextMap, next.value, sorted, maps))
    }

    function ActivateInnerBundle(identityShare: InstalledShare, members: seq<MemberShare>): (Registry, Result<()>) {
      var checked := CheckInner(identityShare, members);
      if checked.Err? then (this, Err(checked.error))
      else
        var (nextMap, next, sorted, maps) := checked.value;
        InnerLengths(this, identityShare, members);
        (this.(
          live := None, identity := identityShare.share, identityMap := nextMap, innerEpoch := next,
          identityHandle := identityShare.handle,
          vaults := InstallMembers(vaults, VaultOrder(), sorted, maps, identityShare.share, identityShare.handle)),
            Ok(()))
    }

    function ActivateInner(epoch: KeyEpoch, identityShare: InstalledShare,
        member: InstalledShare): (Registry, Result<()>) {
      ActivateInnerBundle(identityShare, [MemberShare(epoch, member)])
    }

    /** The checks of an outer activation: the vault's next state. */
    function CheckOuter(epoch: KeyEpoch, member: InstalledShare): Result<VaultState> {
      var anchor := epoch.anchor;
      if !member.target.MemberTarget? then Err(ParticipantMismatch)
      else if anchor.vault !in vaults then Err(EpochMismatch)
      else if !member.shape.TwoTier? then Err(SupportMismatch)
      else
        var vault, shape := vaults[anchor.vault], member.shape.outer;
        var target :- shape.Person(member.target.person);
        if
          || anchor.person != person || member.target.person != person || member.target.device != device
          || target.node != vault.outerNode || !SameRoster(identityMap, target.inner)
          || epoch.outer <= vault.outerEpoch || epoch.inner != innerEpoch
          || anchor.identity != identityHandle || anchor.member != member.handle
          || member.handle == vault.memberHandle
          then Err(EpochMismatch)
        else
          var constant :- member.points.Constant();
          if constant != vault.vaultKey then Err(EpochMismatch)
          else
            var point :- member.points.MemberConstant(person);
            if point == IDENTITY then Err(IdentityPoint)
            else
              var maps :- OuterMapsOf(shape, member.points, person);
              Ok(vault.(
                outerEpoch := epoch.outer, memberHandle := anchor.member, memberPoint := point,
                anchor := AnchorShare(member.share, identity), memberMap := maps.1, outerMap := maps.0))
    }

    function ActivateOuter(epoch: KeyEpoch, member: InstalledShare): (Registry, Result<()>) {
      var checked := CheckOuter(epoch, member);
      if checked.Err? then (this, Err(checked.error))
      else
        var vault := epoch.anchor.vault;
        var kept := if live.Some? && live.value.vault == vault then None else live;
        (this.(live := kept, vaults := vaults[vault := checked.value]), Ok(()))
    }
  }

  /** A plain response from canonical root bytes. */
  function PlainResponse(inputs: ResponseInputs, rootBytes: bytes): Result<DeviceResponse> {
    var root :- PackageFormat().decode(rootBytes);
    var again :- PackageBytes(root);
    if again != rootBytes then Err(InvalidTranscript)
    else
      var t :- MemberTranscript.Finalize(root, inputs.reservation);
      var ctx :- SigningContext.New(t.root);
      RespondDevice(inputs.nonce, t, ctx, inputs.nonces, inputs.device, inputs.share)
  }

  lemma {:induction false} InnerLengths(r: Registry, identityShare: InstalledShare, members: seq<MemberShare>)
    ensures r.CheckInner(identityShare, members).Ok? ==>
      var t := r.CheckInner(identityShare, members).value;
      |t.2| == |t.3| == |r.VaultOrder()| && (forall v :: v in r.VaultOrder() ==> v in r.vaults)
  {
    hide Sort, IdentityMapOf, Registry.CheckMembers, Registry.VaultOrder;
  }
}

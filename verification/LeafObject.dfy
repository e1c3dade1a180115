/** The registry as the object that the calls update in place (src/leaf.rs). */
module LeafObject {
  import opened Results
  import opened Field
  import opened Sorting
  import opened Algebra
  import opened Shamir
  import opened Support
  import opened Genesis
  import opened Ids
  import opened Encoding
  import opened Transcript
  import opened Signing
  import opened Auth
  import opened Shape
  import opened Contribution
  import opened Target
  import opened Leaf

  class LeafRegistry {
    var device: DeviceId
    var person: PersonId
    var node: Node
    var identityMap: IdentityMap
    var identityKey: Point
    var identity: Scalar
    var innerEpoch: Epoch
    var identityHandle: Handle
    var vaults: map<VaultId, VaultState>
    var live: Option<Live>
    var nextSequence: U64

    function State(): Registry
      reads this
    {
      Registry(device, person, node, identityMap, identityKey, identity, innerEpoch, identityHandle, vaults, live,
        nextSequence)
    }

    constructor (start: Registry)
      ensures State() == start
    {
      device, person, node, identityMap := start.device, start.person, start.node, start.identityMap;
      identityKey, identity, innerEpoch := start.identityKey, start.identity, start.innerEpoch;
      identityHandle, vaults, live, nextSequence := start.identityHandle, start.vaults, start.live, start.nextSequence;
    }

    method AddVault(d: DeviceGenesis, epoch: KeyEpoch) returns (r: Result<()>)
      modifies this`vaults
      ensures (State(), r) == old(State()).AddVault(d, epoch)
    {
      if live.Some? { return Err(Busy); }
      r := Registry.CheckGenesisEpoch(d, epoch);
      if r.Err? { return; }
      if
        || d.device != device || d.person != person || d.node != node
        || d.identityMap != identityMap || d.identityKey != identityKey
        || FromScalar(d.identity) != FromScalar(identity)
        || epoch.inner != innerEpoch || epoch.anchor.identity != identityHandle || d.vault in vaults
      {
        return Err(EpochMismatch);
      }
      vaults := vaults[d.vault := Registry.VaultFrom(d, epoch)];
      return Ok(());
    }

    /** The row-by-row check of an inner support. */
    method CheckInnerSupport(vault: VaultState, support: InnerSupport) returns (r: Result<()>)
      ensures r == State().CheckInnerSupport(vault, support)
    {
      hide EvaluatePoints, Find, InnerSupport.Coefficient, Plus, Times;
      var ps := support.participants;
      if |ps| != |vault.memberMap.commitments| { return Err(SupportMismatch); }
      var reconstructed: Element := IDENTITY;
      for k := 0 to |ps|
        invariant State().InnerRows(vault, support, ps[..k]) == Ok(reconstructed)
      {
        var p := ps[k];
        assert ps[..k + 1][..k] == ps[..k];
        var failed: Option<Error> := None;
        var i := Find(identityMap.devices, IdentityKeyOf, p.device);
        var coefficient := support.Coefficient(p.device);
        if i.None? {
          failed := Some(ParticipantNotFound);
        } else if p.node != identityMap.devices[i.value].node
            || p.share != EvaluatePoints(vault.memberMap.commitments, identityMap.devices[i.value].node) {
          failed := Some(ShareMismatch);
        } else if coefficient.Err? {
          failed := Some(coefficient.error);
        }
        if failed.Some? {
          InnerFailureStays(State(), vault, support, ps, k + 1);
          return Err(failed.value);
        }
        reconstructed := Plus(reconstructed, Times(p.share, coefficient.value));
      }
      assert ps[..|ps|] == ps;
      return Need(reconstructed == vault.memberPoint, ShareMismatch);
    }

    /** The row-by-row check of an outer support. */
    static method CheckOuterSupport(vault: VaultState, support: OuterSupport) returns (r: Result<()>)
      ensures r == Registry.CheckOuterSupport(vault, support)
    {
      hide EvaluatePoints, Find, OuterSupport.Coefficient, Plus, Times;
      var ps := support.participants;
      if |ps| != |vault.outerMap.commitments| { return Err(SupportMismatch); }
      var reconstructed: Element := IDENTITY;
      for k := 0 to |ps|
        invariant Registry.OuterRows(vault, support, ps[..k]) == Ok(reconstructed)
      {
        var p := ps[k];
        assert ps[..k + 1][..k] == ps[..k];
        var failed: Option<Error> := None;
        var i := Find(vault.outerMap.people, OuterPersonKey, p.person);
        var coefficient := support.Coefficient(p.person);
        if k + 1 >= U16_LIMIT {
          failed := Some(LengthOverflow);
        } else if i.None? {
          failed := Some(ParticipantNotFound);
        } else if p.slot != k + 1 || p.node != vault.outerMap.people[i.value].node
          || p.member != vault.outerMap.people[i.value].member
            || vault.outerMap.people[i.value].member != EvaluatePoints(vault.outerMap.commitments,
              vault.outerMap.people[i.value].node) {
          failed := Some(ShareMismatch);
        } else if coefficient.Err? {
          failed := Some(coefficient.error);
        }
        if failed.Some? {
          OuterFailureStays(vault, support, ps, k + 1);
          return Err(failed.value);
        }
        reconstructed := Plus(reconstructed, Times(p.member, coefficient.value.scalar));
      }
      assert ps[..|ps|] == ps;
      return Need(reconstructed == vault.vaultKey, ShareMismatch);
    }

    method ValidateReservation(m: MemberReservation, os: OuterSupport) returns (r: Result<VaultId>)
      ensures r == State().ValidateReservation(m, os)
    {
      hide Registry.CheckInnerSupport, Registry.CheckOuterSupport, InnerSupport.Participant, SigningShare;
      var body := m.Body();
      var vaultId := body.epoch.anchor.vault;
      if vaultId !in vaults { return Err(EpochMismatch); }
      var vault := vaults[vaultId];
      if body.epoch != State().EpochOf(vaultId).value { return Err(EpochMismatch); }
      if body.identity != identityKey || body.member != vault.memberPoint || m.prepackage.head.key != vault.vaultKey {
        return Err(InvalidTranscript);
      }
      var inner := CheckInnerSupport(vault, body.inner);
      if inner.Err? { return Err(inner.error); }
      var outer := CheckOuterSupport(vault, os);
      if outer.Err? { return Err(outer.error); }
      var p := body.inner.Participant(device);
      if p.Err? { return Err(p.error); }
      if p.value.node != node { return Err(ParticipantMismatch); }
      if FromScalar(SigningShare(identity, vault.anchor)) != p.value.share { return Err(ShareMismatch); }
      return Ok(vaultId);
    }

    method IssueAttempt() returns (r: Result<LeafAttempt>)
      modifies this`nextSequence
      ensures r == old(State()).IssueAttempt()
      ensures nextSequence == if r.Ok? then old(nextSequence) + 1 else old(nextSequence)
    {
      var sequence := nextSequence;
      if sequence + 1 >= U64_LIMIT { return Err(AttemptExhausted); }
      nextSequence := sequence + 1;
      return Ok(LeafAttempt(device, sequence));
    }

    method ReserveWith(session: SessionId, now: U64, body: bytes, response: ResponseBinding, os: OuterSupport,
        parsed: Result<SealedReservation>)
      returns (r: Result<LeafAttempt>)
      modifies this`live, this`nextSequence
      ensures (State(), r) == old(State()).ReserveWith(session, now, body, response, os, parsed)
    {
      hide Registry.ValidateReservation;
      if live.Some? {
        if live.value.session != session { return Err(Busy); }
        if live.value.reservationBytes == body && live.value.response == response { return Ok(live.value.attempt); }
        live := None;
        return Err(ReplayMismatch);
      }
      if parsed.Err? { return Err(parsed.error); }
      if parsed.value.session != session { return Err(InvalidTranscript); }
      if parsed.value.expiry <= now { return Err(Expired); }
      var vault := ValidateReservation(parsed.value.reservation, os);
      if vault.Err? { return Err(vault.error); }
      r := IssueAttempt();
      if r.Err? { return; }
      live := Some(Live(
        r.value, session, vault.value, parsed.value.expiry, body, response, parsed.value.reservation, None, None,
          None));
    }

    /** Takes the live attempt out of the registry, or leaves the registry alone. */
    method TakeLive(attempt: LeafAttempt) returns (r: Result<Live>)
      modifies this`live
      ensures r == old(State()).TakeLive(attempt)
      ensures live == if r.Ok? then None else old(live)
    {
      if State().IsClosed(attempt) { return Err(AttemptClosed); }
      if live.None? { return Err(WrongStage); }
      var taken := live.value;
      live := None;
      if taken.attempt == attempt { return Ok(taken); }
      live := Some(taken);
      return Err(if attempt.device == device then Busy else AttemptMismatch);
    }

    method Commit(attempt: LeafAttempt, body: bytes, nonce: Nonce) returns (r: Result<Scalar>)
      modifies this`live
      ensures (State(), r) == old(State()).Commit(attempt, body, nonce)
    {
      hide NonceCommitment, Registry.IsClosed;
      var taken := TakeLive(attempt);
      if taken.Err? { return Err(taken.error); }
      var l := taken.value;
      if l.reservationBytes != body { return Err(ReplayMismatch); }
      if l.commit.Some? {
        live := Some(l);
        return Ok(l.commit.value.commitment);
      }
      var pair := nonce.Commitments();
      r := NonceCommitment(attempt, body, pair);
      if r.Err? { return; }
      live := Some(l.(commit := Some(CommitState(nonce, pair, r.value))));
    }

    method Reveal(attempt: LeafAttempt, deliveries: seq<Delivery<Scalar>>) returns (r: Result<NoncePair>)
      modifies this`live
      ensures (State(), r) == old(State()).Reveal(attempt, deliveries)
    {
      hide View.New, Auth.ViewBytes, Registry.IsClosed, Registry.CheckReveal;
      var taken := TakeLive(attempt);
      if taken.Err? { return Err(taken.error); }
      var l := taken.value;
      var view := View.New(l.Support(), deliveries);
      if view.Err? { return Err(view.error); }
      var body := Auth.ViewBytes(ScalarField(), view.value);
      if body.Err? { return Err(body.error); }
      if l.shown.Some? {
        if l.shown.value.body != body.value { return Err(ReplayMismatch); }
        live := Some(l);
        return Ok(l.shown.value.viewedPair);
      }
      r := Registry.CheckReveal(l, view.value);
      if r.Err? { return; }
      live := Some(l.(shown := Some(RevealState(body.value, view.value, r.value))));
    }

    method Fix(attempt: LeafAttempt, deliveries: seq<Delivery<NoncePair>>) returns (r: Result<NoncePair>)
      modifies this`live
      ensures (State(), r) == old(State()).Fix(attempt, deliveries)
    {
      hide View.New, Auth.ViewBytes, Registry.IsClosed, Registry.CheckFix;
      var taken := TakeLive(attempt);
      if taken.Err? { return Err(taken.error); }
      var l := taken.value;
      var view := View.New(l.Support(), deliveries);
      if view.Err? { return Err(view.error); }
      var body := Auth.ViewBytes(PairField(), view.value);
      if body.Err? { return Err(body.error); }
      if l.fixed.Some? {
        if l.fixed.value.body != body.value { return Err(ReplayMismatch); }
        live := Some(l);
        return Ok(l.fixed.value.nonces.aggregate);
      }
      var nonces := Registry.CheckFix(l, view.value);
      if nonces.Err? { return Err(nonces.error); }
      live := Some(l.(fixed := Some(FixedState(body.value, nonces.value))));
      return Ok(nonces.value.aggregate);
    }

    method RespondWith(attempt: LeafAttempt, mode: ResponseMode,
        respond: (ResponseInputs, bytes) -> Result<DeviceResponse>) returns (r: Result<DeviceResponse>)
      modifies this`live
      ensures (State(), r) == old(State()).RespondWith(attempt, mode, respond)
    {
      hide Registry.IsClosed, SigningShare;
      var taken := TakeLive(attempt);
      if taken.Err? { return Err(taken.error); }
      var l := taken.value;
      if l.response.mode != mode { return Err(ProtocolMismatch); }
      if l.fixed.None? || l.commit.None? { return Err(WrongStage); }
      if l.vault !in vaults { return Err(EpochMismatch); }
      var share := SigningShare(identity, vaults[l.vault].anchor);
      var inputs := ResponseInputs(l.commit.value.nonce, l.reservation, l.fixed.value.nonces, device, share,
        l.session, l.expiry);
      return respond(inputs, l.reservationBytes);
    }

    method Close(attempt: LeafAttempt) returns (r: Result<()>)
      modifies this`live
      ensures (State(), r) == old(State()).Close(attempt)
    {
      if State().IsClosed(attempt) { return Err(AttemptClosed); }
      if live.None? { return Err(WrongStage); }
      if live.value.attempt != attempt { return Err(if attempt.device == device then Busy else AttemptMismatch); }
      live := None;
      return Ok(());
    }

    method ReceiveAbort(abort: AuthenticatedAbort) returns (r: Result<()>)
      modifies this`live
      ensures (State(), r) == old(State()).ReceiveAbort(abort)
    {
      hide Registry.IsClosed, InnerSupport.Participant;
      if abort.receiver.device != device { return Err(ReceiverMismatch); }
      if live.Some? && live.value.attempt == abort.receiver && live.value.session != abort.session {
        return Err(InvalidTranscript);
      }
      var taken := TakeLive(abort.receiver);
      if taken.Err? { return Err(taken.error); }
      var sender := taken.value.Support().Participant(abort.sender.device);
      if sender.Err? { return Err(sender.error); }
      return Need(taken.value.session == abort.session
        && taken.value.reservationBytes == abort.reservation, InvalidTranscript);
    }

    method CloseExpired(now: U64) returns (r: Option<LeafAttempt>)
      modifies this`live
      ensures (State(), r) == old(State()).CloseExpired(now)
    {
      if live.None? || live.value.expiry > now { return None; }
      r := Some(live.value.attempt);
      live := None;
    }

    /** The member checks of an inner activation, in vault order. */
    method CheckMembers(members: seq<MemberShare>, order: seq<VaultId>,
        identityShare: InstalledShare) returns (r: Result<Option<Epoch>>)
      requires |members| == |order| && forall v :: v in order ==> v in vaults
      ensures r == State().CheckMembers(members, order, identityShare)
    {
      hide Registry.CheckMember;
      var next: Option<Epoch> := None;
      for i := 0 to |members|
        invariant State().CheckMembers(members[..i], order[..i], identityShare) == Ok(next)
      {
        assert members[..i + 1][..i] == members[..i] && order[..i + 1][..i] == order[..i];
        var checked := State().CheckMember(members[i], order[i], identityShare, next);
        if checked.Err? {
          ShareFailureStays(State(), members, order, identityShare, i + 1);
          return Err(checked.error);
        }
        next := Some(members[i].epoch.inner);
      }
      assert members[..|members|] == members && order[..|members|] == order;
      return Ok(next);
    }

    /** Every vault's new anchor and member map, in vault order. */
    method NextAnchors(members: seq<MemberShare>, shape: SingleShape,
        identity: Scalar) returns (r: Result<seq<(Scalar, MemberMap)>>)
      ensures r.Err? ==> Registry.NextMaps(members, shape) == Err(r.error)
      ensures r.Ok? ==>
        && Registry.NextMaps(members, shape).Ok?
        && r.value == Anchored(members, Registry.NextMaps(members, shape).value, identity)
    {
      hide MemberMapOf, AnchorShare;
      var anchors: seq<(Scalar, MemberMap)> := [];
      for i := 0 to |members|
        invariant Registry.NextMaps(members[..i], shape).Ok?
        invariant anchors == Anchored(members[..i], Registry.NextMaps(members[..i], shape).value, identity)
      {
        assert members[..i + 1][..i] == members[..i];
        var m := MemberMapOf(shape, members[i].share.points);
        if m.Err? {
          MapFailureStays(members, shape, i + 1);
          return Err(m.error);
        }
        anchors := anchors + [(AnchorShare(members[i].share.share, identity), m.value)];
      }
      assert members[..|members|] == members;
      return Ok(anchors);
    }

    /** Everything an inner activation can refuse. */
    method CheckInner(identityShare: InstalledShare,
        members: seq<MemberShare>) returns (r: Result<(IdentityMap, Epoch, seq<(Scalar, MemberMap)>)>)
      ensures r.Err? ==> State().CheckInner(identityShare, members) == Err(r.error)
      ensures r.Ok? ==>
        && State().CheckInner(identityShare, members).Ok?
        && var t := State().CheckInner(identityShare, members).value;
        |t.2| == |t.3| && r.value == (t.0, t.1, Anchored(t.2, t.3, identityShare.share))
    {
      hide IdentityMapOf, Registry.CheckMembers, Registry.NextMaps, Sort, Registry.VaultOrder, SingleShape.Device,
        ContributionPoints.Constant, Anchored;
      var sorted, handle := Sort(members, MemberVaultKey), identityShare.handle;
      if !identityShare.shape.OneSharing? { return Err(SupportMismatch); }
      var shape := identityShare.shape.single;
      var nextMap := IdentityMapOf(shape, identityShare.points);
      if nextMap.Err? { return Err(nextMap.error); }
      var own := shape.Device(device);
      if own.Err? { return Err(own.error); }
      if
        || |members| != |vaults| || handle == identityHandle
        || (exists v :: v in vaults && vaults[v].memberHandle == handle)
        || identityShare.target != SingleTarget(device) || own.value.node != node
      {
        return Err(EpochMismatch);
      }
      var constant := identityShare.points.Constant();
      if constant.Err? { return Err(constant.error); }
      if constant.value != identityKey { return Err(EpochMismatch); }
      var next := CheckMembers(sorted, State().VaultOrder(), identityShare);
      if next.Err? { return Err(next.error); }
      if next.value.None? { return Err(EmptyInput); }
      var anchors := NextAnchors(sorted, shape, identityShare.share);
      if anchors.Err? { return Err(anchors.error); }
      return Ok((nextMap.value, next.value.value, anchors.value));
    }

    /** The installing loop: every vault's anchor, handle and map. */
    method InstallVaults(order: seq<VaultId>, anchors: seq<(Scalar, MemberMap)>, handle: Handle)
      requires |order| == |anchors| && StrictlySorted(order, VaultKey) && forall v :: v in order ==> v in vaults
      modifies this`vaults
      ensures vaults == Reanchored(old(vaults), order, anchors, handle)
    {
      hide StrictlySorted;
      ghost var before := vaults;
      for i := 0 to |order|
        invariant vaults == Reanchored(before, order[..i], anchors[..i], handle)
      {
        ReanchorStep(before, order, anchors, handle, i);
        vaults := vaults[order[i] := vaults[order[i]].(
          anchor := anchors[i].0, memberHandle := handle, memberMap := anchors[i].1)];
      }
      assert order[..|order|] == order && anchors[..|order|] == anchors;
    }

    /** Installs one identity block and every vault's member block, or nothing. */
    method ActivateInnerBundle(identityShare: InstalledShare, members: seq<MemberShare>) returns (r: Result<()>)
      modifies this
      ensures (State(), r) == old(State()).ActivateInnerBundle(identityShare, members)
    {
      hide Registry.CheckInner, Registry.InstallMembers, Registry.VaultOrder, Reanchored, Anchored;
      var checked := CheckInner(identityShare, members);
      if checked.Err? { return Err(checked.error); }
      InnerLengths(State(), identityShare, members);
      ghost var t := State().CheckInner(identityShare, members).value;
      var order := State().VaultOrder();
      AnchoredInstalls(vaults, order, t.2, t.3, identityShare.share, identityShare.handle);
      live, identity, identityMap := None, identityShare.share, checked.value.0;
      innerEpoch, identityHandle := checked.value.1, identityShare.handle;
      InstallVaults(order, checked.value.2, identityShare.handle);
      return Ok(());
    }

    /** Installs one member block from an outer redistribution, or nothing. */
    method ActivateOuter(epoch: KeyEpoch, member: InstalledShare) returns (r: Result<()>)
      modifies this`live, this`vaults
      ensures (State(), r) == old(State()).ActivateOuter(epoch, member)
    {
      hide Registry.CheckOuter;
      var next := State().CheckOuter(epoch, member);
      if next.Err? { return Err(next.error); }
      var vault := epoch.anchor.vault;
      if live.Some? && live.value.vault == vault { live := None; }
      vaults := vaults[vault := next.value];
      return Ok(());
    }
  }

  /** The anchors and maps of the members' shares. */
  function Anchored(members: seq<MemberShare>, maps: seq<MemberMap>, identity: Scalar): (r: seq<(Scalar, MemberMap)>)
    requires |members| == |maps|
    ensures |r| == |members|
  {
    seq(|members|, i requires 0 <= i < |members| => (AnchorShare(members[i].share.share, identity), maps[i]))
  }

  /** The vaults of `order` with their new anchors, maps and handle. */
  function Reanchored(vaults: map<VaultId, VaultState>, order: seq<VaultId>, anchors: seq<(Scalar, MemberMap)>,
      handle: Handle): map<VaultId, VaultState>
    requires |order| == |anchors|
  {
    map v | v in vaults ::
      var i := Find(order, VaultKey, v);
      if i.None? then vaults[v]
      else vaults[v].(anchor := anchors[i.value].0, memberHandle := handle, memberMap := anchors[i.value].1)
  }

  lemma {:induction false} AnchoredInstalls(vaults: map<VaultId, VaultState>, order: seq<VaultId>,
      members: seq<MemberShare>, maps: seq<MemberMap>, identity: Scalar, handle: Handle)
    requires |order| == |members| == |maps| && forall v :: v in order ==> v in vaults
    ensures Reanchored(vaults, order, Anchored(members, maps, identity), handle) ==
      Registry.InstallMembers(vaults, order, members, maps, identity, handle)
  {
    hide Find, AnchorShare;
  }

  lemma {:induction false} ReanchorStep(vaults: map<VaultId, VaultState>, order: seq<VaultId>,
      anchors: seq<(Scalar, MemberMap)>, handle: Handle, i: nat)
    requires |order| == |anchors| && StrictlySorted(order, VaultKey) && (forall v :: v in order ==> v in vaults)
    requires i < |order|
    ensures var front := Reanchored(vaults, order[..i], anchors[..i], handle);
      && order[i] in front
      && Reanchored(vaults, order[..i + 1], anchors[..i + 1], handle) == front[order[i] := front[order[i]].(
        anchor := anchors[i].0, memberHandle := handle, memberMap := anchors[i].1)]
  {
    hide Find;
    forall v | v in vaults ensures
      Find(order[..i + 1], VaultKey, v) == if v == order[i] then Some(i) else Find(order[..i], VaultKey, v)
    {
      FindGrows(order, v, i);
    }
    assert order[i] in order;
  }

  lemma {:induction false} FindGrows(order: seq<VaultId>, v: VaultId, i: nat)
    requires StrictlySorted(order, VaultKey) && i < |order|
    ensures Find(order[..i + 1], VaultKey, v) == if v == order[i] then Some(i) else Find(order[..i], VaultKey, v)
  {
    hide Find;
    var last := order[..i + 1];
    if v == order[i] {
      FindAt(last, VaultKey, i);
    } else {
      var found := Find(order[..i], VaultKey, v);
      if found.Some? { FindAt(last, VaultKey, found.value); }
    }
  }

  lemma {:induction false} MapFailureStays(members: seq<MemberShare>, shape: SingleShape, n: nat)
    requires n <= |members| && Registry.NextMaps(members[..n], shape).Err?
    ensures Registry.NextMaps(members, shape) == Registry.NextMaps(members[..n], shape)
  {
    hide MemberMapOf;
    if n < |members| {
      var m := |members| - 1;
      assert members[..m][..n] == members[..n];
      MapFailureStays(members[..m], shape, n);
    } else {
      assert members[..n] == members;
    }
  }

  lemma {:induction false} InnerFailureStays(r: Registry, vault: VaultState, support: InnerSupport,
      ps: seq<DeviceParticipant>, n: nat)
    requires n <= |ps| && r.InnerRows(vault, support, ps[..n]).Err?
    ensures r.InnerRows(vault, support, ps) == r.InnerRows(vault, support, ps[..n])
  {
    hide EvaluatePoints, Find, InnerSupport.Coefficient, Plus, Times;
    if n < |ps| {
      var m := |ps| - 1;
      assert ps[..m][..n] == ps[..n];
      InnerFailureStays(r, vault, support, ps[..m], n);
    } else {
      assert ps[..n] == ps;
    }
  }

  lemma {:induction false} OuterFailureStays(vault: VaultState, support: OuterSupport, ps: seq<PersonParticipant>,
      n: nat)
    requires n <= |ps| && Registry.OuterRows(vault, support, ps[..n]).Err?
    ensures Registry.OuterRows(vault, support, ps) == Registry.OuterRows(vault, support, ps[..n])
  {
    hide EvaluatePoints, Find, OuterSupport.Coefficient, Plus, Times;
    if n < |ps| {
      var m := |ps| - 1;
      assert ps[..m][..n] == ps[..n];
      OuterFailureStays(vault, support, ps[..m], n);
    } else {
      assert ps[..n] == ps;
    }
  }

  lemma {:induction false} ShareFailureStays(r: Registry, members: seq<MemberShare>, order: seq<VaultId>,
      identityShare: InstalledShare, n: nat)
    requires |members| == |order| && (forall v :: v in order ==> v in r.vaults) && n <= |members|
    requires r.CheckMembers(members[..n], order[..n], identityShare).Err?
    ensures r.CheckMembers(members, order, identityShare) == r.CheckMembers(members[..n], order[..n], identityShare)
  {
    hide Registry.CheckMember;
    if n < |members| {
      var m := |members| - 1;
      assert members[..m][..n] == members[..n] && order[..m][..n] == order[..n];
      ShareFailureStays(r, members[..m], order[..m], identityShare, n);
    } else {
      assert members[..n] == members && order[..n] == order;
    }
  }
}

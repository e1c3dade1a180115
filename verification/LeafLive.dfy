/** What every reachable registry keeps about its live attempt (src/leaf.rs). */
module LeafLive {
  import opened Results
  import opened Field
  import opened Sums
  import opened Sorting
  import opened Algebra
  import opened Shamir
  import opened Support
  import opened Genesis
  import opened Ids
  import opened Encoding
  import opened Hashes
  import opened Transcript
  import opened Signing
  import opened Auth
  import opened Target
  import opened Leaf
  import opened Material
  import opened LeafInvariant

  // ----- the row checks already decide the support checks

  lemma {:induction false} InnerRowsAgree(r: Registry, vault: VaultState, support: InnerSupport, n: nat)
    requires support.Valid() && n <= |support.participants|
    requires r.InnerRows(vault, support, support.participants[..n]).Ok?
    ensures forall i :: 0 <= i < n ==>
      support.participants[i].share == EvaluatePoints(vault.memberMap.commitments, support.participants[i].node)
    ensures r.InnerRows(vault, support, support.participants[..n]).value
      == Element(Dot(support.coefficients[..n], Logs(Shares(support.participants))[..n]))
  {
    hide EvaluatePoints, Add, Mul, Weight;
    if n > 0 {
      var ps, ws, ls := support.participants, support.coefficients, Logs(Shares(support.participants));
      assert ps[..n][..n - 1] == ps[..n - 1];
      InnerRowsAgree(r, vault, support, n - 1);
      FindAt(ps, DeviceKey, n - 1);
      assert ws[..n][..n - 1] == ws[..n - 1] && ls[..n][..n - 1] == ls[..n - 1];
      MulComm(ws[n - 1], ls[n - 1]);
    }
  }

  /** The final reconstruction check of the inner support never decides: once every
    * row is right, the shares recombine to the member point.
    */
  lemma {:induction false} InnerCheckIsRows(r: Registry, vault: VaultState, support: InnerSupport)
    requires VaultFits(r, vault) && support.Valid()
    ensures r.CheckInnerSupport(vault, support).Ok? <==>
      && |support.participants| == |vault.memberMap.commitments|
      && r.InnerRows(vault, support, support.participants).Ok?
  {
    hide EvaluatePoints, Add, Mul, Weight, Registry.InnerRows, PeopleFit, SigningShare;
    var ps := support.participants;
    if |ps| == |vault.memberMap.commitments| && r.InnerRows(vault, support, ps).Ok? {
      assert ps[..|ps|] == ps && support.coefficients[..|ps|] == support.coefficients;
      assert Logs(Shares(ps))[..|ps|] == Logs(Shares(ps));
      InnerRowsAgree(r, vault, support, |ps|);
      InnerReconstructs(support, vault.memberMap.commitments);
    }
  }

  lemma {:induction false} OuterRowsAgree(vault: VaultState, support: OuterSupport, n: nat)
    requires support.Valid() && n <= |support.participants|
    requires Registry.OuterRows(vault, support, support.participants[..n]).Ok?
    ensures forall i :: 0 <= i < n ==>
      support.participants[i].member == EvaluatePoints(vault.outerMap.commitments, support.participants[i].node)
    ensures Registry.OuterRows(vault, support, support.participants[..n]).value
      == Element(Dot(support.coefficients[..n], Logs(Members(support.participants))[..n]))
  {
    hide EvaluatePoints, Add, Mul, Weight;
    if n > 0 {
      var ps, ws, ls := support.participants, support.coefficients, Logs(Members(support.participants));
      assert ps[..n][..n - 1] == ps[..n - 1];
      OuterRowsAgree(vault, support, n - 1);
      FindAt(ps, PersonKey, n - 1);
      assert ws[..n][..n - 1] == ws[..n - 1] && ls[..n][..n - 1] == ls[..n - 1];
      MulComm(ws[n - 1], ls[n - 1]);
    }
  }

  /** The same for the outer support and the vault key. */
  lemma {:induction false} OuterCheckIsRows(r: Registry, vault: VaultState, support: OuterSupport)
    requires VaultFits(r, vault) && support.Valid()
    ensures Registry.CheckOuterSupport(vault, support).Ok? <==>
      && |support.participants| == |vault.outerMap.commitments|
      && Registry.OuterRows(vault, support, support.participants).Ok?
  {
    hide EvaluatePoints, Add, Mul, Weight, Registry.OuterRows, PeopleFit, SigningShare;
    var ps := support.participants;
    if |ps| == |vault.outerMap.commitments| && Registry.OuterRows(vault, support, ps).Ok? {
      assert ps[..|ps|] == ps && support.coefficients[..|ps|] == support.coefficients;
      assert Logs(Members(ps))[..|ps|] == Logs(Members(ps));
      OuterRowsAgree(vault, support, |ps|);
      OuterReconstructs(support, vault.outerMap.commitments);
    }
  }

  // ----- the live attempt

  ghost predicate CommitHolds(l: Live) {
    l.commit.Some? ==>
      && l.commit.value.pair == l.commit.value.nonce.Commitments()
      && NonceCommitment(l.attempt, l.reservationBytes, l.commit.value.pair) == Ok(l.commit.value.commitment)
  }

  /** The revealed pair is the committed one, and the fixed view covers the support
    * with this attempt's own commitment in it.
    */
  ghost predicate RevealHolds(l: Live) {
    l.shown.Some? ==>
      && l.commit.Some? && l.shown.value.viewedPair == l.commit.value.pair
      && var v := l.shown.value.view;
      && v.Covers(l.Support()) && v.receiver == l.attempt && v.session == l.session
        && v.reservation == l.reservationBytes
      && v.Lookup(l.attempt) == Ok(l.commit.value.commitment)
      && Auth.ViewBytes(ScalarField(), v) == Ok(l.shown.value.body)
  }

  /** Every fixed nonce opens the commitment that the reveal fixed for its attempt. */
  ghost predicate FixHolds(l: Live) {
    l.fixed.Some? ==>
      && l.shown.Some?
      && l.fixed.value.nonces.Valid(l.Support())
      && forall e :: e in l.fixed.value.nonces.entries ==>
        && l.shown.value.view.Lookup(e.attempt).Ok?
        && NonceCommitment(e.attempt, l.reservationBytes, e.nonce) == l.shown.value.view.Lookup(e.attempt)
  }

  /** The reservation still passes against the installed state, on some outer support. */
  ghost predicate ReservationHolds(r: Registry, l: Live) {
    && l.Support().Valid()
    && exists os: OuterSupport :: r.ValidateReservation(l.reservation, os) == Ok(l.vault)
  }

  ghost predicate LiveHolds(r: Registry, l: Live) {
    && l.attempt.device == r.device && l.attempt.sequence + 1 == r.nextSequence
    && ReservationHolds(r, l) && CommitHolds(l) && RevealHolds(l) && FixHolds(l)
  }

  /** The invariant of every reachable registry. */
  ghost predicate Reachable(r: Registry) {
    Fits(r) && (r.live.Some? ==> LiveHolds(r, r.live.value))
  }

  /** A reservation passes or fails by its own vault and the person's state alone. */
  lemma {:induction false} ReservationSame(r: Registry, u: Registry, m: MemberReservation, os: OuterSupport, v: VaultId)
    requires r.ValidateReservation(m, os) == Ok(v)
    requires u.device == r.device && u.person == r.person && u.node == r.node && u.identityMap == r.identityMap
    requires u.identityKey == r.identityKey && u.identity == r.identity
    requires u.innerEpoch == r.innerEpoch && u.identityHandle == r.identityHandle
    requires v in r.vaults && v in u.vaults && u.vaults[v] == r.vaults[v]
    ensures u.ValidateReservation(m, os) == Ok(v)
  {
    hide Registry.OuterRows, EvaluatePoints, SigningShare;
    SameInnerRows(r, u, r.vaults[v], m.Body().inner, m.Body().inner.participants);
  }

  lemma {:induction false} SameInnerRows(r: Registry, u: Registry, vault: VaultState, support: InnerSupport,
      ps: seq<DeviceParticipant>)
    requires u.identityMap == r.identityMap
    ensures u.InnerRows(vault, support, ps) == r.InnerRows(vault, support, ps)
  {
    hide EvaluatePoints, Find, Plus, Times;
    if ps != [] { SameInnerRows(r, u, vault, support, ps[..|ps| - 1]); }
  }

  lemma {:induction false} ValidatedVault(r: Registry, m: MemberReservation, os: OuterSupport, v: VaultId)
    requires r.ValidateReservation(m, os) == Ok(v)
    ensures v in r.vaults && v == m.Body().epoch.anchor.vault && m.Body().epoch == r.EpochOf(v).value
    ensures m.Body().inner.Participant(r.device).Ok?
    ensures m.Body().inner.Participant(r.device).value.node == r.node
    ensures m.Body().inner.Participant(r.device).value.share == FromScalar(SigningShare(r.identity, r.vaults[v].anchor))
  {
    hide Registry.CheckInnerSupport, Registry.CheckOuterSupport, SigningShare, Find;
  }

  // ----- every call keeps it

  lemma {:induction false} ClosedReachable(r: Registry)
    requires Reachable(r)
    ensures Reachable(r.Closed())
  {
    hide LiveHolds, EvaluatePoints, DevicesFit, PeopleFit;
    forall v | v in r.vaults ensures VaultFits(r.Closed(), r.vaults[v]) { VaultFitsSame(r, r.Closed(), r.vaults[v]); }
    IdentityFitsSame(r, r.Closed());
  }

  /** Changing only the live attempt and the counter keeps the installed state. */
  lemma {:induction false} SameInstalled(r: Registry, u: Registry)
    requires Fits(r) && u == r.(live := u.live, nextSequence := u.nextSequence)
    ensures Fits(u)
    ensures forall m: MemberReservation, os: OuterSupport, v: VaultId ::
      r.ValidateReservation(m, os) == Ok(v) ==> u.ValidateReservation(m, os) == Ok(v)
  {
    hide VaultFits, DevicesFit, Registry.ValidateReservation;
    forall v | v in r.vaults ensures VaultFits(u, r.vaults[v]) {
      FitsVault(r, v);
      VaultFitsSame(r, u, r.vaults[v]);
    }
    IdentityFitsSame(r, u);
    forall m: MemberReservation, os: OuterSupport, v: VaultId | r.ValidateReservation(m, os) == Ok(v)
      ensures u.ValidateReservation(m, os) == Ok(v)
    {
      ValidatedVault(r, m, os, v);
      ReservationSame(r, u, m, os, v);
    }
  }

  lemma {:induction false} ReservationStays(r: Registry, u: Registry, l: Live, k: Live)
    requires Fits(r) && u == r.(live := u.live, nextSequence := u.nextSequence)
    requires ReservationHolds(r, l) && k.reservation == l.reservation && k.vault == l.vault
    ensures ReservationHolds(u, k)
  {
    hide Registry.ValidateReservation, Fits;
    SameInstalled(r, u);
    var os: OuterSupport :| r.ValidateReservation(l.reservation, os) == Ok(l.vault);
    assert u.ValidateReservation(k.reservation, os) == Ok(k.vault);
  }

  lemma {:induction false} ReserveKeeps(r: Registry, session: SessionId, now: U64, body: bytes,
      response: ResponseBinding, os: OuterSupport, parsed: Result<SealedReservation>)
    requires Reachable(r) && (parsed.Ok? ==> parsed.value.reservation.Body().inner.Valid())
    ensures Reachable(r.ReserveWith(session, now, body, response, os, parsed).0)
  {
    hide Fits, Registry.ValidateReservation, LiveHolds, InnerSupport.Valid;
    var (u, result) := r.ReserveWith(session, now, body, response, os, parsed);
    ClosedReachable(r);
    if u != r && u != r.Closed() {
      SameInstalled(r, u);
      NewLiveHolds(r, u, os);
    }
  }

  lemma {:induction false} NewLiveHolds(r: Registry, u: Registry, os: OuterSupport)
    requires u.live.Some? && u.live.value.commit.None? && u.live.value.shown.None? && u.live.value.fixed.None?
    requires r.nextSequence + 1 < U64_LIMIT
    requires u == r.(live := u.live, nextSequence := r.nextSequence + 1)
      && u.live.value.attempt == LeafAttempt(r.device, r.nextSequence)
    requires u.live.value.Support().Valid()
      && u.ValidateReservation(u.live.value.reservation, os) == Ok(u.live.value.vault)
    ensures LiveHolds(u, u.live.value)
  {
    hide Registry.ValidateReservation, InnerSupport.Valid;
  }

  /** A parsed reservation carries a valid inner support. */
  lemma {:induction false} ParsedSupport(body: bytes, os: OuterSupport)
    ensures Registry.ParsePlain(body, os).Ok? ==> Registry.ParsePlain(body, os).value.reservation.Body().inner.Valid()
  {
    hide ReservationFormat, InnerSupport.Valid, ReservationBytes;
    if ReservationFormat(os).decode(body).Ok? { DecodedSupport(body, os); }
  }

  lemma {:induction false} DecodedSupport(body: bytes, os: OuterSupport)
    requires ReservationFormat(os).decode(body).Ok?
    ensures ReservationFormat(os).decode(body).value.reservation.Body().inner.Valid()
  {
    hide ReservationFormat, BodyFormat, OpeningFormat, PrepackageFormat, InnerSupport.Valid;
    var s := ReservationFormat(os).decode(body).value;
    ReservationLawful(os);
    SealedFit(s, os);
    OpeningFit(s.reservation.opening, os);
    BodySupport(s.reservation.opening.body, os);
  }

  lemma {:induction false} BodySupport(b: MemberBody, os: OuterSupport)
    requires BodyFormat(os).wf(b)
    ensures b.inner.Valid()
  {
    hide BodyFields, InnerSupport.New, PartsOf, BuildBody, InnerSupport.Valid;
    BuiltInner(PartsOf(b), os, b);
    InnerNew(RawParticipants(PartsOf(b).1.1.1.0));
  }

  lemma {:induction false} BuiltInner(t: BodyParts, os: OuterSupport, b: MemberBody)
    requires BuildBody(t, os) == Ok(b)
    ensures InnerSupport.New(RawParticipants(t.1.1.1.0)) == Ok(b.inner)
  {
    hide InnerSupport.New, RawParticipants, OuterSupport.Coefficient;
  }

  /** Replacing the live record by a later form of the same attempt. */
  lemma {:induction false} LiveMoves(r: Registry, k: Live)
    requires Reachable(r) && r.live.Some? && k.attempt == r.live.value.attempt
    requires k.reservation == r.live.value.reservation && k.vault == r.live.value.vault
    requires CommitHolds(k) && RevealHolds(k) && FixHolds(k)
    ensures Reachable(r.(live := Some(k)))
  {
    hide Fits, CommitHolds, RevealHolds, FixHolds, Registry.ValidateReservation, InnerSupport.Valid;
    var u := r.(live := Some(k));
    SameInstalled(r, u);
    ReservationStays(r, u, r.live.value, k);
  }

  lemma {:induction false} CommitKeeps(r: Registry, attempt: LeafAttempt, body: bytes, nonce: Nonce)
    requires Reachable(r)
    ensures Reachable(r.Commit(attempt, body, nonce).0)
  {
    hide Fits, ReservationHolds, NonceCommitment, InnerSupport.Valid, Registry.IsClosed;
    ClosedReachable(r);
    var (u, result) := r.Commit(attempt, body, nonce);
    if r.TakeLive(attempt).Ok? && r.live.value.commit.None? && u.live.Some? && u != r {
      var l := r.live.value;
      LiveMoves(r, u.live.value);
    }
  }

  lemma {:induction false} RevealKeeps(r: Registry, attempt: LeafAttempt, deliveries: seq<Delivery<Scalar>>)
    requires Reachable(r)
    ensures Reachable(r.Reveal(attempt, deliveries).0)
  {
    hide Fits, ReservationHolds, NonceCommitment, InnerSupport.Valid, Registry.IsClosed, View.New, Auth.ViewBytes,
      View.Lookup, View.Covers;
    ClosedReachable(r);
    var (u, result) := r.Reveal(attempt, deliveries);
    if r.TakeLive(attempt).Ok? && r.live.value.shown.None? && u.live.Some? && u != r {
      var l := r.live.value;
      assert View.New(l.Support(), deliveries).value.Covers(l.Support()) by {
        ViewCovers(l.Support(), deliveries);
      }
      assert RevealHolds(u.live.value);
      LiveMoves(r, u.live.value);
    }
  }

  lemma {:induction false} ViewCovers<T>(support: InnerSupport, deliveries: seq<Delivery<T>>)
    requires View.New(support, deliveries).Ok?
    ensures View.New(support, deliveries).value.Covers(support)
  {
    hide View.Covers, View.Lookup;
    SomeDelivery(support, deliveries);
    ViewIsComplete(support, deliveries, deliveries[0]);
  }

  lemma {:induction false} SomeDelivery<T>(support: InnerSupport, deliveries: seq<Delivery<T>>)
    requires View.New(support, deliveries).Ok?
    ensures deliveries != []
  {
    hide Sort;
  }

  lemma {:induction false} CheckedFix(l: Live, view: View<NoncePair>)
    requires Registry.CheckFix(l, view).Ok? && RevealHolds(l)
    ensures FixHolds(l.(fixed := Some(FixedState([], Registry.CheckFix(l, view).value))))
  {
    hide NonceCommitment, View.Lookup, View.Covers, DeviceNonceSet.New, DeviceNonceSet.Valid, Auth.ViewBytes,
      CheckOpenings, Sort;
    var fixed := l.shown.value.view;
    var found := Registry.CheckFix(l, view).value;
    CheckedOpenings(view.entries, view.reservation, fixed);
    NonceSetNew(l.Support(), DeviceNonces(view.entries));
    forall e | e in found.entries
      ensures fixed.Lookup(e.attempt).Ok?
        && NonceCommitment(e.attempt, l.reservationBytes, e.nonce) == fixed.Lookup(e.attempt)
    {
      SameElements(found.entries, DeviceNonces(view.entries), e);
      var i :| 0 <= i < |view.entries| && DeviceNonces(view.entries)[i] == e;
      assert view.entries[i] in view.entries;
    }
  }

  lemma {:induction false} FixKeeps(r: Registry, attempt: LeafAttempt, deliveries: seq<Delivery<NoncePair>>)
    requires Reachable(r)
    ensures Reachable(r.Fix(attempt, deliveries).0)
  {
    hide Fits, ReservationHolds, NonceCommitment, InnerSupport.Valid, Registry.IsClosed, View.New, Auth.ViewBytes,
      View.Lookup, View.Covers;
    hide Registry.CheckFix, DeviceNonceSet.Valid;
    ClosedReachable(r);
    var (u, result) := r.Fix(attempt, deliveries);
    if r.TakeLive(attempt).Ok? && r.live.value.fixed.None? && u.live.Some? && u != r {
      var l := r.live.value;
      var view := View.New(l.Support(), deliveries).value;
      CheckedFix(l, view);
      assert l.shown.Some? by { FixNeedsReveal(l, view); }
      LiveMoves(r, u.live.value);
    }
  }

  lemma {:induction false} FixNeedsReveal(l: Live, view: View<NoncePair>)
    requires Registry.CheckFix(l, view).Ok?
    ensures l.shown.Some?
  {
    hide VerifyOpenings;
  }

  lemma {:induction false} ClosersKeep(r: Registry, attempt: LeafAttempt, mode: ResponseMode,
      respond: (ResponseInputs, bytes) -> Result<DeviceResponse>, abort: AuthenticatedAbort, now: U64)
    requires Reachable(r)
    ensures Reachable(r.RespondWith(attempt, mode, respond).0)
    ensures Reachable(r.Close(attempt).0)
    ensures Reachable(r.ReceiveAbort(abort).0)
    ensures Reachable(r.CloseExpired(now).0)
  {
    hide Reachable, Registry.Inputs;
    ClosedReachable(r);
  }

  lemma {:induction false} ActivateInnerKeeps(r: Registry, identityShare: InstalledShare, members: seq<MemberShare>)
    requires Reachable(r) && SoundShare(identityShare) && forall m :: m in members ==> SoundShare(m.share)
    ensures Reachable(r.ActivateInnerBundle(identityShare, members).0)
  {
    hide Fits, LiveHolds, Registry.CheckInner, SoundShare;
    ActivateInnerFits(r, identityShare, members);
  }

  lemma {:induction false} ActivateOuterKeeps(r: Registry, epoch: KeyEpoch, member: InstalledShare)
    requires Reachable(r) && SoundShare(member)
    ensures Reachable(r.ActivateOuter(epoch, member).0)
  {
    hide Fits, CommitHolds, RevealHolds, FixHolds, Registry.CheckOuter, SoundShare, Registry.ValidateReservation,
      InnerSupport.Valid;
    ActivateOuterFits(r, epoch, member);
    var (u, result) := r.ActivateOuter(epoch, member);
    if u.live.Some? && result.Ok? {
      var l := r.live.value;
      var os: OuterSupport :| r.ValidateReservation(l.reservation, os) == Ok(l.vault);
      ValidatedVault(r, l.reservation, os, l.vault);
      ReservationSame(r, u, l.reservation, os, l.vault);
    }
  }

  lemma {:induction false} AddVaultKeeps(r: Registry, d: DeviceGenesis, epoch: KeyEpoch)
    requires Reachable(r) && GenesisFits(d)
    ensures Reachable(r.AddVault(d, epoch).0)
  {
    hide Fits, LiveHolds, GenesisFits;
    AddVaultFits(r, d, epoch);
  }

  // ----- what a response is made of

  /** A response is computed with the share of the epoch the reservation names, which
    * is the installed one; the share that the signing support lists for this device
    * is always that share, so the share check inside the response never fails.
    */
  lemma {:induction false} ResponseUsesCurrentShare(r: Registry, mode: ResponseMode)
    requires Reachable(r) && r.live.Some? && r.Inputs(r.live.value, mode).Ok?
    ensures var l, inputs := r.live.value, r.Inputs(r.live.value, mode).value;
      && l.vault in r.vaults
      && l.reservation.Body().epoch == r.EpochOf(l.vault).value
      && inputs.share == SigningShare(r.identity, r.vaults[l.vault].anchor)
      && l.Support().Participant(r.device).Ok?
      && l.Support().Participant(r.device).value.share == FromScalar(inputs.share)
      && l.Support().Participant(r.device).value.node == r.node
  {
    hide Fits, CommitHolds, RevealHolds, FixHolds, Registry.ValidateReservation, SigningShare, InnerSupport.Valid;
    var l := r.live.value;
    var os: OuterSupport :| r.ValidateReservation(l.reservation, os) == Ok(l.vault);
    ValidatedVault(r, l.reservation, os, l.vault);
  }

  /** The fixed set lists this device's own nonce, so the nonce check inside the response
    * never fails either, short of a hash collision between two named inputs.
    */
  lemma {:induction false} ResponseUsesOwnNonce(r: Registry, mode: ResponseMode)
    requires Reachable(r) && r.live.Some? && r.Inputs(r.live.value, mode).Ok?
    ensures var l, inputs, found := r.live.value, r.Inputs(r.live.value, mode).value,
      r.Inputs(r.live.value, mode).value.nonces.Lookup(r.device);
      && found.Ok? && found.value.attempt == l.attempt
      && (found.value.nonce == inputs.nonce.Commitments()
          || Collide(HASHES.nonce, NonceInput(l.attempt, l.reservationBytes, found.value.nonce),
            NonceInput(l.attempt, l.reservationBytes, inputs.nonce.Commitments())))
  {
    hide Fits, NonceCommitment, Auth.ViewBytes, DeviceNonceSet.New, SumPairs, Collide, Registry.ValidateReservation;
    var l := r.live.value;
    ResponseUsesCurrentShare(r, mode);
    OwnEntry(l, r.device);
    var e := l.fixed.value.nonces.Lookup(r.device).value;
    ViewAttempts(l, e, r.device);
    NonceCommitmentBinds(l.attempt, l.reservationBytes, e.nonce, l.commit.value.pair);
  }

  lemma {:induction false} OwnEntry(l: Live, device: DeviceId)
    requires l.fixed.Some? && FixHolds(l) && l.Support().Participant(device).Ok?
    ensures var found := l.fixed.value.nonces.Lookup(device);
      found.Ok? && found.value in l.fixed.value.nonces.entries && found.value.attempt.device == device
  {
    hide NonceCommitment, SumPairs, View.Lookup;
    var i := Find(l.Support().participants, DeviceKey, device).value;
    var es := l.fixed.value.nonces.entries;
    assert NonceDevice(es[i]) == device;
    FindAt(es, NonceDevice, i);
  }

  lemma {:induction false} ViewAttempts(l: Live, e: DeviceNonce, device: DeviceId)
    requires FixHolds(l) && RevealHolds(l) && l.fixed.Some? && e in l.fixed.value.nonces.entries
    requires e.attempt.device == device == l.attempt.device
    ensures e.attempt == l.attempt
    ensures NonceCommitment(l.attempt, l.reservationBytes, e.nonce) == Ok(l.commit.value.commitment)
  {
    hide NonceCommitment, Auth.ViewBytes, View.Covers, DeviceNonceSet.Valid;
  }
}

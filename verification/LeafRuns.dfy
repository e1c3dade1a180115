/** One-use attempts over every run of a leaf (src/leaf.rs). */
module LeafRuns {
  import opened Results
  import opened Field
  import opened Support
  import opened Genesis
  import opened Ids
  import opened Encoding
  import opened Transcript
  import opened Signing
  import opened Auth
  import opened Target
  import opened Leaf
  import opened Material
  import opened LeafLive

  // ----- calls

  datatype Call =
    | ReserveCall(session: SessionId, now: U64, body: bytes, response: ResponseBinding, os: OuterSupport,
      parsed: Result<SealedReservation>)
    | CommitCall(attempt: LeafAttempt, body: bytes, nonce: Nonce)
    | RevealCall(attempt: LeafAttempt, commitments: seq<Delivery<Scalar>>)
    | FixCall(attempt: LeafAttempt, openings: seq<Delivery<NoncePair>>)
    | RespondCall(attempt: LeafAttempt, mode: ResponseMode, respond: (ResponseInputs, bytes) -> Result<DeviceResponse>)
    | CloseCall(attempt: LeafAttempt)
    | AbortCall(abort: AuthenticatedAbort)
    | ExpireCall(now: U64)
    | AddVaultCall(genesis: DeviceGenesis, epoch: KeyEpoch)
    | ActivateInnerCall(identityShare: InstalledShare, members: seq<MemberShare>)
    | ActivateOuterCall(epoch: KeyEpoch, member: InstalledShare)

  /** What a call returned. */
  datatype Output =
    | AttemptOutput(attempt: LeafAttempt)
    | CommitmentOutput(commitment: Scalar)
    | PairOutput(pair: NoncePair)
    | ResponseOutput(response: DeviceResponse)
    | ExpiredOutput(expired: Option<LeafAttempt>)
    | UnitOutput

  function Wrap<T>(r: Result<T>, f: T -> Output): Result<Output> {
    if r.Ok? then Ok(f(r.value)) else Err(r.error)
  }

  /** One call on a registry. */
  function Apply(r: Registry, c: Call): (Registry, Result<Output>) {
    match c
    case ReserveCall(session, now, body, response, os, parsed) =>
      var (u, o) := r.ReserveWith(session, now, body, response, os, parsed);
      (u, Wrap(o, (a: LeafAttempt) => AttemptOutput(a)))
    case CommitCall(attempt, body, nonce) =>
      var (u, o) := r.Commit(attempt, body, nonce);
      (u, Wrap(o, (x: Scalar) => CommitmentOutput(x)))
    case RevealCall(attempt, commitments) =>
      var (u, o) := r.Reveal(attempt, commitments);
      (u, Wrap(o, (p: NoncePair) => PairOutput(p)))
    case FixCall(attempt, openings) =>
      var (u, o) := r.Fix(attempt, openings);
      (u, Wrap(o, (p: NoncePair) => PairOutput(p)))
    case RespondCall(attempt, mode, respond) =>
      var (u, o) := r.RespondWith(attempt, mode, respond);
      (u, Wrap(o, (x: DeviceResponse) => ResponseOutput(x)))
    case CloseCall(attempt) =>
      var (u, o) := r.Close(attempt);
      (u, Wrap(o, (x: ()) => UnitOutput))
    case AbortCall(abort) =>
      var (u, o) := r.ReceiveAbort(abort);
      (u, Wrap(o, (x: ()) => UnitOutput))
    case ExpireCall(now) =>
      var (u, o) := r.CloseExpired(now);
      (u, Ok(ExpiredOutput(o)))
    case AddVaultCall(genesis, epoch) =>
      var (u, o) := r.AddVault(genesis, epoch);
      (u, Wrap(o, (x: ()) => UnitOutput))
    case ActivateInnerCall(identityShare, members) =>
      var (u, o) := r.ActivateInnerBundle(identityShare, members);
      (u, Wrap(o, (x: ()) => UnitOutput))
    case ActivateOuterCall(epoch, member) =>
      var (u, o) := r.ActivateOuter(epoch, member);
      (u, Wrap(o, (x: ()) => UnitOutput))
  }

  /** Inputs that the rest of the library can hand in: reservations over constructed
    * supports, genesis data from validation, and shares from finished targets.
    */
  ghost predicate Honest(c: Call) {
    match c
    case ReserveCall(_, _, _, _, _, parsed) => parsed.Ok? ==> parsed.value.reservation.Body().inner.Valid()
    case AddVaultCall(genesis, _) => GenesisFits(genesis)
    case ActivateInnerCall(identityShare, members) => SoundShare(identityShare) && forall m :: m in members ==>
      SoundShare(m.share)
    case ActivateOuterCall(_, member) => SoundShare(member)
    case _ => true
  }

  /** A plain reservation is honest, whatever bytes arrive. */
  lemma {:induction false} PlainReserveIsHonest(session: SessionId, now: U64, body: bytes, os: OuterSupport)
    ensures Honest(ReserveCall(session, now, body, PLAIN, os, Registry.ParsePlain(body, os)))
  {
    hide Registry.ParsePlain, InnerSupport.Valid;
    ParsedSupport(body, os);
  }

  ghost function RunFrom(r: Registry, calls: seq<Call>): Registry {
    if calls == [] then r else Apply(RunFrom(r, calls[..|calls| - 1]), calls[|calls| - 1]).0
  }

  /** A reservation never leaves an expired attempt live, except that it returns one
    * already live to its exact replay.
    */
  lemma {:induction false} ExpiredReserveIff(r: Registry, session: SessionId, now: U64, body: bytes,
      response: ResponseBinding, os: OuterSupport, parsed: Result<SealedReservation>)
    ensures var (u, o) := r.ReserveWith(session, now, body, response, os, parsed);
      && (o.Ok? ==> u.live.Some? && u.live.value.attempt == o.value)
      && (o.Ok? && u.live.value.expiry <= now <==>
        && r.live.Some? && r.live.value.expiry <= now && r.live.value.session == session
        && r.live.value.reservationBytes == body && r.live.value.response == response)
      && (o.Ok? && r.live.Some? ==> u == r)
  {
    hide Registry.ValidateReservation;
  }

  // ----- the invariant over runs

  lemma {:induction false} ApplyKeeps(r: Registry, c: Call)
    requires Reachable(r) && Honest(c)
    ensures Reachable(Apply(r, c).0)
  {
    hide Reachable, GenesisFits, SoundShare, InnerSupport.Valid, Registry.ReserveWith, Registry.Commit,
      Registry.Reveal, Registry.Fix, Registry.RespondWith;
    hide Registry.Close, Registry.ReceiveAbort, Registry.CloseExpired, Registry.AddVault,
      Registry.ActivateInnerBundle, Registry.ActivateOuter, Wrap;
    match c
    case ReserveCall(session, now, body, response, os, parsed) =>
      ReserveKeeps(r, session, now, body, response, os, parsed);
    case CommitCall(attempt, body, nonce) => CommitKeeps(r, attempt, body, nonce);
    case RevealCall(attempt, commitments) => RevealKeeps(r, attempt, commitments);
    case FixCall(attempt, openings) => FixKeeps(r, attempt, openings);
    case RespondCall(attempt, mode, respond) => ClosersKeep(r, attempt, mode, respond, AnyAbort(), 0);
    case CloseCall(attempt) => ClosersKeep(r, attempt, PlainMode, Refuse(), AnyAbort(), 0);
    case AbortCall(abort) => ClosersKeep(r, LeafAttempt(0, 0), PlainMode, Refuse(), abort, 0);
    case ExpireCall(now) => ClosersKeep(r, LeafAttempt(0, 0), PlainMode, Refuse(), AnyAbort(), now);
    case AddVaultCall(genesis, epoch) => AddVaultKeeps(r, genesis, epoch);
    case ActivateInnerCall(identityShare, members) => ActivateInnerKeeps(r, identityShare, members);
    case ActivateOuterCall(epoch, member) => ActivateOuterKeeps(r, epoch, member);
  }

  function AnyAbort(): AuthenticatedAbort { AuthenticatedAbort(LeafAttempt(0, 0), LeafAttempt(0, 0), 0, []) }
  function Refuse(): (ResponseInputs, bytes) -> Result<DeviceResponse> {
    (i: ResponseInputs, b: bytes) => Err(WrongStage)
  }

  /** Every registry that a run reaches from validated genesis data is consistent, and
    * its live attempt is still valid for the installed epoch, points and share.
    */
  lemma {:induction false} RunKeeps(r: Registry, calls: seq<Call>)
    requires Reachable(r) && forall c :: c in calls ==> Honest(c)
    ensures Reachable(RunFrom(r, calls))
    ensures ValidateMaterial(RunFrom(r, calls)).Ok?
  {
    hide Reachable, Apply, Honest;
    if calls != [] {
      var n := |calls| - 1;
      RunKeeps(r, calls[..n]);
      ApplyKeeps(RunFrom(r, calls[..n]), calls[n]);
    }
    ReachableFits(RunFrom(r, calls));
    ValidateIff(RunFrom(r, calls));
  }

  lemma {:induction false} ReachableFits(r: Registry)
    requires Reachable(r)
    ensures Fits(r)
  {
    hide Fits, LiveHolds;
  }

  /** A new registry starts inside the invariant. */
  lemma {:induction false} NewIsReachable(g: PublicGenesis, person: PersonId, device: DeviceId, identity: Scalar,
      member: Scalar, epoch: KeyEpoch)
    requires g.Valid() && AttachShare(g, person, device, identity, member).Ok?
    ensures var r := Registry.New(AttachShare(g, person, device, identity, member).value, epoch);
      r.Ok? ==> Reachable(r.value)
  {
    hide Fits, AttachShare;
    GenesisIsConsistent(g, person, device, identity, member);
  }

  // ----- one-use attempts

  /** `k` is a later form of the same live attempt: whatever was fixed stays fixed. */
  ghost predicate Extends(l: Live, k: Live) {
    && k == l.(commit := k.commit, shown := k.shown, fixed := k.fixed)
    && (l.commit.Some? ==> k.commit == l.commit)
    && (l.shown.Some? ==> k.shown == l.shown)
    && (l.fixed.Some? ==> k.fixed == l.fixed)
  }

  /** What one call does to the attempt in progress. */
  ghost predicate Progresses(r: Registry, u: Registry) {
    && u.device == r.device
    && r.nextSequence <= u.nextSequence
    && (u.nextSequence > r.nextSequence ==>
      && r.live.None? && u.live.Some? && u.live.value.attempt == LeafAttempt(r.device, r.nextSequence)
      && u.nextSequence == r.nextSequence + 1)
    && (u.nextSequence == r.nextSequence && u.live.Some? ==> r.live.Some? && Extends(r.live.value, u.live.value))
  }

  lemma {:induction false} CallProgresses(r: Registry, c: Call)
    ensures Progresses(r, Apply(r, c).0)
  {
    hide NonceCommitment, View.New, Auth.ViewBytes, Registry.CheckReveal, Registry.CheckFix, Registry.Inputs,
      Registry.ValidateReservation;
    hide Registry.CheckInner, Registry.CheckOuter, Registry.VaultFrom, Wrap, Registry.IsClosed;
  }

  /** The attempts issued so far are all closed but the live one. */
  ghost predicate Numbered(r: Registry) {
    r.live.Some? ==> r.live.value.attempt.device == r.device && r.live.value.attempt.sequence + 1 == r.nextSequence
  }

  lemma {:induction false} ProgressNumbered(r: Registry, u: Registry)
    requires Numbered(r) && Progresses(r, u)
    ensures Numbered(u)
  {}

  /** Over any run an attempt that is live both before and after has only been extended,
    * and an attempt that was closed is never live again.
    */
  lemma {:induction false} AttemptsAreOneUse(r: Registry, calls: seq<Call>)
    requires Numbered(r)
    ensures var u := RunFrom(r, calls);
      && Numbered(u) && u.device == r.device && r.nextSequence <= u.nextSequence
      && (r.live.Some? && u.live.Some? && u.live.value.attempt == r.live.value.attempt ==>
        Extends(r.live.value, u.live.value))
      && forall a: LeafAttempt :: r.IsClosed(a) ==> u.IsClosed(a)
  {
    hide Apply;
    if calls != [] {
      var n := |calls| - 1;
      AttemptsAreOneUse(r, calls[..n]);
      CallProgresses(RunFrom(r, calls[..n]), calls[n]);
      ProgressNumbered(RunFrom(r, calls[..n]), RunFrom(r, calls));
    }
  }

  /** A response, sibling abort or close of the live attempt leaves it closed. */
  lemma {:induction false} RespondingCloses(r: Registry, attempt: LeafAttempt, mode: ResponseMode,
      respond: (ResponseInputs, bytes) -> Result<DeviceResponse>)
    requires Numbered(r)
    ensures r.live.Some? && r.live.value.attempt == attempt ==>
      r.RespondWith(attempt, mode, respond).0.IsClosed(attempt)
    ensures r.RespondWith(attempt, mode, respond).1.Ok? ==> r.live.Some? && r.live.value.attempt == attempt
  {
    hide Registry.Inputs;
  }

  /** All successful commits of one attempt return the same commitment and keep the one
    * nonce that was sampled first.
    */
  lemma {:induction false} CommitsAgree(r: Registry, c: Call, between: seq<Call>, d: Call)
    requires Numbered(r) && c.CommitCall? && d.CommitCall? && c.attempt == d.attempt
    requires Apply(r, c).1.Ok? && Apply(RunFrom(Apply(r, c).0, between), d).1.Ok?
    ensures Apply(RunFrom(Apply(r, c).0, between), d).1 == Apply(r, c).1
    ensures var u := Apply(RunFrom(Apply(r, c).0, between), d).0;
      && u.live.Some? && Apply(r, c).0.live.Some?
      && u.live.value.commit == Apply(r, c).0.live.value.commit
  {
    hide NonceCommitment, Apply;
    CallProgresses(r, c);
    ProgressNumbered(r, Apply(r, c).0);
    AttemptsAreOneUse(Apply(r, c).0, between);
    CommitOutcome(r, c);
    CommitOutcome(RunFrom(Apply(r, c).0, between), d);
  }

  lemma {:induction false} CommitOutcome(r: Registry, c: Call)
    requires c.CommitCall? && Apply(r, c).1.Ok?
    ensures var (u, o) := Apply(r, c);
      && r.live.Some? && r.live.value.attempt == c.attempt
      && u.live.Some? && u.live.value.attempt == c.attempt && u.live.value.commit.Some?
      && o == Ok(CommitmentOutput(u.live.value.commit.value.commitment))
      && (r.live.value.commit.Some? ==> u.live.value.commit == r.live.value.commit)
  {
    hide NonceCommitment, Registry.IsClosed;
  }

  lemma {:induction false} RevealOutcome(r: Registry, c: Call)
    requires c.RevealCall? && Apply(r, c).1.Ok?
    ensures var (u, o) := Apply(r, c);
      && r.live.Some? && r.live.value.attempt == c.attempt
      && u.live.Some? && u.live.value.attempt == c.attempt && u.live.value.shown.Some?
      && o == Ok(PairOutput(u.live.value.shown.value.viewedPair))
      && (r.live.value.shown.Some? ==> u.live.value.shown == r.live.value.shown)
      && View.New(r.live.value.Support(), c.commitments).Ok?
      && Auth.ViewBytes(ScalarField(), View.New(r.live.value.Support(), c.commitments).value) ==
        Ok(u.live.value.shown.value.body)
  {
    hide NonceCommitment, Registry.IsClosed, View.New, Auth.ViewBytes, Registry.CheckReveal;
  }

  lemma {:induction false} FixOutcome(r: Registry, c: Call)
    requires c.FixCall? && Apply(r, c).1.Ok?
    ensures var (u, o) := Apply(r, c);
      && r.live.Some? && r.live.value.attempt == c.attempt
      && u.live.Some? && u.live.value.attempt == c.attempt && u.live.value.fixed.Some?
      && o == Ok(PairOutput(u.live.value.fixed.value.nonces.aggregate))
      && (r.live.value.fixed.Some? ==> u.live.value.fixed == r.live.value.fixed)
      && u.live.value.shown == r.live.value.shown
  {
    hide NonceCommitment, Registry.IsClosed, View.New, Auth.ViewBytes, Registry.CheckFix;
  }

  /** All successful reveals of one attempt return the same pair and deliver the same
    * commitment view, in whatever order the deliveries arrive.
    */
  lemma {:induction false} RevealsAgree(r: Registry, c: Call, between: seq<Call>, d: Call)
    requires Numbered(r) && c.RevealCall? && d.RevealCall? && c.attempt == d.attempt
    requires Apply(r, c).1.Ok? && Apply(RunFrom(Apply(r, c).0, between), d).1.Ok?
    ensures Apply(RunFrom(Apply(r, c).0, between), d).1 == Apply(r, c).1
    ensures r.live.Some?
    ensures View.New(r.live.value.Support(), d.commitments) == View.New(r.live.value.Support(), c.commitments)
  {
    hide NonceCommitment, Apply, View.New, Auth.ViewBytes, Codec.Lawful;
    var u := Apply(r, c).0;
    CallProgresses(r, c);
    ProgressNumbered(r, u);
    AttemptsAreOneUse(u, between);
    RevealOutcome(r, c);
    RevealOutcome(RunFrom(u, between), d);
    var support := r.live.value.Support();
    FieldsFit();
    ScalarLawful();
    ViewBytesInjective(ScalarField(), View.New(support, c.commitments).value, View.New(support, d.commitments).value);
  }

  /** All successful fixes of one attempt return the same member pair. */
  lemma {:induction false} FixesAgree(r: Registry, c: Call, between: seq<Call>, d: Call)
    requires Numbered(r) && c.FixCall? && d.FixCall? && c.attempt == d.attempt
    requires Apply(r, c).1.Ok? && Apply(RunFrom(Apply(r, c).0, between), d).1.Ok?
    ensures Apply(RunFrom(Apply(r, c).0, between), d).1 == Apply(r, c).1
  {
    hide NonceCommitment, Apply, View.New, Auth.ViewBytes;
    CallProgresses(r, c);
    ProgressNumbered(r, Apply(r, c).0);
    AttemptsAreOneUse(Apply(r, c).0, between);
    FixOutcome(r, c);
    FixOutcome(RunFrom(Apply(r, c).0, between), d);
  }

  /** The nonce pair leaves the leaf only after a complete commitment view is fixed, and
    * every opening that a later fix accepts matches that very view.
    */
  lemma {:induction false} RevealFixesTheView(r: Registry, c: Call, between: seq<Call>, d: Call)
    requires Reachable(r) && c.RevealCall? && d.FixCall? && c.attempt == d.attempt
    requires forall x :: x in [c] + between + [d] ==> Honest(x)
    requires Apply(r, c).1.Ok? && Apply(RunFrom(Apply(r, c).0, between), d).1.Ok?
    ensures var u, w := Apply(r, c).0, Apply(RunFrom(Apply(r, c).0, between), d).0;
      && u.live.Some? && u.live.value.shown.Some? && w.live.Some? && w.live.value.fixed.Some?
      && w.live.value.shown == u.live.value.shown
      && var view := u.live.value.shown.value.view;
      && view.Covers(u.live.value.Support())
      && forall e :: e in w.live.value.fixed.value.nonces.entries ==>
        && view.Lookup(e.attempt).Ok?
        && NonceCommitment(e.attempt, u.live.value.reservationBytes, e.nonce) == view.Lookup(e.attempt)
  {
    hide NonceCommitment, Apply, View.New, Auth.ViewBytes, View.Covers, View.Lookup, Fits, ReservationHolds,
      DeviceNonceSet.Valid, Honest;
    var u := Apply(r, c).0;
    var calls := between + [d];
    ApplyKeeps(r, c);
    CallProgresses(r, c);
    AttemptsAreOneUse(u, between);
    RunKeeps(u, between);
    ApplyKeeps(RunFrom(u, between), d);
    RevealOutcome(r, c);
    FixOutcome(RunFrom(u, between), d);
  }
}

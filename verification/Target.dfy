/** Candidate views, private deliveries and installed shares (src/dealing/target.rs). */
module Target {
  import opened Results
  import opened Field
  import opened Sums
  import opened Sorting
  import opened Algebra
  import opened Shamir
  import opened Ids
  import opened Encoding
  import opened Shape
  import opened Contribution
  import opened DealEncoding

  // ----- the common view

  lemma {:induction false} RolesInjective(roles: set<RoleId>)
    ensures InjectiveOn(roles, RoleKey)
  {
    forall a, b | a in roles && b in roles && RoleKey(a) == RoleKey(b) ensures a == b { RoleKeyInjective(a, b); }
  }

  /** The roles of an ordered map, in iteration order. */
  function RoleOrder(roles: set<RoleId>): (r: seq<RoleId>)
    ensures |r| == |roles| && forall x :: x in r <==> x in roles
  {
    RolesInjective(roles);
    Ascending(roles, RoleKey)
  }

  function EncodeCommitments(cs: seq<(RoleId, Scalar)>): bytes {
    if cs == [] then []
    else EncodeCommitments(cs[..|cs| - 1]) + RoleBytes(cs[|cs| - 1].0) + ScalarField().enc(cs[|cs| - 1].1)
  }

  function EncodeOpenings(os: seq<Opening>): Result<bytes> {
    if os == [] then Ok([])
    else
      var front :- EncodeOpenings(os[..|os| - 1]);
      var opening :- OpeningBytes(os[|os| - 1]);
      var packed :- PutBytes(opening);
      Ok(front + packed)
  }

  function ViewBytes(command: Command, commitments: seq<(RoleId, Scalar)>, openings: seq<Opening>): Result<bytes> {
    var body :- CommandBytes(command);
    var packed :- PutBytes(body);
    if |commitments| >= U16_LIMIT then Err(LengthOverflow)
    else if |openings| >= U16_LIMIT then Err(LengthOverflow)
    else
      var unsealed :- EncodeOpenings(openings);
      Widths();
      Ok(WIRE_ID + packed + ToBytes(|commitments|, 2) + EncodeCommitments(commitments) + ToBytes(|openings|, 2)
        + unsealed)
  }

  /** A complete public opening transcript. */
  datatype CandidateView = CandidateView(
    command: Command, commitments: seq<(RoleId, Scalar)>, openings: seq<Opening>, bytes: bytes,
      aggregate: ContributionPoints)
  {
    function Opening(role: RoleId): Result<Opening> {
      var i := Find(openings, OpeningKey, RoleKey(role));
      if i.Some? then Ok(openings[i.value]) else Err(ParticipantNotFound)
    }

    /** Every role opened in role order, and the aggregate is their sum. */
    ghost predicate Sound() {
      && command.Valid()
      && OpensRoles(command.shape, command.roles, openings)
      && AggregatePoints(openings) == Ok(aggregate)
    }
  }

  function OpeningKey(o: Opening): int { RoleKey(o.role) }

  function OrderedCommitments(cs: map<RoleId, Scalar>): (r: seq<(RoleId, Scalar)>)
    ensures |r| == |cs.Keys|
  {
    var order := RoleOrder(cs.Keys);
    seq(|order|, i requires 0 <= i < |order| => (order[i], cs[order[i]]))
  }

  function OrderedOpenings(os: map<RoleId, Opening>): (r: seq<Opening>)
    ensures |r| == |os.Keys|
  {
    var order := RoleOrder(os.Keys);
    seq(|order|, i requires 0 <= i < |order| => os[order[i]])
  }

  function BuildView(command: Command, commitments: map<RoleId, Scalar>,
      openings: map<RoleId, Opening>): Result<CandidateView> {
    var cs, os := OrderedCommitments(commitments), OrderedOpenings(openings);
    var aggregate :- AggregatePoints(os);
    var _ :- aggregate.Validate(command.shape, command.anchor);
    var bytes :- ViewBytes(command, cs, os);
    Ok(CandidateView(command, cs, os, bytes, aggregate))
  }

  /** Exactly the mandatory roles, each opened under its own name and constant. */
  ghost predicate CompleteOpenings(command: Command, openings: map<RoleId, Opening>) {
    && openings.Keys == command.RoleIds()
    && forall role :: role in openings ==> FitsRole(command, role, openings[role])
  }

  ghost predicate FitsRole(command: Command, role: RoleId, o: Opening) {
    && o.role == role
    && command.RoleOf(role).Ok?
    && o.points.Fits(command.shape, command.RoleOf(role).value.Constant())
  }

  lemma {:induction false} RoleAt(command: Command, i: nat)
    requires command.Valid() && i < |command.roles|
    ensures command.RoleOf(command.roles[i].Role()) == Ok(command.roles[i])
  {
    FindAt(command.roles, SpecKey, i);
  }

  lemma {:induction false} OpeningsInOrder(command: Command, openings: map<RoleId, Opening>)
    requires command.Valid() && CompleteOpenings(command, openings)
    ensures OpensRoles(command.shape, command.roles, OrderedOpenings(openings))
  {
    hide ContributionPoints.Fits, TargetShape.Valid, TargetDevices, SourceSum, Ascending;
    RolesInOrder(command);
    var os := OrderedOpenings(openings);
    forall i | 0 <= i < |command.roles|
      ensures os[i].role == command.roles[i].Role() && os[i].points.Fits(command.shape, command.roles[i].Constant())
    {
      RoleAt(command, i);
      var role := command.RoleSeq()[i];
      assert role in openings && FitsRole(command, role, openings[role]);
    }
  }

  /** Once every role is in, a view always exists unless its bytes overflow a length
    * prefix, and the view is sound.
    */
  lemma {:induction false} BuildViewSucceeds(command: Command, commitments: map<RoleId, Scalar>,
      openings: map<RoleId, Opening>)
    requires command.Valid() && CompleteOpenings(command, openings)
    ensures var r := BuildView(command, commitments, openings);
      && (r.Ok? <==> ViewBytes(command, OrderedCommitments(commitments), OrderedOpenings(openings)).Ok?)
      && (r.Ok? ==> r.value.Sound() && r.value.command == command && r.value.openings == OrderedOpenings(openings))
  {
    hide ViewBytes, AggregatePoints, ContributionPoints.Validate, Command.Valid, CompleteOpenings, OrderedOpenings,
      OrderedCommitments;
    OpeningsInOrder(command, openings);
    AggregateIsValid(command, OrderedOpenings(openings));
  }

  /** What the view needs of the lengths involved: a caller can check it before. */
  predicate ViewFits(command: Command, commitments: seq<(RoleId, Scalar)>, openings: seq<Opening>) {
    && CommandBytes(command).Ok? && |CommandBytes(command).value| < U32_LIMIT
    && |commitments| < U16_LIMIT && |openings| < U16_LIMIT
    && forall i :: 0 <= i < |openings| ==>
      OpeningBytes(openings[i]).Ok? && |OpeningBytes(openings[i]).value| < U32_LIMIT
  }

  lemma {:induction false} OpeningsEncode(os: seq<Opening>)
    ensures EncodeOpenings(os).Ok? <==>
      forall i :: 0 <= i < |os| ==> OpeningBytes(os[i]).Ok? && |OpeningBytes(os[i]).value| < U32_LIMIT
    ensures EncodeOpenings(os).Err? ==> EncodeOpenings(os).error == LengthOverflow
  {
    hide OpeningFormat, PointCounts, PointsFormat;
    Widths();
    if os != [] {
      var n := |os| - 1;
      OpeningsEncode(os[..n]);
      if forall i :: 0 <= i < |os| ==> OpeningBytes(os[i]).Ok? && |OpeningBytes(os[i]).value| < U32_LIMIT {
        forall i | 0 <= i < n ensures OpeningBytes(os[..n][i]).Ok? && |OpeningBytes(os[..n][i]).value| < U32_LIMIT {
          assert os[..n][i] == os[i];
        }
      }
      if EncodeOpenings(os).Ok? {
        forall i | 0 <= i < |os| ensures OpeningBytes(os[i]).Ok? && |OpeningBytes(os[i]).value| < U32_LIMIT {
          if i < n { assert os[..n][i] == os[i]; }
        }
      }
    }
  }

  /** The view encoder fails only on overflow, exactly when a length does not fit. */
  lemma {:induction false} ViewBytesIff(command: Command, commitments: seq<(RoleId, Scalar)>, openings: seq<Opening>)
    ensures ViewBytes(command, commitments, openings).Ok? <==> ViewFits(command, commitments, openings)
    ensures ViewBytes(command, commitments, openings).Err? ==>
      ViewBytes(command, commitments, openings).error == LengthOverflow
  {
    hide CommandFields, EncodeOpenings, OpeningBytes, ShapeCounts, EncodeCommitments;
    Widths();
    OpeningsEncode(openings);
  }

  // ----- private deliveries

  datatype PrivateShare = PrivateShare(command: CommandId, role: RoleId, target: TargetId, value: Scalar)

  /** One target's unactivated share. */
  datatype PendingShare = PendingShare(target: TargetId, shape: TargetShape, share: Scalar, public: Element,
    points: ContributionPoints)
  {
    function Resolve(terminal: Terminal): Result<Option<InstalledShare>> {
      match terminal
      case Aborted => Ok(None)
      case Activated(handle) =>
        if FromScalar(share) != public then Err(ShareMismatch)
        else Ok(Some(InstalledShare(target, shape, handle, share, public, points)))
    }
  }

  /** One installed target share. */
  datatype InstalledShare =
    InstalledShare(target: TargetId, shape: TargetShape, handle: Handle, share: Scalar, public: Element,
      points: ContributionPoints)

  datatype TargetReady = TargetReady(receipt: TargetReceipt, pending: PendingShare)

  /** The values of an ordered share map, in iteration order. */
  function OrderedShares(shares: map<RoleId, Scalar>): (r: seq<Scalar>)
    ensures |r| == |shares.Keys|
  {
    var order := RoleOrder(shares.Keys);
    seq(|order|, i requires 0 <= i < |order| => shares[order[i]])
  }

  /** The state of a target-local accumulator. */
  datatype Accumulator = Accumulator(view: CandidateView, target: TargetId, shares: map<RoleId, Scalar>)
  {
    static function New(view: CandidateView, target: TargetId): Result<Accumulator> {
      var _ :- view.command.shape.TargetNode(target);
      Ok(Accumulator(view, target, map[]))
    }

    /** Every accepted share lies on its role's accepted polynomial. */
    ghost predicate Valid() {
      && view.Sound()
      && view.command.shape.TargetNode(target).Ok?
      && forall role :: role in shares ==>
        && view.Opening(role).Ok?
        && view.Opening(role).value.points.Evaluate(view.command.shape, target) == Ok(FromScalar(shares[role]))
    }

    function Check(share: PrivateShare): Result<()> {
      if share.command != view.command.id || share.target != target then Err(InvalidTranscript)
      else
        var opening :- view.Opening(share.role);
        var expected :- opening.points.Evaluate(view.command.shape, target);
        if FromScalar(share.value) != expected then Err(ShareMismatch)
        else if share.role in shares then Need(shares[share.role] == share.value, ReplayMismatch)
        else Ok(())
    }

    function Receive(share: PrivateShare): (Accumulator, Result<()>) {
      var r := Check(share);
      if r.Ok? then (this.(shares := shares[share.role := share.value]), r) else (this, r)
    }

    function Finish(): Result<TargetReady> {
      if |shares| != |view.command.roles|
        || exists s :: s in view.command.roles && s.Role() !in shares
      then Err(SupportMismatch)
      else
        var value := Sum(OrderedShares(shares));
        var public :- view.aggregate.Evaluate(view.command.shape, target);
        if FromScalar(value) != public then Err(ShareMismatch)
        else Ok(TargetReady(
          TargetReceipt(view.command.id, target, view.bytes),
          PendingShare(target, view.command.shape, value, public, view.aggregate)))
    }
  }

  /** A target-local private-share accumulator. */
  class TargetAccumulator {
    var view: CandidateView
    var target: TargetId
    var shares: map<RoleId, Scalar>

    function State(): Accumulator reads this { Accumulator(view, target, shares) }

    constructor (start: Accumulator)
      ensures State() == start
    {
      view, target, shares := start.view, start.target, start.shares;
    }

    /** Accepts one authenticated private share; an exact replay changes nothing. */
    method Receive(share: PrivateShare) returns (r: Result<()>)
      modifies this`shares
      ensures (State(), r) == old(State()).Receive(share)
    {
      if share.command != view.command.id || share.target != target { return Err(InvalidTranscript); }
      var opening := view.Opening(share.role);
      if opening.Err? { return Err(opening.error); }
      var expected := opening.value.points.Evaluate(view.command.shape, target);
      if expected.Err? { return Err(expected.error); }
      if FromScalar(share.value) != expected.value { return Err(ShareMismatch); }
      if share.role in shares {
        assert shares[share.role] == share.value ==> shares[share.role := share.value] == shares;
        return Need(shares[share.role] == share.value, ReplayMismatch);
      }
      shares := shares[share.role := share.value];
      return Ok(());
    }
  }

  lemma {:induction false} ReceiveKeepsValid(a: Accumulator, share: PrivateShare)
    requires a.Valid()
    ensures a.Receive(share).0.Valid()
  {
    hide CandidateView.Sound, CandidateView.Opening, ContributionPoints.Evaluate;
  }

  lemma {:induction false} OpeningAt(view: CandidateView, i: nat)
    requires view.Sound() && i < |view.command.roles|
    ensures view.Opening(view.command.roles[i].Role()) == Ok(view.openings[i])
  {
    hide AggregatePoints, ContributionPoints.Fits, TargetShape.Valid, SourceSum, TargetDevices;
    var os := view.openings;
    forall k, j | 0 <= k < j < |os| ensures OpeningKey(os[k]) != OpeningKey(os[j]) {
      assert SpecKey(view.command.roles[k]) < SpecKey(view.command.roles[j]);
      assert os[k].role == view.command.roles[k].Role() && os[j].role == view.command.roles[j].Role();
    }
    FindAt(os, OpeningKey, i);
  }

  lemma {:induction false} OpeningIsARole(view: CandidateView, role: RoleId)
    requires view.Sound() && view.Opening(role).Ok?
    ensures role in view.command.RoleIds()
  {
    hide AggregatePoints, ContributionPoints.Fits, TargetShape.Valid, SourceSum, TargetDevices;
    var i := Find(view.openings, OpeningKey, RoleKey(role)).value;
    RoleKeyInjective(view.openings[i].role, role);
    assert view.openings[i].role == view.command.roles[i].Role();
    assert view.command.roles[i] in view.command.roles;
  }

  lemma {:induction false} SharesMatchEvaluations(a: Accumulator)
    requires a.Valid() && a.shares.Keys == a.view.command.RoleIds()
    ensures Total(RoleEvaluations(a.view.command.shape, a.view.openings, a.target)) ==
      FromScalar(Sum(OrderedShares(a.shares)))
  {
    hide AggregatePoints, ContributionPoints.Fits, TargetShape.Valid, SourceSum, TargetDevices,
      ContributionPoints.Evaluate, Ascending, CandidateView.Opening;
    var command, es := a.view.command, RoleEvaluations(a.view.command.shape, a.view.openings, a.target);
    RolesInOrder(command);
    TotalIsSum(es);
    var values := OrderedShares(a.shares);
    forall i | 0 <= i < |es| ensures Logs(es)[i] == values[i] {
      OpeningAt(a.view, i);
      var role := command.RoleSeq()[i];
      assert role in a.shares && role == command.roles[i].Role();
    }
    assert Logs(es) == values;
  }

  lemma {:induction false} SharesAreRoles(a: Accumulator)
    requires a.Valid()
    ensures a.shares.Keys <= a.view.command.RoleIds()
    ensures a.shares.Keys == a.view.command.RoleIds() <==>
      !(|a.shares| != |a.view.command.roles| || exists s :: s in a.view.command.roles && s.Role() !in a.shares)
  {
    hide CandidateView.Opening, ContributionPoints.Evaluate, CandidateView.Sound, Ascending;
    forall role | role in a.shares ensures role in a.view.command.RoleIds() { OpeningIsARole(a.view, role); }
    assert a.view.command.Valid() by { SoundCommand(a.view); }
    RolesInOrder(a.view.command);
  }

  lemma {:induction false} SoundCommand(view: CandidateView)
    requires view.Sound()
    ensures view.command.Valid()
  {}

  /** A target finishes exactly when every role's share has arrived: the final check
    * against the aggregate never fails, and an activated share always resolves.
    */
  lemma {:induction false} FinishSucceeds(a: Accumulator, handle: Handle)
    requires a.Valid()
    ensures a.Finish().Ok? <==> a.shares.Keys == a.view.command.RoleIds()
    ensures a.Finish().Ok? ==>
      var (receipt, pending) := (a.Finish().value.receipt, a.Finish().value.pending);
      && receipt == TargetReceipt(a.view.command.id, a.target, a.view.bytes)
      && a.view.aggregate.Evaluate(a.view.command.shape, a.target) == Ok(FromScalar(pending.share))
      && pending.Resolve(Aborted) == Ok(None)
      && pending.Resolve(Activated(handle)) == Ok(Some(InstalledShare(
          a.target, a.view.command.shape, handle, pending.share, FromScalar(pending.share), a.view.aggregate)))
  {
    hide AggregatePoints, OpensRoles, ContributionPoints.Evaluate, CandidateView.Opening, OrderedShares, Sum,
      RoleEvaluations, TargetShape.Valid;
    hide SourceSum, TargetDevices, TargetShape.TargetNode, TargetShape.Targets;
    SharesAreRoles(a);
    if a.shares.Keys == a.view.command.RoleIds() {
      SharesMatchEvaluations(a);
      AggregateIsValid(a.view.command, a.view.openings);
      TargetsHaveNodes(a.view.command.shape, a.target);
    }
  }

  // ----- contributors

  /** One unopened local contribution. */
  datatype LocalContribution = LocalContribution(
    command: CommandId, role: RoleId, block: SecretBlock, points: ContributionPoints, salt: Scalar, commitment: Scalar)
  {
    static function Sample(command: Command, spec: RoleSpec, constant: Scalar, coins: Coins,
        salt: Scalar): Result<LocalContribution>
      requires command.shape.Valid()
    {
      if FromScalar(constant) != spec.Constant() then Err(ShareMismatch)
      else
        var block := SampleBlock(command.shape, constant, coins);
        var points := block.Points();
        var _ :- points.Validate(command.shape, spec.Constant());
        var commitment :- CommitmentOf(command, Contribution.Opening(spec.Role(), points, salt));
        Ok(LocalContribution(command.id, spec.Role(), block, points, salt, commitment))
    }

    function Opening(): Opening { Contribution.Opening(role, points, salt) }

    function Share(c: Command, target: TargetId): Result<PrivateShare> {
      if command != c.id then Err(CommandMismatch)
      else
        var value :- block.Evaluate(c.shape, target);
        Ok(PrivateShare(command, role, target, value))
    }
  }

  /** An honest contributor is never refused by its own checks, its opening fits its
    * role, and every target accepts its first private delivery.
    */
  lemma {:induction false} HonestContribution(command: Command, spec: RoleSpec, constant: Scalar, coins: Coins,
      salt: Scalar)
    requires command.Valid() && spec in command.roles && FromScalar(constant) == spec.Constant()
    ensures var r := LocalContribution.Sample(command, spec, constant, coins, salt);
      && (r.Ok? <==> CommitmentOf(command,
        Contribution.Opening(spec.Role(), SampleBlock(command.shape, constant, coins).Points(), salt)).Ok?)
      && (r.Ok? ==>
        && r.value.points.Fits(command.shape, spec.Constant())
        && CommitmentOf(command, r.value.Opening()) == Ok(r.value.commitment)
        && forall t: TargetId :: t in command.shape.Targets() ==> r.value.Share(command, t).Ok?)
    ensures forall a: Accumulator, t: TargetId ::
      var r := LocalContribution.Sample(command, spec, constant, coins, salt);
      r.Ok? && a.view.command == command && a.target == t && t in command.shape.Targets()
        && a.view.Opening(spec.Role()) == Ok(r.value.Opening()) && spec.Role() !in a.shares ==>
      a.Check(r.value.Share(command, t).value).Ok?
  {
    hide SampleBlock, ContributionPoints.Fits, ContributionPoints.Evaluate, SecretBlock.Evaluate, SecretBlock.Points,
      CommitmentOf, TargetShape.Targets;
    hide CandidateView.Opening, SourceSum, TargetDevices, TargetShape.Valid, TargetShape.TargetNode;
    SampledBlockFits(command.shape, constant, coins);
    forall t: TargetId | t in command.shape.Targets() ensures command.shape.TargetNode(t).Ok? {
      TargetsHaveNodes(command.shape, t);
    }
  }

  // ----- redistribution keeps the key

  /** An installed share of a view: its scalar matches the aggregate at its target. */
  ghost predicate InstalledIn(view: CandidateView, s: InstalledShare) {
    && view.aggregate.Evaluate(view.command.shape, s.target) == Ok(FromScalar(s.share))
    && view.command.shape.TargetNode(s.target).Ok?
  }

  lemma {:induction false} ResolvedIsInstalled(a: Accumulator, handle: Handle, s: InstalledShare)
    requires a.Valid() && a.Finish().Ok? && a.Finish().value.pending.Resolve(Activated(handle)) == Ok(Some(s))
    ensures InstalledIn(a.view, s) && s.handle == handle && s.target == a.target
  {
    hide Accumulator.Finish, CandidateView.Sound, ContributionPoints.Evaluate, TargetShape.TargetNode;
    FinishSucceeds(a, handle);
  }

  /** What activation leaves with a target: its scalar lies on the block's points. */
  ghost predicate SoundShare(s: InstalledShare) {
    && s.shape.Valid()
    && (exists constant :: s.points.Fits(s.shape, constant))
    && s.shape.TargetNode(s.target).Ok?
    && s.points.Evaluate(s.shape, s.target) == Ok(FromScalar(s.share))
  }

  lemma {:induction false} ResolvedIsSound(a: Accumulator, handle: Handle, s: InstalledShare)
    requires a.Valid() && a.Finish().Ok? && a.Finish().value.pending.Resolve(Activated(handle)) == Ok(Some(s))
    ensures SoundShare(s)
  {
    hide Accumulator.Finish, CandidateView.Sound, ContributionPoints.Evaluate, TargetShape.TargetNode,
      ContributionPoints.Fits, TargetShape.Valid;
    FinishSucceeds(a, handle);
    SoundAggregate(a.view);
  }

  /** The constant of any commitments is recovered from enough shares on them. */
  lemma {:induction false} SharesInterpolate(p: seq<Element>, nodes: seq<Node>, shares: seq<Scalar>)
    requires |nodes| == |shares| && 1 <= |p| <= |nodes| && Distinct(nodes)
    requires forall i :: 0 <= i < |nodes| ==> FromScalar(shares[i]) == EvaluatePoints(p, nodes[i])
    ensures InterpolateConstant(nodes, shares) == Ok(p[0].log)
  {
    forall i | 0 <= i < |nodes| ensures shares[i] == Evaluate(Logs(p), nodes[i]) { EvaluateLogs(p, nodes[i]); }
    assert shares == Evaluations(Logs(p), nodes);
    InterpolationIsExact(nodes, Logs(p));
  }

  function Values(ss: seq<InstalledShare>): (r: seq<Scalar>)
    ensures |r| == |ss|
  {
    seq(|ss|, i requires 0 <= i < |ss| => ss[i].share)
  }

  /** A target's node; an absent target reads as node one. */
  function NodeOf(shape: TargetShape, target: TargetId): Node {
    var node := shape.TargetNode(target);
    if node.Ok? then node.value else 1
  }

  function NodesOf(shape: TargetShape, ss: seq<InstalledShare>): (r: seq<Node>)
    ensures |r| == |ss|
  {
    seq(|ss|, i requires 0 <= i < |ss| => NodeOf(shape, ss[i].target))
  }

  ghost predicate DistinctTargets(ss: seq<InstalledShare>) {
    forall i, j :: 0 <= i < j < |ss| ==> ss[i].target != ss[j].target
  }

  lemma {:induction false} DistinctDevices(s: SingleShape, d: DeviceId, e: DeviceId)
    requires s.Valid() && s.Device(d).Ok? && s.Device(e).Ok? && d != e
    ensures s.Device(d).value.node != s.Device(e).value.node
  {
    var x, y := s.Device(d).value, s.Device(e).value;
    var i :| 0 <= i < |s.devices| && s.devices[i] == x;
    var j :| 0 <= j < |s.devices| && s.devices[j] == y;
  }

  lemma {:induction false} SoundAggregate(view: CandidateView)
    requires view.Sound()
    ensures view.command.shape.Valid() && view.aggregate.Fits(view.command.shape, view.command.anchor)
  {
    hide AggregatePoints, OpensRoles, ContributionPoints.Fits, TargetShape.Valid, SourceSum, TargetDevices,
      TargetShape.Targets;
    AggregateIsValid(view.command, view.openings);
  }

  lemma {:induction false} SoundSingle(view: CandidateView)
    requires view.Sound() && view.command.shape.OneSharing?
    ensures view.aggregate.OnePolynomial?
    ensures 1 <= |view.aggregate.points| == view.command.shape.single.threshold
    ensures view.aggregate.points[0] == view.command.anchor
  {
    hide CandidateView.Sound;
    SoundAggregate(view);
  }

  lemma {:induction false} InstalledOnPolynomial(view: CandidateView, s: InstalledShare)
    requires InstalledIn(view, s) && view.command.shape.OneSharing? && view.aggregate.OnePolynomial?
    ensures s.target.SingleTarget?
    ensures FromScalar(s.share) == EvaluatePoints(view.aggregate.points, view.command.shape.TargetNode(s.target).value)
  {
    hide EvaluatePoints;
  }

  lemma {:induction false} SingleNodesDistinct(shape: TargetShape, chosen: seq<InstalledShare>)
    requires shape.Valid() && shape.OneSharing? && DistinctTargets(chosen)
    requires forall s :: s in chosen ==> shape.TargetNode(s.target).Ok?
    ensures Distinct(NodesOf(shape, chosen))
  {
    hide SingleShape.Valid;
    var nodes := NodesOf(shape, chosen);
    forall i, j | 0 <= i < j < |nodes| ensures nodes[i] != nodes[j] {
      assert chosen[i] in chosen && chosen[j] in chosen;
      DistinctDevices(shape.single, chosen[i].target.device, chosen[j].target.device);
    }
  }

  /** Same-key redistribution, one sharing: any set of at least threshold installed
    * shares of a candidate interpolates to the secret behind the anchor.
    */
  lemma {:induction false} SharingKeepsKey(view: CandidateView, chosen: seq<InstalledShare>)
    requires view.Sound() && view.command.shape.OneSharing?
    requires (forall s :: s in chosen ==> InstalledIn(view, s)) && DistinctTargets(chosen)
    requires |chosen| >= view.command.shape.single.threshold
    ensures InterpolateConstant(NodesOf(view.command.shape, chosen), Values(chosen)) == Ok(view.command.anchor.log)
  {
    hide CandidateView.Sound, EvaluatePoints, InterpolateConstant, TargetShape.TargetNode,
      ContributionPoints.Evaluate, TargetShape.Valid, DistinctTargets;
    forall s | s in chosen ensures view.command.shape.TargetNode(s.target).Ok? { assert InstalledIn(view, s); }
    hide InstalledIn;
    SoundSingle(view);
    SoundAggregate(view);
    var shape, nodes, points := view.command.shape, NodesOf(view.command.shape, chosen), view.aggregate.points;
    SingleNodesDistinct(shape, chosen);
    forall i | 0 <= i < |nodes| ensures FromScalar(Values(chosen)[i]) == EvaluatePoints(points, nodes[i]) {
      InstalledOnPolynomial(view, chosen[i]);
    }
    SharesInterpolate(points, nodes, Values(chosen));
  }

  /** Shares of one person's devices. */
  ghost predicate GroupOf(view: CandidateView, person: PersonId, group: seq<InstalledShare>) {
    && DistinctTargets(group)
    && forall s :: s in group ==> InstalledIn(view, s) && s.target.MemberTarget? && s.target.person == person
  }

  lemma {:induction false} GroupRecovers(view: CandidateView, person: PersonId, group: seq<InstalledShare>)
    requires view.Sound() && view.command.shape.TwoTier?
    requires var found := view.command.shape.outer.Person(person);
      found.Ok? && |group| >= found.value.inner.threshold
    requires GroupOf(view, person, group)
    ensures InterpolateConstant(NodesOf(view.command.shape, group), Values(group)).Ok?
    ensures Element(InterpolateConstant(NodesOf(view.command.shape, group), Values(group)).value)
      == EvaluatePoints(view.aggregate.outer, view.command.shape.outer.Person(person).value.node)
  {
    hide AggregatePoints, OpensRoles, EvaluatePoints, InterpolateConstant, SourceSum, TargetDevices;
    var shape, nodes := view.command.shape, NodesOf(view.command.shape, group);
    var t := shape.outer.Person(person).value;
    SoundAggregate(view);
    var aggregate := view.aggregate;
    assert t.inner.Valid();
    forall i, j | 0 <= i < j < |nodes| ensures nodes[i] != nodes[j] {
      assert InstalledIn(view, group[i]) && InstalledIn(view, group[j]) && group[i].target != group[j].target;
      DistinctDevices(t.inner, group[i].target.device, group[j].target.device);
    }
    forall i | 0 <= i < |aggregate.members| ensures aggregate.members[i].person == shape.outer.people[i].person {
      assert MemberFits(aggregate.members[i], shape.outer.people[i], aggregate.outer);
    }
    FindMember(aggregate.members, shape.outer.people, person);
    var at := Find(aggregate.members, MemberKey, person).value;
    assert MemberFits(aggregate.members[at], shape.outer.people[at], aggregate.outer);
    forall i | 0 <= i < |nodes|
      ensures FromScalar(Values(group)[i]) == EvaluatePoints(aggregate.members[at].points, nodes[i]) {
      assert InstalledIn(view, group[i]);
    }
    SharesInterpolate(aggregate.members[at].points, nodes, Values(group));
  }

  /** The outer nodes of some people of a shape. */
  function PeopleNodes(shape: OuterShape, people: seq<PersonId>): (r: seq<Node>)
    requires forall p :: p in people ==> shape.Person(p).Ok?
    ensures |r| == |people|
  {
    seq(|people|, i requires 0 <= i < |people| => shape.Person(people[i]).value.node)
  }

  /** Same-key redistribution, two tiers: any outer threshold of people, each with any
    * inner threshold of devices, recovers first the member secrets and from them the
    * secret behind the anchor.
    */
  lemma {:induction false} NestedSharingKeepsKey(view: CandidateView, people: seq<PersonId>,
      groups: seq<seq<InstalledShare>>, members: seq<Scalar>)
    requires view.Sound() && view.command.shape.TwoTier?
    requires |people| == |groups| == |members| >= view.command.shape.outer.threshold
    requires NoRepeats(people) && forall p :: p in people ==> view.command.shape.outer.Person(p).Ok?
    requires forall i :: 0 <= i < |people| ==>
      && GroupOf(view, people[i], groups[i])
      && |groups[i]| >= view.command.shape.outer.Person(people[i]).value.inner.threshold
      && InterpolateConstant(NodesOf(view.command.shape, groups[i]), Values(groups[i])) == Ok(members[i])
    ensures InterpolateConstant(PeopleNodes(view.command.shape.outer, people), members) == Ok(view.command.anchor.log)
  {
    hide AggregatePoints, OpensRoles, EvaluatePoints, InterpolateConstant, SourceSum, TargetDevices, GroupOf;
    var shape, nodes := view.command.shape.outer, PeopleNodes(view.command.shape.outer, people);
    SoundAggregate(view);
    forall i, j | 0 <= i < j < |nodes| ensures nodes[i] != nodes[j] {
      DistinctPeople(shape, people[i], people[j]);
    }
    forall i | 0 <= i < |nodes| ensures FromScalar(members[i]) == EvaluatePoints(view.aggregate.outer, nodes[i]) {
      GroupRecovers(view, people[i], groups[i]);
    }
    SharesInterpolate(view.aggregate.outer, nodes, members);
  }

  lemma {:induction false} DistinctPeople(s: OuterShape, p: PersonId, q: PersonId)
    requires s.Valid() && s.Person(p).Ok? && s.Person(q).Ok? && p != q
    ensures s.Person(p).value.node != s.Person(q).value.node
  {
    var x, y := s.Person(p).value, s.Person(q).value;
    var i :| 0 <= i < |s.people| && s.people[i] == x;
    var j :| 0 <= j < |s.people| && s.people[j] == y;
  }
}

/** Contribution polynomials and their public points (src/dealing/contribution.rs). */
module Contribution {
  import opened Results
  import opened Field
  import opened Sorting
  import opened Algebra
  import opened Shamir
  import opened Ids
  import opened Shape

  // ----- public points

  datatype MemberPoints = MemberPoints(person: PersonId, points: seq<Element>)

  function MemberKey(m: MemberPoints): int { m.person }

  /** Public coefficient points: one polynomial, or an outer polynomial with the
    * inner polynomials linked to it.
    */
  datatype ContributionPoints = OnePolynomial(points: seq<Element>) | Linked(outer: seq<Element>,
    members: seq<MemberPoints>)
  {
    /** Degrees, the required constant and, on two tiers, the linkage. */
    predicate Fits(shape: TargetShape, constant: Element) {
      match (this, shape)
      case (OnePolynomial(points), OneSharing(target)) =>
        |points| == target.threshold && points != [] && points[0] == constant
      case (Linked(outer, members), TwoTier(target)) =>
        && |outer| == target.threshold && outer != [] && outer[0] == constant
        && |members| == |target.people|
        && forall i :: 0 <= i < |members| ==> MemberFits(members[i], target.people[i], outer)
      case _ => false
    }

    function Validate(shape: TargetShape, constant: Element): Result<()> {
      Need(Fits(shape, constant), SupportMismatch)
    }

    function Evaluate(shape: TargetShape, target: TargetId): Result<Element> {
      var node :- shape.TargetNode(target);
      match (this, target)
      case (OnePolynomial(points), SingleTarget(_)) => Ok(EvaluatePoints(points, node))
      case (Linked(_, members), MemberTarget(person, _)) =>
        var i := Find(members, MemberKey, person);
        if i.Some? then Ok(EvaluatePoints(members[i.value].points, node)) else Err(ParticipantNotFound)
      case _ => Err(ParticipantMismatch)
    }

    function Constant(): Result<Element> {
      var points := if OnePolynomial? then points else outer;
      if points == [] then Err(EmptyInput) else Ok(points[0])
    }

    function MemberConstant(person: PersonId): Result<Element> {
      if OnePolynomial? then Err(SupportMismatch)
      else
        var i := Find(members, MemberKey, person);
        if i.None? then Err(ParticipantNotFound)
        else if members[i.value].points == [] then Err(EmptyInput)
        else Ok(members[i.value].points[0])
    }

    function Add(other: ContributionPoints): Result<ContributionPoints> {
      match (this, other)
      case (OnePolynomial(left), OnePolynomial(right)) =>
        var sum :- AddPoints(left, right);
        Ok(OnePolynomial(sum))
      case (Linked(leftOuter, left), Linked(rightOuter, right)) =>
        var outer :- AddPoints(leftOuter, rightOuter);
        if |left| != |right| then Err(LengthMismatch)
        else
          var members :- AddMembers(left, right);
          Ok(Linked(outer, members))
      case _ => Err(SupportMismatch)
    }
  }

  predicate MemberFits(m: MemberPoints, target: OuterTarget, outer: seq<Element>) {
    && m.person == target.person
    && |m.points| == target.inner.threshold
    && m.points != [] && m.points[0] == EvaluatePoints(outer, target.node)
  }

  function SumOf(left: seq<Element>, right: seq<Element>): (r: seq<Element>)
    requires |left| == |right|
    ensures |r| == |left|
  {
    seq(|left|, i requires 0 <= i < |left| => Plus(left[i], right[i]))
  }

  function AddPoints(left: seq<Element>, right: seq<Element>): Result<seq<Element>> {
    if |left| != |right| then Err(LengthMismatch) else Ok(SumOf(left, right))
  }

  /** Adds `right` to `left` in place. */
  method AddPointsInPlace(left: array<Element>, right: seq<Element>) returns (r: Result<()>)
    modifies left
    ensures r == if left.Length == |right| then Ok(()) else Err(LengthMismatch)
    ensures r.Ok? ==> AddPoints(old(left[..]), right) == Ok(left[..])
    ensures r.Err? ==> left[..] == old(left[..])
  {
    if left.Length != |right| { return Err(LengthMismatch); }
    for i := 0 to left.Length
      invariant forall k :: 0 <= k < i ==> left[k] == Plus(old(left[k]), right[k])
      invariant forall k :: i <= k < left.Length ==> left[k] == old(left[k])
    {
      left[i] := Plus(left[i], right[i]);
    }
    assert SumOf(old(left[..]), right) == left[..];
    return Ok(());
  }

  /** Member by member, left to right. */
  function AddMembers(left: seq<MemberPoints>, right: seq<MemberPoints>): (r: Result<seq<MemberPoints>>)
    requires |left| == |right|
    ensures r.Ok? ==> |r.value| == |left|
  {
    if left == [] then Ok([])
    else
      var n := |left| - 1;
      var front :- AddMembers(left[..n], right[..n]);
      if left[n].person != right[n].person then Err(ParticipantMismatch)
      else
        var points :- AddPoints(left[n].points, right[n].points);
        Ok(front + [MemberPoints(left[n].person, points)])
  }

  // ----- adding points adds polynomials

  lemma {:induction false} EvaluateSum(left: seq<Element>, right: seq<Element>, x: Scalar)
    requires |left| == |right|
    ensures EvaluatePoints(SumOf(left, right), x) == Plus(EvaluatePoints(left, x), EvaluatePoints(right, x))
  {
    EvaluateLogs(left, x);
    EvaluateLogs(right, x);
    EvaluateLogs(SumOf(left, right), x);
    EvaluateAdd(Logs(left), Logs(right), Logs(SumOf(left, right)), x);
  }

  lemma {:induction false} AddMembersPointwise(left: seq<MemberPoints>, right: seq<MemberPoints>)
    requires |left| == |right|
    requires forall i :: 0 <= i < |left| ==> left[i].person == right[i].person && |left[i].points| == |right[i].points|
    ensures AddMembers(left, right).Ok?
    ensures forall i :: 0 <= i < |left| ==>
      AddMembers(left, right).value[i] == MemberPoints(left[i].person, SumOf(left[i].points, right[i].points))
  {
    if left != [] { AddMembersPointwise(left[..|left| - 1], right[..|left| - 1]); }
  }

  lemma {:induction false} SumFits(left: MemberPoints, right: MemberPoints, target: OuterTarget, p: seq<Element>,
      q: seq<Element>)
    requires |p| == |q| && MemberFits(left, target, p) && MemberFits(right, target, q)
    ensures MemberFits(MemberPoints(left.person, SumOf(left.points, right.points)), target, SumOf(p, q))
  {
    hide EvaluatePoints;
    EvaluateSum(p, q, target.node);
  }

  lemma {:induction false} MembersAdd(left: seq<MemberPoints>, right: seq<MemberPoints>, people: seq<OuterTarget>,
      p: seq<Element>, q: seq<Element>)
    requires |left| == |right| == |people| && |p| == |q|
    requires forall i :: 0 <= i < |people| ==> MemberFits(left[i], people[i], p) && MemberFits(right[i], people[i], q)
    ensures AddMembers(left, right).Ok?
    ensures var sum := AddMembers(left, right).value;
      forall i :: 0 <= i < |people| ==>
        && MemberFits(sum[i], people[i], SumOf(p, q))
        && |left[i].points| == |right[i].points|
        && sum[i].points == SumOf(left[i].points, right[i].points)
  {
    hide EvaluatePoints, Plus, SumOf, AddMembers;
    AddMembersPointwise(left, right);
    forall i | 0 <= i < |people|
      ensures MemberFits(AddMembers(left, right).value[i], people[i], SumOf(p, q))
    {
      SumFits(left[i], right[i], people[i], p, q);
    }
  }

  lemma {:induction false} FindMember(members: seq<MemberPoints>, people: seq<OuterTarget>, person: PersonId)
    requires |members| == |people| && forall i :: 0 <= i < |people| ==> members[i].person == people[i].person
    ensures Find(members, MemberKey, person) == Find(people, OuterTargetKey, person)
  {
    if people != [] { FindMember(members[1..], people[1..], person); }
  }

  /** The coefficients that a target's share lies on. */
  function PolynomialFor(p: ContributionPoints, target: TargetId): seq<Element> {
    match (p, target)
    case (OnePolynomial(points), SingleTarget(_)) => points
    case (Linked(_, members), MemberTarget(person, _)) =>
      var i := Find(members, MemberKey, person);
      if i.Some? then members[i.value].points else []
    case _ => []
  }

  lemma {:induction false} FittingEvaluates(p: ContributionPoints, shape: TargetShape, constant: Element,
      target: TargetId)
    requires p.Fits(shape, constant) && shape.TargetNode(target).Ok?
    ensures p.Evaluate(shape, target) == Ok(EvaluatePoints(PolynomialFor(p, target), shape.TargetNode(target).value))
  {
    hide EvaluatePoints;
    if p.Linked? && target.MemberTarget? {
      forall i | 0 <= i < |p.members| ensures p.members[i].person == shape.outer.people[i].person {
        assert MemberFits(p.members[i], shape.outer.people[i], p.outer);
      }
      FindMember(p.members, shape.outer.people, target.person);
    }
  }

  /** A target's evaluation, or the identity if it has none. */
  function PointAt(p: ContributionPoints, shape: TargetShape, target: TargetId): Element {
    var e := p.Evaluate(shape, target);
    if e.Ok? then e.value else IDENTITY
  }

  lemma {:induction false} FittingSum(p: ContributionPoints, q: ContributionPoints, shape: TargetShape, c: Element,
      d: Element)
    requires p.Fits(shape, c) && q.Fits(shape, d)
    ensures p.Add(q).Ok? && p.Add(q).value.Fits(shape, Plus(c, d))
  {
    hide EvaluatePoints, MemberFits, Plus;
    if p.Linked? {
      MembersAdd(p.members, q.members, shape.outer.people, p.outer, q.outer);
    }
  }

  /** Contributions that fit one shape add up to a contribution that fits it, with
    * the sum of the constants and of every evaluation.
    */
  lemma {:induction false} FittingAdd(p: ContributionPoints, q: ContributionPoints, shape: TargetShape, c: Element,
      d: Element)
    requires p.Fits(shape, c) && q.Fits(shape, d)
    ensures p.Add(q).Ok? && p.Add(q).value.Fits(shape, Plus(c, d))
    ensures forall t: TargetId :: shape.TargetNode(t).Ok? ==>
      p.Add(q).value.Evaluate(shape, t) == Ok(Plus(PointAt(p, shape, t), PointAt(q, shape, t)))
  {
    hide EvaluatePoints, ContributionPoints.Fits, Plus, ContributionPoints.Add, ContributionPoints.Evaluate,
      PolynomialFor, TargetShape.TargetNode;
    FittingSum(p, q, shape, c, d);
    var sum := p.Add(q).value;
    forall t: TargetId | shape.TargetNode(t).Ok?
      ensures sum.Evaluate(shape, t) == Ok(Plus(PointAt(p, shape, t), PointAt(q, shape, t)))
    {
      FittingEvaluates(p, shape, c, t);
      FittingEvaluates(q, shape, d, t);
      FittingEvaluates(sum, shape, Plus(c, d), t);
      SumPolynomialFor(p, q, shape, c, d, t);
      EvaluateSum(PolynomialFor(p, t), PolynomialFor(q, t), shape.TargetNode(t).value);
    }
  }

  lemma {:induction false} SumPolynomialFor(p: ContributionPoints, q: ContributionPoints, shape: TargetShape,
      c: Element, d: Element, t: TargetId)
    requires p.Fits(shape, c) && q.Fits(shape, d) && shape.TargetNode(t).Ok?
    requires p.Add(q).Ok? && p.Add(q).value.Fits(shape, Plus(c, d))
    ensures |PolynomialFor(p, t)| == |PolynomialFor(q, t)|
    ensures PolynomialFor(p.Add(q).value, t) == SumOf(PolynomialFor(p, t), PolynomialFor(q, t))
  {
    hide EvaluatePoints, Plus;
    if p.Linked? {
      var people, sum := shape.outer.people, p.Add(q).value.members;
      MembersAdd(p.members, q.members, people, p.outer, q.outer);
      forall i | 0 <= i < |people|
        ensures p.members[i].person == q.members[i].person == sum[i].person == people[i].person
      {
        assert MemberFits(p.members[i], people[i], p.outer) && MemberFits(q.members[i], people[i], q.outer);
        assert MemberFits(sum[i], people[i], SumOf(p.outer, q.outer));
      }
      FindMember(p.members, people, t.person);
      FindMember(q.members, people, t.person);
      FindMember(sum, people, t.person);
    }
  }

  // ----- openings

  /** An opened contribution. */
  datatype Opening = Opening(role: RoleId, points: ContributionPoints, salt: Scalar)

  function AggregatePoints(openings: seq<Opening>): Result<ContributionPoints> {
    if openings == [] then Err(EmptyInput)
    else
      var n := |openings| - 1;
      if n == 0 then Ok(openings[0].points)
      else
        var front :- AggregatePoints(openings[..n]);
        front.Add(openings[n].points)
  }

  /** The running sum of all openings. */
  method Aggregate(openings: seq<Opening>) returns (r: Result<ContributionPoints>)
    ensures r == AggregatePoints(openings)
  {
    hide ContributionPoints.Add;
    if openings == [] { return Err(EmptyInput); }
    var aggregate := openings[0].points;
    for i := 1 to |openings|
      invariant AggregatePoints(openings[..i]) == Ok(aggregate)
    {
      assert openings[..i + 1][..i] == openings[..i];
      var sum := aggregate.Add(openings[i].points);
      if sum.Err? {
        AggregateFailureStays(openings, i + 1);
        return sum;
      }
      aggregate := sum.value;
    }
    assert openings[..|openings|] == openings;
    return Ok(aggregate);
  }

  lemma {:induction false} AggregateFailureStays(openings: seq<Opening>, n: nat)
    requires 0 < n <= |openings| && AggregatePoints(openings[..n]).Err?
    ensures AggregatePoints(openings) == AggregatePoints(openings[..n])
  {
    hide ContributionPoints.Add;
    if n < |openings| {
      var m := |openings| - 1;
      assert openings[..m][..n] == openings[..n];
      AggregateFailureStays(openings[..m], n);
    } else {
      assert openings[..n] == openings;
    }
  }

  /** One opening for each role, each fitting its role constant. */
  ghost predicate OpensRoles(shape: TargetShape, roles: seq<RoleSpec>, openings: seq<Opening>) {
    && |openings| == |roles|
    && forall i :: 0 <= i < |roles| ==>
      openings[i].role == roles[i].Role() && openings[i].points.Fits(shape, roles[i].Constant())
  }

  /** What each opening contributes to a target. */
  function RoleEvaluations(shape: TargetShape, openings: seq<Opening>, target: TargetId): (r: seq<Element>)
    ensures |r| == |openings|
  {
    seq(|openings|, i requires 0 <= i < |openings| => PointAt(openings[i].points, shape, target))
  }

  lemma {:induction false} TotalOne(e: Element)
    ensures Total([e]) == e
  {
    assert [e][..0] == [];
    AddZero(e.log);
  }

  lemma {:induction false} OpeningsAdd(shape: TargetShape, roles: seq<RoleSpec>, openings: seq<Opening>)
    requires roles != [] && OpensRoles(shape, roles, openings)
    ensures AggregatePoints(openings).Ok? && AggregatePoints(openings).value.Fits(shape, Total(Constants(roles)))
    ensures forall t: TargetId :: shape.TargetNode(t).Ok? ==>
      AggregatePoints(openings).value.Evaluate(shape, t) == Ok(Total(RoleEvaluations(shape, openings, t)))
  {
    hide ContributionPoints.Fits, ContributionPoints.Add, ContributionPoints.Evaluate, Plus, RoleSpec.Constant,
      TargetShape.TargetNode;
    var n := |roles| - 1;
    assert openings[n].points.Fits(shape, roles[n].Constant());
    forall t: TargetId | shape.TargetNode(t).Ok? ensures openings[n].points.Evaluate(shape, t).Ok? {
      FittingEvaluates(openings[n].points, shape, roles[n].Constant(), t);
    }
    if n == 0 {
      TotalOne(roles[0].Constant());
      assert Constants(roles) == [roles[0].Constant()];
      forall t: TargetId | shape.TargetNode(t).Ok?
        ensures AggregatePoints(openings).value.Evaluate(shape, t) == Ok(Total(RoleEvaluations(shape, openings, t)))
      {
        var e := openings[0].points.Evaluate(shape, t).value;
        assert RoleEvaluations(shape, openings, t) == [e];
        TotalOne(e);
      }
    } else {
      OpeningsAdd(shape, roles[..n], openings[..n]);
      assert Constants(roles)[..n] == Constants(roles[..n]);
      var front := AggregatePoints(openings[..n]).value;
      FittingAdd(front, openings[n].points, shape, Total(Constants(roles[..n])), roles[n].Constant());
      forall t: TargetId | shape.TargetNode(t).Ok?
        ensures AggregatePoints(openings).value.Evaluate(shape, t) == Ok(Total(RoleEvaluations(shape, openings, t)))
      {
        assert RoleEvaluations(shape, openings, t)[..n] == RoleEvaluations(shape, openings[..n], t);
      }
    }
  }

  /** The openings of an accepted command always aggregate, to points that are valid
    * for the anchor, and every target evaluation is the sum of the role evaluations.
    */
  lemma {:induction false} AggregateIsValid(command: Command, openings: seq<Opening>)
    requires command.Valid() && OpensRoles(command.shape, command.roles, openings)
    ensures AggregatePoints(openings).Ok?
    ensures AggregatePoints(openings).value.Validate(command.shape, command.anchor).Ok?
    ensures forall t: TargetId :: t in command.shape.Targets() ==>
      AggregatePoints(openings).value.Evaluate(command.shape, t) ==
        Ok(Total(RoleEvaluations(command.shape, openings, t)))
  {
    hide OpensRoles, ContributionPoints.Fits, AggregatePoints, RoleEvaluations, ContributionPoints.Evaluate,
      SourceSum, TargetShape.Targets, TargetShape.TargetNode, TargetDevices;
    ConstantsTotal(command.roles);
    OpeningsAdd(command.shape, command.roles, openings);
    forall t: TargetId | t in command.shape.Targets() ensures command.shape.TargetNode(t).Ok? {
      TargetsHaveNodes(command.shape, t);
    }
  }

  // ----- secret blocks

  datatype MemberPolynomial = MemberPolynomial(person: PersonId, coefficients: seq<Scalar>)

  function PolynomialKey(m: MemberPolynomial): int { m.person }

  function Commitments(p: seq<Scalar>): (r: seq<Element>)
    ensures |r| == |p|
  {
    seq(|p|, i requires 0 <= i < |p| => FromScalar(p[i]))
  }

  function CommitAll(ms: seq<MemberPolynomial>): (r: seq<MemberPoints>)
    ensures |r| == |ms|
  {
    seq(|ms|, i requires 0 <= i < |ms| => MemberPoints(ms[i].person, Commitments(ms[i].coefficients)))
  }

  /** The secret polynomials of one contribution. */
  datatype SecretBlock = OneSecret(polynomial: seq<Scalar>) | LinkedSecrets(outer: seq<Scalar>,
    members: seq<MemberPolynomial>)
  {
    function Points(): ContributionPoints {
      match this
      case OneSecret(p) => OnePolynomial(Commitments(p))
      case LinkedSecrets(outer, members) => Linked(Commitments(outer), CommitAll(members))
    }

    function Evaluate(shape: TargetShape, target: TargetId): Result<Scalar> {
      var node :- shape.TargetNode(target);
      match (this, target)
      case (OneSecret(p), SingleTarget(_)) => Ok(Shamir.Evaluate(p, node))
      case (LinkedSecrets(_, members), MemberTarget(person, _)) =>
        var i := Find(members, PolynomialKey, person);
        if i.Some? then Ok(Shamir.Evaluate(members[i.value].coefficients, node)) else Err(ParticipantNotFound)
      case _ => Err(ParticipantMismatch)
    }
  }

  /** A stream of random scalars, consumed in order. */
  type Coins = nat -> Scalar

  /** A sampled polynomial: the constant, then the next coins. */
  function SamplePolynomial(threshold: nat, constant: Scalar, coins: Coins, at: nat): (r: seq<Scalar>)
    requires threshold > 0
    ensures |r| == threshold && r[0] == constant
  {
    [constant] + seq(threshold - 1, i requires 0 <= i < threshold - 1 => coins(at + i))
  }

  /** The linked polynomials of the people, each starting at the outer evaluation. */
  function SampleMembers(people: seq<OuterTarget>, outer: seq<Scalar>, coins: Coins,
      at: nat): (r: seq<MemberPolynomial>)
    requires forall t :: t in people ==> t.inner.threshold > 0
    ensures |r| == |people|
    decreases |people|
  {
    if people == [] then []
    else
      var t := people[0];
      [MemberPolynomial(t.person, SamplePolynomial(t.inner.threshold, Shamir.Evaluate(outer, t.node), coins, at))]
        + SampleMembers(people[1..], outer, coins, at + t.inner.threshold - 1)
  }

  /** The sampled block, reading coins from the start of the stream. */
  function SampleBlock(shape: TargetShape, constant: Scalar, coins: Coins): SecretBlock
    requires shape.Valid()
  {
    match shape
    case OneSharing(target) => OneSecret(SamplePolynomial(target.threshold, constant, coins, 0))
    case TwoTier(target) =>
      var outer := SamplePolynomial(target.threshold, constant, coins, 0);
      LinkedSecrets(outer, SampleMembers(target.people, outer, coins, target.threshold - 1))
  }

  method Sample(shape: TargetShape, constant: Scalar, coins: Coins) returns (block: SecretBlock)
    requires shape.Valid()
    ensures block == SampleBlock(shape, constant, coins)
  {
    match shape
    case OneSharing(target) =>
      block := OneSecret(SamplePolynomial(target.threshold, constant, coins, 0));
    case TwoTier(target) =>
      var outer := SamplePolynomial(target.threshold, constant, coins, 0);
      var at := target.threshold - 1;
      var members: seq<MemberPolynomial> := [];
      for i := 0 to |target.people|
        invariant at >= 0
        invariant SampleMembers(target.people, outer, coins, target.threshold - 1)
          == members + SampleMembers(target.people[i..], outer, coins, at)
      {
        var t := target.people[i];
        assert t.inner.Valid();
        members := members + [MemberPolynomial(t.person,
          SamplePolynomial(t.inner.threshold, Shamir.Evaluate(outer, t.node), coins, at))];
        assert target.people[i..][1..] == target.people[i + 1..];
        at := at + t.inner.threshold - 1;
      }
      block := LinkedSecrets(outer, members);
  }

  lemma {:induction false} CommitEvaluate(p: seq<Scalar>, x: Scalar)
    ensures EvaluatePoints(Commitments(p), x) == FromScalar(Shamir.Evaluate(p, x))
  {
    EvaluateLogs(Commitments(p), x);
    assert Logs(Commitments(p)) == p;
  }

  lemma {:induction false} SampledMembersFit(people: seq<OuterTarget>, outer: seq<Scalar>, coins: Coins, at: nat)
    requires forall t :: t in people ==> t.inner.threshold > 0
    ensures var ms := SampleMembers(people, outer, coins, at);
      forall i :: 0 <= i < |people| ==> MemberFits(CommitAll(ms)[i], people[i], Commitments(outer))
  {
    if people != [] {
      var t, ms := people[0], SampleMembers(people, outer, coins, at);
      SampledMembersFit(people[1..], outer, coins, at + t.inner.threshold - 1);
      CommitEvaluate(outer, t.node);
      forall i | 0 <= i < |people| ensures MemberFits(CommitAll(ms)[i], people[i], Commitments(outer)) {
        if i > 0 { assert CommitAll(ms)[i] == CommitAll(ms[1..])[i - 1]; }
      }
    }
  }

  lemma {:induction false} FindPolynomial(ms: seq<MemberPolynomial>, person: PersonId)
    ensures Find(CommitAll(ms), MemberKey, person) == Find(ms, PolynomialKey, person)
  {
    if ms != [] {
      FindPolynomial(ms[1..], person);
      assert CommitAll(ms)[1..] == CommitAll(ms[1..]);
    }
  }

  /** A sampled contribution fits its constant, and the private share of every
    * target matches the public evaluation.
    */
  lemma {:induction false} SampledBlockFits(shape: TargetShape, constant: Scalar, coins: Coins)
    requires shape.Valid()
    ensures var block := SampleBlock(shape, constant, coins);
      && block.Points().Fits(shape, FromScalar(constant))
      && forall t: TargetId :: shape.TargetNode(t).Ok? ==>
        && block.Evaluate(shape, t).Ok?
        && block.Points().Evaluate(shape, t) == Ok(FromScalar(block.Evaluate(shape, t).value))
  {
    hide EvaluatePoints, Shamir.Evaluate, SampleMembers, SamplePolynomial, MemberFits;
    var block := SampleBlock(shape, constant, coins);
    if shape.TwoTier? {
      forall t | t in shape.outer.people ensures t.inner.threshold > 0 { assert t.inner.Valid(); }
      SampledMembersFit(shape.outer.people, block.outer, coins, shape.outer.threshold - 1);
    }
    assert block.Points().Fits(shape, FromScalar(constant));
    forall t: TargetId | shape.TargetNode(t).Ok?
      ensures block.Evaluate(shape, t).Ok?
      ensures block.Points().Evaluate(shape, t) == Ok(FromScalar(block.Evaluate(shape, t).value))
    {
      ShareMatchesPoint(block, shape, FromScalar(constant), t);
    }
  }

  lemma {:induction false} ShareMatchesPoint(block: SecretBlock, shape: TargetShape, constant: Element, t: TargetId)
    requires block.Points().Fits(shape, constant) && shape.TargetNode(t).Ok?
    ensures block.Evaluate(shape, t).Ok?
    ensures block.Points().Evaluate(shape, t) == Ok(FromScalar(block.Evaluate(shape, t).value))
  {
    hide EvaluatePoints, Shamir.Evaluate;
    var node := shape.TargetNode(t).value;
    FittingEvaluates(block.Points(), shape, constant, t);
    match (block, t)
    case (OneSecret(p), SingleTarget(_)) =>
      CommitEvaluate(p, node);
    case (LinkedSecrets(outer, members), MemberTarget(person, _)) =>
      FindPolynomial(members, person);
      forall i | 0 <= i < |members| ensures CommitAll(members)[i].person == shape.outer.people[i].person {
        assert MemberFits(CommitAll(members)[i], shape.outer.people[i], Commitments(outer));
      }
      FindMember(CommitAll(members), shape.outer.people, person);
      var i := Find(members, PolynomialKey, person);
      CommitEvaluate(members[i.value].coefficients, node);
    case _ => {}
  }
}

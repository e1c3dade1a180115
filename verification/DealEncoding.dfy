/** Canonical bytes of redistribution data (src/dealing/shape.rs,
  * src/dealing/contribution.rs, src/dealing/target.rs).
  */
module DealEncoding {
  import opened Results
  import opened Field
  import opened Algebra
  import opened Shamir
  import opened Ids
  import opened Encoding
  import opened Hashes
  import opened Shape
  import opened Contribution

  // ----- roles and targets

  function ToRole(x: Either<Id, Id>): RoleId { match x case Left(d) => Source(d) case Right(d) => Refresher(d) }
  function FromRole(r: RoleId): Either<Id, Id> { match r case Source(d) => Left(d) case Refresher(d) => Right(d) }
  function RoleField(): Codec<RoleId> { Map(Choice(IdField(), IdField()), ToRole, FromRole) }

  function ToTarget(x: Either<Id, (Id, Id)>): TargetId {
    match x case Left(d) => SingleTarget(d) case Right(t) => MemberTarget(t.0, t.1)
  }
  function FromTarget(t: TargetId): Either<Id, (Id, Id)> {
    match t case SingleTarget(d) => Left(d) case MemberTarget(p, d) => Right((p, d))
  }
  function TargetField(): Codec<TargetId> { Map(Choice(IdField(), Then(IdField(), IdField())), ToTarget, FromTarget) }

  lemma {:induction false} IdentifiersLawful()
    ensures RoleField().Lawful() && TargetField().Lawful()
  {
    hide Codec.Lawful, IdField;
    FieldsLawful();
    ChoiceLawful(IdField(), IdField());
    ThenLawful(IdField(), IdField());
    ChoiceLawful(IdField(), Then(IdField(), IdField()));
    MapLawful(Choice(IdField(), IdField()), ToRole, FromRole);
    MapLawful(Choice(IdField(), Then(IdField(), IdField())), ToTarget, FromTarget);
  }

  lemma {:induction false} IdentifiersFit()
    ensures forall r: RoleId :: RoleField().wf(r)
    ensures forall t: TargetId :: TargetField().wf(t)
  {
    FieldsFit();
    hide IdField;
    forall r: RoleId ensures RoleField().wf(r) { assert Choice(IdField(), IdField()).wf(FromRole(r)); }
    forall t: TargetId ensures TargetField().wf(t) {
      assert Choice(IdField(), Then(IdField(), IdField())).wf(FromTarget(t));
    }
  }

  function RoleBytes(r: RoleId): bytes { RoleField().enc(r) }
  function TargetBytes(t: TargetId): bytes { TargetField().enc(t) }

  /** Distinct roles, and distinct targets, have distinct log keys. */
  lemma {:induction false} IdentifiersInjective()
    ensures forall a: RoleId, b: RoleId :: RoleBytes(a) == RoleBytes(b) ==> a == b
    ensures forall a: TargetId, b: TargetId :: TargetBytes(a) == TargetBytes(b) ==> a == b
  {
    hide Codec.Lawful, RoleField, TargetField;
    IdentifiersLawful();
    IdentifiersFit();
    forall a: RoleId, b: RoleId | RoleBytes(a) == RoleBytes(b) ensures a == b {
      RoleField().Injective(a, [], b, []);
    }
    forall a: TargetId, b: TargetId | TargetBytes(a) == TargetBytes(b) ensures a == b {
      TargetField().Injective(a, [], b, []);
    }
  }

  // ----- commands

  function ToTargetDevice(x: (Id, Node)): TargetDevice { TargetDevice(x.0, x.1) }
  function FromTargetDevice(d: TargetDevice): (Id, Node) { (d.device, d.node) }
  function TargetDeviceField(): Codec<TargetDevice> {
    Map(Then(IdField(), NodeField()), ToTargetDevice, FromTargetDevice)
  }

  function ToSingle(x: (U16, seq<TargetDevice>)): SingleShape { SingleShape(x.0, x.1) }
  function FromSingle(s: SingleShape): (U16, seq<TargetDevice>) { (s.threshold, s.devices) }
  function SingleField(): Codec<SingleShape> {
    Map(Then(U16Field(), Counted(2, 0, TargetDeviceField())), ToSingle, FromSingle)
  }

  function ToOuterTarget(x: (Id, (Node, SingleShape))): OuterTarget { OuterTarget(x.0, x.1.0, x.1.1) }
  function FromOuterTarget(t: OuterTarget): (Id, (Node, SingleShape)) { (t.person, (t.node, t.inner)) }
  function OuterTargetField(): Codec<OuterTarget> {
    Map(Then(IdField(), Then(NodeField(), SingleField())), ToOuterTarget, FromOuterTarget)
  }

  function ToOuter(x: (U16, seq<OuterTarget>)): OuterShape { OuterShape(x.0, x.1) }
  function FromOuter(s: OuterShape): (U16, seq<OuterTarget>) { (s.threshold, s.people) }
  function OuterField(): Codec<OuterShape> {
    Map(Then(U16Field(), Counted(2, 0, OuterTargetField())), ToOuter, FromOuter)
  }

  function ToShape(x: Either<SingleShape, OuterShape>): TargetShape {
    match x case Left(s) => OneSharing(s) case Right(s) => TwoTier(s)
  }
  function FromShape(s: TargetShape): Either<SingleShape, OuterShape> {
    match s case OneSharing(s) => Left(s) case TwoTier(s) => Right(s)
  }
  function ShapeField(): Codec<TargetShape> { Map(Choice(SingleField(), OuterField()), ToShape, FromShape) }

  lemma {:induction false} SingleFieldLawful()
    ensures SingleField().Lawful()
  {
    hide Codec.Lawful, IdField, NodeField, U16Field;
    FieldsLawful();
    NodeLawful();
    ThenLawful(IdField(), NodeField());
    MapLawful(Then(IdField(), NodeField()), ToTargetDevice, FromTargetDevice);
    CountedLawful(2, 0, TargetDeviceField());
    ThenLawful(U16Field(), Counted(2, 0, TargetDeviceField()));
    MapLawful(Then(U16Field(), Counted(2, 0, TargetDeviceField())), ToSingle, FromSingle);
  }

  lemma {:induction false} ShapeFieldLawful()
    ensures ShapeField().Lawful()
  {
    hide Codec.Lawful, IdField, NodeField, U16Field, SingleField;
    FieldsLawful();
    NodeLawful();
    SingleFieldLawful();
    ThenLawful(NodeField(), SingleField());
    ThenLawful(IdField(), Then(NodeField(), SingleField()));
    MapLawful(Then(IdField(), Then(NodeField(), SingleField())), ToOuterTarget, FromOuterTarget);
    CountedLawful(2, 0, OuterTargetField());
    ThenLawful(U16Field(), Counted(2, 0, OuterTargetField()));
    MapLawful(Then(U16Field(), Counted(2, 0, OuterTargetField())), ToOuter, FromOuter);
    ChoiceLawful(SingleField(), OuterField());
    MapLawful(Choice(SingleField(), OuterField()), ToShape, FromShape);
  }

  /** The counts that the encoder writes in two bytes. */
  predicate ShapeCounts(s: TargetShape) {
    match s
    case OneSharing(s) => |s.devices| < U16_LIMIT
    case TwoTier(s) => |s.people| < U16_LIMIT && forall i :: 0 <= i < |s.people| ==>
      |s.people[i].inner.devices| < U16_LIMIT
  }

  lemma {:induction false} ShapeFits(s: TargetShape)
    requires ShapeCounts(s)
    ensures ShapeField().wf(s)
  {
    hide IdField, NodeField, U16Field, Pow256, SingleField;
    Widths();
    FieldsFit();
    NodesFit();
    if s.OneSharing? {
      SingleFits(s.single);
      assert Choice(SingleField(), OuterField()).wf(FromShape(s));
    } else {
      forall i | 0 <= i < |s.outer.people| ensures OuterTargetField().wf(s.outer.people[i]) {
        SingleFits(s.outer.people[i].inner);
        assert Then(IdField(), Then(NodeField(), SingleField())).wf(FromOuterTarget(s.outer.people[i]));
      }
      assert Counted(2, 0, OuterTargetField()).wf(s.outer.people);
      assert Then(U16Field(), Counted(2, 0, OuterTargetField())).wf(FromOuter(s.outer));
      assert OuterField().wf(s.outer);
      assert Choice(SingleField(), OuterField()).wf(FromShape(s));
    }
  }

  lemma {:induction false} SingleFits(s: SingleShape)
    requires |s.devices| < U16_LIMIT
    ensures SingleField().wf(s)
  {
    hide IdField, NodeField, U16Field, Pow256;
    Widths();
    FieldsFit();
    NodesFit();
    forall d: TargetDevice ensures TargetDeviceField().wf(d) {
      assert Then(IdField(), NodeField()).wf(FromTargetDevice(d));
    }
    assert Counted(2, 0, TargetDeviceField()).wf(s.devices);
    assert Then(U16Field(), Counted(2, 0, TargetDeviceField())).wf(FromSingle(s));
  }

  type SpecParts = (RoleId, (Element, (Element, Scalar)))

  function SpecPartsOf(r: RoleSpec): SpecParts {
    match r
    case SourceRole(d, share, weight) => (Source(d), (r.Constant(), (share, weight)))
    case RefresherRole(d) => (Refresher(d), (IDENTITY, (IDENTITY, 0)))
  }

  function AllSpecParts(rs: seq<RoleSpec>): (r: seq<SpecParts>)
    ensures |r| == |rs|
  {
    seq(|rs|, i requires 0 <= i < |rs| => SpecPartsOf(rs[i]))
  }

  function SpecFields(): Codec<SpecParts> {
    Then(RoleField(), Then(ElementField(), Then(ElementField(), ScalarField())))
  }

  type CommandParts = (Id, (Id, (Id, (Point, (TargetShape, seq<SpecParts>)))))

  function CommandFields(): Codec<CommandParts> {
    Marked(WIRE_ID, UnsupportedVersion,
      Then(IdField(), Then(IdField(),
        Then(IdField(), Then(PointField(), Then(ShapeField(), Counted(2, 0, SpecFields())))))))
  }

  function PartsOfCommand(c: Command): CommandParts {
    (c.scope, (c.id, (c.predecessor, (c.anchor, (c.shape, AllSpecParts(c.roles))))))
  }

  function CommandBytes(c: Command): Result<bytes> {
    if ShapeCounts(c.shape) && |c.roles| < U16_LIMIT then Ok(CommandFields().enc(PartsOfCommand(c)))
    else Err(LengthOverflow)
  }

  lemma {:induction false} CommandFieldsLawful()
    ensures CommandFields().Lawful()
  {
    hide Codec.Lawful, IdField, PointField, ShapeField, RoleField, ElementField, ScalarField;
    FieldsLawful();
    IdentifiersLawful();
    ShapeFieldLawful();
    ThenLawful(ElementField(), ScalarField());
    ThenLawful(ElementField(), Then(ElementField(), ScalarField()));
    ThenLawful(RoleField(), Then(ElementField(), Then(ElementField(), ScalarField())));
    CountedLawful(2, 0, SpecFields());
    var t0 := Then(ShapeField(), Counted(2, 0, SpecFields()));
    var t1 := Then(PointField(), t0);
    var t2 := Then(IdField(), t1);
    var t3 := Then(IdField(), t2);
    ThenLawful(ShapeField(), Counted(2, 0, SpecFields()));
    ThenLawful(PointField(), t0);
    ThenLawful(IdField(), t1);
    ThenLawful(IdField(), t2);
    ThenLawful(IdField(), t3);
    MarkedLawful(WIRE_ID, UnsupportedVersion, Then(IdField(), t3));
  }

  lemma {:induction false} CommandFits(c: Command)
    requires CommandBytes(c).Ok?
    ensures CommandFields().wf(PartsOfCommand(c))
  {
    hide ShapeField, SpecFields, CommandFields, Pow256, ShapeCounts;
    ShapeFits(c.shape);
    forall x: SpecParts ensures SpecFields().wf(x) { SpecPartsFit(x); }
    SpecsFit(c.roles);
    ChainFits(c);
  }

  lemma {:induction false} SpecPartsFit(x: SpecParts)
    ensures SpecFields().wf(x)
  {
    hide ElementField, ScalarField, RoleField;
    FieldsFit();
    IdentifiersFit();
    assert RoleField().wf(x.0) && ElementField().wf(x.1.0) && ElementField().wf(x.1.1.0) && ScalarField().wf(x.1.1.1);
  }

  lemma {:induction false} SpecsFit(rs: seq<RoleSpec>)
    requires |rs| < U16_LIMIT && forall x: SpecParts :: SpecFields().wf(x)
    ensures Counted(2, 0, SpecFields()).wf(AllSpecParts(rs))
  {
    hide SpecFields, Pow256, AllSpecParts;
    Widths();
  }

  lemma {:induction false} ChainFits(c: Command)
    requires ShapeField().wf(c.shape) && Counted(2, 0, SpecFields()).wf(AllSpecParts(c.roles))
    ensures CommandFields().wf(PartsOfCommand(c))
  {
    hide IdField, PointField, ShapeField, Counted, AllSpecParts, SpecFields;
    FieldsFit();
  }

  /** Command bytes determine the command. */
  lemma {:induction false} CommandBytesInjective(c: Command, d: Command)
    requires CommandBytes(c).Ok? && CommandBytes(c) == CommandBytes(d)
    ensures c == d
  {
    hide Codec.Lawful, CommandFields, RoleSpec.Constant;
    CommandFieldsLawful();
    CommandFits(c);
    CommandFits(d);
    CommandFields().Injective(PartsOfCommand(c), [], PartsOfCommand(d), []);
    assert AllSpecParts(c.roles) == AllSpecParts(d.roles);
    assert |c.roles| == |d.roles|;
    forall i | 0 <= i < |c.roles| ensures c.roles[i] == d.roles[i] {
      assert AllSpecParts(c.roles)[i] == AllSpecParts(d.roles)[i];
    }
  }

  // ----- coefficient points

  function PointList(): Codec<seq<Element>> { Counted(2, 1, ElementField()) }

  function ToMemberPoints(x: (Id, seq<Element>)): MemberPoints { MemberPoints(x.0, x.1) }
  function FromMemberPoints(m: MemberPoints): (Id, seq<Element>) { (m.person, m.points) }
  function MemberField(): Codec<MemberPoints> { Map(Then(IdField(), PointList()), ToMemberPoints, FromMemberPoints) }

  /** Each person before the next, as adjacent comparison sees it. */
  predicate SortedMembers(ms: seq<MemberPoints>) {
    forall i :: 0 <= i < |ms| - 1 ==> ms[i].person < ms[i + 1].person
  }

  function ToPoints(x: Either<seq<Element>, (seq<Element>, seq<MemberPoints>)>): ContributionPoints {
    match x case Left(p) => OnePolynomial(p) case Right(t) => Linked(t.0, t.1)
  }
  function FromPoints(p: ContributionPoints): Either<seq<Element>, (seq<Element>, seq<MemberPoints>)> {
    match p case OnePolynomial(points) => Left(points) case Linked(outer, members) => Right((outer, members))
  }

  function MemberList(): Codec<seq<MemberPoints>> {
    Guard(Counted(2, 1, MemberField()), SortedMembers, InvalidTranscript)
  }

  function PointsCodec(): Codec<ContributionPoints> {
    Marked(WIRE_ID, UnsupportedVersion, Map(Choice(PointList(), Then(PointList(), MemberList())), ToPoints, FromPoints))
  }

  function PointsFormat(): Format<ContributionPoints> { Whole(PointsCodec()) }

  lemma {:induction false} ListsLawful()
    ensures PointList().Lawful() && MemberList().Lawful()
  {
    hide Codec.Lawful, IdField, ElementField, Counted;
    FieldsLawful();
    CountedLawful(2, 1, ElementField());
    ThenLawful(IdField(), PointList());
    MapLawful(Then(IdField(), PointList()), ToMemberPoints, FromMemberPoints);
    CountedLawful(2, 1, MemberField());
    GuardLawful(Counted(2, 1, MemberField()), SortedMembers, InvalidTranscript);
  }

  lemma {:induction false} PointsLawful()
    ensures PointsFormat().Lawful()
  {
    hide Codec.Lawful, Format.Lawful, PointList, MemberList;
    ListsLawful();
    ThenLawful(PointList(), MemberList());
    ChoiceLawful(PointList(), Then(PointList(), MemberList()));
    MapLawful(Choice(PointList(), Then(PointList(), MemberList())), ToPoints, FromPoints);
    MarkedLawful(WIRE_ID, UnsupportedVersion,
      Map(Choice(PointList(), Then(PointList(), MemberList())), ToPoints, FromPoints));
    WholeLawful(PointsCodec());
  }

  predicate PointCounts(p: ContributionPoints) {
    match p
    case OnePolynomial(points) => |points| < U16_LIMIT
    case Linked(outer, members) =>
      |outer| < U16_LIMIT && |members| < U16_LIMIT && forall i :: 0 <= i < |members| ==> |members[i].points| < U16_LIMIT
  }

  function PointsBytes(p: ContributionPoints): Result<bytes> {
    if PointCounts(p) then Ok(PointsFormat().encode(p)) else Err(LengthOverflow)
  }

  /** What decoding accepts besides the counts: nonempty lists and sorted people. */
  ghost predicate Canonical(p: ContributionPoints) {
    match p
    case OnePolynomial(points) => points != []
    case Linked(outer, members) =>
      && outer != [] && members != [] && SortedMembers(members)
      && forall i :: 0 <= i < |members| ==> members[i].points != []
  }

  lemma {:induction false} PointsWellFormed(p: ContributionPoints)
    ensures PointsFormat().wf(p) <==> PointCounts(p) && Canonical(p)
  {
    hide IdField, ElementField, Pow256;
    Widths();
    FieldsFit();
    assert forall s: seq<Element> :: PointList().wf(s) <==> 1 <= |s| < U16_LIMIT;
    if p.Linked? {
      forall m: MemberPoints ensures MemberField().wf(m) <==> 1 <= |m.points| < U16_LIMIT {
        assert Then(IdField(), PointList()).wf(FromMemberPoints(m)) <==> PointList().wf(m.points);
      }
      var ms := p.members;
      assert Counted(2, 1, MemberField()).wf(ms) <==>
        1 <= |ms| < U16_LIMIT && forall i :: 0 <= i < |ms| ==> 1 <= |ms[i].points| < U16_LIMIT;
      assert MemberList().wf(ms) <==> Counted(2, 1, MemberField()).wf(ms) && SortedMembers(ms);
      assert Then(PointList(), MemberList()).wf((p.outer, ms)) <==> PointList().wf(p.outer) && MemberList().wf(ms);
    }
    assert PointsFormat().wf(p) <==> Choice(PointList(), Then(PointList(), MemberList())).wf(FromPoints(p));
  }

  /** Accepted coefficient points re-encode to the accepted bytes, and canonical
    * points survive the trip.
    */
  lemma {:induction false} PointsCanonical(b: bytes, p: ContributionPoints)
    ensures PointsFormat().decode(b) == Ok(p) ==> Canonical(p) && PointsBytes(p) == Ok(b)
    ensures Canonical(p) && PointsBytes(p) == Ok(b) ==> PointsFormat().decode(b) == Ok(p)
  {
    hide PointsFormat, Canonical, PointCounts;
    PointsLawful();
    PointsWellFormed(p);
  }

  /** Points that fit a valid shape are canonical. */
  lemma {:induction false} FittingIsCanonical(p: ContributionPoints, shape: TargetShape, constant: Element)
    requires shape.Valid() && p.Fits(shape, constant)
    ensures Canonical(p)
  {
    if p.Linked? {
      var ms, people := p.members, shape.outer.people;
      forall i | 0 <= i < |ms| - 1 ensures ms[i].person < ms[i + 1].person {
        assert MemberFits(ms[i], people[i], p.outer) && MemberFits(ms[i + 1], people[i + 1], p.outer);
        assert OuterTargetKey(people[i]) < OuterTargetKey(people[i + 1]);
      }
      forall i | 0 <= i < |ms| ensures ms[i].points != [] {
        assert MemberFits(ms[i], people[i], p.outer);
      }
    }
  }

  // ----- openings

  function ToOpening(x: (RoleId, (ContributionPoints, Scalar))): Opening { Opening(x.0, x.1.0, x.1.1) }
  function FromOpening(o: Opening): (RoleId, (ContributionPoints, Scalar)) { (o.role, (o.points, o.salt)) }

  function OpeningFields(): Codec<(RoleId, (ContributionPoints, Scalar))> {
    Marked(WIRE_ID, UnsupportedVersion, Then(RoleField(), Then(Nested(PointsFormat()), ScalarField())))
  }

  function OpeningFormat(): Format<Opening> { Whole(Map(OpeningFields(), ToOpening, FromOpening)) }

  lemma {:induction false} OpeningLawful()
    ensures OpeningFormat().Lawful()
  {
    hide Codec.Lawful, Format.Lawful, RoleField, ScalarField, PointsFormat;
    FieldsLawful();
    IdentifiersLawful();
    PointsLawful();
    NestedLawful(PointsFormat());
    ThenLawful(Nested(PointsFormat()), ScalarField());
    ThenLawful(RoleField(), Then(Nested(PointsFormat()), ScalarField()));
    MarkedLawful(WIRE_ID, UnsupportedVersion, Then(RoleField(), Then(Nested(PointsFormat()), ScalarField())));
    MapLawful(OpeningFields(), ToOpening, FromOpening);
    WholeLawful(Map(OpeningFields(), ToOpening, FromOpening));
  }

  function OpeningBytes(o: Opening): Result<bytes> {
    var points :- PointsBytes(o.points);
    if |points| < U32_LIMIT then Ok(OpeningFormat().encode(o)) else Err(LengthOverflow)
  }

  lemma {:induction false} OpeningWellFormed(o: Opening)
    ensures OpeningFormat().wf(o) <==> Canonical(o.points) && OpeningBytes(o).Ok?
  {
    hide RoleField, ScalarField, PointsFormat, Pow256, Canonical, PointCounts;
    Widths();
    FieldsFit();
    IdentifiersFit();
    PointsWellFormed(o.points);
    assert OpeningFields().wf(FromOpening(o)) <==> Nested(PointsFormat()).wf(o.points);
  }

  /** Accepted opening bytes are canonical, and canonical openings survive the trip. */
  lemma {:induction false} OpeningCanonical(b: bytes, o: Opening)
    ensures OpeningFormat().decode(b) == Ok(o) ==> Canonical(o.points) && OpeningBytes(o) == Ok(b)
    ensures Canonical(o.points) && OpeningBytes(o) == Ok(b) ==> OpeningFormat().decode(b) == Ok(o)
  {
    hide OpeningFormat, Canonical, PointCounts, PointsFormat;
    OpeningLawful();
    OpeningWellFormed(o);
  }

  /** The commitment to an opening under a command. */
  function CommitmentOf(c: Command, o: Opening): Result<Scalar> {
    var command :- CommandBytes(c);
    var packedCommand :- PutBytes(command);
    var points :- PointsBytes(o.points);
    var packedPoints :- PutBytes(points);
    var name :- PutBytes(DEAL_LABEL);
    Ok(HASHES.deal(WIRE_ID + name + packedCommand + RoleBytes(o.role) + packedPoints + ScalarField().enc(o.salt)))
  }

  // "deal"
  const DEAL_LABEL: bytes := [100, 101, 97, 108]

  // ----- receipts

  /** One target's receipt for an exact view. */
  datatype TargetReceipt = TargetReceipt(command: CommandId, target: TargetId, view: bytes)

  function ToReceipt(x: (Id, (TargetId, bytes))): TargetReceipt { TargetReceipt(x.0, x.1.0, x.1.1) }
  function FromReceipt(r: TargetReceipt): (Id, (TargetId, bytes)) { (r.command, (r.target, r.view)) }

  function ReceiptFields(): Codec<(Id, (TargetId, bytes))> {
    Marked(WIRE_ID, UnsupportedVersion, Then(IdField(), Then(TargetField(), Blob())))
  }

  function ReceiptFormat(): Format<TargetReceipt> { Whole(Map(ReceiptFields(), ToReceipt, FromReceipt)) }

  function ReceiptBytes(r: TargetReceipt): Result<bytes> {
    if |r.view| < U32_LIMIT then Ok(ReceiptFormat().encode(r)) else Err(LengthOverflow)
  }

  lemma {:induction false} ReceiptLawful()
    ensures ReceiptFormat().Lawful()
  {
    hide Codec.Lawful, Format.Lawful, IdField, TargetField, Blob;
    FieldsLawful();
    IdentifiersLawful();
    ThenLawful(TargetField(), Blob());
    ThenLawful(IdField(), Then(TargetField(), Blob()));
    MarkedLawful(WIRE_ID, UnsupportedVersion, Then(IdField(), Then(TargetField(), Blob())));
    MapLawful(ReceiptFields(), ToReceipt, FromReceipt);
    WholeLawful(Map(ReceiptFields(), ToReceipt, FromReceipt));
  }

  lemma {:induction false} ReceiptCanonical(b: bytes, r: TargetReceipt)
    ensures ReceiptFormat().decode(b) == Ok(r) <==> ReceiptBytes(r) == Ok(b)
  {
    hide IdField, TargetField, Pow256, Format.Lawful;
    Widths();
    FieldsFit();
    IdentifiersFit();
    ReceiptLawful();
    assert ReceiptFields().wf(FromReceipt(r)) <==> |r.view| < U32_LIMIT;
    FormatRoundTrip(ReceiptFormat(), b, r);
  }

  lemma {:induction false} FormatRoundTrip<T(!new)>(f: Format<T>, b: bytes, x: T)
    requires f.Lawful()
    ensures f.decode(b) == Ok(x) <==> f.wf(x) && f.encode(x) == b
  {}
}

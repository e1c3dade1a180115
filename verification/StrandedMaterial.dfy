/** A run whose outer activation leaves material that cannot be written
  * (src/leaf.rs, src/leaf/store/record.rs): one device of one person in two vaults, every
  * polynomial the constant one.
  */
module StrandedMaterial {
  import opened Results
  import opened Field
  import opened Sums
  import opened Algebra
  import opened Shamir
  import opened Support
  import opened Genesis
  import opened Ids
  import opened Encoding
  import opened Transcript
  import opened Shape
  import opened Contribution
  import opened Target
  import opened Leaf
  import opened Material
  import opened LeafRuns
  import opened Record
  import opened Persistent
  import opened SoleWriter

  const ONE: Point := Element(1)

  function Start(vault: VaultId): DeviceGenesis {
    DeviceGenesis(vault, 1, 1, 1, 1, IdentityMap([ONE], [IdentityDevice(1, 1, ONE)]), MemberMap([ONE]),
      OuterMap([ONE], [OuterPerson(1, 1, ONE)]), ONE, ONE, ONE, 1, 0)
  }

  function StartEpoch(vault: VaultId): KeyEpoch { KeyEpoch(0, 0, AnchorId(vault, 1, 0, 0)) }

  function Inner(): InnerSupport { InnerSupport([DeviceParticipant(1, 1, ONE)], Weights([1])) }
  function Outer(): OuterSupport { OuterSupport([PersonParticipant(1, 1, 1, ONE)], Weights([1])) }

  function Body(): MemberBody { MemberBody(ONE, ONE, StartEpoch(1), Inner(), OuterCoefficient(1, 1, ONE, 1)) }

  /** The first vault's prepackage: one record, for the body above. */
  function Prepackage(): RootPrepackage {
    var record := MemberRecord.Commit(Body(), 0);
    RootPrepackage(RootHead(ONE, [], RootContext(1, 0, 0)),
      [if record.Ok? then record.value else MemberRecord(1, ONE, 0)])
  }

  function Sealed(): SealedReservation {
    SealedReservation(MemberReservation(Prepackage(), MemberOpening(0, Body())), 0, 1)
  }

  function SealedBytes(): bytes { ReservationFormat(Outer()).encode(Sealed()) }

  /** A new outer share of the second vault. */
  function Share(): InstalledShare {
    InstalledShare(
      MemberTarget(1, 1), TwoTier(OuterShape(1, [OuterTarget(1, 1, SingleShape(1, [TargetDevice(1, 1)]))])), 7, 1, ONE,
      Linked([ONE], [MemberPoints(1, [ONE])]))
  }

  function AddSecond(): Call { AddVaultCall(Start(2), StartEpoch(2)) }

  function ReserveFirst(): Call {
    ReserveCall(0, 0, SealedBytes(), PLAIN, Outer(), Registry.ParsePlain(SealedBytes(), Outer()))
  }

  function ActivateSecond(): Call { ActivateOuterCall(KeyEpoch(1, 0, AnchorId(2, 1, 0, 7)), Share()) }

  lemma {:induction false} ConstantOne(x: Scalar)
    ensures EvaluatePoints([ONE], x) == ONE
  {
    hide Add, Mul;
    assert EvaluatePoints([ONE], x) == Plus(Times(IDENTITY, x), ONE);
    MulZero(x);
    AddZero(1);
  }

  lemma {:induction false} StartFits(vault: VaultId)
    ensures GenesisFits(Start(vault))
  {
    hide EvaluatePoints;
    ConstantOne(1);
    AddZero(1);
  }

  lemma {:induction false} OneWeight()
    ensures Distinct([1]) && Weights([1]) == [1] && Inner().Valid()
  {
    hide Weight, Mul, Add, EvaluatePoints;
    var s := Inner();
    assert DeviceNodes(s.participants) == [1];
    ConstantOne(1);
    InnerReconstructs(s, [ONE]);
    var w := s.coefficients[0];
    assert Logs(Shares(s.participants)) == [1] && s.coefficients == [w];
    assert Dot([w], [1]) == w by {
      MulOne(w);
      AddZero(w);
    }
  }

  /** The registry of both vaults. */
  function Both(): Registry {
    Registry.New(Start(1), StartEpoch(1)).value.(vaults := map[
      1 := Registry.VaultFrom(Start(1), StartEpoch(1)), 2 := Registry.VaultFrom(Start(2), StartEpoch(2))])
  }

  lemma {:induction false} Reserves()
    ensures Both().ValidateReservation(Sealed().reservation, Outer()) == Ok(1)
  {
    hide EvaluatePoints, Weights, Add, Mul, MemberRecord.Commit;
    OneWeight();
    ConstantOne(1);
    AddZero(1);
    MulOne(1);
  }

  lemma {:induction false} Committed()
    ensures MemberRecord.Commit(Body(), 0).Ok?
    ensures MemberReservation.New(Prepackage(), MemberOpening(0, Body()), Outer()) == Ok(Sealed().reservation)
  {
    hide BodyFields, Pow256, Weights;
    BodyLength(Body());
  }

  lemma {:induction false} HeadLength(h: RootHead)
    ensures |HeadCodec().enc(h)| < 1000 + |h.message|
  {
    hide IdField, U64Field, PointField, Pow256, ToBytes;
    FieldLengths();
    assert HeadCodec().enc(h) == HeadFields().enc(FromHead(h));
    assert ProtocolField().enc(()) == Blob().enc(PROTOCOL_ID);
  }

  lemma {:induction false} PrepackageLength(p: RootPrepackage)
    requires p.head.message == [] && |p.records| == 1
    ensures |PrepackageFormat().encode(p)| < U32_LIMIT
  {
    hide HeadCodec, U16Field, PointField, ScalarField, Pow256, ToBytes;
    FieldLengths();
    HeadLength(p.head);
    assert PrepackageFormat().encode(p) == PrepackageFields().enc(PrepackageParts(p));
    assert PrepackageFields().enc(PrepackageParts(p)) ==
      HeadCodec().enc(p.head) + Counted(2, 1, RecordCodec()).enc(p.records);
    assert EncodeAll(RecordCodec(), p.records[1..]) == [];
    assert RecordCodec().enc(p.records[0]) == RecordFields().enc(FromRecord(p.records[0]));
  }

  lemma {:induction false} Parses()
    ensures Registry.ParsePlain(SealedBytes(), Outer()) == Ok(Sealed())
  {
    hide PrepackageFormat, ReservationFormat, MemberRecord.Commit;
    Committed();
    OneWeight();
    PrepackageLength(Prepackage());
    ReservationRoundTrip(Sealed(), Outer(), SealedBytes());
  }

  lemma {:induction false} ShareIsSound()
    ensures SoundShare(Share()) && Honest(ActivateSecond())
  {
    hide EvaluatePoints;
    ConstantOne(1);
    assert Share().points.Fits(Share().shape, ONE);
  }

  lemma {:induction false} Activates(live: Live)
    ensures Both().(live := Some(live), nextSequence := 1).CheckOuter(ActivateSecond().epoch, Share()).Ok?
  {
    hide EvaluatePoints;
    var shape := Share().shape.outer;
    assert OuterPeopleOf(shape.people[..0], Share().points.members[..0]) == Ok([]);
    assert OuterMapsOf(shape, Share().points, 1).Ok?;
  }

  function First(): Registry { Registry.New(Start(1), StartEpoch(1)).value }

  lemma {:induction false} Added()
    ensures Registry.New(Start(1), StartEpoch(1)) == Ok(First())
    ensures LeafRuns.Apply(First(), AddSecond()) == (Both(), Ok(UnitOutput))
    ensures Honest(AddSecond())
  {
    hide GenesisFits;
    StartFits(2);
  }

  /** Both vaults, with the first one's attempt live. */
  function Waiting(): Registry {
    Both().(live := Some(Live(LeafAttempt(1, 0), 0, 1, 1, SealedBytes(), PLAIN, Sealed().reservation, None, None,
      None)),
      nextSequence := 1)
  }

  lemma {:induction false} Reserved()
    ensures LeafRuns.Apply(Both(), ReserveFirst()) == (Waiting(), Ok(AttemptOutput(LeafAttempt(1, 0))))
    ensures Honest(ReserveFirst())
  {
    hide Registry.ParsePlain, Registry.ValidateReservation, SealedBytes, Sealed, Honest;
    Parses();
    Reserves();
    PlainReserveIsHonest(0, 0, SealedBytes(), Outer());
    assert Sealed().session == 0 && Sealed().expiry == 1 by { SealedTimes(); }
  }

  lemma {:induction false} SealedTimes()
    ensures Sealed().session == 0 && Sealed().expiry == 1
  {}

  lemma {:induction false} RunReserves()
    ensures RunFrom(First(), [AddSecond(), ReserveFirst()]) == Waiting()
  {
    hide LeafRuns.Apply, AddSecond, ReserveFirst, First, Waiting, Both;
    var calls := [AddSecond(), ReserveFirst()];
    assert calls[..1] == [AddSecond()] && calls[..1][..0] == [];
    Added();
    Reserved();
  }

  /** An outer activation that succeeds beside another vault's attempt and leaves
    * material that cannot be written.
    */
  ghost predicate Strands(r: Registry, c: Call) {
    && c.ActivateOuterCall? && r.live.Some? && r.live.value.vault != c.epoch.anchor.vault
    && LeafRuns.Apply(r, c).1.Ok? && Unwritable(r, Running(c), InstallsMaterial(c))
    && EncodeMaterial(LeafRuns.Apply(r, c).0) == Err(Busy)
  }

  lemma {:induction false} SecondActivates()
    ensures LeafRuns.Apply(Waiting(), ActivateSecond()).1.Ok?
    ensures LeafRuns.Apply(Waiting(), ActivateSecond()).0.live == Waiting().live
  {
    hide Registry.CheckOuter, Sealed, SealedBytes, Share, Both;
    var live := Waiting().live.value;
    assert Waiting() == Both().(live := Some(live), nextSequence := 1);
    Activates(live);
  }

  lemma {:induction false} SecondStrands()
    ensures Strands(Waiting(), ActivateSecond())
  {
    hide LeafRuns.Apply, Sealed, SealedBytes, MaterialCounts, MaterialFormat, Honest;
    SecondActivates();
  }

  /** From a device of two vaults, reserving for the one and activating a new outer
    * share of the other strands the material.
    */
  lemma {:induction false} ActivationStrandsMaterial()
    ensures GenesisFits(Start(1)) && Registry.New(Start(1), StartEpoch(1)) == Ok(First())
    ensures Honest(AddSecond()) && Honest(ReserveFirst()) && Honest(ActivateSecond())
    ensures Strands(RunFrom(First(), [AddSecond(), ReserveFirst()]), ActivateSecond())
  {
    hide AddSecond, ReserveFirst, ActivateSecond, First, Waiting, Both, GenesisFits, RunFrom, Strands, Honest,
      LeafRuns.Apply, Registry.New;
    StartFits(1);
    Added();
    Reserved();
    RunReserves();
    ShareIsSound();
    SecondStrands();
  }
}

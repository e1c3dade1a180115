/** Storage records of a leaf: immutable material and the journal
  * (src/leaf/store.rs, src/leaf/store/record.rs).
  */
module Record {
  import opened Results
  import opened Field
  import opened Sorting
  import opened Algebra
  import opened Shamir
  import opened Genesis
  import opened Ids
  import opened Encoding
  import opened Leaf
  import opened Material

  type MaterialId = Id

  /** The material hash, as an arbitrary function. */
  const MATERIAL_HASH: bytes -> MaterialId

  // "KSNFMAT1" and "KSNFJNL1"
  const MATERIAL_MAGIC: bytes := [75, 83, 78, 70, 77, 65, 84, 49]
  const JOURNAL_MAGIC: bytes := [75, 83, 78, 70, 74, 78, 76, 49]

  // ----- material fields

  function ToIdentityDevice(t: (Id, (Node, Element))): IdentityDevice { IdentityDevice(t.0, t.1.0, t.1.1) }
  function FromIdentityDevice(d: IdentityDevice): (Id, (Node, Element)) { (d.device, (d.node, d.share)) }
  function IdentityDeviceField(): Codec<IdentityDevice> {
    Map(Then(IdField(), Then(NodeField(), ElementField())), ToIdentityDevice, FromIdentityDevice)
  }

  function ToOuterPerson(t: (Id, (Node, Point))): OuterPerson { OuterPerson(t.0, t.1.0, t.1.1) }
  function FromOuterPerson(p: OuterPerson): (Id, (Node, Point)) { (p.person, (p.node, p.member)) }
  function OuterPersonField(): Codec<OuterPerson> {
    Map(Then(IdField(), Then(NodeField(), PointField())), ToOuterPerson, FromOuterPerson)
  }

  function Elements(): Codec<seq<Element>> { Counted(4, 0, ElementField()) }
  function Devices(): Codec<seq<IdentityDevice>> { Counted(4, 0, IdentityDeviceField()) }
  function People(): Codec<seq<OuterPerson>> { Counted(4, 0, OuterPersonField()) }

  datatype VaultRecord = VaultRecord(id: VaultId, state: VaultState)

  type VaultParts = (Id, (Node,
    (Epoch, (Id, (Point, (Point, (seq<Element>, (seq<Element>, (seq<OuterPerson>, Scalar)))))))))

  function VaultFields(): Codec<VaultParts> {
    Then(IdField(), Then(NodeField(), Then(U64Field(), Then(IdField(), Then(PointField(), Then(PointField(),
      Then(Elements(), Then(Elements(), Then(People(), ScalarField())))))))))
  }

  function ToVault(t: VaultParts): VaultRecord {
    var s := t.1.1.1.1.1;
    VaultRecord(t.0, VaultState(
      t.1.0, t.1.1.0, t.1.1.1.0, t.1.1.1.1.0, s.0, s.1.1.1.1,
      MemberMap(s.1.0), OuterMap(s.1.1.0, s.1.1.1.0)))
  }

  function FromVault(v: VaultRecord): VaultParts {
    (v.id, (v.state.outerNode, (v.state.outerEpoch, (v.state.memberHandle, (v.state.memberPoint, (v.state.vaultKey,
      (v.state.memberMap.commitments, (v.state.outerMap.commitments, (v.state.outerMap.people, v.state.anchor)))))))))
  }

  function VaultField(): Codec<VaultRecord> { Map(VaultFields(), ToVault, FromVault) }

  lemma {:induction false} ListsLawful()
    ensures Elements().Lawful() && Devices().Lawful() && People().Lawful()
  {
    hide Codec.Lawful, IdField, NodeField, ElementField, PointField;
    FieldsLawful();
    NodeLawful();
    CountedLawful(4, 0, ElementField());
    ThenLawful(NodeField(), ElementField());
    ThenLawful(IdField(), Then(NodeField(), ElementField()));
    MapLawful(Then(IdField(), Then(NodeField(), ElementField())), ToIdentityDevice, FromIdentityDevice);
    CountedLawful(4, 0, IdentityDeviceField());
    ThenLawful(NodeField(), PointField());
    ThenLawful(IdField(), Then(NodeField(), PointField()));
    MapLawful(Then(IdField(), Then(NodeField(), PointField())), ToOuterPerson, FromOuterPerson);
    CountedLawful(4, 0, OuterPersonField());
  }

  lemma {:induction false} VaultFieldLawful()
    ensures VaultField().Lawful()
  {
    hide Codec.Lawful, IdField, NodeField, U64Field, PointField, ScalarField, Elements, People;
    FieldsLawful();
    NodeLawful();
    ListsLawful();
    var t0 := Then(People(), ScalarField());
    var t1 := Then(Elements(), t0);
    var t2 := Then(Elements(), t1);
    var t3 := Then(PointField(), t2);
    var t4 := Then(PointField(), t3);
    var t5 := Then(IdField(), t4);
    var t6 := Then(U64Field(), t5);
    var t7 := Then(NodeField(), t6);
    ThenLawful(People(), ScalarField());
    ThenLawful(Elements(), t0);
    ThenLawful(Elements(), t1);
    ThenLawful(PointField(), t2);
    ThenLawful(PointField(), t3);
    ThenLawful(IdField(), t4);
    ThenLawful(U64Field(), t5);
    ThenLawful(NodeField(), t6);
    ThenLawful(IdField(), t7);
    MapLawful(VaultFields(), ToVault, FromVault);
  }

  type MaterialParts =
    (Id, (Id, (Node, (seq<Element>, (seq<IdentityDevice>, (Point, (Scalar, (Epoch, (Id, seq<VaultRecord>)))))))))

  function MaterialFields(): Codec<MaterialParts> {
    Marked(MATERIAL_MAGIC, ProtocolMismatch,
      Then(IdField(), Then(IdField(), Then(NodeField(), Then(Elements(), Then(Devices(), Then(PointField(),
        Then(ScalarField(), Then(U64Field(), Then(IdField(), Counted(4, 1, VaultField())))))))))))
  }

  lemma {:induction false} MaterialFieldsLawful()
    ensures MaterialFields().Lawful()
  {
    hide Codec.Lawful, IdField, NodeField, U64Field, PointField, ScalarField, Elements, Devices, VaultField;
    FieldsLawful();
    NodeLawful();
    ListsLawful();
    VaultFieldLawful();
    CountedLawful(4, 1, VaultField());
    var t0 := Then(IdField(), Counted(4, 1, VaultField()));
    var t1 := Then(U64Field(), t0);
    var t2 := Then(ScalarField(), t1);
    var t3 := Then(PointField(), t2);
    var t4 := Then(Devices(), t3);
    var t5 := Then(Elements(), t4);
    var t6 := Then(NodeField(), t5);
    var t7 := Then(IdField(), t6);
    ThenLawful(IdField(), Counted(4, 1, VaultField()));
    ThenLawful(U64Field(), t0);
    ThenLawful(ScalarField(), t1);
    ThenLawful(PointField(), t2);
    ThenLawful(Devices(), t3);
    ThenLawful(Elements(), t4);
    ThenLawful(NodeField(), t5);
    ThenLawful(IdField(), t6);
    ThenLawful(IdField(), t7);
    MarkedLawful(MATERIAL_MAGIC, ProtocolMismatch, Then(IdField(), t7));
  }

  // ----- material records

  function VaultRecordKey(v: VaultRecord): int { v.id }

  function VaultRecords(r: Registry): (s: seq<VaultRecord>)
    ensures |s| == |r.vaults.Keys|
  {
    var order := r.VaultOrder();
    seq(|order|, i requires 0 <= i < |order| => VaultRecord(order[i], r.vaults[order[i]]))
  }

  /** What the encoder writes. */
  function PartsOfMaterial(r: Registry): MaterialParts {
    (r.device, (r.person, (r.node, (r.identityMap.commitments, (r.identityMap.devices, (r.identityKey, (r.identity,
      (r.innerEpoch, (r.identityHandle, VaultRecords(r))))))))))
  }

  /** Strictly increasing vault identifiers. */
  predicate IncreasingVaults(vs: seq<VaultRecord>) {
    forall i :: 0 <= i < |vs| - 1 ==> vs[i].id < vs[i + 1].id
  }

  function VaultMap(vs: seq<VaultRecord>): (m: map<VaultId, VaultState>) {
    if vs == [] then map[] else VaultMap(vs[..|vs| - 1])[vs[|vs| - 1].id := vs[|vs| - 1].state]
  }

  /** The decoded registry: idle, with a fresh counter, after validation. */
  function BuildMaterial(t: MaterialParts): Result<Registry> {
    var s := t.1.1.1.1.1;
    if !IncreasingVaults(s.1.1.1.1) then Err(DuplicateParticipant)
    else
      var r := Registry(
        t.0, t.1.0, t.1.1.0, IdentityMap(t.1.1.1.0, t.1.1.1.1.0), s.0, s.1.0, s.1.1.0, s.1.1.1.0, VaultMap(s.1.1.1.1),
          None, 0);
      var _ :- ValidateMaterial(r);
      Ok(r)
  }

  function MaterialFormat(): Format<Registry> { Checked(Whole(MaterialFields()), BuildMaterial, PartsOfMaterial) }

  predicate VaultCounts(v: VaultState) {
    && |v.memberMap.commitments| < U32_LIMIT
    && |v.outerMap.commitments| < U32_LIMIT && |v.outerMap.people| < U32_LIMIT
  }

  /** The counts that the encoder writes in four bytes. */
  predicate MaterialCounts(r: Registry) {
    && |r.identityMap.commitments| < U32_LIMIT && |r.identityMap.devices| < U32_LIMIT
    && |r.vaults| < U32_LIMIT && forall v :: v in r.vaults ==> VaultCounts(r.vaults[v])
  }

  function EncodeMaterial(r: Registry): Result<bytes> {
    if r.live.Some? then Err(Busy)
    else if MaterialCounts(r) then Ok(MaterialFormat().encode(r))
    else Err(LengthOverflow)
  }

  lemma {:induction false} MapOfRecords(vs: seq<VaultRecord>)
    requires StrictlySorted(vs, VaultRecordKey)
    ensures VaultMap(vs).Keys == set v | v in vs :: v.id
    ensures forall i :: 0 <= i < |vs| ==> vs[i].id in VaultMap(vs) && VaultMap(vs)[vs[i].id] == vs[i].state
  {
    hide Pow256;
    if vs != [] {
      var n := |vs| - 1;
      MapOfRecords(vs[..n]);
      assert vs == vs[..n] + [vs[n]];
      forall i | 0 <= i < |vs| ensures vs[i].id in VaultMap(vs) && VaultMap(vs)[vs[i].id] == vs[i].state {
        if i < n {
          assert vs[..n][i] == vs[i];
          assert VaultRecordKey(vs[i]) < VaultRecordKey(vs[n]);
        }
      }
    }
  }

  lemma {:induction false} RecordsStrict(r: Registry)
    ensures StrictlySorted(VaultRecords(r), VaultRecordKey) && IncreasingVaults(VaultRecords(r))
  {
    hide Pow256, Ascending;
    var order, vs := r.VaultOrder(), VaultRecords(r);
    forall i, j | 0 <= i < j < |vs| ensures VaultRecordKey(vs[i]) < VaultRecordKey(vs[j]) {
      assert VaultKey(order[i]) < VaultKey(order[j]);
    }
    forall i | 0 <= i < |vs| - 1 ensures vs[i].id < vs[i + 1].id {
      assert VaultRecordKey(vs[i]) < VaultRecordKey(vs[i + 1]);
    }
  }

  lemma {:induction false} RecordOf(r: Registry, v: VaultId)
    requires v in r.vaults
    ensures VaultRecord(v, r.vaults[v]) in VaultRecords(r)
  {
    hide Pow256, Ascending;
    var order, vs := r.VaultOrder(), VaultRecords(r);
    assert v in order;
    var i :| 0 <= i < |order| && order[i] == v;
    assert vs[i] == VaultRecord(v, r.vaults[v]);
  }

  lemma {:induction false} RecordKnown(r: Registry, x: VaultRecord)
    requires x in VaultRecords(r)
    ensures x.id in r.vaults && x.state == r.vaults[x.id]
  {
    hide Pow256, Ascending;
    var i :| 0 <= i < |VaultRecords(r)| && VaultRecords(r)[i] == x;
    assert r.VaultOrder()[i] in r.VaultOrder();
  }

  lemma {:induction false} RecordsSorted(r: Registry)
    ensures StrictlySorted(VaultRecords(r), VaultRecordKey) && IncreasingVaults(VaultRecords(r))
    ensures VaultMap(VaultRecords(r)) == r.vaults
  {
    hide Pow256, Registry.VaultOrder, VaultMap, VaultRecords;
    var vs := VaultRecords(r);
    RecordsStrict(r);
    MapOfRecords(vs);
    forall v | v in r.vaults ensures v in VaultMap(vs) && VaultMap(vs)[v] == r.vaults[v] {
      RecordOf(r, v);
      var i :| 0 <= i < |vs| && vs[i] == VaultRecord(v, r.vaults[v]);
    }
    forall v | v in VaultMap(vs) ensures v in r.vaults {
      var x :| x in vs && x.id == v;
      RecordKnown(r, x);
    }
  }

  lemma {:induction false} IncreasingIsStrict(vs: seq<VaultRecord>)
    requires IncreasingVaults(vs)
    ensures StrictlySorted(vs, VaultRecordKey)
  {
    hide Pow256;
    if vs != [] {
      var n := |vs| - 1;
      IncreasingIsStrict(vs[..n]);
      LastSorted(vs, VaultRecordKey);
    }
  }

  /** The decoded vault map lists the decoded records again, in the same order. */
  lemma {:induction false} RecordsOfMap(r: Registry, vs: seq<VaultRecord>)
    requires IncreasingVaults(vs) && r.vaults == VaultMap(vs)
    ensures VaultRecords(r) == vs
  {
    hide Pow256, Ascending;
    IncreasingIsStrict(vs);
    MapOfRecords(vs);
    RecordsSorted(r);
    hide VaultRecords, VaultMap, IncreasingVaults;
    var us := VaultRecords(r);
    forall x ensures x in us <==> x in vs {
      if x in us {
        RecordKnown(r, x);
        var y :| y in vs && y.id == x.id;
        var k :| 0 <= k < |vs| && vs[k] == y;
      }
      if x in vs {
        var k :| 0 <= k < |vs| && vs[k] == x;
        assert x.id in r.vaults && x.state == r.vaults[x.id];
        RecordOf(r, x.id);
      }
    }
    StrictUnique(us, vs, VaultRecordKey);
  }

  lemma {:induction false} BuiltParts(t: MaterialParts)
    requires BuildMaterial(t).Ok?
    ensures PartsOfMaterial(BuildMaterial(t).value) == t
  {
    hide ValidateMaterial, VaultMap, VaultRecords, Pow256, IncreasingVaults;
    RecordsOfMap(BuildMaterial(t).value, t.1.1.1.1.1.1.1.1.1);
  }

  lemma {:induction false} MaterialLawful()
    ensures MaterialFormat().Lawful()
  {
    hide Codec.Lawful, Format.Lawful, BuildMaterial, PartsOfMaterial, MaterialFields;
    MaterialFieldsLawful();
    WholeLawful(MaterialFields());
    forall t: MaterialParts | BuildMaterial(t).Ok? ensures PartsOfMaterial(BuildMaterial(t).value) == t {
      BuiltParts(t);
    }
    CheckedLawful(Whole(MaterialFields()), BuildMaterial, PartsOfMaterial);
  }

  // ----- material survives storage

  lemma {:induction false} ListsFit()
    ensures forall s: seq<Element> :: Elements().wf(s) <==> |s| < U32_LIMIT
    ensures forall s: seq<IdentityDevice> :: Devices().wf(s) <==> |s| < U32_LIMIT
    ensures forall s: seq<OuterPerson> :: People().wf(s) <==> |s| < U32_LIMIT
  {
    hide IdField, NodeField, ElementField, PointField, Pow256;
    Widths();
    FieldsFit();
    NodesFit();
    forall d: IdentityDevice ensures IdentityDeviceField().wf(d) {
      assert Then(IdField(), Then(NodeField(), ElementField())).wf(FromIdentityDevice(d));
    }
    forall p: OuterPerson ensures OuterPersonField().wf(p) {
      assert Then(IdField(), Then(NodeField(), PointField())).wf(FromOuterPerson(p));
    }
  }

  lemma {:induction false} VaultsFit(v: VaultRecord)
    ensures VaultField().wf(v) <==> VaultCounts(v.state)
  {
    hide IdField, NodeField, U64Field, PointField, ScalarField, Elements, People, Pow256;
    FieldsFit();
    NodesFit();
    ListsFit();
    var t := FromVault(v);
    assert VaultFields().wf(t) ==
      (Elements().wf(v.state.memberMap.commitments) && Elements().wf(v.state.outerMap.commitments)
        && People().wf(v.state.outerMap.people));
  }

  lemma {:induction false} RecordsFit(r: Registry)
    ensures Counted(4, 1, VaultField()).wf(VaultRecords(r)) <==>
      1 <= |r.vaults| < U32_LIMIT && forall v :: v in r.vaults ==> VaultCounts(r.vaults[v])
  {
    hide VaultField, Pow256, VaultRecords, VaultCounts;
    Widths();
    var vs := VaultRecords(r);
    forall x: VaultRecord ensures VaultField().wf(x) <==> VaultCounts(x.state) { VaultsFit(x); }
    forall v | v in r.vaults ensures VaultRecord(v, r.vaults[v]) in vs { RecordOf(r, v); }
    forall x | x in vs ensures x.id in r.vaults && x.state == r.vaults[x.id] { RecordKnown(r, x); }
    if forall v :: v in r.vaults ==> VaultCounts(r.vaults[v]) {
      forall i | 0 <= i < |vs| ensures VaultField().wf(vs[i]) { assert vs[i] in vs; }
    }
    if forall i :: 0 <= i < |vs| ==> VaultField().wf(vs[i]) {
      forall v | v in r.vaults ensures VaultCounts(r.vaults[v]) {
        var i :| 0 <= i < |vs| && vs[i] == VaultRecord(v, r.vaults[v]);
        assert VaultField().wf(vs[i]);
      }
    }
  }

  lemma {:induction false} PartsFit(r: Registry)
    ensures MaterialFields().wf(PartsOfMaterial(r)) <==> MaterialCounts(r) && r.vaults != map[]
  {
    hide IdField, NodeField, U64Field, PointField, ScalarField, Elements, Devices, VaultField, VaultRecords, Pow256,
      Counted, VaultCounts;
    FieldsFit();
    NodesFit();
    ListsFit();
    RecordsFit(r);
    var t := PartsOfMaterial(r);
    assert MaterialFields().wf(t) ==
      (Elements().wf(r.identityMap.commitments) && Devices().wf(r.identityMap.devices)
        && Counted(4, 1, VaultField()).wf(VaultRecords(r)));
  }

  /** Accepted material bytes re-encode to themselves, and the material of any
    * consistent idle registry decodes back to the same installed state.
    */
  lemma {:induction false} MaterialRoundTrip(r: Registry, b: bytes)
    ensures MaterialFormat().decode(b) == Ok(r) ==>
      EncodeMaterial(r) == Ok(b) && Fits(r) && r.live.None? && r.nextSequence == 0
    ensures EncodeMaterial(r) == Ok(b) && Fits(r) && r.vaults != map[] ==>
      MaterialFormat().decode(b) == Ok(r.(nextSequence := 0))
  {
    hide MaterialFields, MaterialFormat, Fits, PartsOfMaterial, BuildMaterial, Pow256, MaterialCounts;
    MaterialLawful();
    if MaterialFormat().decode(b) == Ok(r) {
      WellFormedParts(r);
      PartsFit(r);
      BuiltFits(PartsOfMaterial(r), r);
    }
    if EncodeMaterial(r) == Ok(b) && Fits(r) && r.vaults != map[] {
      var idle := r.(nextSequence := 0);
      PartsFit(r);
      SameParts(r, idle);
      IdleFits(r, idle);
      BuildsMaterialBack(idle);
      WellFormedParts(r);
      WellFormedParts(idle);
    }
  }

  lemma {:induction false} WellFormedParts(r: Registry)
    ensures MaterialFormat().wf(r) <==>
      MaterialFields().wf(PartsOfMaterial(r)) && BuildMaterial(PartsOfMaterial(r)) == Ok(r)
    ensures MaterialFormat().encode(r) == MaterialFields().enc(PartsOfMaterial(r))
  {
    hide MaterialFields, PartsOfMaterial, BuildMaterial;
  }

  lemma {:induction false} BuiltFits(t: MaterialParts, r: Registry)
    requires BuildMaterial(t) == Ok(r)
    ensures Fits(r) && r.live.None? && r.nextSequence == 0
  {
    hide ValidateMaterial, VaultMap, Fits, Pow256;
    ValidateIff(r);
  }

  lemma {:induction false} SameParts(r: Registry, u: Registry)
    requires u == r.(nextSequence := 0)
    ensures PartsOfMaterial(u) == PartsOfMaterial(r)
  {
    hide Ascending;
    assert u.VaultOrder() == r.VaultOrder();
    assert VaultRecords(u) == VaultRecords(r);
  }

  lemma {:induction false} IdleFits(r: Registry, u: Registry)
    requires Fits(r) && u == r.(nextSequence := 0)
    ensures Fits(u)
  {
    hide EvaluatePoints, Pow256, PeopleFit, Ascending;
    forall v | v in r.vaults ensures VaultFits(u, r.vaults[v]) { assert VaultFits(r, r.vaults[v]); }
  }

  lemma {:induction false} BuildsMaterialBack(r: Registry)
    requires Fits(r) && r.live.None? && r.nextSequence == 0
    ensures BuildMaterial(PartsOfMaterial(r)) == Ok(r)
  {
    hide ValidateMaterial, VaultMap, VaultRecords, Fits, Pow256, IncreasingVaults;
    RecordsSorted(r);
    ValidateIff(r);
  }

  // ----- journals

  /** One device's durable attempt counter and lock. */
  datatype LeafJournal = LeafJournal(device: DeviceId, material: MaterialId, nextSequence: U64,
    live: Option<LeafAttempt>)
  {
    static function New(device: DeviceId, material: MaterialId, nextSequence: U64,
        live: Option<LeafAttempt>): Result<LeafJournal> {
      if live.Some? && live.value.device != device then Err(ParticipantMismatch)
      else if live.Some? && live.value.sequence + 1 != nextSequence then Err(InvalidTranscript)
      else Ok(LeafJournal(device, material, nextSequence, live))
    }

    static function Of(material: MaterialId, r: Registry): Result<LeafJournal> {
      New(r.device, material, r.nextSequence, if r.live.Some? then Some(r.live.value.attempt) else None)
    }

    predicate Valid() { New(device, material, nextSequence, live).Ok? }

    predicate IsClosed(a: LeafAttempt) {
      a.device == device && a.sequence < nextSequence && live != Some(a)
    }
  }

  function ByteField(): Codec<byte> { Map<nat, byte>(Uint(1), ToByte, (x: byte) => x) }
  function ToByte(n: nat): byte { if n < 256 then n else 0 }

  type JournalParts = (Id, (Id, (U64, (byte, U64))))

  function JournalFields(): Codec<JournalParts> {
    Marked(JOURNAL_MAGIC, ProtocolMismatch,
      Then(IdField(), Then(IdField(), Then(U64Field(), Then(ByteField(), U64Field())))))
  }

  function PartsOfJournal(j: LeafJournal): JournalParts {
    (j.device, (j.material, (j.nextSequence, if j.live.Some? then (1, j.live.value.sequence) else (0, 0))))
  }

  function BuildJournal(t: JournalParts): Result<LeafJournal> {
    var tag, sequence := t.1.1.1.0, t.1.1.1.1;
    if tag == 0 && sequence == 0 then LeafJournal.New(t.0, t.1.0, t.1.1.0, None)
    else if tag == 1 then LeafJournal.New(t.0, t.1.0, t.1.1.0, Some(LeafAttempt(t.0, sequence)))
    else Err(InvalidTranscript)
  }

  function JournalFormat(): Format<LeafJournal> { Checked(Whole(JournalFields()), BuildJournal, PartsOfJournal) }

  lemma {:induction false} JournalFieldsLawful()
    ensures JournalFields().Lawful()
  {
    hide Codec.Lawful, IdField, U64Field, ByteField;
    FieldsLawful();
    ByteLawful();
    var t0 := Then(ByteField(), U64Field());
    var t1 := Then(U64Field(), t0);
    var t2 := Then(IdField(), t1);
    ThenLawful(ByteField(), U64Field());
    ThenLawful(U64Field(), t0);
    ThenLawful(IdField(), t1);
    ThenLawful(IdField(), t2);
    MarkedLawful(JOURNAL_MAGIC, ProtocolMismatch, Then(IdField(), t2));
  }

  lemma {:induction false} JournalLawful()
    ensures JournalFormat().Lawful()
  {
    hide Codec.Lawful, Format.Lawful, JournalFields, Pow256;
    JournalFieldsLawful();
    WholeLawful(JournalFields());
    forall t: JournalParts | BuildJournal(t).Ok? ensures PartsOfJournal(BuildJournal(t).value) == t {}
    CheckedLawful(Whole(JournalFields()), BuildJournal, PartsOfJournal);
  }

  lemma {:induction false} ByteLawful()
    ensures ByteField().Lawful() && (forall b: byte :: ByteField().wf(b)) && forall b: byte :: |ByteField().enc(b)| == 1
  {
    Widths();
    UintLawful(1);
    MapLawful<nat, byte>(Uint(1), ToByte, (x: byte) => x);
  }

  lemma {:induction false} JournalLength(j: LeafJournal)
    ensures |JournalFormat().encode(j)| == 89
  {
    hide IdField, U64Field, ByteField, Pow256;
    FieldLengths();
    ByteLawful();
    var t := PartsOfJournal(j);
    var tail := U64Field().enc(t.1.1.0) + (ByteField().enc(t.1.1.1.0) + U64Field().enc(t.1.1.1.1));
    assert JournalFormat().encode(j) == JOURNAL_MAGIC + (IdField().enc(t.0) + (IdField().enc(t.1.0) + tail));
  }

  /** Journal records are 89 canonical bytes, and decode exactly the valid journals. */
  lemma {:induction false} JournalRoundTrip(j: LeafJournal, b: bytes)
    ensures JournalFormat().decode(b) == Ok(j) <==> j.Valid() && JournalFormat().encode(j) == b
    ensures |JournalFormat().encode(j)| == 89
  {
    hide JournalFormat, Format.Lawful, Pow256, LeafJournal.Valid;
    JournalLength(j);
    JournalLawful();
    JournalWellFormed(j);
    JournalDecodes(JournalFormat(), b, j);
  }

  lemma {:induction false} JournalDecodes<T(!new)>(f: Format<T>, b: bytes, x: T)
    requires f.Lawful()
    ensures f.decode(b) == Ok(x) <==> f.wf(x) && f.encode(x) == b
  {}

  lemma {:induction false} JournalWellFormed(j: LeafJournal)
    ensures JournalFormat().wf(j) <==> j.Valid()
  {
    hide IdField, U64Field, ByteField, Pow256;
    FieldsFit();
    ByteLawful();
    assert JournalFields().wf(PartsOfJournal(j));
  }
}

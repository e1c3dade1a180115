/** Canonical signing transcripts (src/transcript.rs). */
module Transcript {
  import opened Results
  import opened Field
  import opened Sorting
  import opened Algebra
  import opened Shamir
  import opened Support
  import opened Ids
  import opened Encoding
  import opened Hashes

  // "coupery-ksnf/v1", "member"
  const PROTOCOL_ID: bytes := [99, 111, 117, 112, 101, 114, 121, 45, 107, 115, 110, 102, 47, 118, 49]
  const MEMBER_LABEL: bytes := [109, 101, 109, 98, 101, 114]

  datatype AnchorId = AnchorId(vault: VaultId, person: PersonId, identity: Handle, member: Handle)
  datatype KeyEpoch = KeyEpoch(outer: Epoch, inner: Epoch, anchor: AnchorId)
  datatype NoncePair = NoncePair(hiding: Point, binding: Point)

  // ----- key epochs

  function EpochFields(): Codec<(Epoch, (Epoch, (Id, (Id, (Id, Id)))))> {
    Then(U64Field(), Then(U64Field(), Then(IdField(), Then(IdField(), Then(IdField(), IdField())))))
  }

  function ToEpoch(t: (Epoch, (Epoch, (Id, (Id, (Id, Id)))))): KeyEpoch {
    KeyEpoch(t.0, t.1.0, AnchorId(t.1.1.0, t.1.1.1.0, t.1.1.1.1.0, t.1.1.1.1.1))
  }

  function FromEpoch(e: KeyEpoch): (Epoch, (Epoch, (Id, (Id, (Id, Id))))) {
    (e.outer, (e.inner, (e.anchor.vault, (e.anchor.person, (e.anchor.identity, e.anchor.member)))))
  }

  function EpochCodec(): Codec<KeyEpoch> { Map(EpochFields(), ToEpoch, FromEpoch) }

  lemma {:induction false} EpochLawful()
    ensures EpochCodec().Lawful()
  {
    hide Codec.Lawful, Format.Lawful;
    FieldsLawful();
    ThenLawful(IdField(), IdField());
    ThenLawful(IdField(), Then(IdField(), IdField()));
    ThenLawful(IdField(), Then(IdField(), Then(IdField(), IdField())));
    ThenLawful(U64Field(), Then(IdField(), Then(IdField(), Then(IdField(), IdField()))));
    ThenLawful(U64Field(), Then(U64Field(), Then(IdField(), Then(IdField(), Then(IdField(), IdField())))));
    MapLawful(EpochFields(), ToEpoch, FromEpoch);
  }

  // ----- member bodies

  /** A private member commitment body. */
  datatype MemberBody = MemberBody(
    identity: Point, member: Point, epoch: KeyEpoch, inner: InnerSupport, outer: OuterCoefficient)
  {
    static function New(identity: Point, member: Point, epoch: KeyEpoch, inner: InnerSupport,
        outer: OuterCoefficient): Result<MemberBody> {
      if epoch.anchor.person != outer.person then Err(ParticipantMismatch)
      else if member != outer.member then Err(SupportMismatch)
      else Ok(MemberBody(identity, member, epoch, inner, outer))
    }
  }

  datatype RawDevice = RawDevice(device: DeviceId, node: Node, share: Element, coefficient: Scalar)

  function DeviceFields(): Codec<(Id, (Node, (Element, Scalar)))> {
    Then(IdField(), Then(NodeField(), Then(ElementField(), ScalarField())))
  }

  function ToRawDevice(t: (Id, (Node, (Element, Scalar)))): RawDevice {
    RawDevice(t.0, t.1.0, t.1.1.0, t.1.1.1)
  }

  function FromRawDevice(d: RawDevice): (Id, (Node, (Element, Scalar))) {
    (d.device, (d.node, (d.share, d.coefficient)))
  }

  function RawDeviceCodec(): Codec<RawDevice> { Map(DeviceFields(), ToRawDevice, FromRawDevice) }

  lemma {:induction false} RawDeviceLawful()
    ensures RawDeviceCodec().Lawful()
  {
    hide Codec.Lawful, Format.Lawful;
    FieldsLawful();
    NodeLawful();
    ThenLawful(ElementField(), ScalarField());
    ThenLawful(NodeField(), Then(ElementField(), ScalarField()));
    ThenLawful(IdField(), Then(NodeField(), Then(ElementField(), ScalarField())));
    MapLawful(DeviceFields(), ToRawDevice, FromRawDevice);
  }

  type BodyParts = (Point, (Point, (KeyEpoch, (seq<RawDevice>, (Id, (U16, Scalar))))))

  function BodyFields(): Codec<BodyParts> {
    Marked(WIRE_ID, UnsupportedVersion,
      Then(PointField(), Then(PointField(), Then(EpochCodec(), Then(Counted(2, 1, RawDeviceCodec()),
        Then(IdField(), Then(U16Field(), ScalarField())))))))
  }

  lemma {:induction false} BodyFieldsLawful()
    ensures BodyFields().Lawful()
  {
    hide Codec.Lawful, Format.Lawful;
    FieldsLawful();
    EpochLawful();
    RawDeviceLawful();
    CountedLawful(2, 1, RawDeviceCodec());
    var t0 := Then(U16Field(), ScalarField());
    var t1 := Then(IdField(), t0);
    var t2 := Then(Counted(2, 1, RawDeviceCodec()), t1);
    var t3 := Then(EpochCodec(), t2);
    var t4 := Then(PointField(), t3);
    ThenLawful(U16Field(), ScalarField());
    ThenLawful(IdField(), t0);
    ThenLawful(Counted(2, 1, RawDeviceCodec()), t1);
    ThenLawful(EpochCodec(), t2);
    ThenLawful(PointField(), t3);
    ThenLawful(PointField(), t4);
    MarkedLawful(WIRE_ID, UnsupportedVersion, Then(PointField(), t4));
  }

  function RawDevices(s: InnerSupport): seq<RawDevice> {
    seq(|s.participants|, i requires 0 <= i < |s.participants| =>
      var p := s.participants[i];
      RawDevice(p.device, p.node, p.share, if i < |s.coefficients| then s.coefficients[i] else 0))
  }

  /** What the encoder writes for a body. */
  function PartsOf(b: MemberBody): BodyParts {
    (b.identity, (b.member, (b.epoch, (RawDevices(b.inner),
      (b.outer.person, (b.outer.slot, b.outer.scalar))))))
  }

  function RawParticipants(ds: seq<RawDevice>): (r: seq<DeviceParticipant>)
    ensures |r| == |ds|
  {
    seq(|ds|, i requires 0 <= i < |ds| => DeviceParticipant(ds[i].device, ds[i].node, ds[i].share))
  }

  /** Rebuilds a body, recomputing both tiers of coefficients. */
  function BuildBody(t: BodyParts, os: OuterSupport): Result<MemberBody> {
    var devices := t.1.1.1.0;
    var participants := RawParticipants(devices);
    var inner :- InnerSupport.New(participants);
    if inner.participants != participants then Err(InvalidTranscript)
    else if exists i :: 0 <= i < |devices| && i < |inner.coefficients|
      && inner.coefficients[i] != devices[i].coefficient
      then Err(CoefficientMismatch)
    else
      var outer :- os.Coefficient(t.1.1.1.1.0);
      if outer.slot != t.1.1.1.1.1.0 || outer.scalar != t.1.1.1.1.1.1 then Err(CoefficientMismatch)
      else MemberBody.New(t.0, t.1.0, t.1.1.0, inner, outer)
  }

  function BodyBuilder(os: OuterSupport): BodyParts -> Result<MemberBody> {
    (t: BodyParts) => BuildBody(t, os)
  }

  function BodyFormat(os: OuterSupport): Format<MemberBody> {
    Checked(Whole(BodyFields()), BodyBuilder(os), PartsOf)
  }

  lemma {:induction false} SameRawDevices(inner: InnerSupport, devices: seq<RawDevice>)
    requires inner.participants == RawParticipants(devices) && |inner.coefficients| == |devices|
    requires forall i :: 0 <= i < |devices| ==> inner.coefficients[i] == devices[i].coefficient
    ensures RawDevices(inner) == devices
  {
    hide Pow256;
    forall i | 0 <= i < |devices| ensures RawDevices(inner)[i] == devices[i] {
      assert inner.participants[i] == RawParticipants(devices)[i];
    }
  }

  lemma {:induction false} BuildBodyParts(t: BodyParts, os: OuterSupport)
    requires BuildBody(t, os).Ok?
    ensures PartsOf(BuildBody(t, os).value) == t
  {
    hide InnerSupport.New, InnerSupport.Valid, RawDevices, RawParticipants, Find, Pow256;
    var b := BuildBody(t, os).value;
    var devices := t.1.1.1.0;
    NewCounts(RawParticipants(devices));
    SameRawDevices(b.inner, devices);
  }

  lemma {:induction false} NewCounts(ps: seq<DeviceParticipant>)
    ensures InnerSupport.New(ps).Ok? ==>
      |InnerSupport.New(ps).value.coefficients| == |InnerSupport.New(ps).value.participants| == |ps|
  {
    hide Pow256;
  }

  lemma {:induction false} BodyLawful(os: OuterSupport)
    ensures BodyFormat(os).Lawful()
  {
    hide Codec.Lawful, Format.Lawful;
    BodyFieldsLawful();
    WholeLawful(BodyFields());
    forall t: BodyParts | BodyBuilder(os)(t).Ok? ensures PartsOf(BodyBuilder(os)(t).value) == t {
      BuildBodyParts(t, os);
    }
    CheckedLawful(Whole(BodyFields()), BodyBuilder(os), PartsOf);
  }

  lemma {:induction false} BuildsBack(b: MemberBody, os: OuterSupport)
    requires b.inner.Valid()
    requires os.Coefficient(b.outer.person) == Ok(b.outer)
    requires MemberBody.New(b.identity, b.member, b.epoch, b.inner, b.outer).Ok?
    ensures BuildBody(PartsOf(b), os) == Ok(b)
  {
    hide Weight, Sort;
    var ps := b.inner.participants;
    assert RawParticipants(RawDevices(b.inner)) == ps;
    SortSorted(ps, DeviceKey);
    AdjacentIsStrict(ps, DeviceKey);
    assert InnerSupport.New(ps) == Ok(b.inner);
  }

  lemma {:induction false} PartsFit()
    ensures forall x: KeyEpoch :: EpochCodec().wf(x)
    ensures forall x: RawDevice :: RawDeviceCodec().wf(x)
  {
    hide IdField, U64Field, ElementField, ScalarField, NodeField;
    FieldsFit();
    NodesFit();
    forall x: KeyEpoch ensures EpochCodec().wf(x) {
      assert EpochFields().wf(FromEpoch(x));
    }
    forall x: RawDevice ensures RawDeviceCodec().wf(x) {
      assert DeviceFields().wf(FromRawDevice(x));
    }
  }

  lemma {:induction false} BodyFieldsFit(b: MemberBody)
    requires b.inner.participants != [] && |b.inner.participants| < U16_LIMIT
    ensures BodyFields().wf(PartsOf(b))
  {
    hide IdField, U16Field, EpochCodec, RawDeviceCodec, PointField, ScalarField, Pow256;
    Widths();
    FieldsFit();
    PartsFit();
    assert Counted(2, 1, RawDeviceCodec()).wf(RawDevices(b.inner));
  }

  /** A body made from accepted supports is well formed for the support it names. */
  lemma {:induction false} BodyWellFormed(b: MemberBody, os: OuterSupport)
    requires b.inner.Valid() && |b.inner.participants| < U16_LIMIT
    requires os.Coefficient(b.outer.person) == Ok(b.outer)
    requires MemberBody.New(b.identity, b.member, b.epoch, b.inner, b.outer).Ok?
    ensures BodyFormat(os).wf(b)
  {
    hide BodyFields, BuildBody, Weight, PartsOf;
    BuildsBack(b, os);
    BodyFieldsFit(b);
  }

  /** The body encoder of the source, which fails on more devices than a count holds. */
  function BodyBytes(b: MemberBody): Result<bytes> {
    if |b.inner.participants| < U16_LIMIT then Ok(BodyFields().enc(PartsOf(b))) else Err(LengthOverflow)
  }

  // ----- member records

  /** A public commitment to one member body. */
  datatype MemberRecord = MemberRecord(slot: Slot, member: Point, commitment: Scalar)
  {
    static function Commit(body: MemberBody, salt: Scalar): Result<MemberRecord> {
      var bodyBytes :- BodyBytes(body);
      var name :- PutBytes(MEMBER_LABEL);
      var packed :- PutBytes(bodyBytes);
      Ok(MemberRecord(body.outer.slot, body.member,
        HASHES.member(WIRE_ID + name + ToBytes(salt, 32) + packed)))
    }
  }

  function RecordSlot(r: MemberRecord): int { r.slot }

  function RecordFields(): Codec<(U16, (Point, Scalar))> {
    Then(U16Field(), Then(PointField(), ScalarField()))
  }

  function ToRecord(t: (U16, (Point, Scalar))): MemberRecord { MemberRecord(t.0, t.1.0, t.1.1) }
  function FromRecord(r: MemberRecord): (U16, (Point, Scalar)) { (r.slot, (r.member, r.commitment)) }
  function RecordCodec(): Codec<MemberRecord> { Map(RecordFields(), ToRecord, FromRecord) }

  lemma {:induction false} RecordLawful()
    ensures RecordCodec().Lawful()
  {
    hide Codec.Lawful;
    FieldsLawful();
    ThenLawful(PointField(), ScalarField());
    ThenLawful(U16Field(), Then(PointField(), ScalarField()));
    MapLawful(RecordFields(), ToRecord, FromRecord);
  }

  lemma {:induction false} RecordsFit()
    ensures forall r: MemberRecord :: RecordCodec().wf(r)
  {
    hide U16Field, PointField, ScalarField;
    FieldsFit();
    forall r: MemberRecord ensures RecordCodec().wf(r) {
      assert RecordFields().wf(FromRecord(r));
    }
  }

  /** Adjacent slots in strict order; the first bad pair decides the error. */
  function EnsureSorted(slots: seq<Slot>): Result<()> {
    if |slots| < 2 then Ok(())
    else if slots[0] == slots[1] then Err(DuplicateSlot)
    else if slots[0] > slots[1] then Err(InvalidTranscript)
    else EnsureSorted(slots[1..])
  }

  lemma {:induction false} EnsureSortedIff(slots: seq<Slot>)
    ensures EnsureSorted(slots).Ok? <==> forall i, j :: 0 <= i < j < |slots| ==> slots[i] < slots[j]
  {
    if |slots| >= 2 {
      EnsureSortedIff(slots[1..]);
      if EnsureSorted(slots).Ok? {
        forall i, j | 0 <= i < j < |slots| ensures slots[i] < slots[j] {
          if i > 0 { assert slots[1..][i - 1] < slots[1..][j - 1]; }
          else if j > 1 { assert slots[1..][0] < slots[1..][j - 1]; }
        }
      }
    }
  }

  // ----- root packages

  datatype RootContext = RootContext(vault: VaultId, epoch: Epoch, ceremony: CommandId)
  datatype RootHead = RootHead(key: Point, message: bytes, context: RootContext)

  predicate IsProtocol(s: bytes) { s == PROTOCOL_ID }

  function ProtocolField(): Codec<()> {
    Map<bytes, ()>(Guard(Blob(), IsProtocol, ProtocolMismatch), (s: bytes) => (), (u: ()) => PROTOCOL_ID)
  }

  lemma {:induction false} ProtocolLawful()
    ensures ProtocolField().Lawful() && ProtocolField().wf(())
  {
    Widths();
    BlobLawful();
    assert IsProtocol(PROTOCOL_ID) && Blob().wf(PROTOCOL_ID);
    assert Guard(Blob(), IsProtocol, ProtocolMismatch).wf(PROTOCOL_ID);
    GuardLawful(Blob(), IsProtocol, ProtocolMismatch);
    MapLawful<bytes, ()>(Guard(Blob(), IsProtocol, ProtocolMismatch), (s: bytes) => (), (u: ()) => PROTOCOL_ID);
  }

  type HeadParts = (Point, (bytes, ((), (Id, (Epoch, Id)))))

  function HeadFields(): Codec<HeadParts> {
    Marked(WIRE_ID, UnsupportedVersion,
      Then(PointField(), Then(Blob(), Then(ProtocolField(), Then(IdField(), Then(U64Field(), IdField()))))))
  }

  function ToHead(t: HeadParts): RootHead {
    RootHead(t.0, t.1.0, RootContext(t.1.1.1.0, t.1.1.1.1.0, t.1.1.1.1.1))
  }

  function FromHead(h: RootHead): HeadParts {
    (h.key, (h.message, ((), (h.context.vault, (h.context.epoch, h.context.ceremony)))))
  }

  function HeadCodec(): Codec<RootHead> { Map(HeadFields(), ToHead, FromHead) }

  lemma {:induction false} HeadLawful()
    ensures HeadCodec().Lawful()
  {
    hide Codec.Lawful, Format.Lawful;
    FieldsLawful();
    ProtocolLawful();
    var t0 := Then(U64Field(), IdField());
    var t1 := Then(IdField(), t0);
    var t2 := Then(ProtocolField(), t1);
    var t3 := Then(Blob(), t2);
    ThenLawful(U64Field(), IdField());
    ThenLawful(IdField(), t0);
    ThenLawful(ProtocolField(), t1);
    ThenLawful(Blob(), t2);
    ThenLawful(PointField(), t3);
    MarkedLawful(WIRE_ID, UnsupportedVersion, Then(PointField(), t3));
    MapLawful(HeadFields(), ToHead, FromHead);
  }

  lemma {:induction false} HeadFits(h: RootHead)
    ensures HeadCodec().wf(h) <==> |h.message| < U32_LIMIT
  {
    ProtocolLawful();
    Widths();
    hide IdField, U64Field, PointField, ProtocolField, Pow256;
    FieldsFit();
    assert HeadFields().wf(FromHead(h)) <==> Blob().wf(h.message);
  }

  /** A root package before nonce creation. */
  datatype RootPrepackage = RootPrepackage(head: RootHead, records: seq<MemberRecord>)
  {
    ghost predicate Valid() {
      && records != [] && StrictlySorted(records, RecordSlot)
      && |records| < U16_LIMIT && |head.message| < U32_LIMIT
    }

    /** Record by record agreement with the support. */
    function ValidateSupport(os: OuterSupport): Result<()> {
      Need(
        && |records| == |os.participants|
        && forall i :: 0 <= i < |records| ==>
          records[i].slot == os.participants[i].slot && records[i].member == os.participants[i].member,
        SupportMismatch)
    }

    function Record(slot: Slot): Result<MemberRecord> {
      var i := Find(records, RecordSlot, slot);
      if i.Some? then Ok(records[i.value]) else Err(ParticipantNotFound)
    }

    function Fits(): Result<()> {
      Need(|head.message| < U32_LIMIT && |records| < U16_LIMIT, LengthOverflow)
    }

    static function New(head: RootHead, os: OuterSupport, records: seq<MemberRecord>): Result<RootPrepackage> {
      var sorted := Sort(records, RecordSlot);
      if records == [] then Err(EmptyInput)
      else if !AdjacentDistinct(sorted, RecordSlot) then Err(DuplicateSlot)
      else
        var p := RootPrepackage(head, sorted);
        var _ :- p.ValidateSupport(os);
        var _ :- p.Fits();
        Ok(p)
    }
  }

  lemma {:induction false} PrepackageNew(head: RootHead, os: OuterSupport, records: seq<MemberRecord>)
    ensures var r := RootPrepackage.New(head, os, records);
      r.Ok? ==> r.value.Valid() && r.value.ValidateSupport(os).Ok?
  {
    AdjacentIsStrict(Sort(records, RecordSlot), RecordSlot);
  }

  function PrepackageFields(): Codec<(RootHead, seq<MemberRecord>)> {
    Then(HeadCodec(), Counted(2, 1, RecordCodec()))
  }

  function RecordSlots(rs: seq<MemberRecord>): (r: seq<Slot>)
    ensures |r| == |rs|
  {
    seq(|rs|, i requires 0 <= i < |rs| => rs[i].slot)
  }

  function BuildPrepackage(t: (RootHead, seq<MemberRecord>)): Result<RootPrepackage> {
    var _ :- EnsureSorted(RecordSlots(t.1));
    Ok(RootPrepackage(t.0, t.1))
  }

  function PrepackageParts(p: RootPrepackage): (RootHead, seq<MemberRecord>) { (p.head, p.records) }

  function PrepackageFormat(): Format<RootPrepackage> {
    Checked(Whole(PrepackageFields()), BuildPrepackage, PrepackageParts)
  }

  lemma {:induction false} PrepackageLawful()
    ensures PrepackageFormat().Lawful()
  {
    hide Codec.Lawful, Format.Lawful;
    HeadLawful();
    RecordLawful();
    CountedLawful(2, 1, RecordCodec());
    ThenLawful(HeadCodec(), Counted(2, 1, RecordCodec()));
    WholeLawful(PrepackageFields());
    CheckedLawful(Whole(PrepackageFields()), BuildPrepackage, PrepackageParts);
  }

  lemma {:induction false} SlotsOrdered(rs: seq<MemberRecord>)
    ensures EnsureSorted(RecordSlots(rs)).Ok? <==> StrictlySorted(rs, RecordSlot)
  {
    var slots := RecordSlots(rs);
    EnsureSortedIff(slots);
    assert forall i :: 0 <= i < |slots| ==> slots[i] == RecordSlot(rs[i]);
  }

  /** The format accepts exactly the valid prepackages. */
  lemma {:induction false} PrepackageWellFormed(p: RootPrepackage)
    ensures PrepackageFormat().wf(p) <==> p.Valid()
  {
    hide HeadCodec, RecordCodec, Pow256, StrictlySorted, EnsureSorted;
    Widths();
    HeadFits(p.head);
    RecordsFit();
    SlotsOrdered(p.records);
    assert Counted(2, 1, RecordCodec()).wf(p.records) <==> 1 <= |p.records| < U16_LIMIT;
    assert PrepackageFields().wf(PrepackageParts(p)) <==> 1 <= |p.records| < U16_LIMIT && |p.head.message| < U32_LIMIT;
    assert BuildPrepackage(PrepackageParts(p)) == Ok(p) <==> EnsureSorted(RecordSlots(p.records)).Ok?;
  }

  datatype RootEntry = RootEntry(record: MemberRecord, nonce: NoncePair)

  function EntrySlot(e: RootEntry): int { e.record.slot }

  /** A canonical public signing package. */
  datatype RootPackage = RootPackage(head: RootHead, entries: seq<RootEntry>)
  {
    ghost predicate Valid() {
      && entries != [] && StrictlySorted(entries, EntrySlot)
      && |entries| < U16_LIMIT && |head.message| < U32_LIMIT
    }

    function Prepackage(): RootPrepackage { RootPrepackage(head, EntryRecords(entries)) }

    function ValidateSupport(os: OuterSupport): Result<()> {
      Need(
        && |entries| == |os.participants|
        && forall i :: 0 <= i < |entries| ==>
          && entries[i].record.slot == os.participants[i].slot
          && entries[i].record.member == os.participants[i].member,
        SupportMismatch)
    }

    function Entry(slot: Slot): Result<RootEntry> {
      var i := Find(entries, EntrySlot, slot);
      if i.Some? then Ok(entries[i.value]) else Err(ParticipantNotFound)
    }

    /** Adds member nonces to a prepackage. */
    static function Finalize(p: RootPrepackage, os: OuterSupport, nonces: seq<MemberNonce>): Result<RootPackage> {
      var _ :- p.ValidateSupport(os);
      var sorted := Sort(nonces, NonceSlot);
      if |sorted| != |p.records| then Err(SupportMismatch)
      else if !AdjacentDistinct(sorted, NonceSlot) then Err(DuplicateSlot)
      else if exists i :: 0 <= i < |sorted| && p.records[i].slot != sorted[i].slot then Err(SupportMismatch)
      else
        var _ :- p.Fits();
        Ok(RootPackage(p.head, Zip(p.records, sorted)))
    }
  }

  datatype MemberNonce = MemberNonce(slot: Slot, nonce: NoncePair)
  function NonceSlot(n: MemberNonce): int { n.slot }

  function Zip(rs: seq<MemberRecord>, ns: seq<MemberNonce>): (r: seq<RootEntry>)
    requires |rs| == |ns|
    ensures |r| == |rs|
  {
    seq(|rs|, i requires 0 <= i < |rs| => RootEntry(rs[i], ns[i].nonce))
  }

  function EntryRecords(es: seq<RootEntry>): (r: seq<MemberRecord>)
    ensures |r| == |es|
  {
    seq(|es|, i requires 0 <= i < |es| => es[i].record)
  }

  lemma {:induction false} FinalizeValid(p: RootPrepackage, os: OuterSupport, nonces: seq<MemberNonce>)
    requires p.Valid()
    ensures var r := RootPackage.Finalize(p, os, nonces);
      r.Ok? ==> r.value.Valid() && r.value.Prepackage() == p && r.value.ValidateSupport(os).Ok?
  {
    var r := RootPackage.Finalize(p, os, nonces);
    if r.Ok? {
      assert EntryRecords(r.value.entries) == p.records;
      forall i, j | 0 <= i < j < |r.value.entries|
        ensures EntrySlot(r.value.entries[i]) < EntrySlot(r.value.entries[j]) {
        assert RecordSlot(p.records[i]) < RecordSlot(p.records[j]);
      }
    }
  }

  // ----- the root package on the wire: public entries, then their records

  datatype PublicEntry = PublicEntry(slot: Slot, member: Point, nonce: NoncePair)

  function PublicFields(): Codec<(U16, (Point, (Point, Point)))> {
    Then(U16Field(), Then(PointField(), Then(PointField(), PointField())))
  }

  function ToPublic(t: (U16, (Point, (Point, Point)))): PublicEntry {
    PublicEntry(t.0, t.1.0, NoncePair(t.1.1.0, t.1.1.1))
  }

  function FromPublic(e: PublicEntry): (U16, (Point, (Point, Point))) {
    (e.slot, (e.member, (e.nonce.hiding, e.nonce.binding)))
  }

  function PublicCodec(): Codec<PublicEntry> { Map(PublicFields(), ToPublic, FromPublic) }

  lemma {:induction false} PublicLawful()
    ensures PublicCodec().Lawful()
  {
    hide Codec.Lawful;
    FieldsLawful();
    ThenLawful(PointField(), PointField());
    ThenLawful(PointField(), Then(PointField(), PointField()));
    ThenLawful(U16Field(), Then(PointField(), Then(PointField(), PointField())));
    MapLawful(PublicFields(), ToPublic, FromPublic);
  }

  lemma {:induction false} PublicFit()
    ensures forall e: PublicEntry :: PublicCodec().wf(e)
  {
    hide U16Field, PointField;
    FieldsFit();
    forall e: PublicEntry ensures PublicCodec().wf(e) {
      assert PublicFields().wf(FromPublic(e));
    }
  }

  function Matches(e: PublicEntry): MemberRecord -> bool {
    (r: MemberRecord) => r.slot == e.slot && r.member == e.member
  }

  function MatchingRecord(e: PublicEntry): Codec<MemberRecord> {
    Guard(RecordCodec(), Matches(e), InvalidTranscript)
  }

  function MatchingRecords(es: seq<PublicEntry>): (r: seq<Codec<MemberRecord>>)
    ensures |r| == |es|
  {
    seq(|es|, i requires 0 <= i < |es| => MatchingRecord(es[i]))
  }

  function SameCount(n: nat): U16 -> bool { (x: U16) => x == n }

  /** The record section repeats the count and every slot and member point. */
  function RecordSection(es: seq<PublicEntry>): Codec<(U16, seq<MemberRecord>)> {
    Then(Guard(U16Field(), SameCount(|es|), LengthMismatch), Each(MatchingRecords(es)))
  }

  type PackageParts = (RootHead, (seq<PublicEntry>, (U16, seq<MemberRecord>)))

  function PackageFields(): Codec<PackageParts> {
    Then(HeadCodec(), Depend(Counted(2, 1, PublicCodec()), RecordSection))
  }

  lemma {:induction false} SectionLawful(es: seq<PublicEntry>)
    ensures RecordSection(es).Lawful()
  {
    hide Codec.Lawful, Format.Lawful;
    FieldsLawful();
    RecordLawful();
    GuardLawful(U16Field(), SameCount(|es|), LengthMismatch);
    forall i | 0 <= i < |es| ensures MatchingRecords(es)[i].Lawful() {
      GuardLawful(RecordCodec(), Matches(es[i]), InvalidTranscript);
    }
    EachLawful(MatchingRecords(es));
    ThenLawful(Guard(U16Field(), SameCount(|es|), LengthMismatch), Each(MatchingRecords(es)));
  }

  lemma {:induction false} PackageFieldsLawful()
    ensures PackageFields().Lawful()
  {
    hide Codec.Lawful, Format.Lawful;
    HeadLawful();
    PublicLawful();
    CountedLawful(2, 1, PublicCodec());
    forall es: seq<PublicEntry> ensures RecordSection(es).Lawful() { SectionLawful(es); }
    DependLawful(Counted(2, 1, PublicCodec()), RecordSection);
    ThenLawful(HeadCodec(), Depend(Counted(2, 1, PublicCodec()), RecordSection));
  }

  function JoinEntries(es: seq<PublicEntry>, rs: seq<MemberRecord>): (r: seq<RootEntry>)
    ensures |r| == if |es| <= |rs| then |es| else |rs|
  {
    seq(if |es| <= |rs| then |es| else |rs|, i requires 0 <= i < |es| && i < |rs| => RootEntry(rs[i], es[i].nonce))
  }

  function PublicEntries(es: seq<RootEntry>): (r: seq<PublicEntry>)
    ensures |r| == |es|
  {
    seq(|es|, i requires 0 <= i < |es| => PublicEntry(es[i].record.slot, es[i].record.member, es[i].nonce))
  }

  function BuildPackage(t: PackageParts): Result<RootPackage> {
    if |t.1.0| != |t.1.1.1| || t.1.1.0 != |t.1.0| || (exists i :: 0 <= i < |t.1.0| && !Matches(t.1.0[i])(t.1.1.1[i]))
      then Err(InvalidTranscript)  // never taken: the record section already matched
    else
      var _ :- EnsureSorted(RecordSlots(t.1.1.1));
      Ok(RootPackage(t.0, JoinEntries(t.1.0, t.1.1.1)))
  }

  function PartsOfPackage(p: RootPackage): PackageParts {
    (p.head, (PublicEntries(p.entries), (if |p.entries| < U16_LIMIT then |p.entries| else 0, EntryRecords(p.entries))))
  }

  function PackageFormat(): Format<RootPackage> {
    Checked(Whole(PackageFields()), BuildPackage, PartsOfPackage)
  }

  lemma {:induction false} BuildPackageParts(t: PackageParts)
    requires BuildPackage(t).Ok?
    ensures PartsOfPackage(BuildPackage(t).value) == t
  {
    var p := BuildPackage(t).value;
    var es, rs := t.1.0, t.1.1.1;
    forall i | 0 <= i < |es| ensures PublicEntries(p.entries)[i] == es[i] && EntryRecords(p.entries)[i] == rs[i] {
      assert Matches(es[i])(rs[i]);
    }
    assert PublicEntries(p.entries) == es && EntryRecords(p.entries) == rs;
  }

  lemma {:induction false} PackageLawful()
    ensures PackageFormat().Lawful()
  {
    hide Codec.Lawful, Format.Lawful;
    PackageFieldsLawful();
    WholeLawful(PackageFields());
    forall t: PackageParts | BuildPackage(t).Ok? ensures PartsOfPackage(BuildPackage(t).value) == t {
      BuildPackageParts(t);
    }
    CheckedLawful(Whole(PackageFields()), BuildPackage, PartsOfPackage);
  }

  lemma {:induction false} SectionFits(p: RootPackage)
    requires |p.entries| < U16_LIMIT
    ensures RecordSection(PublicEntries(p.entries)).wf((|p.entries|, EntryRecords(p.entries)))
  {
    hide U16Field, RecordCodec;
    FieldsFit();
    RecordsFit();
    var es, rs := PublicEntries(p.entries), EntryRecords(p.entries);
    forall i | 0 <= i < |es| ensures MatchingRecords(es)[i].wf(rs[i]) {
      assert Matches(es[i])(rs[i]) && RecordCodec().wf(rs[i]);
    }
    assert Each(MatchingRecords(es)).wf(rs);
    var n: U16 := |p.entries|;
    assert SameCount(|es|)(n) && U16Field().wf(n);
    assert Guard(U16Field(), SameCount(|es|), LengthMismatch).wf(n);
  }

  lemma {:induction false} BuildsPackageBack(p: RootPackage)
    requires |p.entries| < U16_LIMIT
    ensures BuildPackage(PartsOfPackage(p)) == Ok(p) <==> EnsureSorted(RecordSlots(EntryRecords(p.entries))).Ok?
  {
    var es, rs := PublicEntries(p.entries), EntryRecords(p.entries);
    forall i | 0 <= i < |es| ensures Matches(es[i])(rs[i]) {}
    assert JoinEntries(es, rs) == p.entries;
  }

  /** The format accepts exactly the valid packages. */
  lemma {:induction false} PackageWellFormed(p: RootPackage)
    ensures PackageFormat().wf(p) <==> p.Valid()
  {
    hide HeadCodec, PublicCodec, Pow256, StrictlySorted, EnsureSorted, RecordSection, BuildPackage;
    Widths();
    HeadFits(p.head);
    PublicFit();
    var es, rs := PublicEntries(p.entries), EntryRecords(p.entries);
    SlotsOrdered(rs);
    assert StrictlySorted(rs, RecordSlot) <==> StrictlySorted(p.entries, EntrySlot) by {
      StrictOrders(p.entries);
    }
    assert Counted(2, 1, PublicCodec()).wf(es) <==> 1 <= |es| < U16_LIMIT;
    if |p.entries| < U16_LIMIT {
      SectionFits(p);
      BuildsPackageBack(p);
    }
    var parts := PartsOfPackage(p);
    assert PackageFields().wf(parts) <==>
      HeadCodec().wf(p.head) && Counted(2, 1, PublicCodec()).wf(es) && RecordSection(es).wf(parts.1.1);
  }

  lemma {:induction false} StrictOrders(es: seq<RootEntry>)
    ensures StrictlySorted(EntryRecords(es), RecordSlot) <==> StrictlySorted(es, EntrySlot)
  {
    var rs := EntryRecords(es);
    assert forall i :: 0 <= i < |es| ==> RecordSlot(rs[i]) == EntrySlot(es[i]);
  }

  /** Canonical package bytes; oversized fields fail. */
  function PackageBytes(p: RootPackage): Result<bytes> {
    if |p.head.message| < U32_LIMIT && |p.entries| < U16_LIMIT then Ok(PackageFormat().encode(p))
    else Err(LengthOverflow)
  }

  /** Accepted package bytes are canonical, and every valid package survives the trip. */
  lemma {:induction false} PackageCanonical(b: bytes, p: RootPackage)
    ensures PackageFormat().decode(b) == Ok(p) ==> p.Valid() && PackageBytes(p) == Ok(b)
    ensures p.Valid() ==> PackageBytes(p).Ok? && PackageFormat().decode(PackageBytes(p).value) == Ok(p)
  {
    hide PackageFormat;
    PackageLawful();
    PackageWellFormed(p);
  }

  // ----- private openings and reservations

  /** A private member opening. */
  datatype MemberOpening = MemberOpening(salt: Scalar, body: MemberBody)
  {
    function Record(): Result<MemberRecord> { MemberRecord.Commit(body, salt) }
  }

  function OpeningFields(os: OuterSupport): Codec<(Scalar, MemberBody)> {
    Marked(WIRE_ID, UnsupportedVersion, Then(ScalarField(), Nested(BodyFormat(os))))
  }

  function ToOpening(t: (Scalar, MemberBody)): MemberOpening { MemberOpening(t.0, t.1) }
  function FromOpening(o: MemberOpening): (Scalar, MemberBody) { (o.salt, o.body) }

  function OpeningFormat(os: OuterSupport): Format<MemberOpening> {
    Whole(Map(OpeningFields(os), ToOpening, FromOpening))
  }

  lemma {:induction false} OpeningLawful(os: OuterSupport)
    ensures OpeningFormat(os).Lawful()
  {
    hide Codec.Lawful, Format.Lawful;
    ScalarLawful();
    BodyLawful(os);
    NestedLawful(BodyFormat(os));
    ThenLawful(ScalarField(), Nested(BodyFormat(os)));
    MarkedLawful(WIRE_ID, UnsupportedVersion, Then(ScalarField(), Nested(BodyFormat(os))));
    MapLawful(OpeningFields(os), ToOpening, FromOpening);
    WholeLawful(Map(OpeningFields(os), ToOpening, FromOpening));
  }

  /** A verified private member reservation before nonce creation. */
  datatype MemberReservation = MemberReservation(prepackage: RootPrepackage, opening: MemberOpening)
  {
    static function New(prepackage: RootPrepackage, opening: MemberOpening,
        os: OuterSupport): Result<MemberReservation> {
      var body := opening.body;
      var _ :- prepackage.ValidateSupport(os);
      if body.epoch.outer != prepackage.head.context.epoch || body.epoch.anchor.vault != prepackage.head.context.vault
        then Err(InvalidTranscript)
      else
        var expected :- prepackage.Record(body.outer.slot);
        var actual :- opening.Record();
        if expected != actual then Err(CommitmentMismatch) else Ok(MemberReservation(prepackage, opening))
    }

    function Body(): MemberBody { opening.body }
    function Slot(): Slot { opening.body.outer.slot }
  }

  /** A reservation with the session and expiry it is sealed with. */
  datatype SealedReservation = SealedReservation(reservation: MemberReservation, session: SessionId, expiry: U64)

  type SealedParts = (RootPrepackage, (U16, (MemberOpening, (Id, U64))))

  function SealedFields(os: OuterSupport): Codec<SealedParts> {
    Marked(WIRE_ID, UnsupportedVersion,
      Then(Nested(PrepackageFormat()), Then(U16Field(), Then(Nested(OpeningFormat(os)), Then(IdField(), U64Field())))))
  }

  function BuildSealed(t: SealedParts, os: OuterSupport): Result<SealedReservation> {
    var r :- MemberReservation.New(t.0, t.1.1.0, os);
    if r.Slot() != t.1.0 then Err(InvalidTranscript)
    else Ok(SealedReservation(r, t.1.1.1.0, t.1.1.1.1))
  }

  function SealedBuilder(os: OuterSupport): SealedParts -> Result<SealedReservation> {
    (t: SealedParts) => BuildSealed(t, os)
  }

  function PartsOfSealed(s: SealedReservation): SealedParts {
    (s.reservation.prepackage, (s.reservation.Slot(), (s.reservation.opening, (s.session, s.expiry))))
  }

  function ReservationFormat(os: OuterSupport): Format<SealedReservation> {
    Checked(Whole(SealedFields(os)), SealedBuilder(os), PartsOfSealed)
  }

  lemma {:induction false} SealedFieldsLawful(os: OuterSupport)
    ensures SealedFields(os).Lawful()
  {
    hide Codec.Lawful, Format.Lawful;
    FieldsLawful();
    PrepackageLawful();
    OpeningLawful(os);
    NestedLawful(PrepackageFormat());
    NestedLawful(OpeningFormat(os));
    var t0 := Then(IdField(), U64Field());
    var t1 := Then(Nested(OpeningFormat(os)), t0);
    var t2 := Then(U16Field(), t1);
    ThenLawful(IdField(), U64Field());
    ThenLawful(Nested(OpeningFormat(os)), t0);
    ThenLawful(U16Field(), t1);
    ThenLawful(Nested(PrepackageFormat()), t2);
    MarkedLawful(WIRE_ID, UnsupportedVersion, Then(Nested(PrepackageFormat()), t2));
  }

  lemma {:induction false} ReservationNewParts(p: RootPrepackage, o: MemberOpening, os: OuterSupport)
    ensures MemberReservation.New(p, o, os).Ok? ==> MemberReservation.New(p, o, os).value == MemberReservation(p, o)
  {
    hide MemberRecord.Commit;
  }

  lemma {:induction false} ReservationLawful(os: OuterSupport)
    ensures ReservationFormat(os).Lawful()
  {
    hide Codec.Lawful, Format.Lawful, SealedFields, MemberReservation.New;
    SealedFieldsLawful(os);
    forall t: SealedParts | SealedBuilder(os)(t).Ok? ensures PartsOfSealed(SealedBuilder(os)(t).value) == t {
      ReservationNewParts(t.0, t.1.1.0, os);
    }
    WholeLawful(SealedFields(os));
    CheckedLawful(Whole(SealedFields(os)), SealedBuilder(os), PartsOfSealed);
  }

  /** The lengths that the reservation encoder checks. */
  predicate ReservationFits(s: SealedReservation) {
    && s.reservation.prepackage.Fits().Ok?
    && |s.reservation.Body().inner.participants| < U16_LIMIT
  }

  /** Exact reservation bytes; oversized fields fail. The outer support only
    * matters to the decoder.
    */
  function ReservationBytes(s: SealedReservation, os: OuterSupport): Result<bytes> {
    if ReservationFits(s) && |PrepackageFormat().encode(s.reservation.prepackage)| < U32_LIMIT
      then Ok(ReservationFormat(os).encode(s))
    else Err(LengthOverflow)
  }

  lemma {:induction false} SealedFit(s: SealedReservation, os: OuterSupport)
    requires ReservationFormat(os).wf(s)
    ensures Nested(PrepackageFormat()).wf(s.reservation.prepackage)
    ensures Nested(OpeningFormat(os)).wf(s.reservation.opening)
  {
    hide PrepackageFormat, OpeningFormat, U16Field, IdField, U64Field, Pow256, BuildSealed;
    assert SealedFields(os).wf(PartsOfSealed(s));
  }

  lemma {:induction false} OpeningFit(o: MemberOpening, os: OuterSupport)
    requires OpeningFormat(os).wf(o)
    ensures BodyFormat(os).wf(o.body)
  {
    hide BodyFormat, Pow256, ScalarField;
    assert OpeningFields(os).wf(FromOpening(o));
    assert Nested(BodyFormat(os)).wf(o.body);
  }

  /** Accepted reservation bytes encode the decoded value, so the leaf's own
    * re-encoding check can never fire.
    */
  lemma {:induction false} ReservationCanonical(b: bytes, os: OuterSupport, s: SealedReservation)
    requires ReservationFormat(os).decode(b) == Ok(s)
    ensures ReservationBytes(s, os) == Ok(b)
  {
    hide PrepackageFormat, OpeningFormat, BodyFormat, ReservationFormat, Pow256;
    ReservationLawful(os);
    Widths();
    SealedFit(s, os);
    OpeningFit(s.reservation.opening, os);
    PrepackageWellFormed(s.reservation.prepackage);
    BodyCount(s.reservation.opening.body, os);
  }

  lemma {:induction false} BodyCount(b: MemberBody, os: OuterSupport)
    requires BodyFormat(os).wf(b)
    ensures |b.inner.participants| < U16_LIMIT
  {
    hide Pow256, EpochCodec, RawDeviceCodec;
    Widths();
    assert BodyFields().wf(PartsOf(b));
    assert Counted(2, 1, RawDeviceCodec()).wf(RawDevices(b.inner));
  }

  // ----- constructed reservations survive the trip

  lemma {:induction false} DeviceLength(d: RawDevice)
    ensures |RawDeviceCodec().enc(d)| == 130
  {
    hide IdField, ScalarField, ElementField;
    FieldLengths();
    assert NodeField().enc(d.node) == ScalarField().enc(d.node);
    assert RawDeviceCodec().enc(d) == DeviceFields().enc(FromRawDevice(d));
  }

  lemma {:induction false} DevicesLength(ds: seq<RawDevice>)
    ensures |EncodeAll(RawDeviceCodec(), ds)| == 130 * |ds|
  {
    hide RawDeviceCodec;
    if ds != [] {
      DevicesLength(ds[1..]);
      DeviceLength(ds[0]);
    }
  }

  lemma {:induction false} EpochLength(e: KeyEpoch)
    ensures |EpochCodec().enc(e)| == 144
  {
    hide IdField, U64Field;
    FieldLengths();
    assert EpochCodec().enc(e) == EpochFields().enc(FromEpoch(e));
  }

  /** A body within its count is far below the length-prefix limit. */
  lemma {:induction false} BodyLength(b: MemberBody)
    requires |b.inner.participants| < U16_LIMIT
    ensures |BodyFields().enc(PartsOf(b))| < 0x1_00_0000
  {
    hide IdField, U16Field, ScalarField, PointField, EpochCodec, RawDeviceCodec, EncodeAll, Pow256, ToBytes;
    FieldLengths();
    var ds := RawDevices(b.inner);
    DevicesLength(ds);
    EpochLength(b.epoch);
    assert |Counted(2, 1, RawDeviceCodec()).enc(ds)| <= 2 + 130 * |ds|;
  }

  /** Every reservation built on `os` whose bytes exist decodes back on `os`. */
  lemma {:induction false} ReservationRoundTrip(s: SealedReservation, os: OuterSupport, b: bytes)
    requires s.reservation.prepackage.Valid()
    requires var body := s.reservation.Body();
      && body.inner.Valid() && os.Coefficient(body.outer.person) == Ok(body.outer)
      && MemberBody.New(body.identity, body.member, body.epoch, body.inner, body.outer).Ok?
    requires MemberReservation.New(s.reservation.prepackage, s.reservation.opening, os).Ok?
    requires ReservationBytes(s, os) == Ok(b)
    ensures ReservationFormat(os).decode(b) == Ok(s)
  {
    hide PrepackageFormat, OpeningFormat, BodyFormat, BodyFields, PartsOf, ReservationFormat, Pow256;
    hide MemberReservation.New;
    Widths();
    var r := s.reservation;
    ReservationLawful(os);
    PrepackageWellFormed(r.prepackage);
    BodyWellFormed(r.opening.body, os);
    BodyLength(r.opening.body);
    OpeningFits(r.opening, os);
    SealedFits(s, os);
  }

  lemma {:induction false} OpeningFits(o: MemberOpening, os: OuterSupport)
    requires BodyFormat(os).wf(o.body) && |BodyFields().enc(PartsOf(o.body))| < 0x1_00_0000
    ensures OpeningFormat(os).wf(o) && |OpeningFormat(os).encode(o)| < U32_LIMIT
  {
    hide BodyFields, BuildBody, Pow256, PartsOf;
    Widths();
    FieldsFit();
    assert BodyFormat(os).encode(o.body) == BodyFields().enc(PartsOf(o.body));
    assert Nested(BodyFormat(os)).wf(o.body);
    assert OpeningFields(os).wf(FromOpening(o));
    assert OpeningFormat(os).encode(o) == WIRE_ID + (ScalarField().enc(o.salt) + Nested(BodyFormat(os)).enc(o.body));
  }

  lemma {:induction false} SealedFits(s: SealedReservation, os: OuterSupport)
    requires var r := s.reservation;
      && PrepackageFormat().wf(r.prepackage) && |PrepackageFormat().encode(r.prepackage)| < U32_LIMIT
      && OpeningFormat(os).wf(r.opening) && |OpeningFormat(os).encode(r.opening)| < U32_LIMIT
      && MemberReservation.New(r.prepackage, r.opening, os).Ok?
    ensures ReservationFormat(os).wf(s)
  {
    hide PrepackageFormat, OpeningFormat, U16Field, IdField, U64Field, Pow256, MemberReservation.New;
    Widths();
    FieldsFit();
    var r := s.reservation;
    ReservationNewParts(r.prepackage, r.opening, os);
    assert Nested(PrepackageFormat()).wf(r.prepackage) && Nested(OpeningFormat(os)).wf(r.opening);
    assert SealedFields(os).wf(PartsOfSealed(s));
    assert BuildSealed(PartsOfSealed(s), os) == Ok(s);
  }
}

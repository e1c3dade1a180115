/** What a durable leaf writes can always be loaded again
  * (src/leaf/store/persistent.rs, src/leaf/store/record.rs).
  */
module PersistentMaterial {
  import opened Results
  import opened Ids
  import opened Encoding
  import opened Leaf
  import opened Material
  import opened LeafRuns
  import opened LeafLive
  import opened Record
  import opened Store
  import opened Persistent
  import opened PersistentRuns

  /** Only the attempt in progress differs. */
  ghost predicate OnlyAttempt(r: Registry, u: Registry) {
    u == r.(live := u.live, nextSequence := u.nextSequence)
  }

  /** The material of the installed state alone. */
  function IdleMaterial(r: Registry): Result<bytes> { EncodeMaterial(r.Closed()) }

  lemma {:induction false} IdleSame(r: Registry, u: Registry)
    requires OnlyAttempt(r, u)
    ensures IdleMaterial(u) == IdleMaterial(r)
  {
    hide MaterialFields;
    var a, b := r.Closed().(nextSequence := 0), u.Closed().(nextSequence := 0);
    assert a == b;
    SameParts(r.Closed(), a);
    SameParts(u.Closed(), b);
    WellFormedParts(r.Closed());
    WellFormedParts(u.Closed());
  }

  lemma {:induction false} EncodeIsIdle(r: Registry)
    ensures EncodeMaterial(r).Ok? ==> r.live.None?
    ensures r.live.None? ==> r.Closed() == r && IdleMaterial(r) == EncodeMaterial(r)
  {
    hide MaterialFormat, MaterialCounts;
    if r.live.None? { assert r.Closed() == r; }
  }

  // ----- the invariant

  ghost predicate Names(material: MaterialId, body: Result<bytes>) {
    body.Ok? && MATERIAL_HASH(body.value) == material
  }

  ghost predicate Installed(r: Registry) { Fits(r) && r.vaults != map[] }

  /** A leaf's material identifier is the hash of its installed state. */
  ghost predicate Kept(d: Durable) {
    d.registry.Some? ==>
      && Installed(d.registry.value)
      && Names(if d.pending.Some? then d.pending.value.next.material else d.material, IdleMaterial(d.registry.value))
      && (d.pending.Some? && d.pending.value.materialChanged ==> d.registry.value.live.None?)
      && (d.pending.Some? && !d.pending.value.materialChanged ==>
        d.pending.value.next.material == d.pending.value.previous.material)
  }

  /** The identifier names stored material that decodes to the device. */
  ghost predicate Decodes(s: StoreState, id: MaterialId, device: DeviceId) {
    && id in s.materials && MATERIAL_HASH(s.materials[id]) == id
    && MaterialFormat().decode(s.materials[id]).Ok? && MaterialFormat().decode(s.materials[id]).value.device == device
  }

  /** Every stored journal is its device's own and names material that decodes to it. */
  ghost predicate Loads(s: StoreState) {
    forall d :: d in s.journals ==> s.journals[d].journal.device == d && Decodes(s, s.journals[d].journal.material, d)
  }

  lemma {:induction false} PutKeepsLoads(s: StoreState, id: MaterialId, body: bytes, put: PutOutcome)
    requires Loads(s)
    ensures var (t, stored) := PutOn(s, id, body, put);
      Loads(t) && t.journals == s.journals && (stored ==> id in t.materials && t.materials[id] == body)
  {
    hide MaterialFormat;
    var t := PutOn(s, id, body, put).0;
    forall d | d in t.journals ensures Decodes(t, t.journals[d].journal.material, d) {
      assert Decodes(s, s.journals[d].journal.material, d);
    }
  }

  /** A journal write that names decodable material keeps the store loadable. */
  lemma {:induction false} JournalLoads(s: StoreState, device: DeviceId, expected: Option<U64>, next: LeafJournal,
      cas: CasOutcome)
    requires Loads(s) && next.device == device
    requires s.RevisionOf(device) == expected ==> Decodes(s, next.material, device)
    ensures Loads(CasOn(s, device, expected, next, cas).0)
  {
    hide MaterialFormat;
    var t := CasOn(s, device, expected, next, cas).0;
    forall d | d in t.journals ensures Decodes(t, t.journals[d].journal.material, d) {
      if d in s.journals && t.journals[d] == s.journals[d] { assert Decodes(s, s.journals[d].journal.material, d); }
    }
  }

  lemma {:induction false} EncodedDecodes(r: Registry, id: MaterialId, s: StoreState)
    requires Installed(r) && Names(id, EncodeMaterial(r)) && id in s.materials
      && s.materials[id] == EncodeMaterial(r).value
    ensures Decodes(s, id, r.device)
  {
    hide MaterialFormat, EncodeMaterial, Fits;
    MaterialRoundTrip(r, s.materials[id]);
  }

  /** The pending write names material that is in the store. */
  lemma {:induction false} WriteLoads(d: Durable, s: StoreState, cas: CasOutcome)
    requires Knows(d, s) && Kept(d) && Loads(s) && d.pending.Some?
    requires d.pending.value.materialChanged ==> Decodes(s, d.pending.value.next.material, d.device)
    ensures var (e, t, _) := d.Write(s, cas); Loads(t) && Kept(e)
  {
    hide Installed, IdleMaterial, Decodes, LeafJournal.Of, Numbered;
    Known(d, s);
    OfDevice(d.pending.value.next.material, d.registry.value);
    JournalLoads(s, d.device, Some(d.revision), d.pending.value.next, cas);
  }

  // ----- every call keeps it

  /** Storing the material of `r`, then writing as `waiting`. */
  lemma {:induction false} PutThenWriteLoads(waiting: Durable, s: StoreState, put: PutOutcome, cas: CasOutcome)
    requires Loads(s) && Knows(waiting, s) && Kept(waiting) && waiting.pending.Some?
    requires Names(waiting.pending.value.next.material, EncodeMaterial(waiting.registry.value))
    ensures var body := EncodeMaterial(waiting.registry.value).value;
      var (after, stored) := PutOn(s, MATERIAL_HASH(body), body, put);
      && after.journals == s.journals && Loads(after) && (stored ==> Knows(waiting, after))
      && (stored ==> Loads(waiting.Write(after, cas).1) && Kept(waiting.Write(after, cas).0))
  {
    hide Durable.Write, PutOn, Loads, Knows, Installed, EncodeMaterial, Decodes, IdleMaterial, LeafJournal.Of;
    Known(waiting, s);
    var body := EncodeMaterial(waiting.registry.value).value;
    PutKeepsLoads(s, MATERIAL_HASH(body), body, put);
    PutAdvances(waiting, s, MATERIAL_HASH(body), body, put);
    var (after, stored) := PutOn(s, MATERIAL_HASH(body), body, put);
    if stored {
      EncodedDecodes(waiting.registry.value, MATERIAL_HASH(body), after);
      WriteLoads(waiting, after, cas);
    }
  }

  /** The leaf while it writes `next` for the registry `u`. */
  function Waiting(d: Durable, u: Registry, next: LeafJournal, changed: bool): Durable
    requires d.ReadyJournal().Done?
  {
    d.(registry := Some(u), pending := Some(PendingWrite(d.ReadyJournal().value, next, changed)))
  }

  lemma {:induction false} WaitingKnows(d: Durable, s: StoreState, u: Registry, next: LeafJournal, changed: bool)
    requires Knows(d, s) && d.ReadyJournal().Done? && Progresses(d.registry.value, u)
    requires LeafJournal.Of(next.material, u) == Ok(next)
    ensures Knows(Waiting(d, u, next, changed), s)
  {
    hide Progresses;
    Known(d, s);
    ProgressSteps(d.material, d.registry.value, u, next.material);
    OfDevice(d.material, d.registry.value);
  }

  lemma {:induction false} RecordedLoads(d: Durable, s: StoreState, u: Registry, cas: CasOutcome)
    requires Knows(d, s) && Kept(d) && Loads(s) && d.ReadyJournal().Done?
    requires Progresses(d.registry.value, u) && OnlyAttempt(d.registry.value, u) && Installed(u)
    ensures var (e, t, _) := d.(registry := Some(u)).Recorded(s, d.ReadyJournal().value, cas);
      Loads(t) && Kept(e)
  {
    hide Durable.Write, LeafJournal.Of, Knows, Loads, Installed, Progresses, IdleMaterial, Decodes, Numbered;
    Known(d, s);
    ProgressSteps(d.material, d.registry.value, u, d.material);
    IdleSame(d.registry.value, u);
    OfDevice(d.material, d.registry.value);
    OfDevice(d.material, u);
    var next := LeafJournal.Of(d.material, u).value;
    WaitingKnows(d, s, u, next, false);
    WriteLoads(Waiting(d, u, next, false), s, cas);
    assert Waiting(d, u, next, false) == d.(registry := Some(u)).(pending := Waiting(d, u, next, false).pending);
  }

  /** The operation keeps the installed state consistent, and changes it only when it
    * succeeds and `installs`.
    */
  ghost predicate Lawful(d: Durable, op: Operation, installs: bool) {
    d.registry.Some? && Installed(d.registry.value) ==>
      && Installed(op(d.registry.value).0)
      && (!installs || op(d.registry.value).1.Err? ==> OnlyAttempt(d.registry.value, op(d.registry.value).0))
  }

  lemma {:induction false} TransitionLoads(d: Durable, s: StoreState, op: Operation, cas: CasOutcome)
    requires Knows(d, s) && Kept(d) && Loads(s) && Moves(d, op) && Lawful(d, op, false)
    ensures var (e, t, _) := d.Transition(s, op, cas); Loads(t) && Kept(e)
  {
    hide Durable.Recorded, LeafJournal.Of, Knows, Loads, OnlyAttempt, Progresses, IdleMaterial, Installed;
    if d.ReadyJournal().Done? { RecordedLoads(d, s, op(d.registry.value).0, cas); }
  }

  lemma {:induction false} InstalledLoads(d: Durable, s: StoreState, u: Registry, put: PutOutcome, cas: CasOutcome)
    requires Knows(d, s) && Loads(s) && d.ReadyJournal().Done? && Progresses(d.registry.value, u) && Installed(u)
    requires EncodeMaterial(u).Ok? && LeafJournal.Of(MATERIAL_HASH(EncodeMaterial(u).value), u).Ok?
    ensures var body := EncodeMaterial(u).value;
      var next := LeafJournal.Of(MATERIAL_HASH(body), u).value;
      var (e, t, _) := d.(registry := Some(u)).Persist(s, d.ReadyJournal().value, next, Some(body), put, cas);
      Loads(t) && Kept(e)
  {
    hide Durable.Write, PutOn, LeafJournal.Of, Knows, Loads, Installed, Progresses, IdleMaterial, Decodes,
      EncodeMaterial, Numbered;
    var body := EncodeMaterial(u).value;
    var next := LeafJournal.Of(MATERIAL_HASH(body), u).value;
    OfDevice(MATERIAL_HASH(body), u);
    EncodeIsIdle(u);
    WaitingKnows(d, s, u, next, true);
    PutThenWriteLoads(Waiting(d, u, next, true), s, put, cas);
    assert Waiting(d, u, next, true) == d.(registry := Some(u)).(pending := Waiting(d, u, next, true).pending);
  }

  lemma {:induction false} MaterialLoads(d: Durable, s: StoreState, op: Operation, put: PutOutcome, cas: CasOutcome)
    requires Knows(d, s) && Kept(d) && Loads(s) && Moves(d, op) && Lawful(d, op, true)
    ensures var (e, t, _) := d.MaterialTransition(s, op, put, cas); Loads(t) && Kept(e)
  {
    hide Durable.Persist, Durable.Recorded, LeafJournal.Of, Knows, Loads, OnlyAttempt, Progresses, IdleMaterial,
      Installed, EncodeMaterial;
    hide Numbered;
    if d.ReadyJournal().Done? {
      var (u, o) := op(d.registry.value);
      if o.Err? {
        RecordedLoads(d, s, u, cas);
      } else if EncodeMaterial(u).Ok? {
        Known(d, s);
        ProgressSteps(d.material, d.registry.value, u, MATERIAL_HASH(EncodeMaterial(u).value));
        InstalledLoads(d, s, u, put, cas);
      }
    }
  }

  /** A material write that is retried finds the same material again. */
  lemma {:induction false} PendingMaterial(d: Durable)
    requires Kept(d) && d.registry.Some? && d.pending.Some? && d.pending.value.materialChanged
    ensures Names(d.pending.value.next.material, EncodeMaterial(d.registry.value))
  {
    hide EncodeMaterial, Installed, MaterialFormat;
    EncodeIsIdle(d.registry.value);
  }

  lemma {:induction false} ReconcileLoads(d: Durable, read: StoreState, s: StoreState, readFails: bool,
      put: PutOutcome, cas: CasOutcome)
    requires Knows(d, s) && Kept(d) && Loads(s)
    ensures var (e, t, _) := d.ReconcileAt(read, s, readFails, put, cas); Loads(t) && Kept(e)
  {
    hide Durable.Write, EncodeMaterial, PutOn, Loads, Knows, IdleMaterial, Installed, LeafJournal.Of;
    Known(d, s);
    if d.pending.Some? && d.pending.value.materialChanged {
      PendingMaterial(d);
      PutThenWriteLoads(d, s, put, cas);
    } else if d.pending.Some? {
      WriteLoads(d, s, cas);
    }
  }

  lemma {:induction false} CreateLoads(s: StoreState, r: Registry, put: PutOutcome, cas: CasOutcome)
    requires Loads(s) && Installed(r)
    ensures var (t, o) := Durable.Create(s, r, put, cas);
      Loads(t) && (o.Done? ==> Kept(o.value))
  {
    hide EncodeMaterial, PutOn, MaterialFormat, Decodes, Loads, Installed, IdleMaterial, LeafJournal.Of;
    if EncodeMaterial(r).Ok? {
      EncodeIsIdle(r);
      var body := EncodeMaterial(r).value;
      var id := MATERIAL_HASH(body);
      PutKeepsLoads(s, id, body, put);
      var (after, stored) := PutOn(s, id, body, put);
      OfDevice(id, r);
      if stored {
        EncodedDecodes(r, id, after);
        JournalLoads(after, r.device, None, LeafJournal.Of(id, r).value, cas);
      }
    }
  }

  // ----- loading

  lemma {:induction false} DecodedStart(r: Registry, b: bytes, id: MaterialId, sequence: U64)
    requires MaterialFormat().decode(b) == Ok(r) && MATERIAL_HASH(b) == id
    ensures var u := r.(nextSequence := sequence);
      Installed(u) && u.live.None? && Names(id, IdleMaterial(u))
  {
    hide MaterialFields, MaterialFormat, Fits, PartsOfMaterial, BuildMaterial, MaterialCounts, EncodeMaterial;
    MaterialRoundTrip(r, b);
    MaterialLawful();
    WellFormedParts(r);
    PartsFit(r);
    var u := r.(nextSequence := sequence);
    EncodeIsIdle(r);
    IdleSame(r, u);
    SameInstalled(r, u);
  }

  /** What loading through a working store returns. */
  function Reloaded(s: StoreState, device: DeviceId, revision: U64): Option<Durable> {
    if device !in s.journals || s.journals[device].journal.material !in s.materials then None
    else
      var j := s.journals[device].journal;
      var r := MaterialFormat().decode(s.materials[j.material]);
      if r.Err? then None
      else
        var at := if j.live.None? then s.journals[device].revision else revision;
        Some(Durable(device, Some(r.value.(nextSequence := j.nextSequence)), j.material, at, None))
  }

  lemma {:induction false} LoadLoads(read: StoreState, s: StoreState, device: DeviceId, journalFails: bool,
      materialFails: bool, cas: CasOutcome)
    requires Loads(s) && (device in read.journals ==> Later(read, s, device))
    ensures var (t, o) := Durable.LoadAt(read, s, device, journalFails, materialFails, cas);
      Loads(t) && (o.Done? && o.value.Some? ==> Kept(o.value.value))
  {
    hide MaterialFormat, IdleMaterial, Installed, LeafJournal.Of;
    if device in read.journals && read.journals[device].journal.material in s.materials {
      var current := read.journals[device];
      var id := current.journal.material;
      assert Decodes(s, s.journals[device].journal.material, device);
      var r := MaterialFormat().decode(s.materials[id]);
      if MATERIAL_HASH(s.materials[id]) == id && r.Ok? && r.value.device == device {
        var u := r.value.(nextSequence := current.journal.nextSequence);
        DecodedStart(r.value, s.materials[id], id, current.journal.nextSequence);
        OfDevice(id, u);
        JournalLoads(s, device, Some(current.revision), LeafJournal.Of(id, u).value, cas);
      }
    }
  }

  /** Loading through a working store never meets a malformed or missing record: it
    * returns a leaf with the stored counter and material and no live attempt, whose
    * journal is the stored one afterwards.
    */
  lemma {:induction false} LoadNeverInvalid(s: StoreState, device: DeviceId, revision: U64)
    requires Loads(s) && device in s.journals
    ensures var (t, o) := Durable.Load(s, device, false, false, Succeeds(revision));
      && o.Done? && o.value.Some? && o.value == Reloaded(s, device, revision)
      && o.value.value.registry.value.live.None?
      && t == s.WithJournal(device, o.value.value.revision, s.journals[device].journal.(live := None))
  {
    hide MaterialFormat, IdleMaterial, Installed, LeafJournal.Of;
    var j := s.journals[device].journal;
    assert Decodes(s, j.material, device);
    var r := MaterialFormat().decode(s.materials[j.material]).value;
    DecodedStart(r, s.materials[j.material], j.material, j.nextSequence);
    OfDevice(j.material, r.(nextSequence := j.nextSequence));
    assert s.WithJournal(device, s.journals[device].revision, j) == s;
  }

  /** The leaf's own material and the stored one do not collide. */
  ghost predicate NoCollision(d: Durable, s: StoreState) {
    d.registry.Some? && d.material in s.materials ==>
      || IdleMaterial(d.registry.value) == Ok(s.materials[d.material])
      || !Names(MATERIAL_HASH(s.materials[d.material]), IdleMaterial(d.registry.value))
  }

  /** Unless two different materials have one hash, a leaf that is settled at the
    * store's own revision is loaded back with the same installed state.
    */
  lemma {:induction false} LoadRestores(d: Durable, s: StoreState, revision: U64)
    requires Knows(d, s) && Kept(d) && Loads(s) && d.registry.Some? && d.pending.None?
    requires d.revision == s.journals[d.device].revision && NoCollision(d, s)
    ensures var (_, o) := Durable.Load(s, d.device, false, false, Succeeds(revision));
      o.Done? && o.value.Some? && o.value.value.registry == Some(d.registry.value.Closed())
  {
    hide MaterialFormat, EncodeMaterial, Fits, LeafJournal.Of, Durable.Load;
    Known(d, s);
    OfDevice(d.material, d.registry.value);
    var r := d.registry.value.Closed();
    assert Decodes(s, d.material, d.device);
    SameInstalled(d.registry.value, r);
    MaterialRoundTrip(r, s.materials[d.material]);
    LoadNeverInvalid(s, d.device, revision);
  }
}

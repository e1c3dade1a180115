/** A durable leaf that alone writes its journal, over a store whose calls may fail
  * before or after applying (src/leaf/store/persistent.rs).
  */
module SoleWriter {
  import opened Results
  import opened Ids
  import opened Encoding
  import opened Leaf
  import opened LeafRuns
  import opened Record
  import opened Store
  import opened Persistent
  import opened PersistentRuns
  import opened PersistentMaterial

  /** The store holds the leaf's last known journal, or its pending one. */
  predicate Landed(d: Durable, s: StoreState) {
    && d.device in s.journals
    && (|| s.journals[d.device].revision == d.revision
        || (d.pending.Some? && s.journals[d.device].journal == d.pending.value.next))
  }

  /** The stored journal is the leaf's own: before or after its pending write. */
  ghost predicate Sole(d: Durable, s: StoreState) {
    Knows(d, s) && Kept(d) && d.registry.Some? && Landed(d, s)
  }

  /** The store holds exactly what the leaf is. */
  ghost predicate Settled(d: Durable, s: StoreState) {
    && d.registry.Some? && d.pending.None? && d.device in s.journals
    && LeafJournal.Of(d.material, d.registry.value) == Ok(s.journals[d.device].journal)
    && s.journals[d.device].revision == d.revision
  }

  /** The store's outcomes with no other writer. */
  predicate Alone(s: StoreState, device: DeviceId, cas: CasOutcome) {
    !cas.Raced? && Increasing(s, device, cas)
  }

  /** Another material is already stored under this one's identifier. */
  predicate Taken(s: StoreState, body: Result<bytes>) {
    && body.Ok? && MATERIAL_HASH(body.value) in s.materials
    && s.materials[MATERIAL_HASH(body.value)] != body.value
  }

  // ----- one journal write

  lemma {:induction false} SoleWrite(d: Durable, s: StoreState, cas: CasOutcome)
    requires Knows(d, s) && d.pending.Some? && s.journals[d.device].revision == d.revision && Alone(s, d.device, cas)
    ensures var (e, t, o) := d.Write(s, cas);
      && e.device == d.device && e.registry == d.registry && Landed(e, t)
      && (cas.Succeeds? <==> o.Done?)
      && (o.Refused? ==> o.cause == StoreError && e == d)
      && (o.Done? ==> e.pending.None?)
  {
    hide LeafJournal.Of;
  }

  lemma {:induction false} PutOutcomes(s: StoreState, device: DeviceId, body: bytes, put: PutOutcome, cas: CasOutcome)
    ensures var (t, stored) := PutOn(s, MATERIAL_HASH(body), body, put);
      && t.journals == s.journals && (stored <==> put.PutSucceeds? && !Taken(s, Ok(body)))
      && Alone(t, device, cas) == Alone(s, device, cas)
  {}

  /** Reconciling never conflicts and never drops the leaf: it fails only with a store
    * error, and then changes nothing; when it succeeds the stored journal is the
    * leaf's own. The registry, and so the transition, is never touched.
    */
  lemma {:induction false} ReconcileNeverConflicts(d: Durable, s: StoreState, readFails: bool, put: PutOutcome,
      cas: CasOutcome)
    requires Sole(d, s) && Sound(s) && Loads(s) && Alone(s, d.device, cas)
    ensures var (e, t, o) := d.Reconcile(s, readFails, put, cas);
      && e.registry == d.registry && Sole(e, t)
      && (o.Refused? ==> o.cause == StoreError && e == d)
      && (o.Done? ==> Settled(e, t))
      && (!readFails && put.PutSucceeds? && cas.Succeeds? && !Taken(s, EncodeMaterial(d.registry.value)) ==> o.Done?)
  {
    hide EncodeMaterial, Durable.Write, PutOn, LeafJournal.Of, Knows, Kept, Loads, Sound, Increasing, Numbered, Taken;
    Known(d, s);
    ReconcileSettles(d, s, s, readFails, put, cas);
    ReconcileLoads(d, s, s, readFails, put, cas);
    if d.pending.Some? && !readFails && s.journals[d.device].revision == d.revision {
      if d.pending.value.materialChanged {
        PendingMaterial(d);
        var body := EncodeMaterial(d.registry.value).value;
        PutOutcomes(s, d.device, body, put, cas);
        PutAdvances(d, s, MATERIAL_HASH(body), body, put);
        SoleWrite(d, PutOn(s, MATERIAL_HASH(body), body, put).0, cas);
      } else {
        SoleWrite(d, s, cas);
      }
    }
    var (e, t, o) := d.Reconcile(s, readFails, put, cas);
    Known(e, t);
  }

  // ----- calls

  /** A successful installing call whose new material has no encoding. */
  predicate Unwritable(r: Registry, op: Operation, installs: bool) {
    installs && op(r).1.Ok? && EncodeMaterial(op(r).0).Err?
  }

  /** Persisting from a ready leaf. */
  lemma {:induction false} SolePersist(d: Durable, s: StoreState, u: Registry, next: LeafJournal, body: Option<bytes>,
      put: PutOutcome, cas: CasOutcome)
    requires d.ReadyJournal().Done? && Landed(d, s) && Alone(s, d.device, cas)
      && Knows(Waiting(d, u, next, body.Some?), s)
    ensures var (e, t, o) := d.(registry := Some(u)).Persist(s, d.ReadyJournal().value, next, body, put, cas);
      && e.device == d.device && e.registry == Some(u) && Landed(e, t)
      && (o.Refused? ==> o.cause == StoreError)
      && (o.Done? ==> e.pending.None?)
      && ((body.Some? ==> put.PutSucceeds? && !Taken(s, Ok(body.value))) && cas.Succeeds? ==> o.Done?)
  {
    hide Durable.Write, PutOn, Knows, LeafJournal.Of, Alone, Taken;
    var waiting := Waiting(d, u, next, body.Some?);
    assert d.(registry := Some(u)).(pending := waiting.pending) == waiting;
    if body.Some? {
      PutOutcomes(s, d.device, body.value, put, cas);
      PutAdvances(waiting, s, MATERIAL_HASH(body.value), body.value, put);
      var (after, stored) := PutOn(s, MATERIAL_HASH(body.value), body.value, put);
      if stored {
        SoleWrite(waiting, after, cas);
        assert d.(registry := Some(u)).Persist(s, d.ReadyJournal().value, next, body, put, cas) ==
          waiting.Write(after, cas);
      }
    } else {
      SoleWrite(waiting, s, cas);
      assert d.(registry := Some(u)).Persist(s, d.ReadyJournal().value, next, body, put, cas) == waiting.Write(s, cas);
    }
  }

  lemma {:induction false} SoleRecorded(d: Durable, s: StoreState, u: Registry, cas: CasOutcome)
    requires d.ReadyJournal().Done? && Landed(d, s) && Alone(s, d.device, cas) && Knows(d, s)
    requires Progresses(d.registry.value, u)
    ensures var (e, t, o) := d.(registry := Some(u)).Recorded(s, d.ReadyJournal().value, cas);
      && e.device == d.device && e.registry == Some(u) && Landed(e, t)
      && (o.Refused? ==> o.cause == StoreError)
      && (o.Done? ==> e.pending.None?)
      && (cas.Succeeds? ==> o.Done?)
  {
    hide Durable.Persist, Knows, LeafJournal.Of, Alone, Progresses, Numbered;
    Known(d, s);
    ProgressSteps(d.material, d.registry.value, u, d.material);
    OfDevice(d.material, u);
    var next := LeafJournal.Of(d.material, u).value;
    WaitingKnows(d, s, u, next, false);
    SolePersist(d, s, u, next, None, PutSucceeds, cas);
  }

  /** What a durable call does next to the same operation in memory. */
  ghost predicate Mirrors(d: Durable, op: Operation, installs: bool, e: Durable, t: StoreState,
      o: PersistResult<Output>)
    requires d.registry.Some?
  {
    var (u, result) := op(d.registry.value);
    if Unwritable(d.registry.value, op, installs) then
      e.registry.None? && e.pending.None? && o == Refused(InvalidRecord(EncodeMaterial(u).error))
    else
      && e.device == d.device && e.registry == Some(u) && Landed(e, t)
      && (o.Done? ==> result == Ok(o.value))
      && (o.Refused? ==> o.cause == StoreError || AsProtocol(result) == o)
  }

  /** The store did what it was asked. */
  predicate Reliable(d: Durable, s: StoreState, op: Operation, put: PutOutcome, cas: CasOutcome)
    requires d.registry.Some?
  {
    put.PutSucceeds? && cas.Succeeds? && !Taken(s, EncodeMaterial(op(d.registry.value).0))
  }

  /** On a ready leaf an operation runs once and reports its in-memory result or a store
    * error, and on a reliable store exactly the in-memory result; unwritable material
    * alone drops the leaf.
    */
  lemma {:induction false} PerformMirrors(d: Durable, s: StoreState, op: Operation, installs: bool, put: PutOutcome,
      cas: CasOutcome)
    requires Knows(d, s) && d.ReadyJournal().Done? && Landed(d, s) && Alone(s, d.device, cas) && Moves(d, op)
    ensures var (e, t, o) := d.Perform(s, op, installs, put, cas);
      && Mirrors(d, op, installs, e, t, o)
      && (!Unwritable(d.registry.value, op, installs) && Reliable(d, s, op, put, cas) ==>
        o == AsProtocol(op(d.registry.value).1) && e.pending.None?)
  {
    hide Durable.Persist, Durable.Recorded, LeafJournal.Of, Knows, Progresses, Taken, EncodeMaterial, Alone, Numbered,
      Landed;
    Known(d, s);
    var r := d.registry.value;
    var (u, o) := op(r);
    if !installs || o.Err? {
      SoleRecorded(d, s, u, cas);
    } else if EncodeMaterial(u).Ok? {
      var body := EncodeMaterial(u).value;
      ProgressSteps(d.material, r, u, MATERIAL_HASH(body));
      OfDevice(MATERIAL_HASH(body), u);
      var next := LeafJournal.Of(MATERIAL_HASH(body), u).value;
      WaitingKnows(d, s, u, next, true);
      SolePersist(d, s, u, next, Some(body), put, cas);
    }
  }
}

/** Any number of durable leaves over one store: crashes, reloads, lost and ambiguous
  * writes, and reconciliation (src/leaf/store/persistent.rs).
  *
  * Every event is one whole call, at the time of its journal write. A call that reads the
  * journal first may have read it at any earlier time (`Later`).
  */
module PersistentRuns {
  import opened Results
  import opened Ids
  import opened Encoding
  import opened Leaf
  import opened Material
  import opened LeafRuns
  import opened Record
  import opened Store
  import opened Persistent

  // ----- how a journal moves

  /** The journal effect of at most one call: nothing, a close, or one new attempt. */
  ghost predicate StepsTo(j: LeafJournal, k: LeafJournal) {
    && k.device == j.device
    && (|| (k.nextSequence == j.nextSequence && (k.live == j.live || k.live.None?))
        || (j.live.None? && k.live == Some(LeafAttempt(j.device, j.nextSequence))
          && k.nextSequence == j.nextSequence + 1))
  }

  /** The operation moves the attempt in progress as every leaf call does. */
  ghost predicate Moves(d: Durable, op: Operation) {
    d.registry.Some? ==> Progresses(d.registry.value, op(d.registry.value).0)
  }

  lemma {:induction false} ProgressSteps(material: MaterialId, r: Registry, u: Registry, after: MaterialId)
    requires Numbered(r) && Progresses(r, u)
    ensures Numbered(u) && u.device == r.device
    ensures LeafJournal.Of(material, r).Ok? && LeafJournal.Of(after, u).Ok?
    ensures StepsTo(LeafJournal.Of(material, r).value, LeafJournal.Of(after, u).value)
  {}

  // ----- one leaf against the store

  /** What the leaf believes the journal to be at its own revision. */
  ghost function Believed(d: Durable): LeafJournal
    requires d.registry.Some? && Numbered(d.registry.value)
  {
    if d.pending.Some? then d.pending.value.previous else LeafJournal.Of(d.material, d.registry.value).value
  }

  /** A leaf whose revision is still the store's knows the stored journal exactly. */
  ghost predicate Knows(d: Durable, s: StoreState) {
    && (d.pending.Some? ==> d.registry.Some?)
    && (d.registry.Some? ==> KnowsJournal(d, s))
  }

  ghost predicate KnowsJournal(d: Durable, s: StoreState)
    requires d.registry.Some?
  {
    && d.registry.value.device == d.device && Numbered(d.registry.value)
    && d.device in s.journals && d.revision <= s.journals[d.device].revision
    && (d.pending.Some? ==>
      && StepsTo(d.pending.value.previous, d.pending.value.next)
      && d.pending.value.previous.device == d.device
      && LeafJournal.Of(d.pending.value.next.material, d.registry.value) == Ok(d.pending.value.next))
    && (d.revision == s.journals[d.device].revision ==> s.journals[d.device].journal == Believed(d))
  }

  /** Every stored journal belongs to its device. */
  ghost predicate Sound(s: StoreState) {
    forall d :: d in s.journals ==> s.journals[d].journal.device == d
  }

  /** A write by one leaf: revisions grow and closed attempts stay closed. */
  ghost predicate Advances(s: StoreState, t: StoreState) {
    forall d :: d in s.journals ==>
      && d in t.journals
      && (t.journals[d] == s.journals[d]
          || (t.journals[d].revision > s.journals[d].revision && StepsTo(s.journals[d].journal, t.journals[d].journal)))
  }

  /** Other writers may have moved the device's journal since `read`. */
  predicate Later(read: StoreState, store: StoreState, device: DeviceId) {
    && device in read.journals && device in store.journals
    && (|| store.journals[device] == read.journals[device]
        || (&& store.journals[device].revision > read.journals[device].revision
            && store.journals[device].journal.nextSequence >= read.journals[device].journal.nextSequence))
  }

  lemma {:induction false} AdvancesLater(read: StoreState, s: StoreState, t: StoreState, device: DeviceId)
    requires Advances(s, t) && Later(read, s, device)
    ensures Later(read, t, device)
  {}

  /** The outcome of any call on a leaf. */
  ghost predicate Settles(d: Durable, s: StoreState, e: Durable, t: StoreState) {
    e.device == d.device && Advances(s, t) && Sound(t) && Knows(e, t)
  }

  lemma {:induction false} AdvancesKnown(d: Durable, s: StoreState, t: StoreState)
    requires Knows(d, s) && Advances(s, t)
    ensures Knows(d, t)
  {
    hide LeafJournal.Of;
  }

  /** A pending write either leaves the store alone or moves it exactly as believed. */
  lemma {:induction false} WriteAdvances(d: Durable, s: StoreState, cas: CasOutcome)
    requires Knows(d, s) && d.registry.Some? && d.pending.Some? && Sound(s) && Increasing(s, d.device, cas)
    ensures var (e, t, r) := d.Write(s, cas);
      && Settles(d, s, e, t)
      && (r.Done? ==>
        && s.journals[d.device].journal == d.pending.value.previous
        && t.journals[d.device].journal == d.pending.value.next)
  {
    hide LeafJournal.Of;
  }

  lemma {:induction false} PutAdvances(d: Durable, s: StoreState, id: MaterialId, body: bytes, put: PutOutcome)
    ensures var (t, _) := PutOn(s, id, body, put);
      t.journals == s.journals && Advances(s, t) && (Sound(s) ==> Sound(t)) && (Knows(d, s) ==> Knows(d, t))
  {
    hide LeafJournal.Of;
  }

  lemma {:induction false} AdvancesTrans(s: StoreState, t: StoreState, u: StoreState)
    requires Advances(s, t) && t.journals == s.journals && Advances(t, u)
    ensures Advances(s, u)
  {
  }

  /** Persisting a step of the leaf's own journal. */
  lemma {:induction false} PersistAdvances(d: Durable, s: StoreState, r: Registry, next: LeafJournal,
      body: Option<bytes>, put: PutOutcome, cas: CasOutcome)
    requires Knows(d, s) && d.registry.Some? && d.pending.None? && Sound(s) && Increasing(s, d.device, cas)
    requires Numbered(r) && r.device == d.device && LeafJournal.Of(next.material, r) == Ok(next)
    requires StepsTo(LeafJournal.Of(d.material, d.registry.value).value, next)
    ensures var previous := LeafJournal.Of(d.material, d.registry.value).value;
      var (e, t, o) := d.(registry := Some(r)).Persist(s, previous, next, body, put, cas);
      && Settles(d, s, e, t)
      && (o.Done? ==> s.journals[d.device].journal == previous && t.journals[d.device].journal == next)
  {
    hide Durable.Write, PutOn;
    var previous := LeafJournal.Of(d.material, d.registry.value).value;
    var waiting := d.(registry := Some(r), pending := Some(PendingWrite(previous, next, body.Some?)));
    OfDevice(d.material, d.registry.value);
    assert Knows(waiting, s);
    if body.Some? {
      PutAdvances(waiting, s, MATERIAL_HASH(body.value), body.value, put);
      var (after, stored) := PutOn(s, MATERIAL_HASH(body.value), body.value, put);
      if stored {
        WriteAdvances(waiting, after, cas);
        AdvancesTrans(s, after, waiting.Write(after, cas).1);
      }
    } else {
      WriteAdvances(waiting, s, cas);
    }
  }

  lemma {:induction false} OfDevice(material: MaterialId, r: Registry)
    ensures Numbered(r) ==> LeafJournal.Of(material, r).Ok?
    ensures LeafJournal.Of(material, r).Ok? ==>
      var j := LeafJournal.Of(material, r).value;
      j.device == r.device && j.material == material && j.nextSequence == r.nextSequence
    ensures r.live.None? ==> LeafJournal.Of(material, r) == Ok(LeafJournal(r.device, material, r.nextSequence, None))
  {}

  lemma {:induction false} NothingSettles(d: Durable, s: StoreState)
    requires Sound(s)
    ensures Knows(d, s) ==> Settles(d, s, d, s)
    ensures Settles(d, s, d.Invalidated(), s)
  {
    hide LeafJournal.Of;
  }

  /** A call whose journal did not change needs no write. */
  lemma {:induction false} QuietKnows(d: Durable, s: StoreState, r: Registry)
    requires Knows(d, s) && d.registry.Some? && d.pending.None? && Numbered(r) && r.device == d.device
    requires LeafJournal.Of(d.material, r) == LeafJournal.Of(d.material, d.registry.value)
    ensures Knows(d.(registry := Some(r)), s)
  {
    hide LeafJournal.Of;
  }

  lemma {:induction false} RecordedSettles(d: Durable, s: StoreState, u: Registry, cas: CasOutcome)
    requires Knows(d, s) && Sound(s) && Increasing(s, d.device, cas) && d.ReadyJournal().Done?
    requires Progresses(d.registry.value, u)
    ensures var previous, next := d.ReadyJournal(), LeafJournal.Of(d.material, u);
      var (e, t, o) := d.(registry := Some(u)).Recorded(s, previous.value, cas);
      && Settles(d, s, e, t) && d.device in s.journals && d.device in t.journals
      && (o.Done? && next.Ok? && next.value != previous.value ==>
        s.journals[d.device].journal == previous.value && t.journals[d.device].journal == next.value)
  {
    hide Durable.Persist, LeafJournal.Of, Knows, Sound, Increasing, Progresses, StepsTo;
    var r := d.registry.value;
    Known(d, s);
    NothingSettles(d, s);
    ProgressSteps(d.material, r, u, d.material);
    OfDevice(d.material, u);
    var next := LeafJournal.Of(d.material, u).value;
    if next != LeafJournal.Of(d.material, r).value {
      PersistAdvances(d, s, u, next, None, PutSucceeds, cas);
    } else {
      QuietKnows(d, s, u);
    }
  }

  lemma {:induction false} TransitionSettles(d: Durable, s: StoreState, op: Operation, cas: CasOutcome)
    requires Knows(d, s) && Sound(s) && Increasing(s, d.device, cas) && Moves(d, op)
    ensures var (e, t, _) := d.Transition(s, op, cas); Settles(d, s, e, t)
  {
    hide Durable.Recorded, LeafJournal.Of, Knows, Advances, Sound, Increasing, Progresses, Settles;
    NothingSettles(d, s);
    if d.ReadyJournal().Done? { RecordedSettles(d, s, op(d.registry.value).0, cas); }
  }

  lemma {:induction false} Known(d: Durable, s: StoreState)
    requires Knows(d, s)
    ensures d.pending.Some? ==> d.registry.Some?
    ensures d.registry.Some? ==>
      && Numbered(d.registry.value) && d.registry.value.device == d.device && d.device in s.journals
      && LeafJournal.Of(d.material, d.registry.value).Ok?
    ensures d.pending.Some? ==>
      && LeafJournal.Of(d.pending.value.next.material, d.registry.value) == Ok(d.pending.value.next)
      && (s.journals[d.device].revision == d.revision ==> s.journals[d.device].journal == d.pending.value.previous)
    ensures d.pending.None? && d.registry.Some? && s.journals[d.device].revision == d.revision ==>
      LeafJournal.Of(d.material, d.registry.value) == Ok(s.journals[d.device].journal)
  {}

  lemma {:induction false} MaterialSettles(d: Durable, s: StoreState, op: Operation, put: PutOutcome, cas: CasOutcome)
    requires Knows(d, s) && Sound(s) && Increasing(s, d.device, cas) && Moves(d, op)
    ensures var (e, t, _) := d.MaterialTransition(s, op, put, cas); Settles(d, s, e, t)
  {
    hide Durable.Persist, Durable.Recorded, LeafJournal.Of, Knows, Advances, Sound, Increasing, EncodeMaterial,
      Progresses;
    hide Durable.Invalidated, StepsTo;
    NothingSettles(d, s);
    if d.ReadyJournal().Done? {
      var r := d.registry.value;
      Known(d, s);
      var (u, result) := op(r);
      var moved := d.(registry := Some(u));
      NothingSettles(moved, s);
      if result.Err? {
        RecordedSettles(d, s, u, cas);
      } else if moved.CurrentMaterial().Done? {
        var body := moved.CurrentMaterial().value;
        var id := MATERIAL_HASH(body);
        ProgressSteps(d.material, r, u, id);
        OfDevice(id, u);
        PersistAdvances(d, s, u, LeafJournal.Of(id, u).value, Some(body), put, cas);
      }
    }
  }

  /** A journal equal to the pending one is taken as the leaf's own write. */
  lemma {:induction false} FinishKnows(d: Durable, read: StoreState, s: StoreState)
    requires Knows(d, s) && d.pending.Some? && Later(read, s, d.device)
    requires read.journals[d.device].journal == d.pending.value.next
    ensures Knows(d.FinishWrite(read.journals[d.device].revision), s)
  {
    hide LeafJournal.Of;
  }

  lemma {:induction false} ReconcileSettles(d: Durable, read: StoreState, s: StoreState, readFails: bool,
      put: PutOutcome, cas: CasOutcome)
    requires Knows(d, s) && Sound(s) && Increasing(s, d.device, cas)
    requires d.pending.Some? ==> Later(read, s, d.device)
    ensures var (e, t, _) := d.ReconcileAt(read, s, readFails, put, cas); Settles(d, s, e, t)
  {
    hide Durable.Write, EncodeMaterial, PutOn, LeafJournal.Of;
    NothingSettles(d, s);
    if d.pending.Some? {
      if read.journals[d.device].journal == d.pending.value.next { FinishKnows(d, read, s); }
      WriteAdvances(d, s, cas);
      var body := d.CurrentMaterial();
      if body.Done? {
        PutAdvances(d, s, MATERIAL_HASH(body.value), body.value, put);
        var (after, stored) := PutOn(s, MATERIAL_HASH(body.value), body.value, put);
        WriteAdvances(d, after, cas);
        AdvancesTrans(s, after, d.Write(after, cas).1);
      }
    }
  }

  lemma {:induction false} CreateSettles(s: StoreState, r: Registry, put: PutOutcome, cas: CasOutcome)
    requires Sound(s) && Increasing(s, r.device, cas)
    ensures var (t, o) := Durable.Create(s, r, put, cas);
      Advances(s, t) && Sound(t) && (o.Done? ==> Knows(o.value, t))
  {
    hide MaterialCounts, MaterialFormat;
  }

  lemma {:induction false} DecodedIdle(b: bytes, r: Registry)
    requires MaterialFormat().decode(b) == Ok(r)
    ensures r.live.None?
  {
    hide MaterialFormat, Fits, EncodeMaterial;
    MaterialRoundTrip(r, b);
  }

  lemma {:induction false} LoadSettles(read: StoreState, s: StoreState, device: DeviceId, journalFails: bool,
      materialFails: bool, cas: CasOutcome)
    requires Sound(s) && Increasing(s, device, cas) && (device in read.journals ==> Later(read, s, device))
    ensures var (t, o) := Durable.LoadAt(read, s, device, journalFails, materialFails, cas);
      Advances(s, t) && Sound(t) && (o.Done? && o.value.Some? ==> Knows(o.value.value, t))
  {
    hide MaterialFormat;
    if device in read.journals {
      var id := read.journals[device].journal.material;
      if id in s.materials && MaterialFormat().decode(s.materials[id]).Ok? {
        DecodedIdle(s.materials[id], MaterialFormat().decode(s.materials[id]).value);
      }
    }
  }

  // ----- a response leaves only with its attempt closed in the store

  lemma {:induction false} JournalTracks(material: MaterialId, r: Registry, a: LeafAttempt)
    requires Numbered(r)
    ensures LeafJournal.Of(material, r).Ok?
    ensures var j := LeafJournal.Of(material, r).value;
      && (j.IsClosed(a) <==> r.IsClosed(a))
      && (j.live == Some(a) <==> r.live.Some? && r.live.value.attempt == a)
      && (r.IsClosed(a) ==> j.live != Some(a))
  {
  }

  /** The operation succeeds only on the live attempt `a`, and then closes it. */
  ghost predicate Closes(d: Durable, op: Operation, a: LeafAttempt) {
    d.registry.Some? && op(d.registry.value).1.Ok? ==>
      && d.registry.value.live.Some? && d.registry.value.live.value.attempt == a
      && op(d.registry.value).0.IsClosed(a)
  }

  /** A durable leaf hands out a response only if the stored journal moved from the
    * attempt being live to the attempt being closed in that same call.
    */
  lemma {:induction false} ResponseNeedsLiveJournal(d: Durable, s: StoreState, op: Operation, a: LeafAttempt,
      cas: CasOutcome)
    requires Knows(d, s) && Sound(s) && Increasing(s, d.device, cas) && Moves(d, op) && Closes(d, op, a)
    requires d.Transition(s, op, cas).2.Done?
    ensures var t := d.Transition(s, op, cas).1;
      && a.device == d.device && d.device in s.journals && d.device in t.journals
      && s.journals[d.device].journal.live == Some(a) && t.journals[d.device].journal.IsClosed(a)
  {
    hide Durable.Recorded, Knows, Sound, Increasing, LeafJournal.Of, Registry.IsClosed, LeafJournal.IsClosed;
    hide Progresses, StepsTo, Settles;
    var r := d.registry.value;
    var u := op(r).0;
    Known(d, s);
    ProgressSteps(d.material, r, u, d.material);
    JournalTracks(d.material, r, a);
    JournalTracks(d.material, u, a);
    OfDevice(d.material, u);
    var next := LeafJournal.Of(d.material, u).value;
    var previous := LeafJournal.Of(d.material, r).value;
    assert previous.live == Some(a) && next.live != Some(a) && next.IsClosed(a);
    RecordedSettles(d, s, u, cas);
    var (written, after, outcome) := d.(registry := Some(u)).Recorded(s, previous, cas);
    assert d.Transition(s, op, cas).1 == after && (outcome.Refused? ==> d.Transition(s, op, cas).2.Refused?);
  }

  // ----- reads and writes at different times

  /** A journal write that finds another revision, as an outcome. */
  function Overtaken(cas: CasOutcome): CasOutcome {
    if cas.Succeeds? || cas.Raced? then Raced else FailsUnapplied
  }

  /** A reconciliation with other writers between its read and its writes is the atomic
    * one at the time of the writes or, if it was overtaken, the atomic one at the time
    * of the read with its journal write lost.
    */
  lemma {:induction false} SplitReconcile(d: Durable, read: StoreState, store: StoreState, readFails: bool,
      put: PutOutcome, cas: CasOutcome)
    requires Later(read, store, d.device)
    ensures var (e, t, o) := d.ReconcileAt(read, store, readFails, put, cas);
      if store.journals[d.device] == read.journals[d.device] then (e, t, o) == d.Reconcile(store, readFails, put, cas)
      else
        var (f, _, p) := d.Reconcile(read.(materials := store.materials), readFails, put, Overtaken(cas));
        t.journals == store.journals && e == f && o == p
  {
    hide EncodeMaterial, LeafJournal.Of;
  }

  /** The same for loading. */
  lemma {:induction false} SplitLoad(read: StoreState, store: StoreState, device: DeviceId, journalFails: bool,
      materialFails: bool, cas: CasOutcome)
    requires Later(read, store, device)
    ensures var (t, o) := Durable.LoadAt(read, store, device, journalFails, materialFails, cas);
      if store.journals[device] == read.journals[device] then
        (t, o) == Durable.Load(store, device, journalFails, materialFails, cas)
      else
        && t.journals == store.journals
        && o == Durable.Load(read.(materials := store.materials), device, journalFails, materialFails, Overtaken(cas)).1
  {
    hide MaterialFormat, LeafJournal.Of;
  }
}

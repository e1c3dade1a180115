/** How many durable leaves hold one live attempt (src/leaf/store/persistent.rs).
  *
  * A leaf comes to hold an attempt by its own journal write, or by reconciling with a
  * journal equal to its pending one, whoever wrote that.
  */
module Holders {
  import opened Results
  import opened Ids
  import opened Encoding
  import opened Leaf
  import opened Material
  import opened LeafRuns
  import opened Record
  import opened Store
  import opened Persistent
  import opened PersistentRuns
  import opened PersistentMaterial
  import opened PersistentSystem
  import DurableCalls

  /** A ready leaf with the attempt live. */
  predicate Holds(d: Durable, a: LeafAttempt) {
    d.pending.None? && d.registry.Some? && d.registry.value.live.Some? && d.registry.value.live.value.attempt == a
  }

  /** The attempt that the leaf's pending write would make live. */
  predicate Awaits(d: Durable, a: LeafAttempt) { d.pending.Some? && d.pending.value.next.live == Some(a) }

  /** Reconciling takes the journal it reads for the leaf's own write. */
  predicate Adopts(d: Durable, read: StoreState, readFails: bool) {
    && !readFails && d.pending.Some?
    && d.device in read.journals && read.journals[d.device].journal == d.pending.value.next
  }

  /** Exactly when a leaf that awaits an attempt holds it after reconciling. */
  lemma {:induction false} ReconcileHoldsIff(d: Durable, a: LeafAttempt, read: StoreState, s: StoreState,
      readFails: bool, put: PutOutcome, cas: CasOutcome)
    requires Knows(d, s) && Awaits(d, a) && Later(read, s, d.device)
    ensures Holds(d.ReconcileAt(read, s, readFails, put, cas).0, a) <==>
      || Adopts(d, read, readFails)
      || (&& !readFails && !d.pending.value.materialChanged
          && read.journals[d.device].revision == d.revision == s.journals[d.device].revision
          && read.journals[d.device].journal == d.pending.value.previous && cas.Succeeds?)
  {
    hide MaterialFormat, MaterialCounts;
  }

  // ----- counters

  /** The store has not issued the attempt yet. */
  predicate Unissued(s: StoreState, a: LeafAttempt) {
    a.device in s.journals && s.journals[a.device].journal.nextSequence <= a.sequence
  }

  /** A write that leaves an attempt live makes it live. */
  predicate Issues(w: PendingWrite) {
    w.next.live.Some? ==> w.next.nextSequence == w.previous.nextSequence + 1
  }

  /** A leaf's counter never runs ahead of the store's. */
  ghost predicate Counted(d: Durable, s: StoreState) {
    d.registry.Some? && d.device in s.journals ==>
      var n := s.journals[d.device].journal.nextSequence;
      if d.pending.None? then d.registry.value.nextSequence <= n
      else d.pending.value.previous.nextSequence <= n && Issues(d.pending.value)
  }

  /** The leaf holds the attempt, or awaits it and the store took the write (`own`). */
  predicate Claims(d: Durable, own: bool, a: LeafAttempt) { Holds(d, a) || (own && Awaits(d, a)) }

  /** Every attempt claimed after a call was claimed before or is newly issued. */
  ghost predicate Gains(d: Durable, own: bool, s: StoreState, e: Durable, after: bool) {
    forall a :: Claims(e, after, a) ==> Claims(d, own, a) || Unissued(s, a)
  }

  /** The store moved the leaf's journal. */
  predicate Wrote(d: Durable, s: StoreState, t: StoreState) {
    d.device in s.journals && d.device in t.journals && t.journals[d.device] != s.journals[d.device]
  }

  /** Whether the store has taken the leaf's pending write after a call. */
  predicate OwnAfter(d: Durable, own: bool, s: StoreState, t: StoreState) { (d.pending.Some? && own) || Wrote(d, s, t) }

  ghost predicate OwnTaken(d: Durable, own: bool, s: StoreState) {
    own && d.pending.Some? && d.device in s.journals ==>
      d.pending.value.next.nextSequence <= s.journals[d.device].journal.nextSequence
  }

  /** What every call keeps, and what it may add. */
  ghost predicate Tallies(d: Durable, own: bool, s: StoreState, e: Durable, t: StoreState) {
    Counted(e, t) && OwnTaken(e, OwnAfter(d, own, s, t), t) && Gains(d, own, s, e, OwnAfter(d, own, s, t))
  }

  lemma {:induction false} WriteTallies(d: Durable, own: bool, s: StoreState, cas: CasOutcome)
    requires Knows(d, s) && d.registry.Some? && d.pending.Some? && Counted(d, s) && OwnTaken(d, own, s)
    ensures var (e, t, _) := d.Write(s, cas); Tallies(d, own, s, e, t)
  {}

  /** A ready leaf that starts writing `next` for the registry `u`. */
  lemma {:induction false} PersistTallies(d: Durable, own: bool, s: StoreState, u: Registry, next: LeafJournal,
      body: Option<bytes>, put: PutOutcome, cas: CasOutcome)
    requires Knows(d, s) && d.ReadyJournal().Done? && Counted(d, s) && Progresses(d.registry.value, u)
    requires LeafJournal.Of(next.material, u) == Ok(next)
    requires Issues(PendingWrite(d.ReadyJournal().value, next, body.Some?))
    ensures var (e, t, _) := d.(registry := Some(u)).Persist(s, d.ReadyJournal().value, next, body, put, cas);
      Tallies(d, own, s, e, t)
  {
    hide Durable.Write, PutOn, Progresses, LeafJournal.Of, Knows;
    Known(d, s);
    OfDevice(d.material, d.registry.value);
    WaitingKnows(d, s, u, next, body.Some?);
    var waiting := Waiting(d, u, next, body.Some?);
    assert waiting == d.(registry := Some(u)).(pending := waiting.pending);
    if body.Some? {
      var (after, stored) := PutOn(s, MATERIAL_HASH(body.value), body.value, put);
      PutAdvances(waiting, s, MATERIAL_HASH(body.value), body.value, put);
      if stored { WriteTallies(waiting, false, after, cas); }
    } else {
      WriteTallies(waiting, false, s, cas);
    }
  }

  lemma {:induction false} RecordedTallies(d: Durable, own: bool, s: StoreState, u: Registry, cas: CasOutcome)
    requires Knows(d, s) && d.ReadyJournal().Done? && Counted(d, s) && Progresses(d.registry.value, u)
    ensures var (e, t, _) := d.(registry := Some(u)).Recorded(s, d.ReadyJournal().value, cas);
      Tallies(d, own, s, e, t)
  {
    hide Durable.Persist, Knows, Tallies;
    Known(d, s);
    var previous := d.ReadyJournal().value;
    ProgressSteps(d.material, d.registry.value, u, d.material);
    var next := LeafJournal.Of(d.material, u).value;
    if next != previous {
      PersistTallies(d, own, s, u, next, None, PutSucceeds, cas);
    } else {
      QuietTallies(d, own, s, u);
    }
  }

  lemma {:induction false} QuietTallies(d: Durable, own: bool, s: StoreState, u: Registry)
    requires d.registry.Some? && d.pending.None? && Counted(d, s)
    requires LeafJournal.Of(d.material, u).Ok?
      && LeafJournal.Of(d.material, u) == LeafJournal.Of(d.material, d.registry.value)
    ensures Tallies(d, own, s, d.(registry := Some(u)), s)
  {}

  /** Doing nothing, or giving up. */
  lemma {:induction false} IdleTallies(d: Durable, own: bool, s: StoreState)
    requires Counted(d, s) && OwnTaken(d, own, s)
    ensures Tallies(d, own, s, d, s)
    ensures forall r: Registry :: Tallies(d, own, s, d.(registry := Some(r)).Invalidated(), s)
    ensures Tallies(d, own, s, d.Invalidated(), s)
  {}

  lemma {:induction false} PerformTallies(d: Durable, own: bool, s: StoreState, op: Operation, installs: bool,
      put: PutOutcome, cas: CasOutcome)
    requires Knows(d, s) && Counted(d, s) && OwnTaken(d, own, s) && Moves(d, op)
    ensures var (e, t, _) := d.Perform(s, op, installs, put, cas); Tallies(d, own, s, e, t)
  {
    hide Durable.Persist, Durable.Recorded, LeafJournal.Of, Knows, Tallies, EncodeMaterial, Progresses, Counted,
      Durable.Invalidated, Issues;
    IdleTallies(d, own, s);
    if d.ReadyJournal().Done? {
      Known(d, s);
      var (u, result) := op(d.registry.value);
      if !installs || result.Err? {
        RecordedTallies(d, own, s, u, cas);
      } else if EncodeMaterial(u).Ok? {
        EncodeIsIdle(u);
        var body := EncodeMaterial(u).value;
        var id := MATERIAL_HASH(body);
        ProgressSteps(d.material, d.registry.value, u, id);
        OfDevice(id, u);
        IdleIssues(d.ReadyJournal().value, LeafJournal.Of(id, u).value);
        PersistTallies(d, own, s, u, LeafJournal.Of(id, u).value, Some(body), put, cas);
      }
    }
  }

  lemma {:induction false} IdleIssues(previous: LeafJournal, next: LeafJournal)
    requires next.live.None?
    ensures Issues(PendingWrite(previous, next, true))
  {}

  lemma {:induction false} AdoptTallies(d: Durable, own: bool, read: StoreState, s: StoreState)
    requires Knows(d, s) && Counted(d, s) && Adopts(d, read, false) && Later(read, s, d.device)
    ensures var e := d.FinishWrite(read.journals[d.device].revision);
      && Counted(e, s) && OwnTaken(e, OwnAfter(d, own, s, s), s)
      && (forall a :: Holds(e, a) <==> Awaits(d, a))
      && (own ==> Gains(d, own, s, e, OwnAfter(d, own, s, s)))
  {}

  /** Every reconciliation that does not take another leaf's journal tallies. */
  lemma {:induction false} ReconcileTallies(d: Durable, own: bool, read: StoreState, s: StoreState, readFails: bool,
      put: PutOutcome, cas: CasOutcome)
    requires Knows(d, s) && Counted(d, s) && OwnTaken(d, own, s)
    requires d.pending.Some? ==> Later(read, s, d.device)
    ensures var (e, t, _) := d.ReconcileAt(read, s, readFails, put, cas);
      && Counted(e, t) && OwnTaken(e, OwnAfter(d, own, s, t), t)
      && (!Adopts(d, read, readFails) || own ==> Gains(d, own, s, e, OwnAfter(d, own, s, t)))
      && (Adopts(d, read, readFails) ==> t == s && forall a :: Holds(e, a) <==> Awaits(d, a))
  {
    hide Durable.Write, EncodeMaterial, PutOn, LeafJournal.Of, Knows, Counted, Gains, OwnTaken, Holds, Awaits;
    Known(d, s);
    IdleTallies(d, own, s);
    if Adopts(d, read, readFails) {
      AdoptTallies(d, own, read, s);
    } else if d.pending.Some? {
      WriteTallies(d, own, s, cas);
      var body := d.CurrentMaterial();
      if body.Done? {
        PutAdvances(d, s, MATERIAL_HASH(body.value), body.value, put);
        var (after, stored) := PutOn(s, MATERIAL_HASH(body.value), body.value, put);
        SameJournals(d, own, s, after);
        WriteTallies(d, own, after, cas);
        SameTallies(d, own, s, after, d.Write(after, cas).0, d.Write(after, cas).1);
      }
    }
  }

  lemma {:induction false} SameJournals(d: Durable, own: bool, s: StoreState, t: StoreState)
    requires t.journals == s.journals && Counted(d, s) && OwnTaken(d, own, s)
    ensures Counted(d, t) && OwnTaken(d, own, t) && Tallies(d, own, s, d, t)
  {}

  lemma {:induction false} SameTallies(d: Durable, own: bool, s: StoreState, s': StoreState, e: Durable, t: StoreState)
    requires s'.journals == s.journals && Tallies(d, own, s', e, t)
    ensures Tallies(d, own, s, e, t)
  {}

  lemma {:induction false} CreateTallies(s: StoreState, r: Registry, put: PutOutcome, cas: CasOutcome)
    ensures var (t, o) := Durable.Create(s, r, put, cas);
      o.Done? ==> Counted(o.value, t) && forall a :: !Claims(o.value, false, a)
  {
    hide MaterialCounts, MaterialFormat;
  }

  lemma {:induction false} LoadTallies(read: StoreState, s: StoreState, device: DeviceId, journalFails: bool,
      materialFails: bool, cas: CasOutcome)
    requires device in read.journals ==> Later(read, s, device)
    ensures var (t, o) := Durable.LoadAt(read, s, device, journalFails, materialFails, cas);
      o.Done? && o.value.Some? ==> Counted(o.value.value, t) && forall a :: !Claims(o.value.value, false, a)
  {
    hide MaterialFormat;
    if device in read.journals {
      var id := read.journals[device].journal.material;
      if id in s.materials && MaterialFormat().decode(s.materials[id]).Ok? {
        DecodedIdle(s.materials[id], MaterialFormat().decode(s.materials[id]).value);
      }
    }
  }

  // ----- the system

  ghost predicate OneHolder(leaves: seq<Durable>) {
    forall i, j, a :: 0 <= i < j < |leaves| && Holds(leaves[i], a) ==> !Holds(leaves[j], a)
  }

  ghost predicate OneClaim(leaves: seq<Durable>, own: seq<bool>)
    requires |own| == |leaves|
  {
    forall i, j, a :: 0 <= i < j < |leaves| && Claims(leaves[i], own[i], a) ==> !Claims(leaves[j], own[j], a)
  }

  ghost predicate AllCounted(leaves: seq<Durable>, own: seq<bool>, s: StoreState) {
    |own| == |leaves| && forall i :: 0 <= i < |leaves| ==> Counted(leaves[i], s) && OwnTaken(leaves[i], own[i], s)
  }

  /** Every claimed attempt has been issued. */
  ghost predicate AllIssued(leaves: seq<Durable>, own: seq<bool>, s: StoreState)
    requires |own| == |leaves|
  {
    forall i, a :: 0 <= i < |leaves| && Claims(leaves[i], own[i], a) ==> !Unissued(s, a)
  }

  lemma {:induction false} ClaimIsIssued(d: Durable, own: bool, s: StoreState, a: LeafAttempt)
    requires Knows(d, s) && Counted(d, s) && OwnTaken(d, own, s) && Claims(d, own, a)
    ensures !Unissued(s, a)
  {}

  lemma {:induction false} ClaimsAreIssued(leaves: seq<Durable>, own: seq<bool>, s: StoreState)
    requires AllKnow(leaves, s) && AllCounted(leaves, own, s)
    ensures AllIssued(leaves, own, s)
  {
    hide Knows, Counted, OwnTaken, Claims, Unissued;
    forall i, a | 0 <= i < |leaves| && Claims(leaves[i], own[i], a) ensures !Unissued(s, a) {
      ClaimIsIssued(leaves[i], own[i], s, a);
    }
  }

  /** A leaf's call adds no second claim. */
  lemma {:induction false} ReplaceOne(leaves: seq<Durable>, own: seq<bool>, k: nat, e: Durable, o: bool, s: StoreState)
    requires |own| == |leaves| && k < |leaves| && OneClaim(leaves, own) && AllIssued(leaves, own, s)
    requires Gains(leaves[k], own[k], s, e, o)
    ensures OneClaim(leaves[k := e], own[k := o])
  {
    hide Claims, Unissued;
    var us, os := leaves[k := e], own[k := o];
    forall i, j, a | 0 <= i < j < |us| && Claims(us[i], os[i], a) ensures !Claims(us[j], os[j], a) {
      if i == k { assert us[j] == leaves[j] && os[j] == own[j]; }
      if j == k { assert us[i] == leaves[i] && os[i] == own[i]; }
    }
  }

  lemma {:induction false} AddOne(leaves: seq<Durable>, own: seq<bool>, d: Durable)
    requires |own| == |leaves| && OneClaim(leaves, own) && forall a :: !Claims(d, false, a)
    ensures OneClaim(leaves + [d], own + [false])
  {
    hide Claims;
    var us, os := leaves + [d], own + [false];
    forall i, j, a | 0 <= i < j < |us| && Claims(us[i], os[i], a) ensures !Claims(us[j], os[j], a) {
      if j < |leaves| { assert us[j] == leaves[j] && os[j] == own[j]; }
      assert us[i] == leaves[i] && os[i] == own[i];
    }
  }

  lemma {:induction false} DropOne(leaves: seq<Durable>, own: seq<bool>, k: nat)
    requires |own| == |leaves| && k < |leaves| && OneClaim(leaves, own)
    ensures OneClaim(Without(leaves, k), Without(own, k))
  {
    hide Claims;
    var us, os := Without(leaves, k), Without(own, k);
    forall i, j, a | 0 <= i < j < |us| && Claims(us[i], os[i], a) ensures !Claims(us[j], os[j], a) {
      var i', j' := if i < k then i else i + 1, if j < k then j else j + 1;
      assert us[i] == leaves[i'] && os[i] == own[i'] && us[j] == leaves[j'] && os[j] == own[j'];
    }
  }

  /** Whether the store has taken each leaf's pending write, after one event. */
  function OwnStep(s: System, own: seq<bool>, e: Event): (r: seq<bool>)
    requires |own| == |s.leaves|
    ensures |r| == |Step(s, e).leaves|
  {
    hide Durable.Create, Durable.LoadAt, Durable.Invoke, Durable.ReconcileAt, OwnAfter;
    match e
    case CreateEvent(_, _, _) => if |Step(s, e).leaves| > |s.leaves| then own + [false] else own
    case LoadEvent(_, _, _, _, _) => if |Step(s, e).leaves| > |s.leaves| then own + [false] else own
    case InvokeEvent(k, _, _, _) =>
      if k < |own| then own[k := OwnAfter(s.leaves[k], own[k], s.store, Step(s, e).store)] else own
    case ReconcileEvent(k, _, _, _, _) =>
      if k < |own| then own[k := OwnAfter(s.leaves[k], own[k], s.store, Step(s, e).store)] else own
    case CrashEvent(k) => if k < |own| then Without(own, k) else own
  }

  function Owned(s: System, events: seq<Event>): (r: seq<bool>)
    ensures |r| == |After(s, events).leaves|
  {
    hide Step, OwnStep;
    if events == [] then seq(|s.leaves|, i => false)
    else
      var n := |events| - 1;
      OwnStep(After(s, events[..n]), Owned(s, events[..n]), events[n])
  }

  lemma {:induction false} CountedAdvances(d: Durable, own: bool, s: StoreState, t: StoreState)
    requires Knows(d, s) && Advances(s, t) && Counted(d, s) && OwnTaken(d, own, s)
    ensures Counted(d, t) && OwnTaken(d, own, t)
  {
    hide LeafJournal.Of;
    if d.registry.Some? {
      assert t.journals[d.device] == s.journals[d.device]
        || StepsTo(s.journals[d.device].journal, t.journals[d.device].journal);
    }
  }

  lemma {:induction false} AllCountedAdvance(leaves: seq<Durable>, own: seq<bool>, s: StoreState, t: StoreState)
    requires AllKnow(leaves, s) && AllCounted(leaves, own, s) && Advances(s, t)
    ensures AllCounted(leaves, own, t)
  {
    hide Knows, Counted, OwnTaken, Advances;
    forall i | 0 <= i < |leaves| ensures Counted(leaves[i], t) && OwnTaken(leaves[i], own[i], t) {
      CountedAdvances(leaves[i], own[i], s, t);
    }
  }

  lemma {:induction false} InvokeTallies(s: System, own: seq<bool>, k: nat, c: Call, put: PutOutcome, cas: CasOutcome)
    requires AllKnow(s.leaves, s.store) && AllCounted(s.leaves, own, s.store) && k < |s.leaves|
    ensures var (e, t, _) := s.leaves[k].Invoke(s.store, c, put, cas);
      Tallies(s.leaves[k], own[k], s.store, e, t)
  {
    hide Durable.Perform, Knows, Tallies, Running, Moves, Counted, OwnTaken;
    DurableCalls.CallMoves(s.leaves[k], c);
    PerformTallies(s.leaves[k], own[k], s.store, Running(c), InstallsMaterial(c), put, cas);
  }

  lemma {:induction false} StepCounts(s: System, own: seq<bool>, e: Event)
    requires SystemInv(s) && Possible(s, e) && AllCounted(s.leaves, own, s.store)
    ensures AllCounted(Step(s, e).leaves, OwnStep(s, own, e), Step(s, e).store)
  {
    hide Knows, Advances, Sound, Increasing, Later, NoneTwice, ReleasedClosed, Durable.Create, Durable.LoadAt,
      Durable.Invoke, Durable.ReconcileAt, Counted, OwnTaken, OwnAfter, Gains;
    var u := Step(s, e);
    StepKeeps(s, e);
    AllCountedAdvance(s.leaves, own, s.store, u.store);
    match e {
    case CreateEvent(registry, put, cas) => CreateTallies(s.store, registry, put, cas); NewCounts(s, u, own);
    case LoadEvent(device, read, journalFails, materialFails, cas) =>
      LoadTallies(read, s.store, device, journalFails, materialFails, cas);
      NewCounts(s, u, own);
    case InvokeEvent(k, call, put, cas) => if k < |s.leaves| { InvokeTallies(s, own, k, call, put, cas); }
    case ReconcileEvent(k, read, readFails, put, cas) =>
      if k < |s.leaves| { ReconcileTallies(s.leaves[k], own[k], read, s.store, readFails, put, cas); }
    case CrashEvent(_) =>
    }
  }

  lemma {:induction false} NewCounts(s: System, u: System, own: seq<bool>)
    requires AllCounted(s.leaves, own, u.store)
    requires u.leaves == s.leaves
      || (|u.leaves| > 0 && u.leaves == s.leaves + [u.leaves[|u.leaves| - 1]]
        && Counted(u.leaves[|u.leaves| - 1], u.store))
    ensures AllCounted(u.leaves, if |u.leaves| > |s.leaves| then own + [false] else own, u.store)
  {
    hide Counted;
  }

  // ----- at most one holder

  /** A reconciliation takes the journal for its own that makes an attempt live which
    * another leaf holds.
    */
  ghost predicate AdoptsHeld(s: System, e: Event) {
    && e.ReconcileEvent? && e.leaf < |s.leaves| && Adopts(s.leaves[e.leaf], e.read, e.readFails)
    && exists j, a :: 0 <= j < |s.leaves| && Awaits(s.leaves[e.leaf], a) && Holds(s.leaves[j], a)
  }

  /** A reconciliation takes for its own a journal that another leaf wrote. */
  predicate AdoptsForeign(s: System, own: seq<bool>, e: Event)
    requires |own| == |s.leaves|
  {
    && e.ReconcileEvent? && e.leaf < |s.leaves| && Adopts(s.leaves[e.leaf], e.read, e.readFails)
    && s.leaves[e.leaf].pending.value.next.live.Some? && !own[e.leaf]
  }

  lemma {:induction false} StepOneClaim(s: System, own: seq<bool>, e: Event)
    requires SystemInv(s) && Possible(s, e) && AllCounted(s.leaves, own, s.store) && OneClaim(s.leaves, own)
    requires !AdoptsForeign(s, own, e)
    ensures OneClaim(Step(s, e).leaves, OwnStep(s, own, e))
  {
    hide Knows, Sound, Increasing, Later, NoneTwice, ReleasedClosed, Durable.Create, Durable.LoadAt, Durable.Invoke,
      Durable.ReconcileAt, Counted, OwnTaken, OwnAfter, Gains, OneClaim, AllIssued, Claims;
    ClaimsAreIssued(s.leaves, own, s.store);
    match e {
    case CreateEvent(registry, put, cas) =>
      var (_, o) := Durable.Create(s.store, registry, put, cas);
      CreateTallies(s.store, registry, put, cas);
      if o.Done? { AddOne(s.leaves, own, o.value); }
    case LoadEvent(device, read, journalFails, materialFails, cas) =>
      var (_, o) := Durable.LoadAt(read, s.store, device, journalFails, materialFails, cas);
      LoadTallies(read, s.store, device, journalFails, materialFails, cas);
      if o.Done? && o.value.Some? { AddOne(s.leaves, own, o.value.value); }
    case InvokeEvent(k, call, put, cas) =>
      if k < |s.leaves| {
        var (d, t, _) := s.leaves[k].Invoke(s.store, call, put, cas);
        InvokeTallies(s, own, k, call, put, cas);
        ReplaceOne(s.leaves, own, k, d, OwnAfter(s.leaves[k], own[k], s.store, t), s.store);
      }
    case ReconcileEvent(k, read, readFails, put, cas) =>
      if k < |s.leaves| {
        var (d, t, _) := s.leaves[k].ReconcileAt(read, s.store, readFails, put, cas);
        OwnReconciles(s.leaves[k], own[k], read, s.store, readFails, put, cas);
        ReplaceOne(s.leaves, own, k, d, OwnAfter(s.leaves[k], own[k], s.store, t), s.store);
      }
    case CrashEvent(k) => if k < |s.leaves| { DropOne(s.leaves, own, k); }
    }
  }

  lemma {:induction false} OwnReconciles(d: Durable, own: bool, read: StoreState, s: StoreState, readFails: bool,
      put: PutOutcome, cas: CasOutcome)
    requires Knows(d, s) && Counted(d, s) && OwnTaken(d, own, s) && (d.pending.Some? ==> Later(read, s, d.device))
    requires !Adopts(d, read, readFails) || own || d.pending.value.next.live.None?
    ensures var (e, t, _) := d.ReconcileAt(read, s, readFails, put, cas);
      Gains(d, own, s, e, OwnAfter(d, own, s, t))
  {
    hide Knows, Counted, OwnTaken, Later, Durable.Write, EncodeMaterial, PutOn;
    ReconcileTallies(d, own, read, s, readFails, put, cas);
  }

  // ----- exactly when holders stay unique

  function NoneOwn(n: nat): (r: seq<bool>)
    ensures |r| == n
  {
    seq(n, i => false)
  }

  lemma {:induction false} HoldersAreClaims(leaves: seq<Durable>)
    ensures OneHolder(leaves) <==> OneClaim(leaves, NoneOwn(|leaves|))
  {
    hide Holds;
    var own := NoneOwn(|leaves|);
    assert forall i, a :: 0 <= i < |leaves| ==> (Claims(leaves[i], own[i], a) <==> Holds(leaves[i], a));
  }

  lemma {:induction false} UnownedCounted(leaves: seq<Durable>, own: seq<bool>, s: StoreState)
    requires AllCounted(leaves, own, s)
    ensures AllCounted(leaves, NoneOwn(|leaves|), s)
  {
    hide Counted;
  }

  /** The claims of a call, without the writes that wait. */
  lemma {:induction false} HoldsOnly(d: Durable, own: bool, s: StoreState, e: Durable, after: bool)
    requires Gains(d, own, s, e, after) && !own
    ensures Gains(d, own, s, e, false)
  {
    hide Unissued, Awaits, Holds;
  }

  lemma {:induction false} AdoptingHolds(s: System, k: nat, e: Durable)
    requires k < |s.leaves| && OneHolder(s.leaves) && !(exists a :: Holds(s.leaves[k], a))
    requires forall a :: Holds(e, a) <==> Awaits(s.leaves[k], a)
    ensures OneHolder(s.leaves[k := e]) <==>
      !exists j, a :: 0 <= j < |s.leaves| && Awaits(s.leaves[k], a) && Holds(s.leaves[j], a)
  {
    hide Holds, Awaits;
    var us := s.leaves[k := e];
    forall j, a | 0 <= j < |s.leaves| && Awaits(s.leaves[k], a) && Holds(s.leaves[j], a) ensures !OneHolder(us) {
      assert j != k && us[j] == s.leaves[j] && Holds(us[k], a);
    }
    if !exists j, a :: 0 <= j < |s.leaves| && Awaits(s.leaves[k], a) && Holds(s.leaves[j], a) {
      forall i, j, a | 0 <= i < j < |us| && Holds(us[i], a) ensures !Holds(us[j], a) {
        if i == k { assert us[j] == s.leaves[j]; }
        if j == k { assert us[i] == s.leaves[i]; }
      }
    }
  }

  /** From a state with one holder per attempt, an event leaves two exactly when it takes
    * a journal for an attempt that another leaf holds.
    */
  lemma {:induction false} StepOneHolderIff(s: System, own: seq<bool>, e: Event)
    requires SystemInv(s) && Possible(s, e) && AllCounted(s.leaves, own, s.store) && OneHolder(s.leaves)
    ensures OneHolder(Step(s, e).leaves) <==> !AdoptsHeld(s, e)
  {
    hide Knows, Sound, Increasing, Later, NoneTwice, ReleasedClosed, Durable.Create, Durable.LoadAt, Durable.Invoke,
      Durable.ReconcileAt, Counted, OwnTaken, OwnAfter, Gains, OneClaim, OneHolder, AllIssued, Claims, Awaits, NoneOwn,
      AllCounted;
    var none, u := NoneOwn(|s.leaves|), Step(s, e);
    UnownedCounted(s.leaves, own, s.store);
    HoldersAreClaims(s.leaves);
    HoldersAreClaims(u.leaves);
    ClaimsAreIssued(s.leaves, none, s.store);
    if e.ReconcileEvent? && e.leaf < |s.leaves| && Adopts(s.leaves[e.leaf], e.read, e.readFails) {
      var d := s.leaves[e.leaf];
      CountedAt(s.leaves, none, s.store, e.leaf);
      ReconcileTallies(d, false, e.read, s.store, e.readFails, e.put, e.cas);
      AdoptingHolds(s, e.leaf, u.leaves[e.leaf]);
    } else {
      OtherEventsKeepOne(s, e);
    }
  }

  lemma {:induction false} CountedAt(leaves: seq<Durable>, own: seq<bool>, s: StoreState, k: nat)
    requires AllCounted(leaves, own, s) && k < |leaves|
    ensures Counted(leaves[k], s) && OwnTaken(leaves[k], false, s)
  {
    hide Counted;
  }

  lemma {:induction false} OtherEventsKeepOne(s: System, e: Event)
    requires SystemInv(s) && Possible(s, e) && AllCounted(s.leaves, NoneOwn(|s.leaves|), s.store)
    requires OneClaim(s.leaves, NoneOwn(|s.leaves|))
    requires !(e.ReconcileEvent? && e.leaf < |s.leaves| && Adopts(s.leaves[e.leaf], e.read, e.readFails))
    ensures OneHolder(Step(s, e).leaves)
  {
    hide SystemInv, Possible, AllCounted, OneClaim, OneHolder, Claims, Adopts, OwnAfter, Step;
    var own, u := NoneOwn(|s.leaves|), Step(s, e);
    StepOneClaim(s, own, e);
    ClaimsHold(u.leaves, OwnStep(s, own, e));
  }

  lemma {:induction false} ClaimsHold(leaves: seq<Durable>, own: seq<bool>)
    requires |own| == |leaves| && OneClaim(leaves, own)
    ensures OneHolder(leaves)
  {
    hide Holds, Awaits;
    forall i, j, a | 0 <= i < j < |leaves| && Holds(leaves[i], a) ensures !Holds(leaves[j], a) {
      assert Claims(leaves[i], own[i], a);
    }
  }

  ghost predicate AlwaysOneHolder(s: System, events: seq<Event>) {
    hide Step, OneHolder;
    OneHolder(After(s, events).leaves) && (events == [] || AlwaysOneHolder(s, events[..|events| - 1]))
  }

  ghost predicate NeverAdoptsHeld(s: System, events: seq<Event>) {
    hide Step, AdoptsHeld;
    events == [] || (NeverAdoptsHeld(s, events[..|events| - 1])
      && !AdoptsHeld(After(s, events[..|events| - 1]), events[|events| - 1]))
  }

  predicate NeverAdoptsForeign(s: System, events: seq<Event>) {
    hide Step, AdoptsForeign, OwnStep;
    events == [] || (NeverAdoptsForeign(s, events[..|events| - 1])
      && !AdoptsForeign(After(s, events[..|events| - 1]), Owned(s, events[..|events| - 1]), events[|events| - 1]))
  }

  lemma {:induction false} RunCounts(s: StoreState, events: seq<Event>)
    requires Sound(s) && AllPossible(System(s, [], []), events)
    ensures var u := After(System(s, [], []), events);
      SystemInv(u) && AllCounted(u.leaves, Owned(System(s, [], []), events), u.store)
  {
    hide Sound, Knows, Step, OwnStep, Possible, Counted, OwnTaken;
    RunHolds(System(s, [], []), events);
    if events != [] {
      var n := |events| - 1;
      RunCounts(s, events[..n]);
      StepCounts(After(System(s, [], []), events[..n]), Owned(System(s, [], []), events[..n]), events[n]);
    }
  }

  /** Over any run no two leaves ever hold one attempt if and only if no reconciliation
    * ever takes for its own write the journal of an attempt that another leaf holds.
    */
  lemma {:induction false} OneHolderIff(s: StoreState, events: seq<Event>)
    requires Sound(s) && AllPossible(System(s, [], []), events)
    ensures AlwaysOneHolder(System(s, [], []), events) <==> NeverAdoptsHeld(System(s, [], []), events)
  {
    hide Sound, Step, Possible, SystemInv, AllCounted, AdoptsHeld, Owned;
    if events != [] {
      var n := |events| - 1;
      OneHolderIff(s, events[..n]);
      RunCounts(s, events[..n]);
      var before := After(System(s, [], []), events[..n]);
      if AlwaysOneHolder(System(s, [], []), events[..n]) {
        OneAtEnd(System(s, [], []), events[..n]);
        StepOneHolderIff(before, Owned(System(s, [], []), events[..n]), events[n]);
      }
    }
  }

  lemma {:induction false} OneAtEnd(s: System, events: seq<Event>)
    requires AlwaysOneHolder(s, events)
    ensures OneHolder(After(s, events).leaves)
  {
    hide OneHolder, After;
  }

  /** Without a reconciliation that takes another leaf's journal, no attempt ever has two
    * holders, and none beside a leaf whose own write of it waits.
    */
  lemma {:induction false} OwnWritesHoldAlone(s: StoreState, events: seq<Event>)
    requires Sound(s) && AllPossible(System(s, [], []), events) && NeverAdoptsForeign(System(s, [], []), events)
    ensures OneClaim(After(System(s, [], []), events).leaves, Owned(System(s, [], []), events))
    ensures AlwaysOneHolder(System(s, [], []), events) && NeverAdoptsHeld(System(s, [], []), events)
  {
    hide Sound, Step, OwnStep, Possible, SystemInv, AllCounted, AdoptsForeign, Claims, Holds;
    OneHolderIff(s, events);
    if events != [] {
      var n := |events| - 1;
      OwnWritesHoldAlone(s, events[..n]);
      RunCounts(s, events[..n]);
      StepOneClaim(After(System(s, [], []), events[..n]), Owned(System(s, [], []), events[..n]), events[n]);
    }
    ClaimsHold(After(System(s, [], []), events).leaves, Owned(System(s, [], []), events));
  }

  // ----- two holders

  ghost predicate Reserves(r: Registry, u: Registry) {
    && u.device == r.device && u.nextSequence == r.nextSequence + 1
    && u.live.Some? && u.live.value.attempt == LeafAttempt(r.device, r.nextSequence)
  }

  lemma {:induction false} ReserveIssues(r: Registry, c: Call)
    requires c.ReserveCall? && r.live.None? && LeafRuns.Apply(r, c).1.Ok?
    ensures Reserves(r, LeafRuns.Apply(r, c).0)
  {
    hide Registry.ValidateReservation;
  }

  /** Of two instances at one revision that issue the same attempt, the second conflicts,
    * but reconciling takes the first one's journal for its own, and then both hold it.
    */
  lemma {:induction false} BothReserve(d: Durable, s: StoreState, c: Call, k: Call, revision: U64, later: U64)
    requires Knows(d, s) && d.registry.Some? && d.pending.None?
      && s.journals[d.device].revision == d.revision < revision
    requires c.ReserveCall? && k.ReserveCall? && d.registry.value.live.None?
    requires LeafRuns.Apply(d.registry.value, c).1.Ok? && LeafRuns.Apply(d.registry.value, k).1.Ok?
    ensures var a := LeafAttempt(d.device, d.registry.value.nextSequence);
      var (first, t, o) := d.Invoke(s, c, PutSucceeds, Succeeds(revision));
      var (second, u, p) := d.Invoke(t, k, PutSucceeds, Succeeds(later));
      var (settled, v, q) := second.ReconcileAt(u, u, false, PutSucceeds, Succeeds(later));
      && o.Done? && p == Refused(ConflictError) && q == Done(()) && v == u == t && Awaits(second, a)
      && t == s.WithJournal(d.device, revision, LeafJournal(d.device, d.material, a.sequence + 1, Some(a)))
      && Holds(first, a) && Holds(settled, a) && Adopts(second, u, false)
  {
    hide LeafRuns.Apply, Knows, StepsTo;
    Known(d, s);
    ReserveIssues(d.registry.value, c);
    ReserveIssues(d.registry.value, k);
    TwoWrites(d, s, Running(c), Running(k), revision, later);
  }

  lemma {:induction false} TwoWrites(d: Durable, s: StoreState, f: Operation, g: Operation, revision: U64, later: U64)
    requires d.registry.Some? && d.pending.None? && d.device == d.registry.value.device && d.device in s.journals
    requires s.journals[d.device].revision == d.revision < revision && d.registry.value.live.None?
    requires f(d.registry.value).1.Ok? && g(d.registry.value).1.Ok?
    requires Reserves(d.registry.value, f(d.registry.value).0) && Reserves(d.registry.value, g(d.registry.value).0)
    ensures var a := LeafAttempt(d.device, d.registry.value.nextSequence);
      var (first, t, o) := d.Transition(s, f, Succeeds(revision));
      var (second, u, p) := d.Transition(t, g, Succeeds(later));
      var (settled, v, q) := second.ReconcileAt(u, u, false, PutSucceeds, Succeeds(later));
      && o.Done? && p == Refused(ConflictError) && q == Done(()) && v == u == t && Awaits(second, a)
      && t == s.WithJournal(d.device, revision, LeafJournal(d.device, d.material, a.sequence + 1, Some(a)))
      && Holds(first, a) && Holds(settled, a) && Adopts(second, u, false)
  {
    hide EncodeMaterial;
  }
}

/** Several durable leaves on one store, crashing and reloading in any order
  * (src/leaf/store/persistent.rs).
  */
module PersistentSystem {
  import opened Results
  import opened Ids
  import opened Leaf
  import opened LeafRuns
  import opened Store
  import opened Persistent
  import opened PersistentRuns
  import opened PersistentMaterial
  import opened DurableCalls

  // ----- the system

  datatype System = System(store: StoreState, leaves: seq<Durable>, released: seq<LeafAttempt>)

  datatype Event =
    | CreateEvent(registry: Registry, put: PutOutcome, cas: CasOutcome)
    | LoadEvent(device: DeviceId, read: StoreState, journalFails: bool, materialFails: bool, cas: CasOutcome)
    | InvokeEvent(leaf: nat, call: Call, put: PutOutcome, cas: CasOutcome)
    | ReconcileEvent(leaf: nat, read: StoreState, readFails: bool, put: PutOutcome, cas: CasOutcome)
    | CrashEvent(leaf: nat)

  function Without<T>(s: seq<T>, i: nat): seq<T>
    requires i < |s|
  {
    s[..i] + s[i + 1..]
  }

  /** One event; events on a leaf that is gone do nothing. */
  function Step(s: System, e: Event): System {
    hide Durable.Create, Durable.LoadAt, Durable.Invoke, Durable.ReconcileAt;
    match e
    case CreateEvent(registry, put, cas) =>
      var (t, o) := Durable.Create(s.store, registry, put, cas);
      System(t, if o.Done? then s.leaves + [o.value] else s.leaves, s.released)
    case LoadEvent(device, read, journalFails, materialFails, cas) =>
      var (t, o) := Durable.LoadAt(read, s.store, device, journalFails, materialFails, cas);
      System(t, if o.Done? && o.value.Some? then s.leaves + [o.value.value] else s.leaves, s.released)
    case InvokeEvent(leaf, call, put, cas) =>
      if leaf >= |s.leaves| then s
      else
        var (d, t, o) := s.leaves[leaf].Invoke(s.store, call, put, cas);
        System(t, s.leaves[leaf := d], if call.RespondCall? && o.Done? then s.released + [call.attempt] else s.released)
    case ReconcileEvent(leaf, read, readFails, put, cas) =>
      if leaf >= |s.leaves| then s
      else
        var (d, t, _) := s.leaves[leaf].ReconcileAt(read, s.store, readFails, put, cas);
        System(t, s.leaves[leaf := d], s.released)
    case CrashEvent(leaf) =>
      if leaf >= |s.leaves| then s else s.(leaves := Without(s.leaves, leaf))
  }

  /** The store gives every applied journal write a larger revision, and a journal was
    * read at the time of the call or before (`EarlierIsLater`).
    */
  predicate Possible(s: System, e: Event) {
    match e
    case CreateEvent(registry, _, cas) => Increasing(s.store, registry.device, cas)
    case LoadEvent(device, read, _, _, cas) =>
      Increasing(s.store, device, cas) && (device in read.journals ==> Later(read, s.store, device))
    case InvokeEvent(leaf, _, _, cas) => leaf < |s.leaves| ==> Increasing(s.store, s.leaves[leaf].device, cas)
    case ReconcileEvent(leaf, read, _, _, cas) => leaf < |s.leaves| ==>
      && Increasing(s.store, s.leaves[leaf].device, cas)
      && (s.leaves[leaf].pending.Some? ==> Later(read, s.store, s.leaves[leaf].device))
    case CrashEvent(_) => true
  }

  function After(s: System, events: seq<Event>): System {
    hide Step;
    if events == [] then s else Step(After(s, events[..|events| - 1]), events[|events| - 1])
  }

  predicate AllPossible(s: System, events: seq<Event>) {
    hide Step, Possible;
    events == [] || (AllPossible(s, events[..|events| - 1])
      && Possible(After(s, events[..|events| - 1]), events[|events| - 1]))
  }

  /** The stored journal of the attempt's device has closed it. */
  ghost predicate ClosedIn(s: StoreState, a: LeafAttempt) {
    a.device in s.journals && s.journals[a.device].journal.IsClosed(a)
  }

  ghost predicate AllKnow(leaves: seq<Durable>, s: StoreState) {
    forall i :: 0 <= i < |leaves| ==> Knows(leaves[i], s)
  }

  ghost predicate ReleasedClosed(released: seq<LeafAttempt>, s: StoreState) {
    forall i :: 0 <= i < |released| ==> ClosedIn(s, released[i])
  }

  predicate NoneTwice(released: seq<LeafAttempt>) {
    forall i, j :: 0 <= i < j < |released| ==> released[i] != released[j]
  }

  ghost predicate SystemInv(s: System) {
    Sound(s.store) && AllKnow(s.leaves, s.store) && ReleasedClosed(s.released, s.store) && NoneTwice(s.released)
  }

  lemma {:induction false} AllAdvance(leaves: seq<Durable>, s: StoreState, t: StoreState)
    requires AllKnow(leaves, s) && Advances(s, t)
    ensures AllKnow(leaves, t)
  {
    hide Knows, Advances;
    forall i | 0 <= i < |leaves| ensures Knows(leaves[i], t) { AdvancesKnown(leaves[i], s, t); }
  }

  lemma {:induction false} ClosedStays(s: StoreState, t: StoreState, a: LeafAttempt)
    requires Advances(s, t) && ClosedIn(s, a)
    ensures ClosedIn(t, a)
  {
    assert t.journals[a.device] == s.journals[a.device]
      || StepsTo(s.journals[a.device].journal, t.journals[a.device].journal);
  }

  lemma {:induction false} ReleasedStay(released: seq<LeafAttempt>, s: StoreState, t: StoreState)
    requires ReleasedClosed(released, s) && Advances(s, t)
    ensures ReleasedClosed(released, t)
  {
    hide Advances, ClosedIn;
    forall i | 0 <= i < |released| ensures ClosedIn(t, released[i]) { ClosedStays(s, t, released[i]); }
  }

  /** Every event keeps the invariant and never reopens a closed attempt. */
  lemma {:induction false} StepKeeps(s: System, e: Event)
    requires SystemInv(s) && Possible(s, e)
    ensures SystemInv(Step(s, e)) && Advances(s.store, Step(s, e).store)
  {
    hide Knows, Advances, Sound, Increasing, NoneTwice, ReleasedClosed, Durable.Create, Durable.LoadAt, Durable.Invoke,
      Durable.ReconcileAt, ClosedIn;
    var u := Step(s, e);
    NothingAdvances(s.store);
    match e {
    case CreateEvent(registry, put, cas) => CreateSettles(s.store, registry, put, cas);
    case LoadEvent(device, read, journalFails, materialFails, cas) =>
      LoadSettles(read, s.store, device, journalFails, materialFails, cas);
    case InvokeEvent(leaf, call, put, cas) =>
      if leaf < |s.leaves| {
        InvokeSettles(s.leaves[leaf], s.store, call, put, cas);
        if call.RespondCall? && s.leaves[leaf].Invoke(s.store, call, put, cas).2.Done? {
          ReleaseKeeps(s, leaf, call, put, cas);
        }
      }
    case ReconcileEvent(leaf, read, readFails, put, cas) =>
      if leaf < |s.leaves| { ReconcileSettles(s.leaves[leaf], read, s.store, readFails, put, cas); }
    case CrashEvent(_) =>
    }
    AllAdvance(s.leaves, s.store, u.store);
    ReleasedStay(s.released, s.store, u.store);
  }

  lemma {:induction false} ReleaseKeeps(s: System, leaf: nat, c: Call, put: PutOutcome, cas: CasOutcome)
    requires SystemInv(s) && leaf < |s.leaves| && Increasing(s.store, s.leaves[leaf].device, cas) && c.RespondCall?
    requires s.leaves[leaf].Invoke(s.store, c, put, cas).2.Done?
    ensures var t := s.leaves[leaf].Invoke(s.store, c, put, cas).1;
      ReleasedClosed(s.released + [c.attempt], t) && NoneTwice(s.released + [c.attempt])
  {
    hide Knows, Advances, Sound, Increasing, Durable.Transition, Running, Moves, Closes, Numbered;
    var d := s.leaves[leaf];
    var t := d.Invoke(s.store, c, put, cas).1;
    Known(d, s.store);
    CallMoves(d, c);
    if d.registry.None? { GoneCloses(d, c); }
    ResponseNeedsLiveJournal(d, s.store, Running(c), c.attempt, cas);
    InvokeSettles(s.leaves[leaf], s.store, c, put, cas);
    ReleasedStay(s.released, s.store, t);
    forall i | 0 <= i < |s.released| ensures s.released[i] != c.attempt { assert ClosedIn(s.store, s.released[i]); }
  }

  lemma {:induction false} GoneCloses(d: Durable, c: Call)
    requires c.RespondCall? && d.registry.None?
    ensures Closes(d, Running(c), c.attempt)
  {}

  lemma {:induction false} NothingAdvances(s: StoreState)
    ensures Advances(s, s)
  {}

  /** Over any interleaving of creates, loads, calls, reconciliations and crashes, with
    * any store failures and any delay between a read and the write that follows it: no
    * response leaves twice for one attempt.
    */
  lemma {:induction false} AtMostOneResponse(s: StoreState, events: seq<Event>)
    requires Sound(s) && AllPossible(System(s, [], []), events)
    ensures NoneTwice(After(System(s, [], []), events).released)
  {
    hide Sound, Knows, Advances;
    RunHolds(System(s, [], []), events);
  }

  lemma {:induction false} RunHolds(s: System, events: seq<Event>)
    requires SystemInv(s) && AllPossible(s, events)
    ensures SystemInv(After(s, events))
  {
    hide SystemInv, Step, Possible;
    if events != [] {
      RunHolds(s, events[..|events| - 1]);
      StepKeeps(After(s, events[..|events| - 1]), events[|events| - 1]);
    }
  }

  /** Every earlier store of a run is one that a later call may have read. */
  lemma {:induction false} EarlierIsLater(s: System, events: seq<Event>, k: nat, device: DeviceId)
    requires SystemInv(s) && AllPossible(s, events) && k <= |events|
    requires device in After(s, events[..k]).store.journals
    ensures Later(After(s, events[..k]).store, After(s, events).store, device)
  {
    hide SystemInv, Step, Possible, Advances;
    var n := |events| - 1;
    if k == |events| {
      assert events[..k] == events;
    } else {
      assert events[..n][..k] == events[..k];
      EarlierIsLater(s, events[..n], k, device);
      RunHolds(s, events[..n]);
      StepKeeps(After(s, events[..n]), events[n]);
      AdvancesLater(After(s, events[..k]).store, After(s, events[..n]).store, After(s, events).store, device);
    }
  }

  /** An attempt that the store has closed is never live in the store again. */
  lemma {:induction false} ClosedForever(s: System, events: seq<Event>, a: LeafAttempt)
    requires SystemInv(s) && AllPossible(s, events) && ClosedIn(s.store, a)
    ensures ClosedIn(After(s, events).store, a)
    ensures After(s, events).store.journals[a.device].journal.live != Some(a)
  {
    hide SystemInv, Step, Possible, Advances;
    if events != [] {
      var n := |events| - 1;
      RunHolds(s, events[..n]);
      ClosedForever(s, events[..n], a);
      StepKeeps(After(s, events[..n]), events[n]);
      ClosedStays(After(s, events[..n]).store, After(s, events).store, a);
    }
  }

  // ----- every stored journal can be loaded

  ghost predicate AllKept(leaves: seq<Durable>) {
    forall i :: 0 <= i < |leaves| ==> Kept(leaves[i])
  }

  /** Calls with inputs that the library produced. */
  ghost predicate HonestEvent(e: Event) {
    match e
    case CreateEvent(registry, _, _) => Installed(registry)
    case InvokeEvent(_, call, _, _) => Honest(call)
    case _ => true
  }

  lemma {:induction false} StepLoads(s: System, e: Event)
    requires SystemInv(s) && AllKept(s.leaves) && Loads(s.store) && HonestEvent(e) && Possible(s, e)
    ensures AllKept(Step(s, e).leaves) && Loads(Step(s, e).store)
  {
    hide Knows, Kept, Loads, Sound, ReleasedClosed, NoneTwice, Honest, Installed, Durable.Create, Durable.LoadAt, Later;
    hide Durable.Invoke, Durable.ReconcileAt;
    match e {
      case CreateEvent(registry, put, cas) => CreateLoads(s.store, registry, put, cas);
      case LoadEvent(device, read, journalFails, materialFails, cas) =>
        LoadLoads(read, s.store, device, journalFails, materialFails, cas);
      case InvokeEvent(leaf, call, put, cas) =>
        if leaf < |s.leaves| { InvokeLoads(s.leaves[leaf], s.store, call, put, cas); }
      case ReconcileEvent(leaf, read, readFails, put, cas) =>
        if leaf < |s.leaves| { ReconcileLoads(s.leaves[leaf], read, s.store, readFails, put, cas); }
      case CrashEvent(_) =>
    }
  }

  /** In every run, whatever fails or races, every stored journal can be loaded. */
  lemma {:induction false} RunLoads(s: System, events: seq<Event>)
    requires SystemInv(s) && AllKept(s.leaves) && Loads(s.store)
    requires AllPossible(s, events) && forall e :: e in events ==> HonestEvent(e)
    ensures var u := After(s, events); AllKept(u.leaves) && Loads(u.store)
  {
    hide SystemInv, AllKept, Loads, HonestEvent, Step, Possible;
    if events != [] {
      var n := |events| - 1;
      RunLoads(s, events[..n]);
      RunHolds(s, events[..n]);
      StepLoads(After(s, events[..n]), events[n]);
    }
  }
}

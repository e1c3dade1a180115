/** The durable wrapper of the leaf (src/leaf/store/persistent.rs). */
module Persistent {
  import opened Results
  import opened Ids
  import opened Encoding
  import opened Leaf
  import opened LeafRuns
  import opened Record
  import opened Store

  datatype PersistError =
    | Protocol(error: Error)
    | StoreError
    | ConflictError
    | MissingMaterial
    | InvalidRecord(error: Error)
    | ReconcileFirst
    | Unavailable

  datatype PersistResult<+T> = Done(value: T) | Refused(cause: PersistError)
  {
    predicate IsFailure() { Refused? }

    function PropagateFailure<U>(): PersistResult<U>
      requires Refused?
    {
      Refused(cause)
    }

    function Extract(): T
      requires Done?
    {
      value
    }
  }

  function AsRecord<T>(r: Result<T>): PersistResult<T> {
    if r.Ok? then Done(r.value) else Refused(InvalidRecord(r.error))
  }
  function AsProtocol<T>(r: Result<T>): PersistResult<T> { if r.Ok? then Done(r.value) else Refused(Protocol(r.error)) }

  datatype PendingWrite = PendingWrite(previous: LeafJournal, next: LeafJournal, materialChanged: bool)

  /** What a wrapped call does to the registry. */
  type Operation = Registry -> (Registry, Result<Output>)

  function Running(c: Call): Operation { (r: Registry) => LeafRuns.Apply(r, c) }

  /** The state of a durable leaf. */
  datatype Durable = Durable(
    device: DeviceId, registry: Option<Registry>, material: MaterialId, revision: U64, pending: Option<PendingWrite>)
  {
    function ReadyRegistry(): PersistResult<Registry> {
      if pending.Some? then Refused(ReconcileFirst)
      else if registry.None? then Refused(Unavailable)
      else Done(registry.value)
    }

    function ReadyJournal(): PersistResult<LeafJournal> {
      var r :- ReadyRegistry();
      AsRecord(LeafJournal.Of(material, r))
    }

    function CurrentMaterial(): PersistResult<bytes> {
      if registry.None? then Refused(Unavailable) else AsRecord(EncodeMaterial(registry.value))
    }

    function FinishWrite(written: U64): Durable {
      if pending.Some? then this.(material := pending.value.next.material, revision := written, pending := None)
        else this
    }

    function Invalidated(): Durable { this.(pending := None, registry := None) }

    /** Writes the pending journal; the leaf is ready again only on success. */
    function Write(store: StoreState, cas: CasOutcome): (Durable, StoreState, PersistResult<()>) {
      if pending.None? then (this, store, Refused(Unavailable))
      else
        var (after, reply) := CasOn(store, device, Some(revision), pending.value.next, cas);
        match reply
        case Applied(written) => (FinishWrite(written), after, Done(()))
        case Conflict => (this, after, Refused(ConflictError))
        case StoreFailed => (this, after, Refused(StoreError))
    }

    /** Marks the write as pending, stores new material, then the journal. */
    function Persist(store: StoreState, previous: LeafJournal, next: LeafJournal, body: Option<bytes>,
        put: PutOutcome, cas: CasOutcome): (Durable, StoreState, PersistResult<()>) {
      var waiting := this.(pending := Some(PendingWrite(previous, next, body.Some?)));
      if body.Some? then
        var (after, stored) := PutOn(store, MATERIAL_HASH(body.value), body.value, put);
        if stored then waiting.Write(after, cas) else (waiting, after, Refused(StoreError))
      else waiting.Write(store, cas)
    }

    /** Persists the attempt after a transition, if it moved. */
    function Recorded(store: StoreState, previous: LeafJournal,
        cas: CasOutcome): (Durable, StoreState, PersistResult<()>) {
      var next := ReadyJournal();
      if next.Refused? then (this, store, Refused(next.cause))
      else if next.value != previous then Persist(store, previous, next.value, None, PutSucceeds, cas)
      else (this, store, Done(()))
    }

    /** A call that leaves the material alone. */
    function Transition(store: StoreState, op: Operation,
        cas: CasOutcome): (Durable, StoreState, PersistResult<Output>) {
      var previous := ReadyJournal();
      if previous.Refused? then (this, store, Refused(previous.cause))
      else
        var (r, result) := op(registry.value);
        var (written, after, outcome) := this.(registry := Some(r)).Recorded(store, previous.value, cas);
        (written, after, if outcome.Refused? then Refused(outcome.cause) else AsProtocol(result))
    }

    /** A call that installs new material. */
    function MaterialTransition(store: StoreState, op: Operation, put: PutOutcome,
        cas: CasOutcome): (Durable, StoreState, PersistResult<Output>) {
      var previous := ReadyJournal();
      if previous.Refused? then (this, store, Refused(previous.cause))
      else
        var (r, result) := op(registry.value);
        var moved := this.(registry := Some(r));
        if result.Ok? then
          var body := moved.CurrentMaterial();
          if body.Refused? then (moved.Invalidated(), store, Refused(body.cause))
          else
            var next := LeafJournal.Of(MATERIAL_HASH(body.value), r);
            if next.Err? then (moved, store, Refused(InvalidRecord(next.error)))
            else
              var (written, after, outcome) :=
                moved.Persist(store, previous.value, next.value, Some(body.value), put, cas);
              (written, after, if outcome.Refused? then Refused(outcome.cause) else Done(result.value))
        else
          var (written, after, outcome) := moved.Recorded(store, previous.value, cas);
          (written, after, Refused(if outcome.Refused? then outcome.cause else Protocol(result.error)))
    }

    function Perform(store: StoreState, op: Operation, installs: bool, put: PutOutcome,
        cas: CasOutcome): (Durable, StoreState, PersistResult<Output>) {
      if installs then MaterialTransition(store, op, put, cas) else Transition(store, op, cas)
    }

    function Invoke(store: StoreState, c: Call, put: PutOutcome,
        cas: CasOutcome): (Durable, StoreState, PersistResult<Output>) {
      Perform(store, Running(c), InstallsMaterial(c), put, cas)
    }

    /** Settles an ambiguous write without repeating its transition; `readFails` is a
      * failing journal read.
      */
    function Reconcile(store: StoreState, readFails: bool, put: PutOutcome,
        cas: CasOutcome): (Durable, StoreState, PersistResult<()>) {
      ReconcileAt(store, store, readFails, put, cas)
    }

    /** The same with the journal read at `read` and the writes made later at `store`. */
    function ReconcileAt(read: StoreState, store: StoreState, readFails: bool, put: PutOutcome,
        cas: CasOutcome): (Durable, StoreState, PersistResult<()>) {
      if pending.None? then (this, store, if registry.Some? then Done(()) else Refused(Unavailable))
      else if readFails then (this, store, Refused(StoreError))
      else if device !in read.journals then (Invalidated(), store, Refused(ConflictError))
      else
        var current := read.journals[device];
        if current.journal == pending.value.next then (FinishWrite(current.revision), store, Done(()))
        else if current.revision != revision then (Invalidated(), store, Refused(ConflictError))
        else if current.journal != pending.value.previous then (Invalidated(), store, Refused(ConflictError))
        else if pending.value.materialChanged then
          var body := CurrentMaterial();
          if body.Refused? then (this, store, Refused(body.cause))
          else if MATERIAL_HASH(body.value) != pending.value.next.material then
            (Invalidated(), store, Refused(InvalidRecord(CommandMismatch)))
          else
            var (after, stored) := PutOn(store, MATERIAL_HASH(body.value), body.value, put);
            if stored then Write(after, cas) else (this, after, Refused(StoreError))
        else Write(store, cas)
    }

    /** The first durable record of an idle registry. */
    static function Create(store: StoreState, r: Registry, put: PutOutcome,
        cas: CasOutcome): (StoreState, PersistResult<Durable>) {
      var body := EncodeMaterial(r);
      if body.Err? then (store, Refused(Protocol(body.error)))
      else
        var id := MATERIAL_HASH(body.value);
        var journal := LeafJournal.Of(id, r);
        if journal.Err? then (store, Refused(InvalidRecord(journal.error)))
        else
          var (with, stored) := PutOn(store, id, body.value, put);
          if !stored then (with, Refused(StoreError))
          else
            var (after, reply) := CasOn(with, r.device, None, journal.value, cas);
            (after, match reply
              case Applied(revision) => Done(Durable(r.device, Some(r), id, revision, None))
              case Conflict => Refused(ConflictError)
              case StoreFailed => Refused(StoreError))
    }

    /** Loads one device and closes an attempt that a prior process left live. */
    static function Load(store: StoreState, device: DeviceId, journalFails: bool, materialFails: bool,
        cas: CasOutcome): (StoreState, PersistResult<Option<Durable>>) {
      LoadAt(store, store, device, journalFails, materialFails, cas)
    }

    /** The same with the journal read at `read` and the rest done later at `store`. */
    static function LoadAt(read: StoreState, store: StoreState, device: DeviceId, journalFails: bool,
        materialFails: bool, cas: CasOutcome): (StoreState, PersistResult<Option<Durable>>) {
      if journalFails then (store, Refused(StoreError))
      else if device !in read.journals then (store, Done(None))
      else
        var current := read.journals[device];
        var id := current.journal.material;
        if current.journal.device != device then (store, Refused(InvalidRecord(ParticipantMismatch)))
        else if materialFails then (store, Refused(StoreError))
        else if id !in store.materials then (store, Refused(MissingMaterial))
        else if MATERIAL_HASH(store.materials[id]) != id then (store, Refused(InvalidRecord(CommandMismatch)))
        else
          var decoded := MaterialFormat().decode(store.materials[id]);
          if decoded.Err? then (store, Refused(InvalidRecord(decoded.error)))
          else if decoded.value.device != device then (store, Refused(InvalidRecord(ParticipantMismatch)))
          else
            var r := decoded.value.(nextSequence := current.journal.nextSequence);
            if current.journal.live.None? then (store, Done(Some(Durable(device, Some(r), id, current.revision, None))))
            else
              var recovered := LeafJournal.Of(id, r);
              if recovered.Err? then (store, Refused(InvalidRecord(recovered.error)))
              else
                var (after, reply) := CasOn(store, device, Some(current.revision), recovered.value, cas);
                (after, match reply
                  case Applied(revision) => Done(Some(Durable(device, Some(r), id, revision, None)))
                  case Conflict => Refused(ConflictError)
                  case StoreFailed => Refused(StoreError))
    }
  }

  /** The calls that write new material. */
  predicate InstallsMaterial(c: Call) { c.AddVaultCall? || c.ActivateInnerCall? || c.ActivateOuterCall? }

  lemma {:induction false} ReadyHasRegistry(d: Durable)
    ensures d.ReadyJournal().Done? ==> d.registry.Some? && d.pending.None?
  {
    hide LeafJournal.Of;
  }

  // ----- the wrapper object over a store object

  class LeafStore {
    var state: StoreState

    constructor ()
      ensures state == StoreState(map[], map[])
    {
      state := StoreState(map[], map[]);
    }

    method PutMaterial(id: MaterialId, body: bytes, o: PutOutcome) returns (stored: bool)
      modifies this
      ensures (state, stored) == PutOn(old(state), id, body, o)
    {
      var (after, r) := PutOn(state, id, body, o);
      state := after;
      return r;
    }

    method CompareExchange(device: DeviceId, expected: Option<U64>, next: LeafJournal,
        o: CasOutcome) returns (reply: CasReply)
      modifies this
      ensures (state, reply) == CasOn(old(state), device, expected, next, o)
    {
      var (after, r) := CasOn(state, device, expected, next, o);
      state := after;
      return r;
    }
  }

  class PersistentLeaf {
    var device: DeviceId
    var registry: Option<Registry>
    var material: MaterialId
    var revision: U64
    var pending: Option<PendingWrite>

    function State(): Durable reads this { Durable(device, registry, material, revision, pending) }

    constructor (start: Durable)
      ensures State() == start
    {
      device, registry, material, revision, pending := start.device, start.registry, start.material, start.revision,
        start.pending;
    }

    /** Writes the first record of an idle registry. */
    static method Create(store: LeafStore, r: Registry, put: PutOutcome,
        cas: CasOutcome) returns (leaf: PersistResult<PersistentLeaf>)
      modifies store
      ensures var (after, created) := Durable.Create(old(store.state), r, put, cas);
        && store.state == after && (leaf.Done? <==> created.Done?)
        && (leaf.Done? ==> fresh(leaf.value) && leaf.value.State() == created.value)
        && (leaf.Refused? ==> leaf.cause == created.cause)
    {
      hide EncodeMaterial, LeafJournal.Of, CasOn, PutOn;
      var body := EncodeMaterial(r);
      if body.Err? { return Refused(Protocol(body.error)); }
      var id := MATERIAL_HASH(body.value);
      var journal := LeafJournal.Of(id, r);
      if journal.Err? { return Refused(InvalidRecord(journal.error)); }
      var stored := store.PutMaterial(id, body.value, put);
      if !stored { return Refused(StoreError); }
      var reply := store.CompareExchange(r.device, None, journal.value, cas);
      match reply
      case Applied(revision) =>
        var created := new PersistentLeaf(Durable(r.device, Some(r), id, revision, None));
        return Done(created);
      case Conflict => return Refused(ConflictError);
      case StoreFailed => return Refused(StoreError);
    }

    /** Loads one device and closes an attempt that a prior process left live. */
    static method Load(store: LeafStore, device: DeviceId, journalFails: bool, materialFails: bool, cas: CasOutcome)
      returns (leaf: PersistResult<Option<PersistentLeaf>>)
      modifies store
      ensures var (after, loaded) := Durable.Load(old(store.state), device, journalFails, materialFails, cas);
        && store.state == after && (leaf.Done? <==> loaded.Done?) && (leaf.Refused? ==> leaf.cause == loaded.cause)
        && (leaf.Done? ==> (leaf.value.Some? <==> loaded.value.Some?))
        && (leaf.Done? && leaf.value.Some? ==>
          fresh(leaf.value.value) && leaf.value.value.State() == loaded.value.value)
    {
      hide MaterialFormat, LeafJournal.Of, CasOn;
      if journalFails { return Refused(StoreError); }
      if device !in store.state.journals { return Done(None); }
      var current := store.state.journals[device];
      if current.journal.device != device { return Refused(InvalidRecord(ParticipantMismatch)); }
      var id := current.journal.material;
      if materialFails { return Refused(StoreError); }
      if id !in store.state.materials { return Refused(MissingMaterial); }
      var body := store.state.materials[id];
      if MATERIAL_HASH(body) != id { return Refused(InvalidRecord(CommandMismatch)); }
      var decoded := MaterialFormat().decode(body);
      if decoded.Err? { return Refused(InvalidRecord(decoded.error)); }
      if decoded.value.device != device { return Refused(InvalidRecord(ParticipantMismatch)); }
      var r := decoded.value.(nextSequence := current.journal.nextSequence);
      var revision := current.revision;
      if current.journal.live.Some? {
        var recovered := LeafJournal.Of(id, r);
        if recovered.Err? { return Refused(InvalidRecord(recovered.error)); }
        var reply := store.CompareExchange(device, Some(revision), recovered.value, cas);
        match reply
        case Applied(written) => revision := written;
        case Conflict => return Refused(ConflictError);
        case StoreFailed => return Refused(StoreError);
      }
      var found := new PersistentLeaf(Durable(device, Some(r), id, revision, None));
      return Done(Some(found));
    }

    method FinishWrite(written: U64)
      modifies this
      ensures State() == old(State()).FinishWrite(written)
    {
      if pending.Some? {
        material := pending.value.next.material;
        pending := None;
        revision := written;
      }
    }

    method Write(store: LeafStore, cas: CasOutcome) returns (r: PersistResult<()>)
      modifies this, store
      ensures (State(), store.state, r) == old(State()).Write(old(store.state), cas)
    {
      if pending.None? { return Refused(Unavailable); }
      var reply := store.CompareExchange(device, Some(revision), pending.value.next, cas);
      match reply
      case Applied(written) =>
        FinishWrite(written);
        return Done(());
      case Conflict => return Refused(ConflictError);
      case StoreFailed => return Refused(StoreError);
    }

    method Persist(store: LeafStore, previous: LeafJournal, next: LeafJournal, body: Option<bytes>, put: PutOutcome,
        cas: CasOutcome) returns (r: PersistResult<()>)
      modifies this, store
      ensures (State(), store.state, r) == old(State()).Persist(old(store.state), previous, next, body, put, cas)
    {
      pending := Some(PendingWrite(previous, next, body.Some?));
      if body.Some? {
        var stored := store.PutMaterial(MATERIAL_HASH(body.value), body.value, put);
        if !stored { return Refused(StoreError); }
      }
      r := Write(store, cas);
    }

    method Recorded(store: LeafStore, previous: LeafJournal, cas: CasOutcome) returns (r: PersistResult<()>)
      modifies this, store
      ensures (State(), store.state, r) == old(State()).Recorded(old(store.state), previous, cas)
    {
      hide Durable.Persist, LeafJournal.Of;
      var next := State().ReadyJournal();
      if next.Refused? { return Refused(next.cause); }
      if next.value == previous { return Done(()); }
      r := Persist(store, previous, next.value, None, PutSucceeds, cas);
    }

    method Transition(store: LeafStore, op: Operation, cas: CasOutcome) returns (r: PersistResult<Output>)
      modifies this, store
      ensures (State(), store.state, r) == old(State()).Transition(old(store.state), op, cas)
    {
      hide Durable.Recorded, LeafJournal.Of;
      var previous := State().ReadyJournal();
      if previous.Refused? { return Refused(previous.cause); }
      var (moved, result) := op(registry.value);
      registry := Some(moved);
      var outcome := Recorded(store, previous.value, cas);
      return if outcome.Refused? then Refused(outcome.cause) else AsProtocol(result);
    }

    method MaterialTransition(store: LeafStore, op: Operation, put: PutOutcome,
        cas: CasOutcome) returns (r: PersistResult<Output>)
      modifies this, store
      ensures (State(), store.state, r) == old(State()).MaterialTransition(old(store.state), op, put, cas)
    {
      hide Durable.Recorded, Durable.Persist, LeafJournal.Of, EncodeMaterial, Durable.ReadyJournal,
        Durable.CurrentMaterial;
      ReadyHasRegistry(State());
      var previous := State().ReadyJournal();
      if previous.Refused? { return Refused(previous.cause); }
      var (moved, result) := op(registry.value);
      registry := Some(moved);
      if result.Ok? {
        var body := State().CurrentMaterial();
        if body.Refused? {
          pending, registry := None, None;
          return Refused(body.cause);
        }
        var next := LeafJournal.Of(MATERIAL_HASH(body.value), moved);
        if next.Err? { return Refused(InvalidRecord(next.error)); }
        var outcome := Persist(store, previous.value, next.value, Some(body.value), put, cas);
        return if outcome.Refused? then Refused(outcome.cause) else Done(result.value);
      }
      var outcome := Recorded(store, previous.value, cas);
      return Refused(if outcome.Refused? then outcome.cause else Protocol(result.error));
    }

    method Reconcile(store: LeafStore, readFails: bool, put: PutOutcome, cas: CasOutcome) returns (r: PersistResult<()>)
      modifies this, store
      ensures (State(), store.state, r) == old(State()).Reconcile(old(store.state), readFails, put, cas)
    {
      hide EncodeMaterial;
      if pending.None? { return if registry.Some? then Done(()) else Refused(Unavailable); }
      if readFails { return Refused(StoreError); }
      if device !in store.state.journals {
        pending, registry := None, None;
        return Refused(ConflictError);
      }
      var current := store.state.journals[device];
      if current.journal == pending.value.next {
        FinishWrite(current.revision);
        return Done(());
      }
      if current.revision != revision || current.journal != pending.value.previous {
        pending, registry := None, None;
        return Refused(ConflictError);
      }
      if pending.value.materialChanged {
        var body := State().CurrentMaterial();
        if body.Refused? { return Refused(body.cause); }
        if MATERIAL_HASH(body.value) != pending.value.next.material {
          pending, registry := None, None;
          return Refused(InvalidRecord(CommandMismatch));
        }
        var stored := store.PutMaterial(MATERIAL_HASH(body.value), body.value, put);
        if !stored { return Refused(StoreError); }
      }
      r := Write(store, cas);
    }
  }
}

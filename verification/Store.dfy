/** Leaf stores (src/leaf/store.rs). */
module Store {
  import opened Results
  import opened Ids
  import opened Encoding
  import opened Record

  datatype StoredJournal = StoredJournal(revision: U64, journal: LeafJournal)

  /** What a journal compare-and-set answers. */
  datatype CasReply = Applied(revision: U64) | Conflict | StoreFailed

  datatype StoreState = StoreState(materials: map<MaterialId, bytes>, journals: map<DeviceId, StoredJournal>)
  {
    function RevisionOf(device: DeviceId): Option<U64> {
      if device in journals then Some(journals[device].revision) else None
    }

    function WithJournal(device: DeviceId, revision: U64, next: LeafJournal): StoreState {
      this.(journals := journals[device := StoredJournal(revision, next)])
    }

    // --- the in-memory store

    predicate Referenced(material: MaterialId) {
      exists d :: d in journals && journals[d].journal.material == material
    }

    /** Drops a material record that no journal references. */
    function Collect(material: MaterialId): StoreState {
      if Referenced(material) then this else this.(materials := materials - {material})
    }

    function PutMaterial(id: MaterialId, body: bytes): (StoreState, Result<()>) {
      if id in materials then (this, Need(materials[id] == body, CommandMismatch))
      else (this.(materials := materials[id := body]), Ok(()))
    }

    function CompareExchange(device: DeviceId, expected: Option<U64>,
        next: LeafJournal): (StoreState, Result<CasReply>) {
      if next.device != device then (Collect(next.material), Err(ParticipantMismatch))
      else if RevisionOf(device) != expected then (Collect(next.material), Ok(Conflict))
      else if device in journals then
        var previous := journals[device];
        if previous.revision + 1 >= U64_LIMIT then (Collect(next.material), Err(LengthOverflow))
        else
          var revision := previous.revision + 1;
          (WithJournal(device, revision, next).Collect(previous.journal.material), Ok(Applied(revision)))
      else (WithJournal(device, 1, next), Ok(Applied(1)))
    }
  }

  class MemoryLeafStore {
    var materials: map<MaterialId, bytes>
    var journals: map<DeviceId, StoredJournal>

    function State(): StoreState reads this { StoreState(materials, journals) }

    constructor ()
      ensures State() == StoreState(map[], map[])
    {
      materials, journals := map[], map[];
    }

    method PutMaterial(id: MaterialId, body: bytes) returns (r: Result<()>)
      modifies this`materials
      ensures (State(), r) == old(State()).PutMaterial(id, body)
    {
      if id in materials { return Need(materials[id] == body, CommandMismatch); }
      materials := materials[id := body];
      return Ok(());
    }

    method CollectMaterial(material: MaterialId)
      modifies this`materials
      ensures State() == old(State()).Collect(material)
    {
      if !exists d :: d in journals && journals[d].journal.material == material { materials := materials - {material}; }
    }

    method CompareExchange(device: DeviceId, expected: Option<U64>, next: LeafJournal) returns (r: Result<CasReply>)
      modifies this
      ensures (State(), r) == old(State()).CompareExchange(device, expected, next)
    {
      hide StoreState.Collect;
      if next.device != device {
        CollectMaterial(next.material);
        return Err(ParticipantMismatch);
      }
      if State().RevisionOf(device) != expected {
        CollectMaterial(next.material);
        return Ok(Conflict);
      }
      var revision: U64, previous := 1, State().RevisionOf(device);
      if previous.Some? {
        if previous.value + 1 >= U64_LIMIT {
          CollectMaterial(next.material);
          return Err(LengthOverflow);
        }
        revision := previous.value + 1;
      }
      ghost var before := State();
      var replaced := if previous.Some? then Some(journals[device].journal.material) else None;
      journals := journals[device := StoredJournal(revision, next)];
      if replaced.Some? { CollectMaterial(replaced.value); }
      return Ok(Applied(revision));
    }
  }

  /** Every journal names a material record that is present. */
  ghost predicate NothingMissing(s: StoreState) {
    forall d :: d in s.journals ==> s.journals[d].journal.material in s.materials
  }

  /** The in-memory store is a compare-and-set on the exact revision, touches one
    * device, increases its revision, and never collects referenced material.
    */
  lemma {:induction false} MemoryStoreIsCas(s: StoreState, device: DeviceId, expected: Option<U64>, next: LeafJournal)
    ensures var (u, r) := s.CompareExchange(device, expected, next);
      && (r.Ok? && r.value.Applied? ==>
        && next.device == device && s.RevisionOf(device) == expected
        && u.journals == s.journals[device := StoredJournal(r.value.revision, next)]
        && (expected.Some? ==> r.value.revision > expected.value))
      && (!(r.Ok? && r.value.Applied?) ==> u.journals == s.journals)
      && (r.Ok? ==> !r.value.StoreFailed?)
      && (r == Ok(Conflict) <==> next.device == device && s.RevisionOf(device) != expected)
      && (NothingMissing(s) && next.material in s.materials ==> NothingMissing(u))
  {
  }

  // ----- any linearizable store, as the leaf sees it

  /** What the backend does with one journal write. `Raced` stands for a concurrent
    * writer between the leaf's last read and this write: the write then conflicts.
    */
  datatype CasOutcome = Succeeds(revision: U64) | FailsUnapplied | AppliesThenFails(revision: U64) | Raced

  /** What the backend does with one material write. */
  datatype PutOutcome = PutSucceeds | PutFailsUnapplied | PutAppliesThenFails

  /** Applied revisions increase. */
  predicate Increasing(s: StoreState, device: DeviceId, o: CasOutcome) {
    (o.Succeeds? || o.AppliesThenFails?) && device in s.journals ==> o.revision > s.journals[device].revision
  }

  function CasOn(s: StoreState, device: DeviceId, expected: Option<U64>, next: LeafJournal,
      o: CasOutcome): (StoreState, CasReply) {
    var current := s.RevisionOf(device) == expected;
    match o
    case FailsUnapplied => (s, StoreFailed)
    case Raced => (s, Conflict)
    case Succeeds(revision) =>
      if current then (s.WithJournal(device, revision, next), Applied(revision)) else (s, Conflict)
    case AppliesThenFails(revision) =>
      (if current then s.WithJournal(device, revision, next) else s, StoreFailed)
  }

  /** A content-addressed write; another value under the same identifier is refused. */
  function PutOn(s: StoreState, id: MaterialId, body: bytes, o: PutOutcome): (StoreState, bool) {
    var taken := id in s.materials && s.materials[id] != body;
    var stored := s.(materials := s.materials[id := body]);
    match o
    case PutFailsUnapplied => (s, false)
    case PutSucceeds => if taken then (s, false) else (stored, true)
    case PutAppliesThenFails => (if taken then s else stored, false)
  }

  /** A backend whose journal writes go through is such a store. */
  lemma {:induction false} MemoryStoreConforms(s: StoreState, device: DeviceId, expected: Option<U64>,
      next: LeafJournal)
    requires next.device == device && (device in s.journals ==> s.journals[device].revision + 1 < U64_LIMIT)
    ensures var revision := if device in s.journals then s.journals[device].revision + 1 else 1;
      var (u, r) := s.CompareExchange(device, expected, next);
      var (v, reply) := CasOn(s, device, expected, next, Succeeds(revision));
      Increasing(s, device, Succeeds(revision)) && r == Ok(reply) && u.journals == v.journals
  {
  }
}

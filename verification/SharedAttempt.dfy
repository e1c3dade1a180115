/** A run in which two instances of one device hold the same live attempt
  * (src/leaf/store/persistent.rs): both load the one stored record, both reserve, and the
  * loser of the journal write reconciles.
  */
module SharedAttempt {
  import opened Results
  import opened Ids
  import opened Encoding
  import opened Material
  import opened LeafInvariant
  import opened LeafRuns
  import opened Record
  import opened Store
  import opened Persistent
  import opened PersistentRuns
  import opened PersistentMaterial
  import opened PersistentSystem
  import opened Holders
  import opened StrandedMaterial

  const EMPTY := System(StoreState(map[], map[]), [], [])

  /** The material of the device of both vaults. */
  function BothBytes(): bytes { MaterialFormat().encode(Both()) }

  /** What creating the record leaves in the store. */
  function Stored(): StoreState {
    hide BothBytes;
    var id := MATERIAL_HASH(BothBytes());
    StoreState(map[id := BothBytes()], map[1 := StoredJournal(1, LeafJournal(1, id, 0, None))])
  }

  /** Each of the two loaded instances. */
  function Loaded(): Durable { Durable(1, Some(Both()), MATERIAL_HASH(BothBytes()), 1, None) }

  const SHARED := LeafAttempt(1, 0)

  /** The store after the first reservation. */
  function Moved(): StoreState {
    hide BothBytes, Stored;
    Stored().WithJournal(1, 2, LeafJournal(1, MATERIAL_HASH(BothBytes()), 1, Some(SHARED)))
  }

  function Creating(): Event { CreateEvent(Both(), PutSucceeds, Succeeds(1)) }
  function Loading(): Event { LoadEvent(1, Stored(), false, false, Succeeds(2)) }

  function Reserving(leaf: nat, revision: U64): Event {
    InvokeEvent(leaf, ReserveFirst(), PutSucceeds, Succeeds(revision))
  }

  function Reconciling(): Event { ReconcileEvent(2, Moved(), false, PutSucceeds, Succeeds(3)) }

  /** One instance creates the record, two load it, both reserve, and the second, whose
    * write conflicted, reconciles.
    */
  function Setup(): seq<Event> { [Creating()] + [Loading()] + [Loading()] }
  function Run(): seq<Event> {
    hide Setup, Reserving;
    Setup() + [Reserving(1, 2)] + [Reserving(2, 3)]
  }

  lemma {:induction false} FirstFits()
    ensures Fits(First())
  {
    hide Fits;
    StartFits(1);
    Added();
  }

  lemma {:induction false} BothInstalled()
    ensures Installed(Both()) && MaterialCounts(Both()) && EncodeMaterial(Both()) == Ok(BothBytes())
    ensures MaterialFormat().decode(BothBytes()) == Ok(Both())
  {
    hide MaterialFormat, Fits, GenesisFits, LeafRuns.Apply;
    FirstFits();
    StartFits(2);
    Added();
    AddVaultFits(First(), Start(2), StartEpoch(2));
    assert First().AddVault(Start(2), StartEpoch(2)).0 == Both();
    assert MaterialCounts(Both());
    MaterialRoundTrip(Both(), BothBytes());
  }

  lemma {:induction false} Creates()
    ensures Durable.Create(EMPTY.store, Both(), PutSucceeds, Succeeds(1)) == (Stored(), Done(Loaded()))
  {
    hide MaterialFormat, MaterialCounts, Fits, Installed, EncodeMaterial;
    BothInstalled();
  }

  lemma {:induction false} LoadsAgain()
    ensures Durable.LoadAt(Stored(), Stored(), 1, false, false, Succeeds(2)) == (Stored(), Done(Some(Loaded())))
  {
    hide MaterialFormat, MaterialCounts, Fits, Installed, EncodeMaterial;
    BothInstalled();
  }

  lemma {:induction false} AfterStep(events: seq<Event>, e: Event)
    ensures After(EMPTY, events + [e]) == Step(After(EMPTY, events), e)
    ensures AllPossible(EMPTY, events + [e]) <==> AllPossible(EMPTY, events) && Possible(After(EMPTY, events), e)
  {
    hide Step, Possible;
    assert (events + [e])[..|events|] == events;
  }

  lemma {:induction false} CreateStep()
    ensures Step(EMPTY, Creating()) == System(Stored(), [Loaded()], []) && Possible(EMPTY, Creating())
  {
    hide Durable.Create, Durable.LoadAt, Durable.Invoke, Durable.ReconcileAt, Both, Loaded, Stored;
    Creates();
  }

  lemma {:induction false} LoadStep(leaves: seq<Durable>)
    ensures Step(System(Stored(), leaves, []), Loading()) == System(Stored(), leaves + [Loaded()], [])
    ensures Possible(System(Stored(), leaves, []), Loading())
  {
    hide Durable.Create, Durable.LoadAt, Durable.Invoke, Durable.ReconcileAt, Both, Loaded, BothBytes;
    LoadsAgain();
  }

  lemma {:induction false} SetsUp()
    ensures AllPossible(EMPTY, Setup())
    ensures After(EMPTY, Setup()) == System(Stored(), [Loaded()] + [Loaded()] + [Loaded()], [])
  {
    hide Step, Possible, Loaded, Stored, Loading, Creating;
    assert [] + [Creating()] == [Creating()];
    assert [Loaded()] + [Loaded()] + [Loaded()] == [] + [Loaded()] + [Loaded()] + [Loaded()];
    CreateStep();
    AfterStep([], Creating());
    LoadStep([Loaded()]);
    AfterStep([Creating()], Loading());
    LoadStep([Loaded()] + [Loaded()]);
    AfterStep([Creating()] + [Loading()], Loading());
  }

  /** The leaf and store of the first reservation, and the leaf of the second. */
  function FirstCall(): (Durable, StoreState, PersistResult<Output>) {
    hide Durable.Invoke, ReserveFirst, Loaded, Stored;
    Loaded().Invoke(Stored(), ReserveFirst(), PutSucceeds, Succeeds(2))
  }

  function SecondCall(): (Durable, StoreState, PersistResult<Output>) {
    hide Durable.Invoke, ReserveFirst, Loaded, Moved;
    Loaded().Invoke(Moved(), ReserveFirst(), PutSucceeds, Succeeds(3))
  }

  function Settled(): (Durable, StoreState, PersistResult<()>) {
    hide Durable.ReconcileAt, SecondCall, Moved;
    SecondCall().0.ReconcileAt(Moved(), Moved(), false, PutSucceeds, Succeeds(3))
  }

  lemma {:induction false} KnowsStored()
    ensures Knows(Loaded(), Stored()) && Stored().journals[1].revision == 1
    ensures Moved() == Stored().WithJournal(1, 2, LeafJournal(1, Loaded().material, 1, Some(SHARED)))
  {
    hide BothBytes;
  }

  lemma {:induction false} IdleBoth()
    ensures Both().live.None? && Both().nextSequence == 0 && Both().device == 1 && ReserveFirst().ReserveCall?
  {}

  lemma {:induction false} Calls()
    ensures FirstCall().1 == Moved() == SecondCall().1 == Settled().1
    ensures Holds(FirstCall().0, SHARED) && Holds(Settled().0, SHARED)
    ensures Awaits(SecondCall().0, SHARED) && Adopts(SecondCall().0, Moved(), false)
  {
    hide ReserveFirst, LeafRuns.Apply, Durable.Invoke, Durable.ReconcileAt, BothBytes, Both, Stored, Moved, Holds,
      Awaits, Adopts, Knows, StrandedMaterial.Waiting;
    Reserved();
    KnowsStored();
    IdleBoth();
    BothReserve(Loaded(), Stored(), ReserveFirst(), ReserveFirst(), 2, 3);
  }

  lemma {:induction false} InvokeStep(s: StoreState, leaves: seq<Durable>, k: nat, c: Call, revision: U64)
    requires k < |leaves| && !c.RespondCall? && Increasing(s, leaves[k].device, Succeeds(revision))
    ensures var (d, t, _) := leaves[k].Invoke(s, c, PutSucceeds, Succeeds(revision));
      var e := InvokeEvent(k, c, PutSucceeds, Succeeds(revision));
      && Step(System(s, leaves, []), e) == System(t, leaves[k := d], []) && Possible(System(s, leaves, []), e)
  {
    hide Durable.Create, Durable.LoadAt, Durable.Invoke, Durable.ReconcileAt, Increasing;
  }

  lemma {:induction false} ReconcileStep(s: StoreState, leaves: seq<Durable>, k: nat, revision: U64)
    requires k < |leaves| && Increasing(s, leaves[k].device, Succeeds(revision)) && leaves[k].device in s.journals
    ensures var (d, t, _) := leaves[k].ReconcileAt(s, s, false, PutSucceeds, Succeeds(revision));
      var e := ReconcileEvent(k, s, false, PutSucceeds, Succeeds(revision));
      && Step(System(s, leaves, []), e) == System(t, leaves[k := d], []) && Possible(System(s, leaves, []), e)
  {
    hide Durable.Create, Durable.LoadAt, Durable.Invoke, Durable.ReconcileAt, Increasing;
  }

  lemma {:induction false} InvokeDevice(d: Durable, s: StoreState, c: Call, revision: U64)
    requires Knows(d, s) && d.registry.Some? && c.ReserveCall?
    ensures d.Invoke(s, c, PutSucceeds, Succeeds(revision)).0.device == d.device
  {
    hide LeafRuns.Apply, LeafJournal.Of, EncodeMaterial;
  }

  lemma {:induction false} KnowsMoved()
    ensures Knows(Loaded(), Moved())
  {
    hide BothBytes;
  }

  lemma {:induction false} Revisions()
    ensures Loaded().device == 1 && Loaded().registry.Some? && 1 in Stored().journals && 1 in Moved().journals
    ensures Increasing(Stored(), 1, Succeeds(2)) && Increasing(Moved(), 1, Succeeds(3))
  {
    hide BothBytes, Both;
  }

  lemma {:induction false} Devices()
    ensures FirstCall().0.device == 1 && SecondCall().0.device == 1
  {
    hide LeafRuns.Apply, Both, BothBytes, ReserveFirst, Durable.Invoke, Knows, Moved, Stored, Loaded;
    KnowsStored();
    KnowsMoved();
    Revisions();
    IdleBoth();
    InvokeDevice(Loaded(), Stored(), ReserveFirst(), 2);
    InvokeDevice(Loaded(), Moved(), ReserveFirst(), 3);
  }

  lemma {:induction false} ReservesTwice()
    ensures AllPossible(EMPTY, Run())
    ensures After(EMPTY, Run()) == System(Moved(), [Loaded(), FirstCall().0, SecondCall().0], [])
  {
    hide Step, Possible, Loaded, Stored, Moved, Setup, ReserveFirst, Holds, Awaits, Adopts, Increasing, Settled,
      Durable.Invoke, Durable.ReconcileAt;
    var three := [Loaded()] + [Loaded()] + [Loaded()];
    SetsUp();
    Calls();
    Revisions();
    Devices();
    IdleBoth();
    InvokeStep(Stored(), three, 1, ReserveFirst(), 2);
    AfterStep(Setup(), Reserving(1, 2));
    InvokeStep(Moved(), three[1 := FirstCall().0], 2, ReserveFirst(), 3);
    AfterStep(Setup() + [Reserving(1, 2)], Reserving(2, 3));
    assert three[1 := FirstCall().0][2 := SecondCall().0] == [Loaded(), FirstCall().0, SecondCall().0];
  }

  lemma {:induction false} HonestSetup()
    ensures HonestEvent(Creating()) && HonestEvent(Loading()) && HonestEvent(Reconciling())
  {
    hide Both, Honest, Installed, Stored, Moved, BothBytes, EncodeMaterial, MaterialFormat, MaterialCounts;
    BothInstalled();
    assert Loading().LoadEvent? && Reconciling().ReconcileEvent?
      && Creating() == CreateEvent(Both(), PutSucceeds, Succeeds(1));
  }

  lemma {:induction false} HonestReserving(leaf: nat, revision: U64)
    ensures HonestEvent(Reserving(leaf, revision))
  {
    hide ReserveFirst, Honest, LeafRuns.Apply, Both, StrandedMaterial.Waiting;
    Reserved();
  }

  lemma {:induction false} HonestRun()
    ensures forall e :: e in Run() + [Reconciling()] ==> HonestEvent(e)
  {
    hide Creating, Loading, Reserving, Reconciling, HonestEvent;
    HonestSetup();
    HonestReserving(1, 2);
    HonestReserving(2, 3);
  }

  lemma {:induction false} LastStep()
    ensures Step(After(EMPTY, Run()), Reconciling()) == System(Moved(), [Loaded(), FirstCall().0, Settled().0], [])
    ensures Possible(After(EMPTY, Run()), Reconciling())
  {
    hide Step, Possible, Loaded, Stored, Moved, Run, Holds, Awaits, Adopts, Increasing, FirstCall, SecondCall, After;
    ReservesTwice();
    Calls();
    Revisions();
    Devices();
    var leaves := [Loaded(), FirstCall().0, SecondCall().0];
    ReconcileStep(Moved(), leaves, 2, 3);
    assert leaves[2 := Settled().0] == [Loaded(), FirstCall().0, Settled().0];
  }

  lemma {:induction false} LastAdopts()
    ensures AdoptsHeld(After(EMPTY, Run()), Reconciling())
  {
    hide Loaded, Moved, Run, Holds, Awaits, Adopts, FirstCall, SecondCall, After;
    ReservesTwice();
    Calls();
    var s := After(EMPTY, Run());
    assert Awaits(s.leaves[2], SHARED) && Holds(s.leaves[1], SHARED);
  }

  /** Two of three instances hold the attempt. */
  predicate Shared(s: System) { |s.leaves| == 3 && Holds(s.leaves[1], SHARED) && Holds(s.leaves[2], SHARED) }

  /** A possible run with library inputs only, at whose end two of three instances hold
    * one attempt: the last event takes the journal of an attempt already held.
    */
  lemma {:induction false} TwoHolders()
    ensures AllPossible(EMPTY, Run() + [Reconciling()]) && Shared(After(EMPTY, Run() + [Reconciling()]))
    ensures AdoptsHeld(After(EMPTY, Run()), Reconciling())
    ensures forall e :: e in Run() + [Reconciling()] ==> HonestEvent(e)
  {
    hide Step, Possible, Loaded, Stored, Moved, Run, Reconciling, Holds, Awaits, Adopts, FirstCall, SecondCall, Settled,
      HonestEvent, AdoptsHeld;
    HonestRun();
    LastStep();
    LastAdopts();
    Calls();
    ReservesTwice();
    AfterStep(Run(), Reconciling());
  }
}

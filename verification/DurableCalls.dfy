/** The leaf's calls as operations of the durable wrapper
  * (src/leaf/store/persistent.rs, src/leaf.rs).
  */
module DurableCalls {
  import opened Results
  import opened Field
  import opened Ids
  import opened Sorting
  import opened Genesis
  import opened Transcript
  import opened Auth
  import opened Leaf
  import opened Material
  import opened LeafInvariant
  import opened LeafLive
  import opened Shape
  import opened Contribution
  import opened Target
  import opened LeafRuns
  import opened Record
  import opened Store
  import opened Persistent
  import opened PersistentRuns
  import opened PersistentMaterial
  import opened SoleWriter

  lemma {:induction false} AttemptCallsInstallNothing(r: Registry, c: Call)
    requires !InstallsMaterial(c)
    ensures OnlyAttempt(r, LeafRuns.Apply(r, c).0)
  {
    hide NonceCommitment, View.New, Auth.ViewBytes, Wrap, Registry.ValidateReservation, Registry.CheckReveal;
    hide Registry.CheckFix, Registry.Inputs, Registry.IsClosed, Registry.VaultFrom, Registry.CheckInner,
      Registry.CheckOuter;
  }

  /** What an installing call does to the live attempt and the vaults. */
  lemma {:induction false} InstallingCalls(r: Registry, c: Call)
    requires InstallsMaterial(c)
    ensures var (u, o) := LeafRuns.Apply(r, c);
      && (o.Err? ==> u == r) && r.vaults.Keys <= u.vaults.Keys
      && (o.Ok? ==>
        u.live == if c.ActivateOuterCall? && r.live.Some? && r.live.value.vault != c.epoch.anchor.vault then r.live
          else None)
  {
    hide Registry.VaultFrom, Registry.CheckInner, Registry.CheckOuter, Registry.VaultOrder, Registry.CheckGenesisEpoch;
    if c.ActivateInnerCall? && r.CheckInner(c.identityShare, c.members).Ok? {
      InnerLengths(r, c.identityShare, c.members);
      var (nextMap, next, sorted, maps) := r.CheckInner(c.identityShare, c.members).value;
      assert r.ActivateInnerBundle(c.identityShare, c.members).0.vaults == Registry.InstallMembers(
        r.vaults, r.VaultOrder(), sorted, maps, c.identityShare.share, c.identityShare.handle);
    }
  }

  /** Only an outer activation leaves another vault's attempt live, and the durable leaf
    * cannot write material then; a count over four bytes is the only other reason.
    */
  lemma {:induction false} UnwritableIff(r: Registry, c: Call)
    ensures Unwritable(r, Running(c), InstallsMaterial(c)) <==>
      && LeafRuns.Apply(r, c).1.Ok? && InstallsMaterial(c)
      && (|| (c.ActivateOuterCall? && r.live.Some? && r.live.value.vault != c.epoch.anchor.vault)
          || !MaterialCounts(LeafRuns.Apply(r, c).0))
    ensures Unwritable(r, Running(c), InstallsMaterial(c)) && MaterialCounts(LeafRuns.Apply(r, c).0) ==>
      EncodeMaterial(LeafRuns.Apply(r, c).0) == Err(Busy)
  {
    hide LeafRuns.Apply, MaterialCounts, MaterialFormat;
    if InstallsMaterial(c) { InstallingCalls(r, c); }
  }

  /** The four-byte counts that an installing call's inputs must fit. */
  predicate InputCounts(r: Registry, c: Call) {
    match c
    case AddVaultCall(genesis, _) =>
      && |r.vaults| + 1 < U32_LIMIT && |genesis.memberMap.commitments| < U32_LIMIT
      && |genesis.outerMap.commitments| < U32_LIMIT && |genesis.outerMap.people| < U32_LIMIT
    case ActivateInnerCall(identityShare, _) =>
      identityShare.shape.OneSharing? ==> |identityShare.shape.single.devices| < U32_LIMIT
    case ActivateOuterCall(_, member) => member.shape.TwoTier? ==> |member.shape.outer.people| < U32_LIMIT
    case _ => true
  }

  lemma {:induction false} EvaluatedDevices(shape: SingleShape, points: ContributionPoints, devices: seq<TargetDevice>)
    ensures var r := EvaluateDevices(shape, points, devices); r.Ok? ==> |r.value| == |devices|
  {
    hide ContributionPoints.Evaluate;
    if devices != [] { EvaluatedDevices(shape, points, devices[..|devices| - 1]); }
  }

  lemma {:induction false} OuterPeopleCount(people: seq<OuterTarget>, members: seq<MemberPoints>)
    requires |people| == |members|
    ensures var r := OuterPeopleOf(people, members);
      r.Ok? ==> |r.value| == |people| && forall m :: m in members ==> |m.points| < U16_LIMIT
  {
    if people != [] {
      var n := |people| - 1;
      OuterPeopleCount(people[..n], members[..n]);
      assert members == members[..n] + [members[n]];
    }
  }

  lemma {:induction false} NextMapsCount(members: seq<MemberShare>, shape: SingleShape)
    ensures var r := Registry.NextMaps(members, shape);
      r.Ok? ==> forall m :: m in r.value ==> |m.commitments| < U16_LIMIT
  {
    if members != [] { NextMapsCount(members[..|members| - 1], shape); }
  }

  lemma {:induction false} InnerChecked(r: Registry, identityShare: InstalledShare, members: seq<MemberShare>)
    requires r.CheckInner(identityShare, members).Ok?
    ensures identityShare.shape.OneSharing?
    ensures var t := r.CheckInner(identityShare, members).value;
      && |t.0.commitments| < U16_LIMIT && |t.0.devices| == |identityShare.shape.single.devices|
      && forall m :: m in t.3 ==> |m.commitments| < U16_LIMIT
  {
    hide EvaluateDevices, Registry.CheckMembers, Registry.NextMaps, Sort, Registry.VaultOrder, SingleShape.Device;
    if identityShare.shape.OneSharing? {
      var shape := identityShare.shape.single;
      EvaluatedDevices(shape, identityShare.points, shape.devices);
      NextMapsCount(Sort(members, MemberVaultKey), shape);
    }
  }

  lemma {:induction false} InstalledCounts(vaults: map<VaultId, VaultState>, order: seq<VaultId>,
      members: seq<MemberShare>, maps: seq<MemberMap>, identity: Scalar, handle: Handle)
    requires |order| == |members| == |maps| && forall v :: v in order ==> v in vaults
    requires forall v :: v in vaults ==> VaultCounts(vaults[v])
    requires forall m :: m in maps ==> |m.commitments| < U16_LIMIT
    ensures var us := Registry.InstallMembers(vaults, order, members, maps, identity, handle);
      us.Keys == vaults.Keys && forall v :: v in us ==> VaultCounts(us[v])
  {
    hide Find, AnchorShare;
  }

  lemma {:induction false} InnerCounts(r: Registry, identityShare: InstalledShare, members: seq<MemberShare>)
    requires MaterialCounts(r) && r.ActivateInnerBundle(identityShare, members).1.Ok?
    ensures identityShare.shape.OneSharing?
    ensures MaterialCounts(r.ActivateInnerBundle(identityShare, members).0) <==>
      |identityShare.shape.single.devices| < U32_LIMIT
  {
    hide Registry.CheckInner, Registry.InstallMembers, Registry.VaultOrder, VaultCounts;
    InnerChecked(r, identityShare, members);
    InnerLengths(r, identityShare, members);
    var t := r.CheckInner(identityShare, members).value;
    InstalledCounts(r.vaults, r.VaultOrder(), t.2, t.3, identityShare.share, identityShare.handle);
    assert r.ActivateInnerBundle(identityShare, members).0.vaults == Registry.InstallMembers(
      r.vaults, r.VaultOrder(), t.2, t.3, identityShare.share, identityShare.handle);
    assert |r.ActivateInnerBundle(identityShare, members).0.vaults.Keys| == |r.vaults.Keys|;
  }

  lemma {:induction false} OuterCounts(r: Registry, epoch: KeyEpoch, member: InstalledShare)
    requires MaterialCounts(r) && r.ActivateOuter(epoch, member).1.Ok?
    ensures member.shape.TwoTier?
    ensures MaterialCounts(r.ActivateOuter(epoch, member).0) <==> |member.shape.outer.people| < U32_LIMIT
  {
    hide OuterPeopleOf, SameRoster, Find, OuterShape.Person, ContributionPoints.MemberConstant, AnchorShare;
    var shape := member.shape.outer;
    if |member.points.members| == |shape.people| { OuterPeopleCount(shape.people, member.points.members); }
    var v, u := epoch.anchor.vault, r.ActivateOuter(epoch, member).0;
    assert u.vaults.Keys == r.vaults.Keys;
    assert forall w :: w in r.vaults ==> VaultCounts(r.vaults[w]);
    assert VaultCounts(u.vaults[v]) <==> |shape.people| < U32_LIMIT;
  }

  lemma {:induction false} AddCounts(r: Registry, genesis: DeviceGenesis, epoch: KeyEpoch)
    requires MaterialCounts(r) && r.AddVault(genesis, epoch).1.Ok?
    ensures MaterialCounts(r.AddVault(genesis, epoch).0) <==> InputCounts(r, AddVaultCall(genesis, epoch))
  {
    var u := r.AddVault(genesis, epoch).0;
    assert u.vaults.Keys == r.vaults.Keys + {genesis.vault};
    assert forall w :: w in r.vaults ==> VaultCounts(r.vaults[w]) && u.vaults[w] == r.vaults[w];
    assert VaultCounts(u.vaults[genesis.vault]) <==> VaultCounts(Registry.VaultFrom(genesis, epoch));
  }

  /** The same condition by what a caller sees before the call, from material that fits. */
  lemma {:induction false} UnwritableByInputs(r: Registry, c: Call)
    requires MaterialCounts(r)
    ensures Unwritable(r, Running(c), InstallsMaterial(c)) <==>
      && LeafRuns.Apply(r, c).1.Ok? && InstallsMaterial(c)
      && ((c.ActivateOuterCall? && r.live.Some? && r.live.value.vault != c.epoch.anchor.vault) || !InputCounts(r, c))
  {
    hide MaterialCounts, InputCounts, Registry.AddVault, Registry.ActivateInnerBundle, Registry.ActivateOuter,
      Unwritable;
    UnwritableIff(r, c);
    if InstallsMaterial(c) && LeafRuns.Apply(r, c).1.Ok? { CallCounts(r, c); }
  }

  lemma {:induction false} CallCounts(r: Registry, c: Call)
    requires MaterialCounts(r) && InstallsMaterial(c) && LeafRuns.Apply(r, c).1.Ok?
    ensures MaterialCounts(LeafRuns.Apply(r, c).0) <==> InputCounts(r, c)
  {
    hide MaterialCounts, Registry.AddVault, Registry.ActivateInnerBundle, Registry.ActivateOuter;
    match c
    case AddVaultCall(genesis, epoch) => AddCounts(r, genesis, epoch);
    case ActivateInnerCall(identityShare, members) => InnerCounts(r, identityShare, members);
    case ActivateOuterCall(epoch, member) => OuterCounts(r, epoch, member);
  }

  /** The material of a durable leaf fits. */
  lemma {:induction false} KeptCounts(d: Durable)
    requires Kept(d) && d.registry.Some?
    ensures MaterialCounts(d.registry.value)
  {
    hide MaterialFormat, Installed;
  }

  lemma {:induction false} CallLawful(d: Durable, c: Call)
    requires Honest(c)
    ensures Lawful(d, Running(c), InstallsMaterial(c))
  {
    hide LeafRuns.Apply, Fits, Honest;
    if d.registry.Some? && Installed(d.registry.value) {
      var r := d.registry.value;
      if InstallsMaterial(c) {
        InstallingCalls(r, c);
        InstallingFits(r, c);
        if v :| v in r.vaults { assert v in LeafRuns.Apply(r, c).0.vaults; }
      } else {
        AttemptCallsInstallNothing(r, c);
        SameInstalled(r, LeafRuns.Apply(r, c).0);
      }
    }
  }

  lemma {:induction false} InstallingFits(r: Registry, c: Call)
    requires InstallsMaterial(c) && Honest(c) && Fits(r)
    ensures Fits(LeafRuns.Apply(r, c).0)
  {
    hide Fits, SoundShare, GenesisFits, Registry.AddVault, Registry.ActivateInnerBundle, Registry.ActivateOuter, Wrap;
    match c
    case AddVaultCall(genesis, epoch) => AddVaultFits(r, genesis, epoch);
    case ActivateInnerCall(identityShare, members) => ActivateInnerFits(r, identityShare, members);
    case ActivateOuterCall(epoch, member) => ActivateOuterFits(r, epoch, member);
  }

  lemma {:induction false} CallMoves(d: Durable, c: Call)
    ensures Moves(d, Running(c))
    ensures c.RespondCall? && d.registry.Some? && Numbered(d.registry.value) ==> Closes(d, Running(c), c.attempt)
  {
    hide LeafRuns.Apply, Progresses, Registry.IsClosed;
    if d.registry.Some? {
      CallProgresses(d.registry.value, c);
      if c.RespondCall? && Numbered(d.registry.value) && LeafRuns.Apply(d.registry.value, c).1.Ok? {
        RespondOutcome(d.registry.value, c);
      }
    }
  }

  lemma {:induction false} RespondOutcome(r: Registry, c: Call)
    requires c.RespondCall? && Numbered(r) && LeafRuns.Apply(r, c).1.Ok?
    ensures r.live.Some? && r.live.value.attempt == c.attempt
    ensures LeafRuns.Apply(r, c).0.IsClosed(c.attempt)
  {
    hide Registry.RespondWith, Registry.IsClosed;
    RespondingCloses(r, c.attempt, c.mode, c.respond);
  }

  lemma {:induction false} InvokeSettles(d: Durable, s: StoreState, c: Call, put: PutOutcome, cas: CasOutcome)
    requires Knows(d, s) && Sound(s) && Increasing(s, d.device, cas)
    ensures var (e, t, _) := d.Invoke(s, c, put, cas); Settles(d, s, e, t)
  {
    hide Durable.Transition, Durable.MaterialTransition, Settles, Knows, Sound, Increasing, Moves, Running;
    CallMoves(d, c);
    TransitionSettles(d, s, Running(c), cas);
    MaterialSettles(d, s, Running(c), put, cas);
  }

  lemma {:induction false} InvokeLoads(d: Durable, s: StoreState, c: Call, put: PutOutcome, cas: CasOutcome)
    requires Knows(d, s) && Kept(d) && Loads(s) && Honest(c)
    ensures var (e, t, _) := d.Invoke(s, c, put, cas); Loads(t) && Kept(e)
  {
    hide Knows, Kept, Loads, Honest, Durable.Transition, Durable.MaterialTransition, Lawful, Moves, Running;
    CallMoves(d, c);
    CallLawful(d, c);
    if InstallsMaterial(c) {
      MaterialLoads(d, s, Running(c), put, cas);
    } else {
      TransitionLoads(d, s, Running(c), cas);
    }
  }

  // ----- a sole writer over a whole run

  datatype Step =
    | CallStep(call: Call, put: PutOutcome, cas: CasOutcome)
    | ReconcileStep(readFails: bool, put: PutOutcome, cas: CasOutcome)

  /** A leaf, its store, and the calls that reached the registry. */
  datatype Solo = Solo(leaf: Durable, store: StoreState, executed: seq<Call>)
  {
    function Next(e: Step): Solo {
      match e
      case CallStep(call, put, cas) =>
        var (d, t, _) := leaf.Invoke(store, call, put, cas);
        Solo(d, t, if leaf.registry.Some? && leaf.pending.None? then executed + [call] else executed)
      case ReconcileStep(readFails, put, cas) =>
        var (d, t, _) := leaf.Reconcile(store, readFails, put, cas);
        Solo(d, t, executed)
    }

    function After(steps: seq<Step>): Solo {
      if steps == [] then this else After(steps[..|steps| - 1]).Next(steps[|steps| - 1])
    }

    ghost predicate Admits(steps: seq<Step>) {
      steps == [] || (
        && Admits(steps[..|steps| - 1])
        && Alone(After(steps[..|steps| - 1]).store, leaf.device, steps[|steps| - 1].cas)
        && (steps[|steps| - 1].CallStep? ==> Honest(steps[|steps| - 1].call)))
    }
  }

  /** The durable leaf is the in-memory leaf after the executed calls, each run once. */
  ghost predicate Refines(start: Registry, device: DeviceId, x: Solo) {
    && x.leaf.device == device && Sound(x.store) && Loads(x.store)
    && if x.leaf.registry.Some? then Sole(x.leaf, x.store) && x.leaf.registry.value == RunFrom(start, x.executed)
       else
         && x.leaf.pending.None? && x.executed != []
         && var n, c := |x.executed| - 1, x.executed[|x.executed| - 1];
         Unwritable(RunFrom(start, x.executed[..n]), Running(c), InstallsMaterial(c))
  }

  lemma {:induction false} CallRefines(start: Registry, device: DeviceId, x: Solo, c: Call, put: PutOutcome,
      cas: CasOutcome)
    requires Refines(start, device, x) && x.leaf.registry.Some? && Alone(x.store, device, cas) && Honest(c)
    ensures Refines(start, device, x.Next(CallStep(c, put, cas)))
  {
    hide Loads, Sound, Honest, Increasing, LeafRuns.Apply, Kept, Knows, Moves, Durable.Transition,
      Durable.MaterialTransition;
    hide EncodeMaterial, LeafJournal.Of;
    var d := x.leaf;
    InvokeLoads(d, x.store, c, put, cas);
    InvokeSettles(d, x.store, c, put, cas);
    Known(d, x.store);
    if d.pending.Some? {
      PendingIgnores(d, x.store, c, put, cas);
    } else {
      assert (x.executed + [c])[..|x.executed|] == x.executed;
      CallMoves(d, c);
      PerformMirrors(d, x.store, Running(c), InstallsMaterial(c), put, cas);
    }
  }

  lemma {:induction false} PendingIgnores(d: Durable, s: StoreState, c: Call, put: PutOutcome, cas: CasOutcome)
    requires d.pending.Some? || d.registry.None?
    ensures d.Invoke(s, c, put, cas).0 == d && d.Invoke(s, c, put, cas).1 == s
  {
    hide LeafRuns.Apply, Durable.Recorded, Durable.Persist, EncodeMaterial;
  }

  lemma {:induction false} StepRefines(start: Registry, device: DeviceId, x: Solo, e: Step)
    requires Refines(start, device, x) && Alone(x.store, device, e.cas) && (e.CallStep? ==> Honest(e.call))
    ensures Refines(start, device, x.Next(e))
  {
    hide Loads, Sound, Honest, Alone, Durable.Invoke, Durable.ReconcileAt, Unwritable, LeafRuns.Apply, Kept, Knows,
      Settled;
    match e
    case CallStep(call, put, cas) =>
      if x.leaf.registry.None? { PendingIgnores(x.leaf, x.store, call, put, cas); }
      else { CallRefines(start, device, x, call, put, cas); }
    case ReconcileStep(readFails, put, cas) =>
      if x.leaf.registry.Some? {
        ReconcileNeverConflicts(x.leaf, x.store, readFails, put, cas);
        ReconcileLoads(x.leaf, x.store, x.store, readFails, put, cas);
        AloneIncreases(x.store, device, cas);
        ReconcileSettles(x.leaf, x.store, x.store, readFails, put, cas);
      } else {
        GoneIgnores(x.leaf, x.store, readFails, put, cas);
      }
  }

  lemma {:induction false} AloneIncreases(s: StoreState, device: DeviceId, cas: CasOutcome)
    requires Alone(s, device, cas)
    ensures Increasing(s, device, cas)
  {}

  lemma {:induction false} GoneIgnores(d: Durable, s: StoreState, readFails: bool, put: PutOutcome, cas: CasOutcome)
    requires d.pending.None?
    ensures d.Reconcile(s, readFails, put, cas).0 == d && d.Reconcile(s, readFails, put, cas).1 == s
  {
    hide EncodeMaterial;
  }

  /** Over any run of calls and reconciliations with any store failures, the durable leaf
    * is the in-memory leaf run on the executed calls, unless the last of these was
    * unwritable.
    */
  lemma {:induction false} SoloRunRefines(start: Registry, x: Solo, steps: seq<Step>)
    requires Refines(start, x.leaf.device, x) && x.Admits(steps)
    ensures Refines(start, x.leaf.device, x.After(steps))
  {
    hide Refines, Solo.Next, Alone, Honest;
    if steps != [] {
      var n := |steps| - 1;
      SoloRunRefines(start, x, steps[..n]);
      StepRefines(start, x.leaf.device, x.After(steps[..n]), steps[n]);
    }
  }

  /** A leaf created on a store without its journal starts such a run. */
  lemma {:induction false} CreatedRefines(s: StoreState, r: Registry, put: PutOutcome, cas: CasOutcome)
    requires Sound(s) && Loads(s) && Alone(s, r.device, cas) && Installed(r)
    requires Durable.Create(s, r, put, cas).1.Done?
    ensures var (t, o) := Durable.Create(s, r, put, cas); Refines(r, r.device, Solo(o.value, t, []))
  {
    hide EncodeMaterial, Knows, Kept, Loads, Sound, Fits, Increasing, PutOn, LeafJournal.Of;
    CreateSettles(s, r, put, cas);
    CreateLoads(s, r, put, cas);
  }
}

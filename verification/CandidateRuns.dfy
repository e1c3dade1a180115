/** Runs of candidate drivers over one shared log (src/dealing/candidate.rs,
  * src/log_act.rs): view agreement, complete transcripts and stable terminals.
  */
module CandidateRuns {
  import opened Results
  import opened Field
  import opened Ids
  import opened Encoding
  import opened Shape
  import opened Contribution
  import opened DealEncoding
  import opened Target
  import opened LogAct
  import opened LogHistory
  import opened Candidates
  import opened CandidateSystem

  // ----- driver calls and log calls

  datatype Action =
    | CommitAction(role: RoleId, commitment: Scalar)
    | CloseCommitmentsAction
    | OpenAction(opening: Opening)
    | CloseOpeningsAction
    | ReceiptAction(receipt: TargetReceipt)
    | ActivateAction
    | AbortAction

  /** One call on a driver. An activation whose handle search never ends leaves none. */
  ghost function Drive(d: Driver, a: Action, log: LogState): (Driver, LogState) {
    match a
    case CommitAction(role, commitment) => var s := d.Commit(role, commitment, log); (s.driver, s.log)
    case CloseCommitmentsAction => var s := d.CloseCommitments(log); (s.driver, s.log)
    case OpenAction(opening) => var s := d.Open(opening, log); (s.driver, s.log)
    case CloseOpeningsAction => var s := d.CloseOpenings(log); (s.driver, s.log)
    case ReceiptAction(receipt) => var s := d.Receipt(receipt, log); (s.driver, s.log)
    case ActivateAction => if HasFresh(log.handles) then var s := d.Activate(log); (s.driver, s.log) else (d, log)
    case AbortAction => var s := d.Abort(log); (s.driver, s.log)
  }

  lemma {:induction false} DriveKeeps(d: Driver, a: Action, log: LogState)
    requires Knows(d, log)
    ensures var (e, after) := Drive(d, a, log); Kept(d, log, e, after)
  {
    hide Driver.Commit, Driver.CloseCommitments, Driver.Open, Driver.CloseOpenings, Driver.Receipt, Driver.Activate,
      Driver.Abort, Knows, Kept, HasFresh;
    match a
    case CommitAction(role, commitment) => CommitKeeps(d, log, role, commitment);
    case CloseCommitmentsAction => CloseCommitmentsKeeps(d, log);
    case OpenAction(opening) => OpenKeeps(d, log, opening);
    case CloseOpeningsAction => CloseOpeningsKeeps(d, log);
    case ReceiptAction(receipt) => ReceiptKeeps(d, log, receipt);
    case ActivateAction => if HasFresh(log.handles) { ActivateKeeps(d, log); } else { NothingKept(d, log); }
    case AbortAction => AbortKeeps(d, log);
  }

  /** Only the given transcript changes, and it is activated only when all its phases
    * are closed.
    */
  ghost predicate Only(log: LogState, after: LogState, id: CommandId) {
    && after.transcripts.Keys == log.transcripts.Keys
    && (forall c :: c in log.transcripts && c != id ==> after.transcripts[c] == log.transcripts[c])
    && (id in log.transcripts && ClosedIfActivated(log.transcripts[id]) ==> ClosedIfActivated(after.transcripts[id]))
  }

  predicate ClosedIfActivated(t: Transcript) { IsActivated(t) ==> t.next.None? }

  lemma {:induction false} AbortOnly(log: LogState, id: CommandId)
    ensures Only(log, log.Abort(id).0, id) && Only(log, log, id)
  {}

  lemma {:induction false} PostOnly(log: LogState, id: CommandId, phase: Phase, role: bytes, payload: bytes)
    ensures var (after, r) := log.Post(id, phase, role, payload); Only(log, after, id) && (r.Err? ==> after == log)
  {}

  lemma {:induction false} CloseOnly(log: LogState, id: CommandId, phase: Phase)
    ensures var (after, r) := log.ClosePhase(id, phase);
      Only(log, after, id) && (r.Err? ==> after == log) && after.handles == log.handles
  {}

  lemma {:induction false} CommitOnly(d: Driver, role: RoleId, x: Scalar, log: LogState)
    ensures Only(log, d.Commit(role, x, log).log, d.command.id)
  {
    hide Only, LogState.Post, LogState.Abort, RoleBytes, ScalarBytes;
    AbortOnly(log, d.command.id);
    PostOnly(log, d.command.id, CommitPhase, RoleBytes(role), ScalarBytes(x));
  }

  lemma {:induction false} OpenOnly(d: Driver, opening: Opening, log: LogState)
    ensures Only(log, d.Open(opening, log).log, d.command.id)
  {
    hide Only, LogState.Post, LogState.Abort, RoleBytes, Driver.CheckOpening;
    AbortOnly(log, d.command.id);
    var body := d.CheckOpening(opening);
    if body.Ok? { PostOnly(log, d.command.id, OpenPhase, RoleBytes(opening.role), body.value); }
  }

  lemma {:induction false} ReceiptOnly(d: Driver, receipt: TargetReceipt, log: LogState)
    ensures Only(log, d.Receipt(receipt, log).log, d.command.id)
  {
    hide Only, LogState.Post, LogState.Abort, TargetBytes, ReceiptBytes, TargetShape.Targets;
    AbortOnly(log, d.command.id);
    var body := ReceiptBytes(receipt);
    if body.Ok? { PostOnly(log, d.command.id, ReceiptPhase, TargetBytes(receipt.target), body.value); }
  }

  lemma {:induction false} ClosingsOnly(d: Driver, log: LogState)
    ensures Only(log, d.CloseCommitments(log).log, d.command.id) && Only(log, d.CloseOpenings(log).log, d.command.id)
  {
    hide Only, LogState.ClosePhase, LogState.Abort, BuildView, Driver.AllCommitted, Driver.AllOpened;
    AbortOnly(log, d.command.id);
    CloseOnly(log, d.command.id, CommitPhase);
    CloseOnly(log, d.command.id, OpenPhase);
  }

  lemma {:induction false} ActivateOnly(d: Driver, log: LogState)
    requires HasFresh(log.handles)
    ensures Only(log, d.Activate(log).log, d.command.id)
  {
    hide LogState.ClosePhase, LogState.ActivateBundle, HasFresh, TargetShape.Targets, LogState.Abort;
    var id := d.command.id;
    AbortOnly(log, id);
    if d.terminal.None? {
      PrepareKeepsHandles(d, log);
      CloseOnly(log, id, ReceiptPhase);
      var ready := d.Prepare(log);
      assert Only(log, ready.log, id);
      if ready.result.Ok? {
        BundleIsAtomic(ready.log, [id]);
        var (after, r) := ready.log.Activate(id);
        if r.Err? { AbortOnly(after, id); }
      }
    }
  }

  lemma {:induction false} DriveOnly(d: Driver, a: Action, log: LogState)
    ensures Only(log, Drive(d, a, log).1, d.command.id)
  {
    hide Only, HasFresh, LogState.Abort, Driver.Commit, Driver.CloseCommitments, Driver.Open, Driver.CloseOpenings,
      Driver.Receipt, Driver.Activate;
    AbortOnly(log, d.command.id);
    match a
    case CommitAction(role, x) => CommitOnly(d, role, x, log);
    case CloseCommitmentsAction => ClosingsOnly(d, log);
    case OpenAction(opening) => OpenOnly(d, opening, log);
    case CloseOpeningsAction => ClosingsOnly(d, log);
    case ReceiptAction(receipt) => ReceiptOnly(d, receipt, log);
    case ActivateAction => if HasFresh(log.handles) { ActivateOnly(d, log); }
    case AbortAction =>
  }

  // ----- the shared system

  datatype System = System(log: LogState, drivers: seq<Driver>)

  datatype Event =
    | StartEvent(command: Command)
    | DriveEvent(index: nat, action: Action)
    | LogEvent(op: Op)

  ghost function StepSystem(s: System, e: Event): System {
    match e
    case StartEvent(command) =>
      var (after, r) := Driver.New(command, s.log);
      if r.Ok? then System(after, s.drivers + [r.value]) else System(after, s.drivers)
    case DriveEvent(index, action) =>
      if index < |s.drivers| then
        var (d, after) := Drive(s.drivers[index], action, s.log);
        System(after, s.drivers[index := d])
      else s
    case LogEvent(op) => System(Apply(s.log, op), s.drivers)
  }

  ghost function RunSystem(events: seq<Event>): System {
    if events == [] then System(EMPTY_LOG, []) else StepSystem(RunSystem(events[..|events| - 1]), events[|events| - 1])
  }

  /** Commands come from the command constructor, and nobody but candidates touches
    * the owned ones.
    */
  ghost predicate Allowed(e: Event, owned: iset<CommandId>) {
    match e
    case StartEvent(command) => command.Valid()
    case DriveEvent(_, _) => true
    case LogEvent(op) => Spares(op, owned)
  }

  ghost predicate OwnedInv(s: System, id: CommandId) {
    && (exists i :: 0 <= i < |s.drivers| && s.drivers[i].command.id == id)
    && (id in s.log.transcripts ==> forall i :: 0 <= i < |s.drivers| && s.drivers[i].command.id == id ==>
      TranscriptInv(s.log.transcripts[id], s.drivers[i].command))
  }

  ghost predicate SystemInv(s: System, owned: iset<CommandId>) {
    && (forall c :: c in s.log.transcripts ==> ClosedIfActivated(s.log.transcripts[c]))
    && (forall i :: 0 <= i < |s.drivers| ==> Knows(s.drivers[i], s.log))
    && (forall id :: id in owned && id in s.log.transcripts ==> OwnedInv(s, id))
  }

  /** Drivers of one command id run the same command. */
  lemma {:induction false} SameCommand(d: Driver, e: Driver, t: Transcript)
    requires DriverInv(d, t) && DriverInv(e, t) && d.command.id == e.command.id
    ensures d.command == e.command
  {
    hide PostsStand, Staged, CommandBytes, Command.Valid;
    CommandBytesInjective(d.command, e.command);
  }

  lemma {:induction false} OnlyCloses(log: LogState, after: LogState, id: CommandId)
    requires Only(log, after, id) && forall c :: c in log.transcripts ==> ClosedIfActivated(log.transcripts[c])
    ensures forall c :: c in after.transcripts ==> ClosedIfActivated(after.transcripts[c])
  {
    hide ClosedIfActivated;
    forall c | c in after.transcripts ensures ClosedIfActivated(after.transcripts[c]) {
      assert c in log.transcripts && (c != id ==> after.transcripts[c] == log.transcripts[c]);
    }
  }

  lemma {:induction false} DriveKeepsSystem(s: System, index: nat, action: Action, owned: iset<CommandId>)
    requires SystemInv(s, owned) && index < |s.drivers|
    ensures SystemInv(StepSystem(s, DriveEvent(index, action)), owned)
  {
    hide Knows, Drive, OwnedInv, ClosedIfActivated, Only, Apply, Driver.New;
    var d := s.drivers[index];
    var (e, after) := Drive(d, action, s.log);
    var u := System(after, s.drivers[index := e]);
    DriveOnly(d, action, s.log);
    OnlyCloses(s.log, after, d.command.id);
    forall i | 0 <= i < |u.drivers| ensures Knows(u.drivers[i], after) {
      DriveKeepsKnown(d, s.drivers[i], action, s.log);
    }
    forall id | id in owned && id in after.transcripts ensures OwnedInv(u, id) {
      DriveKeepsOwned(s, index, action, owned, id);
    }
  }

  lemma {:induction false} DriveKeepsKnown(d: Driver, other: Driver, action: Action, log: LogState)
    requires Knows(d, log) && Knows(other, log)
    ensures var (e, after) := Drive(d, action, log); Knows(e, after) && Knows(other, after)
  {
    hide DriverInv, TranscriptInv, Grows, Drive, IsActivated;
    DriveKeeps(d, action, log);
    DriveOnly(d, action, log);
    if other.command.id == d.command.id {
      DriverInvStable(other, log.transcripts[d.command.id], Drive(d, action, log).1.transcripts[d.command.id]);
    }
  }

  lemma {:induction false} DriveKeepsOwned(s: System, index: nat, action: Action, owned: iset<CommandId>, id: CommandId)
    requires SystemInv(s, owned) && index < |s.drivers| && id in owned
    requires id in Drive(s.drivers[index], action, s.log).1.transcripts
    ensures OwnedInv(StepSystem(s, DriveEvent(index, action)), id)
  {
    hide DriverInv, TranscriptInv, Grows, Drive, IsActivated;
    var d := s.drivers[index];
    var (e, after) := Drive(d, action, s.log);
    var u := System(after, s.drivers[index := e]);
    DriveKeeps(d, action, s.log);
    DriveOnly(d, action, s.log);
    assert OwnedInv(s, id);
    var k :| 0 <= k < |s.drivers| && s.drivers[k].command.id == id;
    assert u.drivers[k].command.id == id;
    forall i | 0 <= i < |u.drivers| && u.drivers[i].command.id == id
      ensures TranscriptInv(after.transcripts[id], u.drivers[i].command)
    {
      assert s.drivers[i].command == u.drivers[i].command && TranscriptInv(s.log.transcripts[id], s.drivers[i].command);
      if id == d.command.id { SameCommand(d, s.drivers[i], s.log.transcripts[id]); }
    }
  }

  /** Beginning a transcript at most adds one, which is live. */
  lemma {:induction false} BeginAdds(log: LogState, command: Command, parameters: bytes)
    ensures var (after, r) := log.Begin(command.scope, command.id, command.predecessor, parameters);
      && (r.Err? ==> after == log)
      && after.transcripts.Keys <= log.transcripts.Keys + {command.id}
      && (forall c :: c in log.transcripts ==> c in after.transcripts && after.transcripts[c] == log.transcripts[c])
      && (command.id in after.transcripts && command.id !in log.transcripts ==>
        ClosedIfActivated(after.transcripts[command.id]))
  {}

  lemma {:induction false} StartKeepsSystem(s: System, command: Command, owned: iset<CommandId>)
    requires SystemInv(s, owned) && command.Valid()
    ensures SystemInv(StepSystem(s, StartEvent(command)), owned)
  {
    hide SystemInv, CommandBytes, Command.Valid, LogState.Begin, Driver.Fresh, Drive;
    var parameters := CommandBytes(command);
    if parameters.Ok? {
      BeginAdds(s.log, command, parameters.value);
      if s.log.Begin(command.scope, command.id, command.predecessor, parameters.value).1.Ok? {
        StartedKeeps(s, command, owned, parameters.value);
      }
    }
  }

  lemma {:induction false} StartedKeeps(s: System, command: Command, owned: iset<CommandId>, parameters: bytes)
    requires SystemInv(s, owned) && command.Valid() && CommandBytes(command) == Ok(parameters)
    requires s.log.Begin(command.scope, command.id, command.predecessor, parameters).1.Ok?
    ensures var after := s.log.Begin(command.scope, command.id, command.predecessor, parameters).0;
      SystemInv(System(after, s.drivers + [Driver.Fresh(command)]), owned)
  {
    hide Knows, OwnedInv, CommandBytes, Command.Valid, LogState.Begin, ClosedIfActivated;
    var after := s.log.Begin(command.scope, command.id, command.predecessor, parameters).0;
    var d := Driver.Fresh(command);
    var u := System(after, s.drivers + [d]);
    BeginAdds(s.log, command, parameters);
    BegunKnows(s.log, command, parameters);
    StartOwnedAll(s, u, d, owned, parameters);
    forall i | 0 <= i < |u.drivers| ensures Knows(u.drivers[i], after) {
      if i < |s.drivers| { BegunOthers(s.drivers[i], s.log, after); }
    }
    forall c | c in after.transcripts ensures ClosedIfActivated(after.transcripts[c]) {
      if c in s.log.transcripts { assert after.transcripts[c] == s.log.transcripts[c]; }
    }
  }

  lemma {:induction false} StartOwnedAll(s: System, u: System, d: Driver, owned: iset<CommandId>, parameters: bytes)
    requires SystemInv(s, owned) && d == Driver.Fresh(d.command) && u.drivers == s.drivers + [d]
    requires d.command.Valid() && CommandBytes(d.command) == Ok(parameters)
    requires var (after, r) := s.log.Begin(d.command.scope, d.command.id, d.command.predecessor, parameters);
      after == u.log && r.Ok?
    ensures forall id :: id in owned && id in u.log.transcripts ==> OwnedInv(u, id)
  {
    hide SystemInv, OwnedInv, CommandBytes, Command.Valid, LogState.Begin;
    forall id | id in owned && id in u.log.transcripts ensures OwnedInv(u, id) {
      StartOwned(s, u, d, id, owned, parameters);
    }
  }

  lemma {:induction false} BegunOthers(d: Driver, log: LogState, after: LogState)
    requires Knows(d, log)
    requires forall c :: c in log.transcripts ==> c in after.transcripts && after.transcripts[c] == log.transcripts[c]
    ensures Knows(d, after)
  {
    hide DriverInv;
  }

  lemma {:induction false} BegunKnows(log: LogState, command: Command, parameters: bytes)
    requires command.Valid() && CommandBytes(command) == Ok(parameters)
    requires log.Begin(command.scope, command.id, command.predecessor, parameters).1.Ok?
    ensures var after := log.Begin(command.scope, command.id, command.predecessor, parameters).0;
      && Knows(Driver.Fresh(command), after)
      && (command.id in log.transcripts ==> after == log)
      && (command.id !in log.transcripts ==> TranscriptInv(after.transcripts[command.id], command))
  {
    hide CommandBytes, Command.Valid, DriverInv, TranscriptInv;
    var after := log.Begin(command.scope, command.id, command.predecessor, parameters).0;
    FreshInv(command, after.transcripts[command.id]);
    if command.id !in log.transcripts { BareInv(command, after.transcripts[command.id]); }
  }

  lemma {:induction false} FreshInv(command: Command, t: Transcript)
    requires command.Valid() && CommandBytes(command) == Ok(t.parameters)
    requires t.scope == command.scope && t.predecessor == command.predecessor
    ensures DriverInv(Driver.Fresh(command), t)
  {
    hide CommandBytes, Command.Valid, BuildView, OpeningStands, CommitmentStands, ReceiptStands;
  }

  lemma {:induction false} BareInv(command: Command, t: Transcript)
    requires t.posts == map[] && Progress(t.next) == 0
    ensures TranscriptInv(t, command)
  {
    hide CommitsComplete, OpensComplete, ReceiptsComplete, OpenPostStands, ReceiptPostStands;
  }

  lemma {:induction false} StartOwned(s: System, u: System, d: Driver, id: CommandId, owned: iset<CommandId>,
      parameters: bytes)
    requires SystemInv(s, owned) && id in owned && id in u.log.transcripts
    requires d == Driver.Fresh(d.command) && u.drivers == s.drivers + [d]
    requires d.command.Valid() && CommandBytes(d.command) == Ok(parameters)
    requires var (after, r) := s.log.Begin(d.command.scope, d.command.id, d.command.predecessor, parameters);
      after == u.log && r.Ok?
    ensures OwnedInv(u, id)
  {
    hide DriverInv, TranscriptInv, Grows, CommandBytes, Command.Valid;
    BegunKnows(s.log, d.command, parameters);
    if id == d.command.id {
      assert u.drivers[|s.drivers|].command.id == id;
      if id in s.log.transcripts {
        assert OwnedInv(s, id);
        var k :| 0 <= k < |s.drivers| && s.drivers[k].command.id == id;
        SameCommand(d, s.drivers[k], s.log.transcripts[id]);
      } else {
        forall i | 0 <= i < |s.drivers| ensures s.drivers[i].command.id != id { assert Knows(s.drivers[i], s.log); }
      }
    } else {
      assert OwnedInv(s, id);
      var k :| 0 <= k < |s.drivers| && s.drivers[k].command.id == id;
      assert u.drivers[k].command.id == id;
      assert u.log.transcripts[id] == s.log.transcripts[id];
    }
  }

  lemma {:induction false} LogKeepsSystem(s: System, op: Op, owned: iset<CommandId>)
    requires SystemInv(s, owned) && Spares(op, owned)
    ensures SystemInv(StepSystem(s, LogEvent(op)), owned)
  {
    hide Knows, OwnedInv, Apply, Spares, ClosedIfActivated, Drive, Driver.New;
    var after := Apply(s.log, op);
    var u := System(after, s.drivers);
    LogClosesFirst(s.log, op);
    forall i | 0 <= i < |s.drivers| ensures Knows(s.drivers[i], after) {
      LogKeepsKnown(s.drivers[i], s.log, op);
    }
    forall id | id in owned && id in after.transcripts ensures OwnedInv(u, id) {
      LogKeepsOwned(s, op, owned, id);
    }
  }

  lemma {:induction false} LogClosesFirst(log: LogState, op: Op)
    requires forall c :: c in log.transcripts ==> ClosedIfActivated(log.transcripts[c])
    ensures forall c :: c in Apply(log, op).transcripts ==> ClosedIfActivated(Apply(log, op).transcripts[c])
  {
    hide HandleFor, FirstFresh, HasFresh, LogState.ActivateBundle;
    if op.ActivateOp? && HasFresh(log.handles) { BundleIsAtomic(log, op.commands); }
  }

  lemma {:induction false} LogKeepsKnown(d: Driver, log: LogState, op: Op)
    requires Knows(d, log)
    ensures Knows(d, Apply(log, op))
  {
    hide DriverInv, TranscriptInv, Grows, Apply;
    TranscriptsGrow(log, op, d.command.id);
    DriverInvStable(d, log.transcripts[d.command.id], Apply(log, op).transcripts[d.command.id]);
  }

  lemma {:induction false} LogKeepsOwned(s: System, op: Op, owned: iset<CommandId>, id: CommandId)
    requires SystemInv(s, owned) && Spares(op, owned) && id in owned && id in Apply(s.log, op).transcripts
    ensures OwnedInv(System(Apply(s.log, op), s.drivers), id)
  {
    hide DriverInv, TranscriptInv, Grows, Apply, Spares, Knows;
    SparedStays(s.log, op, owned, id);
    assert OwnedInv(s, id);
  }

  ghost predicate RunAllowed(events: seq<Event>, owned: iset<CommandId>) {
    forall i :: 0 <= i < |events| ==> Allowed(events[i], owned)
  }

  lemma {:induction false} RunKeepsSystem(events: seq<Event>, owned: iset<CommandId>)
    requires RunAllowed(events, owned)
    ensures SystemInv(RunSystem(events), owned)
  {
    hide SystemInv, Drive, Apply, Command.Valid;
    if events == [] {
      EmptySystem(owned);
    } else {
      var n := |events| - 1;
      RunKeepsSystem(events[..n], owned);
      assert Allowed(events[n], owned);
      match events[n]
      case StartEvent(command) => StartKeepsSystem(RunSystem(events[..n]), command, owned);
      case DriveEvent(index, action) =>
        if index < |RunSystem(events[..n]).drivers| { DriveKeepsSystem(RunSystem(events[..n]), index, action, owned); }
      case LogEvent(op) => LogKeepsSystem(RunSystem(events[..n]), op, owned);
    }
  }

  lemma {:induction false} EmptySystem(owned: iset<CommandId>)
    ensures SystemInv(System(EMPTY_LOG, []), owned)
  {
  }

  // ----- main results

  /** View agreement: in every interleaving of drivers and any other log calls, all
    * drivers of one command id that hold a view hold the same one, bytes and
    * aggregate included.
    */
  lemma {:induction false} ViewsAgree(events: seq<Event>, i: nat, j: nat)
    requires RunAllowed(events, iset{})
    requires var s := RunSystem(events);
      && i < |s.drivers| && j < |s.drivers| && s.drivers[i].command.id == s.drivers[j].command.id
      && s.drivers[i].view.Some? && s.drivers[j].view.Some?
    ensures var s := RunSystem(events);
      s.drivers[i].command == s.drivers[j].command && s.drivers[i].view == s.drivers[j].view
  {
    hide DriverInv, CommonView, RunSystem;
    var s := RunSystem(events);
    RunKeepsSystem(events, iset{});
    var d, e := s.drivers[i], s.drivers[j];
    assert Knows(d, s.log) && Knows(e, s.log);
    var t := s.log.transcripts[d.command.id];
    SameCommand(d, e, t);
    DriverViewIsCommon(d, t);
    DriverViewIsCommon(e, t);
    assert d.command.Valid() by { AnchoredValid(d, t); }
    CommonViewUnique(d.command, t, d.view.value, e.view.value);
  }

  lemma {:induction false} AnchoredValid(d: Driver, t: Transcript)
    requires DriverInv(d, t)
    ensures d.command.Valid()
  {}

  /** Everything a complete transcript of a command holds. */
  ghost predicate CompleteTranscript(t: Transcript, command: Command, v: CandidateView) {
    && CommonView(command, t, v)
    && (forall role :: role in command.RoleIds() ==>
      && (CommitPhase, RoleBytes(role)) in t.posts
      && OpenPostStands(t, command, RoleBytes(role)))
    && (forall target :: target in command.shape.Targets() ==> ReceiptStands(command, t, target, v.bytes))
  }

  /** Candidate-driven activation means a complete transcript: every mandatory role
    * committed and opened, each opening matches its commitment and role constant, and
    * every target posted a receipt for the same view bytes.
    */
  lemma {:induction false} ActivationIsComplete(events: seq<Event>, owned: iset<CommandId>, id: CommandId)
    requires RunAllowed(events, owned) && id in owned
    requires var s := RunSystem(events); id in s.log.transcripts && IsActivated(s.log.transcripts[id])
    ensures var s := RunSystem(events);
      exists i, v :: 0 <= i < |s.drivers| && s.drivers[i].command.id == id
        && CompleteTranscript(s.log.transcripts[id], s.drivers[i].command, v)
  {
    hide DriverInv, CommonView, RunSystem, TranscriptInv;
    var s := RunSystem(events);
    RunKeepsSystem(events, owned);
    var t := s.log.transcripts[id];
    assert ClosedIfActivated(t);
    assert OwnedInv(s, id);
    var i :| 0 <= i < |s.drivers| && s.drivers[i].command.id == id;
    var command := s.drivers[i].command;
    assert Knows(s.drivers[i], s.log);
    AnchoredValid(s.drivers[i], t);
    ClosedIsComplete(t, command);
    var v :| CompleteTranscript(t, command, v);
  }

  lemma {:induction false} SomeTarget(command: Command)
    requires command.Valid()
    ensures command.shape.Targets() != []
  {
    hide SourceSum;
    match command.shape
    case OneSharing(s) =>
    case TwoTier(s) =>
      assert s.people[|s.people| - 1] in s.people && s.people[|s.people| - 1].inner.Valid();
  }

  lemma {:induction false} ClosedIsComplete(t: Transcript, command: Command)
    requires command.Valid() && TranscriptInv(t, command) && t.next.None?
    ensures exists v :: CompleteTranscript(t, command, v)
  {
    hide CommonView, OpeningStands, RoleBytes, TargetBytes, Command.Valid, TargetShape.Targets, ReceiptBytes;
    SomeTarget(command);
    var first := command.shape.Targets()[0];
    assert ReceiptPostStands(t, command, TargetBytes(first));
    var v: CandidateView, x: TargetId :|
      TargetBytes(first) == TargetBytes(x) && CommonView(command, t, v) && ReceiptStands(command, t, x, v.bytes);
    forall target | target in command.shape.Targets() ensures ReceiptStands(command, t, target, v.bytes) {
      assert ReceiptPostStands(t, command, TargetBytes(target));
      var w: CandidateView, y: TargetId :|
        TargetBytes(target) == TargetBytes(y) && CommonView(command, t, w) && ReceiptStands(command, t, y, w.bytes);
      CommonViewUnique(command, t, v, w);
      IdentifiersInjective();
    }
    assert CompleteTranscript(t, command, v);
  }

  lemma {:induction false} OpeningCommits(t: Transcript, command: Command, key: bytes)
    requires TranscriptInv(t, command) && (OpenPhase, key) in t.posts
    ensures CommitsComplete(t, command)
  {
    hide CommitsComplete, OpensComplete, ReceiptsComplete, OpenPostStands, ReceiptPostStands;
  }

  /** Once any opening is posted, every mandatory role has committed. */
  lemma {:induction false} CommitBeforeOpen(events: seq<Event>, owned: iset<CommandId>, i: nat, key: bytes)
    requires RunAllowed(events, owned)
    requires var s := RunSystem(events);
      && i < |s.drivers| && s.drivers[i].command.id in owned
      && s.drivers[i].command.id in s.log.transcripts
      && (OpenPhase, key) in s.log.transcripts[s.drivers[i].command.id].posts
    ensures var s := RunSystem(events);
      CommitsComplete(s.log.transcripts[s.drivers[i].command.id], s.drivers[i].command)
  {
    hide Knows, RunSystem, TranscriptInv, CommitsComplete, ClosedIfActivated;
    var s := RunSystem(events);
    var id := s.drivers[i].command.id;
    RunKeepsSystem(events, owned);
    assert OwnedInv(s, id);
    OpeningCommits(s.log.transcripts[id], s.drivers[i].command, key);
  }

  lemma {:induction false} TerminalHere(events: seq<Event>, i: nat)
    requires RunAllowed(events, iset{})
    requires i < |RunSystem(events).drivers| && RunSystem(events).drivers[i].terminal.Some?
    ensures var s := RunSystem(events);
      && s.drivers[i].command.id in s.log.transcripts
      && s.log.transcripts[s.drivers[i].command.id].terminal == s.drivers[i].terminal
  {
    hide TranscriptInv, PostsStand, Anchored, RunSystem;
    RunKeepsSystem(events, iset{});
    assert Knows(RunSystem(events).drivers[i], RunSystem(events).log);
  }

  lemma {:induction false} LastStep(events: seq<Event>, later: Event)
    ensures RunSystem(events + [later]) == StepSystem(RunSystem(events), later)
  {
    assert (events + [later])[..|events|] == events;
  }

  lemma {:induction false} DriverStays(events: seq<Event>, later: Event, i: nat)
    requires RunAllowed(events, iset{}) && i < |RunSystem(events).drivers|
    ensures var s, u := RunSystem(events), RunSystem(events + [later]);
      && i < |u.drivers| && u.drivers[i].command == s.drivers[i].command
      && (s.drivers[i].terminal.Some? ==> u.drivers[i].terminal == s.drivers[i].terminal)
  {
    hide DriverInv, TranscriptInv, Grows, Drive, RunSystem, OwnedInv, Apply;
    RunKeepsSystem(events, iset{});
    LastStep(events, later);
    var s := RunSystem(events);
    if later.DriveEvent? && later.index < |s.drivers| {
      assert Knows(s.drivers[later.index], s.log);
      DriveKeeps(s.drivers[later.index], later.action, s.log);
    }
  }

  lemma {:induction false} TerminalStays(events: seq<Event>, later: Event, i: nat)
    requires RunAllowed(events + [later], iset{})
    requires i < |RunSystem(events).drivers| && RunSystem(events).drivers[i].terminal.Some?
    ensures var s, u := RunSystem(events), RunSystem(events + [later]);
      && s.drivers[i].command.id in s.log.transcripts
      && s.log.transcripts[s.drivers[i].command.id].terminal == s.drivers[i].terminal
      && i < |u.drivers| && u.drivers[i].command == s.drivers[i].command
      && u.drivers[i].terminal == s.drivers[i].terminal
      && s.drivers[i].command.id in u.log.transcripts
      && u.log.transcripts[s.drivers[i].command.id].terminal == s.drivers[i].terminal
  {
    hide RunSystem, Allowed;
    var all := events + [later];
    assert RunAllowed(events, iset{}) by {
      forall k | 0 <= k < |events| ensures Allowed(events[k], iset{}) { assert all[k] == events[k]; }
    }
    TerminalHere(events, i);
    DriverStays(events, later, i);
    TerminalHere(all, i);
  }

  /** A driver's terminal is the log's, and nothing that happens later changes either. */
  lemma {:induction false} TerminalsAgree(events: seq<Event>, later: seq<Event>, i: nat)
    requires RunAllowed(events + later, iset{})
    requires i < |RunSystem(events).drivers| && RunSystem(events).drivers[i].terminal.Some?
    ensures var s, u := RunSystem(events), RunSystem(events + later);
      && i < |u.drivers| && u.drivers[i].command == s.drivers[i].command
        && u.drivers[i].terminal == s.drivers[i].terminal
      && s.drivers[i].command.id in s.log.transcripts && s.drivers[i].command.id in u.log.transcripts
      && s.log.transcripts[s.drivers[i].command.id].terminal == s.drivers[i].terminal
      && u.log.transcripts[s.drivers[i].command.id].terminal == s.drivers[i].terminal
  {
    hide RunSystem, Allowed;
    if later == [] {
      assert events + later == events;
      TerminalHere(events, i);
    } else {
      var n := |later| - 1;
      var front := events + later[..n];
      assert events + later == front + [later[n]];
      assert RunAllowed(front, iset{}) by {
        forall k | 0 <= k < |front| ensures Allowed(front[k], iset{}) { assert (events + later)[k] == front[k]; }
      }
      TerminalsAgree(events, later[..n], i);
      TerminalStays(front, later[n], i);
    }
  }
}

/** One redistribution transcript and its driver (src/dealing/candidate.rs). */
module Candidates {
  import opened Results
  import opened Field
  import opened Ids
  import opened Encoding
  import opened Shape
  import opened Contribution
  import opened DealEncoding
  import opened Target
  import opened LogAct

  datatype Stage = CommitStage | OpenStage | ReceiptStage | ReadyStage | TerminalStage

  /** A driver's next state, the log it leaves and what it returns. */
  datatype Step<+T> = Step(driver: Driver, log: LogState, result: Result<T>)

  function ScalarBytes(x: Scalar): bytes { ScalarField().enc(x) }

  /** The state of a candidate. */
  datatype Driver = Driver(
    command: Command,
    commitments: map<RoleId, Scalar>,
    commitClosed: bool,
    openings: map<RoleId, Opening>,
    receipts: map<TargetId, TargetReceipt>,
    view: Option<CandidateView>,
    terminal: Option<Terminal>,
    stage: Stage)
  {
    static function Fresh(command: Command): Driver {
      Driver(command, map[], false, map[], map[], None, None, CommitStage)
    }

    /** The log after starting a transcript, and the new driver. */
    static function New(command: Command, log: LogState): (LogState, Result<Driver>) {
      var parameters := CommandBytes(command);
      if parameters.Err? then (log, Err(parameters.error))
      else
        var (after, r) := log.Begin(command.scope, command.id, command.predecessor, parameters.value);
        if r.Err? then (after, Err(r.error)) else (after, Ok(Fresh(command)))
    }

    /** Aborts if the log still allows it, and returns the error. */
    function AbortWith<T>(log: LogState, error: Error): Step<T> {
      var (after, r) := log.Abort(command.id);
      var terminated := if r.Ok? then this.(terminal := Some(r.value)) else this;
      Step(terminated.(stage := TerminalStage), after, Err(error))
    }

    function Commit(role: RoleId, commitment: Scalar, log: LogState): Step<()> {
      if role in commitments then
        if commitments[role] == commitment then Step(this, log, Ok(())) else AbortWith(log, ReplayMismatch)
      else if stage != CommitStage || command.RoleOf(role).Err? then AbortWith(log, WrongStage)
      else
        var (after, r) := log.Post(command.id, CommitPhase, RoleBytes(role), ScalarBytes(commitment));
        if r.Err? then AbortWith(after, r.error)
        else Step(this.(commitments := commitments[role := commitment]), after, Ok(()))
    }

    predicate AllCommitted() {
      |commitments| == |command.roles| && forall s :: s in command.roles ==> s.Role() in commitments
    }

    function CloseCommitments(log: LogState): Step<()> {
      if commitClosed then Step(this, log, Ok(()))
      else if terminal.Some? then Step(this, log, Err(AlreadyTerminal))
      else if stage != CommitStage || !AllCommitted() then AbortWith(log, SupportMismatch)
      else
        var (after, r) := log.ClosePhase(command.id, CommitPhase);
        if r.Err? then AbortWith(after, r.error)
        else Step(this.(commitClosed := true, stage := OpenStage), after, Ok(()))
    }

    /** The opening fits its role and matches the role's commitment. */
    function CheckOpening(opening: Opening): Result<bytes> {
      var spec :- command.RoleOf(opening.role);
      var _ :- opening.points.Validate(command.shape, spec.Constant());
      if opening.role !in commitments then Err(CommitmentMismatch)
      else
        var commitment :- CommitmentOf(command, opening);
        if commitment != commitments[opening.role] then Err(CommitmentMismatch) else OpeningBytes(opening)
    }

    function Open(opening: Opening, log: LogState): Step<()> {
      var role := opening.role;
      if role in openings then
        if openings[role] == opening then Step(this, log, Ok(())) else AbortWith(log, ReplayMismatch)
      else if stage != OpenStage then AbortWith(log, WrongStage)
      else
        var body := CheckOpening(opening);
        if body.Err? then AbortWith(log, body.error)
        else
          var (after, r) := log.Post(command.id, OpenPhase, RoleBytes(role), body.value);
          if r.Err? then AbortWith(after, r.error)
          else Step(this.(openings := openings[role := opening]), after, Ok(()))
    }

    predicate AllOpened() {
      |openings| == |command.roles| && forall s :: s in command.roles ==> s.Role() in openings
    }

    function CloseOpenings(log: LogState): Step<CandidateView> {
      if view.Some? then Step(this, log, Ok(view.value))
      else if stage != OpenStage || !AllOpened() then AbortWith(log, SupportMismatch)
      else
        var built := BuildView(command, commitments, openings);
        if built.Err? then AbortWith(log, built.error)
        else
          var (after, r) := log.ClosePhase(command.id, OpenPhase);
          if r.Err? then AbortWith(after, r.error)
          else Step(this.(stage := ReceiptStage, view := Some(built.value)), after, Ok(built.value))
    }

    function Receipt(receipt: TargetReceipt, log: LogState): Step<()> {
      var target := receipt.target;
      if target in receipts then
        if receipts[target] == receipt then Step(this, log, Ok(())) else AbortWith(log, ReplayMismatch)
      else if stage != ReceiptStage || receipt.command != command.id || target !in command.shape.Targets() then
        AbortWith(log, InvalidTranscript)
      else if view.None? then AbortWith(log, WrongStage)
      else if receipt.view != view.value.bytes then AbortWith(log, InvalidTranscript)
      else
        var body := ReceiptBytes(receipt);
        if body.Err? then AbortWith(log, body.error)
        else
          var (after, r) := log.Post(command.id, ReceiptPhase, TargetBytes(target), body.value);
          if r.Err? then AbortWith(after, r.error)
          else Step(this.(receipts := receipts[target := receipt]), after, Ok(()))
    }

    function Prepare(log: LogState): Step<()> {
      if stage == ReadyStage then Step(this, log, Ok(()))
      else if stage != ReceiptStage || |receipts| != |command.shape.Targets()| then AbortWith(log, SupportMismatch)
      else
        var (after, r) := log.ClosePhase(command.id, ReceiptPhase);
        if r.Err? then AbortWith(after, r.error)
        else Step(this.(stage := ReadyStage), after, Ok(()))
    }

    function Activate(log: LogState): Step<Terminal>
      requires HasFresh(log.handles)
    {
      if terminal.Some? then
        Step(this, log, if terminal.value.Activated? then Ok(terminal.value) else Err(AlreadyTerminal))
      else
        var ready := Prepare(log);
        if ready.result.Err? then Step(ready.driver, ready.log, Err(ready.result.error))
        else
          PrepareKeepsHandles(this, log);
          var (after, r) := ready.log.Activate(command.id);
          if r.Err? then ready.driver.AbortWith(after, r.error)
          else Step(ready.driver.(stage := TerminalStage, terminal := Some(r.value)), after, Ok(r.value))
    }

    function Abort(log: LogState): Step<Terminal> {
      if terminal.Some? then
        Step(this, log, if terminal.value.Aborted? then Ok(terminal.value) else Err(AlreadyTerminal))
      else
        var (after, r) := log.Abort(command.id);
        if r.Err? then Step(this, after, r)
        else Step(this.(stage := TerminalStage, terminal := Some(r.value)), after, r)
    }
  }

  lemma {:induction false} PrepareKeepsHandles(d: Driver, log: LogState)
    ensures d.Prepare(log).log.handles == log.handles
  {}

  // ----- the driver object

  class Candidate {
    var command: Command
    var commitments: map<RoleId, Scalar>
    var commitClosed: bool
    var openings: map<RoleId, Opening>
    var receipts: map<TargetId, TargetReceipt>
    var view: Option<CandidateView>
    var terminal: Option<Terminal>
    var stage: Stage

    function State(): Driver
      reads this
    {
      Driver(command, commitments, commitClosed, openings, receipts, view, terminal, stage)
    }

    constructor (command: Command)
      ensures State() == Driver.Fresh(command)
    {
      this.command := command;
      commitments, commitClosed, openings, receipts := map[], false, map[], map[];
      view, terminal, stage := None, None, CommitStage;
    }

    /** Starts the command's transcript on the log. */
    static method Start(command: Command, log: MemoryLog) returns (r: Result<Candidate>)
      modifies log
      ensures var (after, started) := Driver.New(command, old(log.State()));
        && log.State() == after && (r.Err? <==> started.Err?)
        && (r.Ok? ==> fresh(r.value) && r.value.State() == started.value)
        && (r.Err? ==> r.error == started.error)
    {
      hide CommandBytes;
      var parameters := CommandBytes(command);
      if parameters.Err? { return Err(parameters.error); }
      var begun := log.Begin(command.scope, command.id, command.predecessor, parameters.value);
      if begun.Err? { return Err(begun.error); }
      var candidate := new Candidate(command);
      return Ok(candidate);
    }

    /** Aborts if the log still allows it. */
    method Fail(log: MemoryLog, error: Error)
      modifies this`terminal, this`stage, log
      ensures Step(State(), log.State(), Result<()>.Err(error)) == old(State()).AbortWith<()>(old(log.State()), error)
    {
      var r := log.Abort(command.id);
      if r.Ok? { terminal := Some(r.value); }
      stage := TerminalStage;
    }

    method Commit(role: RoleId, commitment: Scalar, log: MemoryLog) returns (r: Result<()>)
      modifies this, log
      ensures Step(State(), log.State(), r) == old(State()).Commit(role, commitment, old(log.State()))
    {
      if role in commitments {
        if commitments[role] == commitment { return Ok(()); }
        Fail(log, ReplayMismatch);
        return Err(ReplayMismatch);
      }
      if stage != CommitStage || command.RoleOf(role).Err? {
        Fail(log, WrongStage);
        return Err(WrongStage);
      }
      r := log.Post(command.id, CommitPhase, RoleBytes(role), ScalarBytes(commitment));
      if r.Err? {
        Fail(log, r.error);
        return;
      }
      commitments := commitments[role := commitment];
    }

    method CloseCommitments(log: MemoryLog) returns (r: Result<()>)
      modifies this, log
      ensures Step(State(), log.State(), r) == old(State()).CloseCommitments(old(log.State()))
    {
      if commitClosed { return Ok(()); }
      if terminal.Some? { return Err(AlreadyTerminal); }
      if stage != CommitStage || |commitments| != |command.roles|
        || exists s :: s in command.roles && s.Role() !in commitments {
        Fail(log, SupportMismatch);
        return Err(SupportMismatch);
      }
      r := log.ClosePhase(command.id, CommitPhase);
      if r.Err? {
        Fail(log, r.error);
        return;
      }
      commitClosed, stage := true, OpenStage;
    }

    method Open(opening: Opening, log: MemoryLog) returns (r: Result<()>)
      modifies this, log
      ensures Step(State(), log.State(), r) == old(State()).Open(opening, old(log.State()))
    {
      hide CommitmentOf, OpeningBytes, RoleBytes;
      if opening.role in openings {
        if openings[opening.role] == opening { return Ok(()); }
        Fail(log, ReplayMismatch);
        return Err(ReplayMismatch);
      }
      if stage != OpenStage {
        Fail(log, WrongStage);
        return Err(WrongStage);
      }
      var body := State().CheckOpening(opening);
      if body.Err? {
        Fail(log, body.error);
        return Err(body.error);
      }
      r := log.Post(command.id, OpenPhase, RoleBytes(opening.role), body.value);
      if r.Err? {
        Fail(log, r.error);
        return;
      }
      openings := openings[opening.role := opening];
    }

    method CloseOpenings(log: MemoryLog) returns (r: Result<CandidateView>)
      modifies this, log
      ensures Step(State(), log.State(), r) == old(State()).CloseOpenings(old(log.State()))
    {
      hide BuildView;
      if view.Some? { return Ok(view.value); }
      if stage != OpenStage || |openings| != |command.roles|
        || exists s :: s in command.roles && s.Role() !in openings {
        Fail(log, SupportMismatch);
        return Err(SupportMismatch);
      }
      r := BuildView(command, commitments, openings);
      if r.Err? {
        Fail(log, r.error);
        return;
      }
      var closed := log.ClosePhase(command.id, OpenPhase);
      if closed.Err? {
        Fail(log, closed.error);
        return Err(closed.error);
      }
      stage := ReceiptStage;
      view := Some(r.value);
    }

    method Receipt(receipt: TargetReceipt, log: MemoryLog) returns (r: Result<()>)
      modifies this, log
      ensures Step(State(), log.State(), r) == old(State()).Receipt(receipt, old(log.State()))
    {
      hide ReceiptBytes, TargetBytes, TargetShape.Targets;
      if receipt.target in receipts {
        if receipts[receipt.target] == receipt { return Ok(()); }
        Fail(log, ReplayMismatch);
        return Err(ReplayMismatch);
      }
      if stage != ReceiptStage || receipt.command != command.id || receipt.target !in command.shape.Targets() {
        Fail(log, InvalidTranscript);
        return Err(InvalidTranscript);
      }
      if view.None? {
        Fail(log, WrongStage);
        return Err(WrongStage);
      }
      if receipt.view != view.value.bytes {
        Fail(log, InvalidTranscript);
        return Err(InvalidTranscript);
      }
      var body := ReceiptBytes(receipt);
      if body.Err? {
        Fail(log, body.error);
        return Err(body.error);
      }
      r := log.Post(command.id, ReceiptPhase, TargetBytes(receipt.target), body.value);
      if r.Err? {
        Fail(log, r.error);
        return;
      }
      receipts := receipts[receipt.target := receipt];
    }

    method Prepare(log: MemoryLog) returns (r: Result<()>)
      modifies this, log
      ensures Step(State(), log.State(), r) == old(State()).Prepare(old(log.State()))
    {
      if stage == ReadyStage { return Ok(()); }
      if stage != ReceiptStage || |receipts| != |command.shape.Targets()| {
        Fail(log, SupportMismatch);
        return Err(SupportMismatch);
      }
      r := log.ClosePhase(command.id, ReceiptPhase);
      if r.Err? {
        Fail(log, r.error);
        return;
      }
      stage := ReadyStage;
    }

    method Activate(log: MemoryLog) returns (r: Result<Terminal>)
      requires HasFresh(log.handles)
      modifies this, log
      ensures Step(State(), log.State(), r) == old(State()).Activate(old(log.State()))
    {
      if terminal.Some? {
        return if terminal.value.Activated? then Ok(terminal.value) else Err(AlreadyTerminal);
      }
      PrepareKeepsHandles(State(), log.State());
      var ready := Prepare(log);
      if ready.Err? { return Err(ready.error); }
      assert log.State().handles == log.handles;
      r := log.Activate(command.id);
      if r.Err? {
        Fail(log, r.error);
        return;
      }
      stage, terminal := TerminalStage, Some(r.value);
    }

    method Abort(log: MemoryLog) returns (r: Result<Terminal>)
      modifies this, log
      ensures Step(State(), log.State(), r) == old(State()).Abort(old(log.State()))
    {
      if terminal.Some? {
        return if terminal.value.Aborted? then Ok(terminal.value) else Err(AlreadyTerminal);
      }
      r := log.Abort(command.id);
      if r.Ok? { stage, terminal := TerminalStage, Some(r.value); }
    }
  }
}

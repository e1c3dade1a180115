/** All-or-nothing bundles of candidates (src/dealing/candidate.rs). */
module InnerBundles {
  import opened Results
  import opened Field
  import opened Sorting
  import opened Ids
  import opened Encoding
  import opened Shape
  import opened Contribution
  import opened DealEncoding
  import opened Target
  import opened LogAct
  import opened LogHistory
  import opened Candidates

  // ----- the bundle as a value: its drivers in command order

  function DriverKey(d: Driver): int { d.command.id }
  function CommandIdKey(c: Command): int { c.id }

  function CommandIds(ds: seq<Driver>): (r: seq<CommandId>)
    ensures |r| == |ds|
  {
    seq(|ds|, i requires 0 <= i < |ds| => ds[i].command.id)
  }

  /** Aborts every component that can still abort, and keeps the first failure. */
  function AbortEach(ds: seq<Driver>, log: LogState): (seq<Driver>, LogState, Option<Error>) {
    if ds == [] then ([], log, None)
    else
      var n := |ds| - 1;
      var (front, mid, failure) := AbortEach(ds[..n], log);
      var s := ds[n].Abort(mid);
      (front + [s.driver], s.log, if failure.None? && s.result.Err? then Some(s.result.error) else failure)
  }

  function AbortAll(ds: seq<Driver>, log: LogState): (seq<Driver>, LogState) {
    var (ended, after, _) := AbortEach(ds, log);
    (ended, after)
  }

  /** Starts the commands in order; a failure aborts those already started. */
  function StartAll(commands: seq<Command>, log: LogState): (LogState, Result<seq<Driver>>) {
    if commands == [] then (log, Ok([]))
    else
      var n := |commands| - 1;
      var (mid, front) := StartAll(commands[..n], log);
      if front.Err? then (mid, front) else StartNext(front.value, commands[n], mid)
  }

  function StartNext(front: seq<Driver>, command: Command, log: LogState): (LogState, Result<seq<Driver>>) {
    var (after, r) := Driver.New(command, log);
    if r.Err? then (AbortAll(front, after).1, Err(r.error)) else (after, Ok(front + [r.value]))
  }

  predicate DistinctScopes(commands: seq<Command>) {
    forall i, j :: 0 <= i < j < |commands| ==> commands[i].scope != commands[j].scope
  }

  /** One shape for all, a single sharing. */
  predicate OneShape(commands: seq<Command>) {
    && commands != [] && commands[0].shape.OneSharing?
    && forall i :: 0 <= i < |commands| ==> commands[i].shape == commands[0].shape
  }

  function NewBundle(commands: seq<Command>, log: LogState): (LogState, Result<seq<Driver>>) {
    var sorted := Sort(commands, CommandIdKey);
    if |commands| < 2 then (log, Err(SupportMismatch))
    else if !AdjacentDistinct(sorted, CommandIdKey) then (log, Err(DuplicateParticipant))
    else if !DistinctScopes(sorted) then (log, Err(DuplicateParticipant))
    else if !OneShape(sorted) then (log, Err(SupportMismatch))
    else StartAll(sorted, log)
  }

  /** A call that reaches one component. */
  datatype Posting =
    | CommitPosting(role: RoleId, commitment: Scalar)
    | OpenPosting(opening: Opening)
    | ReceiptPosting(receipt: TargetReceipt)

  function Call(d: Driver, p: Posting, log: LogState): Step<()> {
    match p
    case CommitPosting(role, commitment) => d.Commit(role, commitment, log)
    case OpenPosting(opening) => d.Open(opening, log)
    case ReceiptPosting(receipt) => d.Receipt(receipt, log)
  }

  /** A call on one component; any failure, an absent component included, aborts all. */
  function OnComponent(ds: seq<Driver>, id: CommandId, p: Posting, log: LogState): (seq<Driver>, LogState, Result<()>) {
    var i := Find(ds, DriverKey, id);
    if i.None? then
      var (ended, after) := AbortAll(ds, log);
      (ended, after, Err(ParticipantNotFound))
    else
      var s := Call(ds[i.value], p, log);
      if s.result.Ok? then (ds[i.value := s.driver], s.log, s.result)
      else
        var (ended, after) := AbortAll(ds[i.value := s.driver], s.log);
        (ended, after, s.result)
  }

  type Round<T> = (Driver, LogState) -> Step<T>

  /** One call on each component in turn, up to the first failure. */
  function Each<T>(call: Round<T>, ds: seq<Driver>, log: LogState): (seq<Driver>, LogState, Result<seq<T>>) {
    if ds == [] then ([], log, Ok([]))
    else
      var n := |ds| - 1;
      var (front, mid, r) := Each(call, ds[..n], log);
      if r.Err? then (front + [ds[n]], mid, r)
      else
        var s := call(ds[n], mid);
        (front + [s.driver], s.log, if s.result.Ok? then Ok(r.value + [s.result.value]) else Err(s.result.error))
  }

  /** `Each`, and after a failure every component aborts. */
  function AllOrAbort<T>(call: Round<T>, ds: seq<Driver>, log: LogState): (seq<Driver>, LogState, Result<seq<T>>) {
    var (moved, mid, r) := Each(call, ds, log);
    if r.Ok? then (moved, mid, r)
    else
      var (ended, after) := AbortAll(moved, mid);
      (ended, after, r)
  }

  function Closing(): Round<()> { (d: Driver, log: LogState) => d.CloseCommitments(log) }
  function Opening(): Round<CandidateView> { (d: Driver, log: LogState) => d.CloseOpenings(log) }
  function Preparing(): Round<()> { (d: Driver, log: LogState) => d.Prepare(log) }

  function Terminate(ds: seq<Driver>, terminal: Terminal): (r: seq<Driver>)
    ensures |r| == |ds|
  {
    seq(|ds|, i requires 0 <= i < |ds| => ds[i].(stage := TerminalStage, terminal := Some(terminal)))
  }

  function Commands(ds: seq<Driver>): (r: seq<Command>)
    ensures |r| == |ds|
  {
    seq(|ds|, i requires 0 <= i < |ds| => ds[i].command)
  }

  lemma {:induction false} PreparingKeepsHandles(ds: seq<Driver>, log: LogState)
    ensures Each(Preparing(), ds, log).1.handles == log.handles
  {
    if ds != [] {
      var n := |ds| - 1;
      PreparingKeepsHandles(ds[..n], log);
      PrepareKeepsHandles(ds[n], Each(Preparing(), ds[..n], log).1);
    }
  }

  function ActivateAll(ds: seq<Driver>, log: LogState): (seq<Driver>, LogState, Result<Terminal>)
    requires HasFresh(log.handles)
  {
    if ds == [] then (ds, log, Err(EmptyInput))
    else if !OneShape(Commands(ds)) then
      var (ended, after) := AbortAll(ds, log);
      (ended, after, Err(SupportMismatch))
    else if ds[0].terminal.Some? then
      var same := forall i :: 0 <= i < |ds| ==> ds[i].terminal == ds[0].terminal;
      (ds, log, if same && ds[0].terminal.value.Activated? then Ok(ds[0].terminal.value) else Err(AlreadyTerminal))
    else if exists i :: 0 <= i < |ds| && ds[i].terminal.Some? then (ds, log, Err(AlreadyTerminal))
    else InstallAll(ds, log)
  }

  /** Prepares every component and activates all under one handle. */
  function InstallAll(ds: seq<Driver>, log: LogState): (seq<Driver>, LogState, Result<Terminal>)
    requires HasFresh(log.handles)
  {
    PreparingKeepsHandles(ds, log);
    var (ready, mid, r) := Each(Preparing(), ds, log);
    if r.Err? then
      var (ended, after) := AbortAll(ready, mid);
      (ended, after, Err(r.error))
    else
      var (after, t) := mid.ActivateBundle(CommandIds(ready));
      if t.Ok? then (Terminate(ready, t.value), after, t)
      else
        var (ended, last) := AbortAll(ready, after);
        (ended, last, t)
  }

  /** Aborts every component; an activated one makes the call fail. */
  function AbortBundle(ds: seq<Driver>, log: LogState): (seq<Driver>, LogState, Result<Terminal>) {
    var (ended, after, failure) := AbortEach(ds, log);
    (ended, after, if failure.Some? then Err(failure.value) else Ok(Aborted))
  }

  // ----- what a bundle keeps

  function StageOf(rank: nat): Stage {
    if rank == 0 then CommitStage else if rank == 1 then OpenStage else if rank == 2 then ReceiptStage else ReadyStage
  }

  /** Driver and log agree that the command has passed `rank` phases and goes on. */
  ghost predicate Live(d: Driver, log: LogState, rank: nat) {
    && d.command.id in log.transcripts && log.transcripts[d.command.id].terminal.None? && d.terminal.None?
    && Progress(log.transcripts[d.command.id].next) == rank
    && d.stage == StageOf(rank) && d.commitClosed == (rank >= 1) && d.view.Some? == (rank >= 2)
  }

  /** Driver and log agree on the terminal. */
  ghost predicate Ended(d: Driver, log: LogState, terminal: Terminal) {
    && d.command.id in log.transcripts && log.transcripts[d.command.id].terminal == Some(terminal)
    && d.terminal == Some(terminal) && d.stage == TerminalStage
  }

  ghost predicate Abortable(d: Driver, log: LogState) {
    Ended(d, log, Aborted) || exists rank :: Live(d, log, rank)
  }

  /** The command has passed `rank` phases, and nothing is posted in a later one. */
  ghost predicate Level(d: Driver, log: LogState, rank: nat) {
    && d.command.id in log.transcripts && Progress(log.transcripts[d.command.id].next) >= rank
    && forall key :: key in log.transcripts[d.command.id].posts ==> Rank(key.0) <= rank
  }

  ghost predicate AllLive(ds: seq<Driver>, log: LogState, rank: nat) {
    forall i :: 0 <= i < |ds| ==> Live(ds[i], log, rank)
  }

  ghost predicate AllEnded(ds: seq<Driver>, log: LogState, terminal: Terminal) {
    forall i :: 0 <= i < |ds| ==> Ended(ds[i], log, terminal)
  }

  ghost predicate AllAbortable(ds: seq<Driver>, log: LogState) {
    forall i :: 0 <= i < |ds| ==> Abortable(ds[i], log)
  }

  ghost predicate AllLevel(ds: seq<Driver>, log: LogState, rank: nat) {
    forall i :: 0 <= i < |ds| ==> Level(ds[i], log, rank)
  }

  /** No opening before every component closed its commitments, and no receipt before
    * every component closed its openings.
    */
  ghost predicate Barriers(ds: seq<Driver>, log: LogState) {
    forall i, j, key :: 0 <= i < |ds| && 0 <= j < |ds| && HasPost(ds[i], log, key) ==> Passed(ds[j], log, Rank(key.0))
  }

  predicate HasPost(d: Driver, log: LogState, key: PostKey) {
    d.command.id in log.transcripts && key in log.transcripts[d.command.id].posts
  }

  predicate Passed(d: Driver, log: LogState, rank: nat) {
    d.command.id in log.transcripts && Progress(log.transcripts[d.command.id].next) >= rank
  }

  /** One terminal for all, which is the log's: none with a common phase, or one and the
    * same; and the barriers hold.
    */
  ghost predicate Together(ds: seq<Driver>, log: LogState) {
    && (|| (exists rank | 0 <= rank <= 2 :: AllLive(ds, log, rank))
        || (exists terminal :: AllEnded(ds, log, terminal)))
    && Barriers(ds, log)
  }

  ghost predicate BundleInv(ds: seq<Driver>, log: LogState) {
    && ds != [] && StrictlySorted(ds, DriverKey) && OneShape(Commands(ds))
    && exists rank | 0 <= rank <= 2 :: Standing(ds, log, rank)
  }

  ghost predicate Standing(ds: seq<Driver>, log: LogState, rank: nat) {
    && AllLevel(ds, log, rank)
    && (AllLive(ds, log, rank) || exists terminal :: AllEnded(ds, log, terminal))
  }

  lemma {:induction false} InvIsTogether(ds: seq<Driver>, log: LogState)
    requires BundleInv(ds, log)
    ensures Together(ds, log)
  {
    var rank :| 0 <= rank <= 2 && Standing(ds, log, rank);
    forall i, j, key | 0 <= i < |ds| && 0 <= j < |ds| && HasPost(ds[i], log, key)
      ensures Passed(ds[j], log, Rank(key.0))
    {
      assert Level(ds[i], log, rank) && Level(ds[j], log, rank);
    }
  }

  // ----- calls on one component

  /** Only one transcript changes. */
  ghost predicate Touches(log: LogState, after: LogState, id: CommandId) {
    && after == log.(transcripts := after.transcripts) && after.transcripts.Keys == log.transcripts.Keys
    && forall c :: c in log.transcripts && c != id ==> after.transcripts[c] == log.transcripts[c]
  }

  /** How a call on a live component ends: live at `next`, or aborted in the log too. */
  ghost predicate Settles<T>(s: Step<T>, d: Driver, log: LogState, rank: nat, next: nat) {
    && s.driver.command == d.command && Touches(log, s.log, d.command.id) && Level(s.driver, s.log, rank)
    && if s.result.Ok? then Live(s.driver, s.log, next) else Ended(s.driver, s.log, Aborted)
  }

  lemma {:induction false} AbortWithSettles<T>(d: Driver, log: LogState, error: Error, rank: nat, next: nat)
    requires Live(d, log, rank) && Level(d, log, rank)
    ensures Settles(d.AbortWith<T>(log, error), d, log, rank, next) && d.AbortWith<T>(log, error).result.Err?
  {}

  lemma {:induction false} CallSettles(d: Driver, p: Posting, log: LogState, rank: nat)
    requires Live(d, log, rank) && Level(d, log, rank) && rank <= 2
    ensures Settles(Call(d, p, log), d, log, rank, rank)
  {
    hide RoleBytes, TargetBytes, ScalarBytes, ReceiptBytes, TargetShape.Targets, Driver.CheckOpening,
      Driver.AbortWith, LogState.Post, Settles;
    forall error: Error
      ensures Settles(d.AbortWith<()>(log, error), d, log, rank, rank) && d.AbortWith<()>(log, error).result.Err?
    {
      AbortWithSettles<()>(d, log, error, rank, rank);
    }
    SameSettles(d, log, rank);
    match p
    case CommitPosting(role, commitment) =>
      var e := d.(commitments := d.commitments[role := commitment]);
      PostSettles(d, e, log, rank, CommitPhase, RoleBytes(role), ScalarBytes(commitment));
      var (after, r) := log.Post(d.command.id, CommitPhase, RoleBytes(role), ScalarBytes(commitment));
      if role in d.commitments {
        assert Call(d, p, log) == if d.commitments[role] == commitment then Step(d, log, Ok(()))
          else d.AbortWith<()>(log, ReplayMismatch);
      } else if d.stage != CommitStage || d.command.RoleOf(role).Err? {
        assert Call(d, p, log) == d.AbortWith<()>(log, WrongStage);
      } else {
        assert Call(d, p, log) == if r.Err? then d.AbortWith<()>(after, r.error) else Step(e, after, Ok(()));
      }
    case OpenPosting(opening) =>
      var e, body := d.(openings := d.openings[opening.role := opening]), d.CheckOpening(opening);
      if opening.role in d.openings {
        assert Call(d, p, log) ==
          if d.openings[opening.role] == opening then Step(d, log, Ok(())) else d.AbortWith<()>(log, ReplayMismatch);
      } else if d.stage != OpenStage || body.Err? {
        assert Call(d, p, log) == d.AbortWith<()>(log, if d.stage != OpenStage then WrongStage else body.error);
      } else {
        PostSettles(d, e, log, rank, OpenPhase, RoleBytes(opening.role), body.value);
        var (after, r) := log.Post(d.command.id, OpenPhase, RoleBytes(opening.role), body.value);
        assert Call(d, p, log) == if r.Err? then d.AbortWith<()>(after, r.error) else Step(e, after, Ok(()));
      }
    case ReceiptPosting(receipt) =>
      var e, body := d.(receipts := d.receipts[receipt.target := receipt]), ReceiptBytes(receipt);
      if receipt.target in d.receipts {
        assert Call(d, p, log) ==
          if d.receipts[receipt.target] == receipt then Step(d, log, Ok(())) else d.AbortWith<()>(log, ReplayMismatch);
      } else if Call(d, p, log) != d.AbortWith<()>(log, InvalidTranscript) && d.view.Some? && body.Ok? {
        PostSettles(d, e, log, rank, ReceiptPhase, TargetBytes(receipt.target), body.value);
        var (after, r) := log.Post(d.command.id, ReceiptPhase, TargetBytes(receipt.target), body.value);
        assert Call(d, p, log) == if r.Err? then d.AbortWith<()>(after, r.error) else Step(e, after, Ok(()));
      } else {
        assert Call(d, p, log) == d.AbortWith<()>(log, InvalidTranscript)
          || Call(d, p, log) == d.AbortWith<()>(log, if d.view.None? then WrongStage else body.error);
      }
  }

  /** A post that lands leaves a driver that only recorded it live. */
  lemma {:induction false} PostSettles(d: Driver, e: Driver, log: LogState, rank: nat, phase: Phase, role: bytes,
      payload: bytes)
    requires Live(d, log, rank) && Level(d, log, rank)
    requires e == d.(commitments := e.commitments, openings := e.openings, receipts := e.receipts)
    ensures var (after, r) := log.Post(d.command.id, phase, role, payload);
      && (r.Err? ==> after == log) && (r.Ok? ==> Settles(Step(e, after, Ok(())), d, log, rank, rank))
  {}

  lemma {:induction false} SameSettles(d: Driver, log: LogState, rank: nat)
    requires Live(d, log, rank) && Level(d, log, rank)
    ensures Settles(Step(d, log, Ok(())), d, log, rank, rank)
  {}

  lemma {:induction false} CloseSettles(d: Driver, log: LogState, rank: nat)
    requires Live(d, log, rank) && Level(d, log, rank) && rank <= 2
    ensures Settles(Closing()(d, log), d, log, rank, if rank == 0 then 1 else rank)
  {
    hide Driver.AllCommitted, Driver.AbortWith;
    var next := if rank == 0 then 1 else rank;
    forall error: Error
      ensures Settles(d.AbortWith<()>(log, error), d, log, rank, next) && d.AbortWith<()>(log, error).result.Err?
    {
      AbortWithSettles<()>(d, log, error, rank, next);
    }
  }

  lemma {:induction false} OpenSettles(d: Driver, log: LogState, rank: nat)
    requires Live(d, log, rank) && Level(d, log, rank) && rank <= 2
    ensures Settles(Opening()(d, log), d, log, rank, 2)
  {
    hide BuildView, Driver.AllOpened, Driver.AbortWith;
    forall error: Error
      ensures Settles(d.AbortWith<CandidateView>(log, error), d, log, rank, 2)
      ensures d.AbortWith<CandidateView>(log, error).result.Err?
    {
      AbortWithSettles<CandidateView>(d, log, error, rank, 2);
    }
    var (after, r) := log.ClosePhase(d.command.id, OpenPhase);
    if rank == 1 && r.Ok? { assert after.transcripts[d.command.id].next == Some(ReceiptPhase); }
  }

  lemma {:induction false} PrepareSettles(d: Driver, log: LogState, rank: nat)
    requires Live(d, log, rank) && Level(d, log, rank) && rank <= 2
    ensures Settles(Preparing()(d, log), d, log, rank, 3)
  {
    hide TargetShape.Targets, Driver.AbortWith;
    forall error: Error
      ensures Settles(d.AbortWith<()>(log, error), d, log, rank, 3) && d.AbortWith<()>(log, error).result.Err?
    {
      AbortWithSettles<()>(d, log, error, rank, 3);
    }
  }

  /** An ended component ignores every call. */
  lemma {:induction false} EndedIsInert(d: Driver, log: LogState, terminal: Terminal)
    requires Ended(d, log, terminal)
    ensures forall p :: Call(d, p, log).driver == d && Call(d, p, log).log == log
    ensures d.Abort(log).driver == d && d.Abort(log).log == log
    ensures d.CloseCommitments(log).driver == d && d.CloseCommitments(log).log == log
    ensures d.CloseOpenings(log).driver == d && d.CloseOpenings(log).log == log
  {
    hide RoleBytes, TargetBytes, ScalarBytes, ReceiptBytes, TargetShape.Targets, Driver.CheckOpening, BuildView;
    forall error: Error
      ensures d.AbortWith<()>(log, error).driver == d && d.AbortWith<()>(log, error).log == log
      ensures d.AbortWith<CandidateView>(log, error).driver == d && d.AbortWith<CandidateView>(log, error).log == log
    {}
  }

  // ----- rounds

  function IdSet(ds: seq<Driver>): set<CommandId> { set d | d in ds :: d.command.id }

  /** Nothing outside the given commands changes. */
  ghost predicate Confined(log: LogState, after: LogState, ids: set<CommandId>) {
    && after == log.(transcripts := after.transcripts) && after.transcripts.Keys == log.transcripts.Keys
    && forall c :: c in log.transcripts && c !in ids ==> after.transcripts[c] == log.transcripts[c]
  }

  ghost predicate SameCommands(ds: seq<Driver>, es: seq<Driver>) {
    |es| == |ds| && forall i :: 0 <= i < |ds| ==> es[i].command == ds[i].command
  }

  ghost predicate Separate(ds: seq<Driver>) {
    forall i, j :: 0 <= i < j < |ds| ==> ds[i].command.id != ds[j].command.id
  }

  lemma {:induction false} SameTranscript(d: Driver, log: LogState, after: LogState)
    requires d.command.id in log.transcripts && d.command.id in after.transcripts
    requires after.transcripts[d.command.id] == log.transcripts[d.command.id]
    ensures forall rank :: Live(d, log, rank) ==> Live(d, after, rank)
    ensures forall rank :: Level(d, log, rank) ==> Level(d, after, rank)
    ensures forall terminal :: Ended(d, log, terminal) ==> Ended(d, after, terminal)
    ensures Abortable(d, log) ==> Abortable(d, after)
  {}

  /** The transcripts of earlier components are out of the last one's reach, and the
    * other way round.
    */
  lemma {:induction false} LastApart(ds: seq<Driver>, log: LogState, front: seq<Driver>, mid: LogState, after: LogState)
    requires ds != [] && Separate(ds) && SameCommands(ds[..|ds| - 1], front)
    requires forall i :: 0 <= i < |ds| ==> ds[i].command.id in log.transcripts
    requires Confined(log, mid, IdSet(ds[..|ds| - 1])) && Touches(mid, after, ds[|ds| - 1].command.id)
    ensures Confined(log, after, IdSet(ds))
    ensures mid.transcripts[ds[|ds| - 1].command.id] == log.transcripts[ds[|ds| - 1].command.id]
    ensures forall i :: 0 <= i < |front| ==>
      && front[i].command.id in mid.transcripts && front[i].command.id in after.transcripts
      && after.transcripts[front[i].command.id] == mid.transcripts[front[i].command.id]
  {
    var n := |ds| - 1;
    assert ds == ds[..n] + [ds[n]];
    assert ds[n].command.id !in IdSet(ds[..n]);
    forall i | 0 <= i < n ensures front[i].command.id == ds[i].command.id { assert ds[..n][i] == ds[i]; }
  }

  ghost predicate Settling<T>(call: Round<T>, rank: nat, next: nat) {
    forall d: Driver, log: LogState :: Live(d, log, rank) && Level(d, log, rank) ==>
      Settles(call(d, log), d, log, rank, next)
  }

  /** After a round every component has moved on, or all can still abort. */
  lemma {:induction false} EachSettles<T>(call: Round<T>, ds: seq<Driver>, log: LogState, rank: nat, next: nat)
    requires Settling(call, rank, next) && Separate(ds) && AllLive(ds, log, rank) && AllLevel(ds, log, rank)
    ensures var (es, after, r) := Each(call, ds, log);
      && SameCommands(ds, es) && Confined(log, after, IdSet(ds)) && AllLevel(es, after, rank)
      && (if r.Ok? then AllLive(es, after, next) else AllAbortable(es, after))
  {
    hide Live, Level, Ended, Confined, Touches, IdSet, Settling;
    if ds == [] {
      assert Confined(log, log, IdSet(ds)) by { NothingConfined(log, IdSet(ds)); }
    } else {
      var n := |ds| - 1;
      var (front, mid, r) := Each(call, ds[..n], log);
      EachSettles(call, ds[..n], log, rank, next);
      LevelKnown(ds, log, rank);
      NothingTouched(mid, ds[n].command.id);
      LastApart(ds, log, front, mid, mid);
      SameTranscript(ds[n], log, mid);
      assert Live(ds[n], mid, rank) && Level(ds[n], mid, rank);
      if r.Ok? {
        var s := call(ds[n], mid);
        SettlesAt(call, ds[n], mid, rank, next);
        LastApart(ds, log, front, mid, s.log);
        forall i | 0 <= i < n ensures Live(front[i], s.log, next) && Level(front[i], s.log, rank) {
          SameTranscript(front[i], mid, s.log);
        }
      }
    }
  }

  lemma {:induction false} SettlesAt<T>(call: Round<T>, d: Driver, log: LogState, rank: nat, next: nat)
    requires Settling(call, rank, next) && Live(d, log, rank) && Level(d, log, rank)
    ensures Settles(call(d, log), d, log, rank, next)
  {
    hide Settles, Live, Level;
  }

  lemma {:induction false} NothingConfined(log: LogState, ids: set<CommandId>)
    ensures Confined(log, log, ids)
  {}

  lemma {:induction false} NothingTouched(log: LogState, id: CommandId)
    ensures Touches(log, log, id)
  {}

  lemma {:induction false} LevelKnown(ds: seq<Driver>, log: LogState, rank: nat)
    requires AllLevel(ds, log, rank)
    ensures forall i :: 0 <= i < |ds| ==> ds[i].command.id in log.transcripts
  {
    forall i | 0 <= i < |ds| ensures ds[i].command.id in log.transcripts { assert Level(ds[i], log, rank); }
  }

  lemma {:induction false} AbortSettles(d: Driver, log: LogState, rank: nat)
    requires Abortable(d, log) && Level(d, log, rank)
    ensures var s := d.Abort(log);
      && s.driver.command == d.command && Touches(log, s.log, d.command.id)
      && Level(s.driver, s.log, rank) && Ended(s.driver, s.log, Aborted) && s.result.Ok?
  {}

  lemma {:induction false} AbortEachSettles(ds: seq<Driver>, log: LogState, rank: nat)
    requires Separate(ds) && AllAbortable(ds, log) && AllLevel(ds, log, rank)
    ensures var (es, after, failure) := AbortEach(ds, log);
      && SameCommands(ds, es) && Confined(log, after, IdSet(ds)) && AllLevel(es, after, rank)
      && AllEnded(es, after, Aborted) && failure.None?
  {
    hide Live, Level, Ended, Abortable, Confined, Touches, IdSet, Driver.Abort;
    if ds == [] {
      NothingConfined(log, IdSet(ds));
    } else {
      var n := |ds| - 1;
      var (front, mid, failure) := AbortEach(ds[..n], log);
      AbortEachSettles(ds[..n], log, rank);
      LevelKnown(ds, log, rank);
      NothingTouched(mid, ds[n].command.id);
      LastApart(ds, log, front, mid, mid);
      SameTranscript(ds[n], log, mid);
      AbortSettles(ds[n], mid, rank);
      var s := ds[n].Abort(mid);
      LastApart(ds, log, front, mid, s.log);
      forall i | 0 <= i < n ensures Ended(front[i], s.log, Aborted) && Level(front[i], s.log, rank) {
        SameTranscript(front[i], mid, s.log);
      }
    }
  }

  lemma {:induction false} EndedRounds(ds: seq<Driver>, log: LogState, terminal: Terminal)
    requires AllEnded(ds, log, terminal)
    ensures AbortEach(ds, log).0 == ds && AbortEach(ds, log).1 == log
    ensures Each(Closing(), ds, log).0 == ds && Each(Closing(), ds, log).1 == log
    ensures Each(Opening(), ds, log).0 == ds && Each(Opening(), ds, log).1 == log
  {
    hide Ended, Driver.Abort, Driver.CloseCommitments, Driver.CloseOpenings, Call;
    if ds != [] {
      var n := |ds| - 1;
      EndedRounds(ds[..n], log, terminal);
      EndedIsInert(ds[n], log, terminal);
      assert ds == ds[..n] + [ds[n]];
    }
  }

  // ----- every public call

  /** The bundle's invariant after a call, on the same commands. */
  ghost predicate KeepsBundle(ds: seq<Driver>, es: seq<Driver>, after: LogState) {
    BundleInv(es, after) && SameCommands(ds, es)
  }

  lemma {:induction false} Kept(ds: seq<Driver>, log: LogState, es: seq<Driver>, after: LogState, rank: nat)
    requires BundleInv(ds, log) && SameCommands(ds, es) && rank <= 2 && Standing(es, after, rank)
    ensures KeepsBundle(ds, es, after)
  {
    hide Standing;
    assert Commands(es) == Commands(ds);
    forall i, j | 0 <= i < j < |es| ensures DriverKey(es[i]) < DriverKey(es[j]) {
      assert DriverKey(ds[i]) < DriverKey(ds[j]);
    }
  }

  lemma {:induction false} SortedIsSeparate(ds: seq<Driver>)
    requires StrictlySorted(ds, DriverKey)
    ensures Separate(ds)
  {
    forall i, j | 0 <= i < j < |ds| ensures ds[i].command.id != ds[j].command.id {
      assert DriverKey(ds[i]) < DriverKey(ds[j]);
    }
  }

  /** Aborting what is left after a failed call ends every component. */
  lemma {:induction false} AbortFrom(ds: seq<Driver>, log: LogState, moved: seq<Driver>, mid: LogState, rank: nat)
    requires BundleInv(ds, log) && SameCommands(ds, moved) && rank <= 2
    requires AllAbortable(moved, mid) && AllLevel(moved, mid, rank)
    ensures var (es, after, failure) := AbortEach(moved, mid);
      KeepsBundle(ds, es, after) && AllEnded(es, after, Aborted) && failure.None?
  {
    hide Abortable, Level, Ended, AllAbortable, BundleInv, KeepsBundle, Confined, OneShape;
    InvSeparates(ds, log);
    forall i, j | 0 <= i < j < |moved| ensures moved[i].command.id != moved[j].command.id {
      assert ds[i].command.id != ds[j].command.id;
    }
    AbortEachSettles(moved, mid, rank);
    var (es, after, _) := AbortEach(moved, mid);
    assert Standing(es, after, rank);
    Kept(ds, log, es, after, rank);
  }

  lemma {:induction false} InvSeparates(ds: seq<Driver>, log: LogState)
    requires BundleInv(ds, log)
    ensures Separate(ds) && ds != []
  {
    SortedIsSeparate(ds);
  }

  lemma {:induction false} LiveIsAbortable(ds: seq<Driver>, log: LogState, rank: nat)
    requires AllLive(ds, log, rank)
    ensures AllAbortable(ds, log)
  {
    hide Live;
    forall i | 0 <= i < |ds| ensures Abortable(ds[i], log) { assert Live(ds[i], log, rank); }
  }

  lemma {:induction false} RoundKeepsBundle<T>(call: Round<T>, ds: seq<Driver>, log: LogState, rank: nat, next: nat)
    requires BundleInv(ds, log) && AllLive(ds, log, rank) && AllLevel(ds, log, rank) && Settling(call, rank, next)
    requires rank <= next <= 2
    ensures var (es, after, _) := AllOrAbort(call, ds, log); KeepsBundle(ds, es, after)
  {
    hide Live, Level, Ended, BundleInv, KeepsBundle, Confined, Settling, Abortable, OneShape;
    InvSeparates(ds, log);
    EachSettles(call, ds, log, rank, next);
    var (es, after, r) := Each(call, ds, log);
    if r.Ok? {
      LevelUp(es, after, rank, next);
      assert Standing(es, after, next);
      Kept(ds, log, es, after, next);
    } else {
      AbortFrom(ds, log, es, after, rank);
    }
  }

  lemma {:induction false} LevelUp(ds: seq<Driver>, log: LogState, rank: nat, next: nat)
    requires AllLevel(ds, log, rank) && AllLive(ds, log, next) && rank <= next
    ensures AllLevel(ds, log, next)
  {
    forall i | 0 <= i < |ds| ensures Level(ds[i], log, next) {
      assert Level(ds[i], log, rank) && Live(ds[i], log, next);
    }
  }

  lemma {:induction false} RoundsKeep(ds: seq<Driver>, log: LogState)
    requires BundleInv(ds, log)
    ensures var (es, after, _) := AllOrAbort(Closing(), ds, log); KeepsBundle(ds, es, after)
    ensures var (es, after, _) := AllOrAbort(Opening(), ds, log); KeepsBundle(ds, es, after)
  {
    hide Live, Level, Ended, KeepsBundle, Closing, Opening, AllOrAbort;
    var rank :| 0 <= rank <= 2 && Standing(ds, log, rank);
    if terminal :| AllEnded(ds, log, terminal) {
      EndedRounds(ds, log, terminal);
      KeepsItself(ds, log);
      RoundOnEnded(Closing(), ds, log);
      RoundOnEnded(Opening(), ds, log);
    } else {
      RoundsSettle(rank);
      RoundKeepsBundle(Closing(), ds, log, rank, if rank == 0 then 1 else rank);
      RoundKeepsBundle(Opening(), ds, log, rank, 2);
    }
  }

  lemma {:induction false} RoundOnEnded<T>(call: Round<T>, ds: seq<Driver>, log: LogState)
    requires Each(call, ds, log).0 == ds && Each(call, ds, log).1 == log
    requires AbortEach(ds, log).0 == ds && AbortEach(ds, log).1 == log
    ensures AllOrAbort(call, ds, log).0 == ds && AllOrAbort(call, ds, log).1 == log
  {}

  lemma {:induction false} RoundsSettle(rank: nat)
    requires rank <= 2
    ensures Settling(Closing(), rank, if rank == 0 then 1 else rank)
    ensures Settling(Opening(), rank, 2)
    ensures Settling(Preparing(), rank, 3)
  {
    hide Live, Level, Settles, Closing, Opening, Preparing;
    forall d: Driver, log: LogState | Live(d, log, rank) && Level(d, log, rank)
      ensures Settles(Closing()(d, log), d, log, rank, if rank == 0 then 1 else rank)
      ensures Settles(Opening()(d, log), d, log, rank, 2)
      ensures Settles(Preparing()(d, log), d, log, rank, 3)
    {
      CloseSettles(d, log, rank);
      OpenSettles(d, log, rank);
      PrepareSettles(d, log, rank);
    }
  }

  lemma {:induction false} KeepsItself(ds: seq<Driver>, log: LogState)
    requires BundleInv(ds, log)
    ensures KeepsBundle(ds, ds, log)
  {}

  /** A call on one component of a live bundle. */
  lemma {:induction false} LiveComponent(ds: seq<Driver>, i: nat, p: Posting, log: LogState, rank: nat)
    requires BundleInv(ds, log) && i < |ds| && rank <= 2 && AllLive(ds, log, rank) && AllLevel(ds, log, rank)
    ensures var s := Call(ds[i], p, log);
      var es := ds[i := s.driver];
      && SameCommands(ds, es) && AllLevel(es, s.log, rank)
      && (if s.result.Ok? then AllLive(es, s.log, rank) else AllAbortable(es, s.log))
  {
    hide Live, Level, Ended, Call, OneShape;
    InvSeparates(ds, log);
    LevelKnown(ds, log, rank);
    assert Live(ds[i], log, rank) && Level(ds[i], log, rank);
    CallSettles(ds[i], p, log, rank);
    var s := Call(ds[i], p, log);
    forall k | 0 <= k < |ds| && k != i ensures Live(ds[k], s.log, rank) && Level(ds[k], s.log, rank) {
      assert ds[k].command.id != ds[i].command.id;
      SameTranscript(ds[k], log, s.log);
    }
  }

  lemma {:induction false} ComponentKeeps(ds: seq<Driver>, id: CommandId, p: Posting, log: LogState)
    requires BundleInv(ds, log)
    ensures var (es, after, _) := OnComponent(ds, id, p, log); KeepsBundle(ds, es, after)
  {
    hide Live, Level, Ended, KeepsBundle, Call, BundleInv, Abortable, AbortEach;
    var i := Find(ds, DriverKey, id);
    var rank := RankOf(ds, log);
    if terminal :| AllEnded(ds, log, terminal) {
      KeepsItself(ds, log);
      EndedRounds(ds, log, terminal);
      if i.Some? {
        assert Ended(ds[i.value], log, terminal);
        EndedIsInert(ds[i.value], log, terminal);
        assert ds[i.value := ds[i.value]] == ds;
      }
    } else if i.None? {
      LiveIsAbortable(ds, log, rank);
      AbortFrom(ds, log, ds, log, rank);
    } else {
      LiveComponent(ds, i.value, p, log, rank);
      var s := Call(ds[i.value], p, log);
      if s.result.Ok? {
        Kept(ds, log, ds[i.value := s.driver], s.log, rank);
      } else {
        AbortFrom(ds, log, ds[i.value := s.driver], s.log, rank);
      }
    }
  }

  ghost function RankOf(ds: seq<Driver>, log: LogState): (rank: nat)
    requires BundleInv(ds, log)
    ensures rank <= 2 && Standing(ds, log, rank)
  {
    var rank :| 0 <= rank <= 2 && Standing(ds, log, rank);
    rank
  }

  lemma {:induction false} AbortKeeps(ds: seq<Driver>, log: LogState)
    requires BundleInv(ds, log)
    ensures var (es, after, r) := AbortBundle(ds, log);
      KeepsBundle(ds, es, after) && exists terminal :: AllEnded(es, after, terminal)
  {
    hide Live, Level, Ended, KeepsBundle, BundleInv, Abortable, AbortEach;
    var rank := RankOf(ds, log);
    if terminal :| AllEnded(ds, log, terminal) {
      KeepsItself(ds, log);
      EndedRounds(ds, log, terminal);
    } else {
      LiveIsAbortable(ds, log, rank);
      AbortFrom(ds, log, ds, log, rank);
    }
  }

  // ----- activation

  /** Activating live commands leaves the log alone or ends them all under one handle. */
  lemma {:induction false} ActivatesTogether(log: LogState, ids: seq<CommandId>)
    requires HasFresh(log.handles) && ids != []
    requires forall c :: c in ids ==> c in log.transcripts && log.transcripts[c].terminal.None?
    ensures var (after, t) := log.ActivateBundle(ids);
      && (t.Err? ==> after == log)
      && (t.Ok? ==>
        && t.value.Activated? && after.transcripts.Keys == log.transcripts.Keys
        && forall c :: c in log.transcripts ==>
          after.transcripts[c] == if c in ids then log.transcripts[c].(terminal := Some(t.value))
            else log.transcripts[c])
  {
    hide HandleFor, FirstFresh, Sort, LogState.Scan, HasFresh, LogState.NextCounter;
    ScanIff(log, ids);
    assert ids[0] in ids;
  }

  lemma {:induction false} Terminated(ds: seq<Driver>, log: LogState, after: LogState, rank: nat, terminal: Terminal)
    requires AllLevel(ds, log, rank) && after.transcripts.Keys == log.transcripts.Keys
    requires forall c :: c in log.transcripts ==>
      after.transcripts[c] == if c in CommandIds(ds) then log.transcripts[c].(terminal := Some(terminal))
        else log.transcripts[c]
    ensures SameCommands(ds, Terminate(ds, terminal))
    ensures AllLevel(Terminate(ds, terminal), after, rank) && AllEnded(Terminate(ds, terminal), after, terminal)
  {
    var es := Terminate(ds, terminal);
    forall i | 0 <= i < |ds| ensures Level(es[i], after, rank) && Ended(es[i], after, terminal) {
      assert Level(ds[i], log, rank);
      assert CommandIds(ds)[i] in CommandIds(ds);
    }
  }

  lemma {:induction false} InstallKeeps(ds: seq<Driver>, log: LogState, rank: nat)
    requires BundleInv(ds, log) && rank <= 2 && AllLive(ds, log, rank) && AllLevel(ds, log, rank)
      && HasFresh(log.handles)
    ensures var (es, after, r) := InstallAll(ds, log);
      && KeepsBundle(ds, es, after)
      && AllEnded(es, after, if r.Ok? then r.value else Aborted) && (r.Ok? ==> r.value.Activated?)
  {
    hide Live, Level, Ended, KeepsBundle, BundleInv, Each, AbortEach, Preparing, LogState.ActivateBundle, HasFresh,
      Settling;
    hide Abortable, Confined, OneShape;
    InvSeparates(ds, log);
    RoundsSettle(rank);
    EachSettles(Preparing(), ds, log, rank, 3);
    PreparingKeepsHandles(ds, log);
    var (ready, mid, r) := Each(Preparing(), ds, log);
    if r.Err? {
      AbortFrom(ds, log, ready, mid, rank);
    } else {
      LiveTerminals(ready, mid, 3);
      ActivatesTogether(mid, CommandIds(ready));
      var (after, t) := mid.ActivateBundle(CommandIds(ready));
      if t.Ok? {
        Terminated(ready, mid, after, rank, t.value);
        Kept(ds, log, Terminate(ready, t.value), after, rank);
      } else {
        LiveIsAbortable(ready, mid, 3);
        AbortFrom(ds, log, ready, mid, rank);
      }
    }
  }

  lemma {:induction false} LiveTerminals(ds: seq<Driver>, log: LogState, rank: nat)
    requires AllLive(ds, log, rank)
    ensures forall c :: c in CommandIds(ds) ==> c in log.transcripts && log.transcripts[c].terminal.None?
    ensures forall i :: 0 <= i < |ds| ==> ds[i].terminal.None?
  {
    forall i | 0 <= i < |ds|
      ensures ds[i].command.id in log.transcripts && log.transcripts[ds[i].command.id].terminal.None?
        && ds[i].terminal.None?
    {
      assert Live(ds[i], log, rank);
    }
  }

  /** Activation installs every component under one handle, or ends every one alike. */
  lemma {:induction false} ActivateKeeps(ds: seq<Driver>, log: LogState)
    requires BundleInv(ds, log) && HasFresh(log.handles)
    ensures var (es, after, r) := ActivateAll(ds, log);
      && KeepsBundle(ds, es, after)
      && (r.Ok? ==> AllEnded(es, after, r.value) && r.value.Activated?)
      && (r.Err? ==> exists terminal :: AllEnded(es, after, terminal))
  {
    hide Live, Level, KeepsBundle, InstallAll, HasFresh, AbortEach;
    var rank := RankOf(ds, log);
    if terminal :| AllEnded(ds, log, terminal) {
      KeepsItself(ds, log);
      assert Ended(ds[0], log, terminal);
    } else {
      LiveTerminals(ds, log, rank);
      InstallKeeps(ds, log, rank);
    }
  }

  // ----- starting

  /** The commands have no transcript yet. */
  ghost predicate Unused(commands: seq<Command>, log: LogState) {
    forall i :: 0 <= i < |commands| ==> commands[i].id !in log.transcripts
  }

  ghost predicate DistinctIds(commands: seq<Command>) {
    forall i, j :: 0 <= i < j < |commands| ==> commands[i].id != commands[j].id
  }

  /** What the log holds of the commands after a failed start. */
  ghost predicate OnlyAborted(commands: seq<Command>, log: LogState) {
    forall i :: 0 <= i < |commands| && commands[i].id in log.transcripts ==>
      log.transcripts[commands[i].id].terminal == Some(Aborted)
  }

  lemma {:induction false} StartsOne(command: Command, log: LogState)
    requires command.id !in log.transcripts
    ensures var (after, r) := Driver.New(command, log);
      && (r.Err? ==> after == log)
      && (r.Ok? ==>
        && r.value.command == command && Live(r.value, after, 0) && Level(r.value, after, 0)
        && after.transcripts.Keys == log.transcripts.Keys + {command.id}
        && forall c :: c in log.transcripts ==> after.transcripts[c] == log.transcripts[c])
  {
    hide CommandBytes;
  }

  lemma {:induction false} StartSettles(commands: seq<Command>, log: LogState)
    requires DistinctIds(commands) && Unused(commands, log)
    ensures var (after, r) := StartAll(commands, log);
      && (r.Ok? ==>
        && Commands(r.value) == commands && AllLive(r.value, after, 0) && AllLevel(r.value, after, 0)
        && after.transcripts.Keys == log.transcripts.Keys + set i | 0 <= i < |commands| :: commands[i].id)
      && (r.Err? ==>
        && OnlyAborted(commands, after)
        && after.transcripts.Keys <= log.transcripts.Keys + set i | 0 <= i < |commands| :: commands[i].id)
  {
    hide Live, Level, Ended, Driver.New, AbortEach, Confined;
    if commands != [] {
      var n := |commands| - 1;
      StartSettles(commands[..n], log);
      var (mid, front) := StartAll(commands[..n], log);
      assert commands[n].id !in mid.transcripts;
      forall i | 0 <= i < n ensures commands[..n][i].id == commands[i].id {}
      if front.Ok? {
        StartsOne(commands[n], mid);
        StartedMore(commands, front.value, mid);
      }
    }
  }

  lemma {:induction false} StartedMore(commands: seq<Command>, front: seq<Driver>, mid: LogState)
    requires commands != [] && DistinctIds(commands) && Commands(front) == commands[..|commands| - 1]
    requires AllLive(front, mid, 0) && AllLevel(front, mid, 0) && commands[|commands| - 1].id !in mid.transcripts
    ensures var (after, r) := StartNext(front, commands[|commands| - 1], mid);
      && (r.Ok? ==>
        && Commands(r.value) == commands && AllLive(r.value, after, 0) && AllLevel(r.value, after, 0)
        && after.transcripts.Keys == mid.transcripts.Keys + {commands[|commands| - 1].id})
      && (r.Err? ==> OnlyAborted(commands, after) && after.transcripts.Keys == mid.transcripts.Keys)
  {
    hide Live, Level, Ended, Driver.New, AbortEach;
    var n := |commands| - 1;
    StartsOne(commands[n], mid);
    forall i | 0 <= i < n ensures front[i].command == commands[i] { assert Commands(front)[i] == commands[..n][i]; }
    var (after, r) := Driver.New(commands[n], mid);
    LevelKnown(front, mid, 0);
    if r.Ok? {
      forall i | 0 <= i < n ensures Live(front[i], after, 0) && Level(front[i], after, 0) {
        SameTranscript(front[i], mid, after);
      }
      assert Commands(front + [r.value]) == commands;
    } else {
      LiveIsAbortable(front, mid, 0);
      AbortEachSettles(front, mid, 0);
      var (es, last) := AbortAll(front, mid);
      forall i | 0 <= i < |commands| && commands[i].id in last.transcripts
        ensures last.transcripts[commands[i].id].terminal == Some(Aborted)
      {
        EndedTerminal(es[i], last);
      }
    }
  }

  lemma {:induction false} EndedTerminal(d: Driver, log: LogState)
    requires Ended(d, log, Aborted)
    ensures log.transcripts[d.command.id].terminal == Some(Aborted)
  {}

  /** A new bundle over fresh commands starts together, or leaves nothing but aborted
    * transcripts.
    */
  lemma {:induction false} NewBundleStarts(commands: seq<Command>, log: LogState)
    requires Unused(commands, log)
    ensures var (after, r) := NewBundle(commands, log);
      && (r.Ok? ==>
        BundleInv(r.value, after) && AllLive(r.value, after, 0) && Commands(r.value) == Sort(commands, CommandIdKey))
      && (r.Err? ==> OnlyAborted(commands, after))
  {
    hide Live, Level, StartAll, Sort, OneShape;
    var sorted := Sort(commands, CommandIdKey);
    forall x ensures x in sorted <==> x in commands { SameElements(sorted, commands, x); }
    forall i | 0 <= i < |sorted| ensures sorted[i].id !in log.transcripts { assert sorted[i] in commands; }
    if AdjacentDistinct(sorted, CommandIdKey) {
      AdjacentIsStrict(sorted, CommandIdKey);
      forall i, j | 0 <= i < j < |sorted| ensures sorted[i].id != sorted[j].id {
        assert CommandIdKey(sorted[i]) < CommandIdKey(sorted[j]);
      }
      StartSettles(sorted, log);
      var (after, r) := StartAll(sorted, log);
      if r.Ok? {
        forall i, j | 0 <= i < j < |r.value| ensures DriverKey(r.value[i]) < DriverKey(r.value[j]) {
          assert CommandIdKey(Commands(r.value)[i]) < CommandIdKey(Commands(r.value)[j]);
        }
        assert Standing(r.value, after, 0);
      } else {
        forall i | 0 <= i < |commands| && commands[i].id in after.transcripts
          ensures after.transcripts[commands[i].id].terminal == Some(Aborted)
        {
          assert commands[i] in sorted;
        }
      }
    }
  }

  // ----- runs

  datatype BundleEvent =
    | PostingCall(id: CommandId, posting: Posting)
    | CloseCommitmentsCall
    | CloseOpeningsCall
    | ActivateCall
    | AbortCall
    | ForeignCall(op: Op)

  /** A call of the bundle, or a log call that spares its commands. */
  ghost predicate BundleAllowed(ds: seq<Driver>, e: BundleEvent) {
    e.ForeignCall? ==> Spares(e.op, iset i | 0 <= i < |ds| :: ds[i].command.id)
  }

  ghost function BundleStep(ds: seq<Driver>, log: LogState, e: BundleEvent): (seq<Driver>, LogState) {
    match e
    case PostingCall(id, p) => var (es, after, _) := OnComponent(ds, id, p, log); (es, after)
    case CloseCommitmentsCall => var (es, after, _) := AllOrAbort(Closing(), ds, log); (es, after)
    case CloseOpeningsCall => var (es, after, _) := AllOrAbort(Opening(), ds, log); (es, after)
    case ActivateCall => if HasFresh(log.handles) then var (es, after, _) := ActivateAll(ds, log);
      (es, after) else (ds, log)
    case AbortCall => var (es, after, _) := AbortBundle(ds, log); (es, after)
    case ForeignCall(op) => (ds, Apply(log, op))
  }

  ghost function BundleRun(ds: seq<Driver>, log: LogState, events: seq<BundleEvent>): (seq<Driver>, LogState) {
    if events == [] then (ds, log)
    else
      var (es, mid) := BundleRun(ds, log, events[..|events| - 1]);
      BundleStep(es, mid, events[|events| - 1])
  }

  lemma {:induction false} ForeignKeeps(ds: seq<Driver>, log: LogState, op: Op)
    requires BundleInv(ds, log) && Spares(op, iset i | 0 <= i < |ds| :: ds[i].command.id)
    ensures KeepsBundle(ds, ds, Apply(log, op))
  {
    hide Live, Level, Ended, KeepsBundle, BundleInv, Apply, Spares;
    var rank, after := RankOf(ds, log), Apply(log, op);
    LevelKnown(ds, log, rank);
    forall i | 0 <= i < |ds|
      ensures Level(ds[i], after, rank)
      ensures forall k :: Live(ds[i], log, k) ==> Live(ds[i], after, k)
      ensures forall terminal :: Ended(ds[i], log, terminal) ==> Ended(ds[i], after, terminal)
    {
      SparedStays(log, op, iset i | 0 <= i < |ds| :: ds[i].command.id, ds[i].command.id);
      SameTranscript(ds[i], log, after);
    }
    if terminal :| AllEnded(ds, log, terminal) { assert AllEnded(ds, after, terminal); }
    Kept(ds, log, ds, after, rank);
  }

  /** All or nothing, with barriers: every public call of a bundle that alone drives
    * its commands keeps all components at one terminal, equal to the log's, and lets
    * no opening or receipt pass before every component closed the phase before it.
    */
  lemma {:induction false} BundleStaysTogether(ds: seq<Driver>, log: LogState, e: BundleEvent)
    requires BundleInv(ds, log) && BundleAllowed(ds, e)
    ensures var (es, after) := BundleStep(ds, log, e); KeepsBundle(ds, es, after)
  {
    hide BundleInv, KeepsBundle, OnComponent, AllOrAbort, ActivateAll, AbortBundle, HasFresh, Apply, Spares;
    match e
    case PostingCall(id, p) => ComponentKeeps(ds, id, p, log);
    case CloseCommitmentsCall => RoundsKeep(ds, log);
    case CloseOpeningsCall => RoundsKeep(ds, log);
    case ActivateCall => if HasFresh(log.handles) { ActivateKeeps(ds, log); } else { KeepsItself(ds, log); }
    case AbortCall => AbortKeeps(ds, log);
    case ForeignCall(op) => ForeignKeeps(ds, log, op);
  }

  /** Over every run of a bundle from its start, all components stand together: one
    * terminal for all, equal to the log's, and the barriers hold.
    */
  lemma {:induction false} BundleRunsTogether(commands: seq<Command>, log: LogState, events: seq<BundleEvent>)
    requires Unused(commands, log) && NewBundle(commands, log).1.Ok?
    requires forall e :: e in events ==> BundleAllowed(NewBundle(commands, log).1.value, e)
    ensures var (start, r) := NewBundle(commands, log);
      var (es, after) := BundleRun(r.value, start, events);
      Together(es, after) && Commands(es) == Commands(r.value)
  {
    hide BundleInv, Together, NewBundle, BundleAllowed;
    NewBundleStarts(commands, log);
    var (start, r) := NewBundle(commands, log);
    RunKeeps(r.value, start, events);
    var (es, after) := BundleRun(r.value, start, events);
    InvIsTogether(es, after);
    assert Commands(es) == Commands(r.value);
  }

  lemma {:induction false} RunKeeps(ds: seq<Driver>, log: LogState, events: seq<BundleEvent>)
    requires BundleInv(ds, log) && forall e :: e in events ==> BundleAllowed(ds, e)
    ensures var (es, after) := BundleRun(ds, log, events); KeepsBundle(ds, es, after)
  {
    hide BundleInv, BundleStep, Spares;
    if events != [] {
      var n := |events| - 1;
      RunKeeps(ds, log, events[..n]);
      var (es, mid) := BundleRun(ds, log, events[..n]);
      assert BundleAllowed(ds, events[n]);
      assert (iset i | 0 <= i < |es| :: es[i].command.id) == (iset i | 0 <= i < |ds| :: ds[i].command.id);
      BundleStaysTogether(es, mid, events[n]);
    }
  }
}

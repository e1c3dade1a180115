/** Any number of candidate drivers over one shared log (src/dealing/candidate.rs,
  * src/log_act.rs).
  */
module CandidateSystem {
  import opened Results
  import opened Field
  import opened Sorting
  import opened Ids
  import opened Encoding
  import opened Shape
  import opened Contribution
  import opened DealEncoding
  import opened Target
  import opened LogAct
  import opened LogHistory
  import opened Candidates

  // ----- what a driver knows about its transcript

  /** The transcript was begun with the driver's own command. */
  ghost predicate Anchored(d: Driver, t: Transcript) {
    && d.command.Valid()
    && t.scope == d.command.scope && t.predecessor == d.command.predecessor
    && CommandBytes(d.command) == Ok(t.parameters)
  }

  ghost predicate CommitmentStands(t: Transcript, role: RoleId, commitment: Scalar) {
    (CommitPhase, RoleBytes(role)) in t.posts && t.posts[(CommitPhase, RoleBytes(role))] == ScalarBytes(commitment)
  }

  /** A posted opening that fits its role and matches the posted commitment. */
  ghost predicate OpeningStands(command: Command, t: Transcript, role: RoleId, o: Opening) {
    && FitsRole(command, role, o)
    && CommitmentOf(command, o).Ok? && CommitmentStands(t, role, CommitmentOf(command, o).value)
    && OpeningBytes(o).Ok?
    && (OpenPhase, RoleBytes(role)) in t.posts && t.posts[(OpenPhase, RoleBytes(role))] == OpeningBytes(o).value
  }

  /** A posted receipt for exactly the given view bytes. */
  ghost predicate ReceiptStands(command: Command, t: Transcript, target: TargetId, view: bytes) {
    && target in command.shape.Targets()
    && (ReceiptPhase, TargetBytes(target)) in t.posts
    && ReceiptBytes(TargetReceipt(command.id, target, view)) == Ok(t.posts[(ReceiptPhase, TargetBytes(target))])
  }

  ghost predicate PostsStand(d: Driver, t: Transcript) {
    && (forall role :: role in d.commitments ==>
      role in d.command.RoleIds() && CommitmentStands(t, role, d.commitments[role]))
    && (forall role :: role in d.openings ==> OpeningStands(d.command, t, role, d.openings[role]))
    && (forall target :: target in d.receipts ==>
      d.view.Some? && ReceiptStands(d.command, t, target, d.view.value.bytes))
  }

  ghost predicate Staged(d: Driver, t: Transcript) {
    && (d.commitClosed ==> d.commitments.Keys == d.command.RoleIds() && Progress(t.next) >= 1)
    && (d.stage == CommitStage ==> !d.commitClosed)
    && (d.stage == OpenStage ==> d.commitClosed && d.view.None?)
    && (d.view.Some? ==>
      && d.commitClosed && Progress(t.next) >= 2
      && d.openings.Keys == d.command.RoleIds()
      && BuildView(d.command, d.commitments, d.openings) == Ok(d.view.value))
    && (d.stage == ReceiptStage || d.stage == ReadyStage ==> d.view.Some?)
    && (d.stage == ReadyStage ==> Progress(t.next) == 3)
    && (d.terminal.Some? ==> t.terminal == d.terminal && d.stage == TerminalStage)
  }

  ghost predicate DriverInv(d: Driver, t: Transcript) {
    Anchored(d, t) && PostsStand(d, t) && Staged(d, t)
  }

  /** What a driver knows survives everything that happens to the log. */
  lemma {:induction false} DriverInvStable(d: Driver, t: Transcript, u: Transcript)
    requires DriverInv(d, t) && Grows(t, u)
    ensures DriverInv(d, u)
  {
    hide Command.Valid, CommandBytes, RoleBytes, TargetBytes, ScalarBytes, CommitmentOf, OpeningBytes, ReceiptBytes,
      BuildView, FitsRole;
    hide TargetShape.Targets;
  }

  // ----- the common view

  /** The view that the posts of a complete transcript determine. */
  ghost predicate CommonView(command: Command, t: Transcript, v: CandidateView) {
    && v.command == command && v.Sound()
    && |v.commitments| == |v.openings| == |command.roles|
    && (forall i :: 0 <= i < |command.roles| ==>
      && v.commitments[i].0 == command.roles[i].Role()
      && CommitmentStands(t, command.roles[i].Role(), v.commitments[i].1)
      && OpeningStands(command, t, command.roles[i].Role(), v.openings[i]))
    && ViewBytes(command, v.commitments, v.openings) == Ok(v.bytes)
  }

  lemma {:induction false} ScalarBytesInjective(a: Scalar, b: Scalar)
    requires ScalarBytes(a) == ScalarBytes(b)
    ensures a == b
  {
    WideRoundTrip(a, ScalarBytes(a));
    WideRoundTrip(b, ScalarBytes(b));
  }

  /** Openings that stand at the same place are the same opening. */
  lemma {:induction false} SameOpening(command: Command, t: Transcript, role: RoleId, o: Opening, p: Opening)
    requires command.shape.Valid() && OpeningStands(command, t, role, o) && OpeningStands(command, t, role, p)
    ensures o == p
  {
    hide RoleBytes, CommitmentOf, OpeningBytes, TargetShape.Valid, ContributionPoints.Fits, Canonical, OpeningFormat;
    var constant := command.RoleOf(role).value.Constant();
    FittingIsCanonical(o.points, command.shape, constant);
    FittingIsCanonical(p.points, command.shape, constant);
    OpeningCanonical(OpeningBytes(o).value, o);
    OpeningCanonical(OpeningBytes(o).value, p);
  }

  lemma {:induction false} CommonViewUnique(command: Command, t: Transcript, v: CandidateView, w: CandidateView)
    requires command.Valid() && CommonView(command, t, v) && CommonView(command, t, w)
    ensures v == w
  {
    hide OpeningStands, CommitmentStands, ViewBytes, AggregatePoints, OpensRoles, Command.Valid;
    forall i | 0 <= i < |command.roles| ensures v.commitments[i] == w.commitments[i] && v.openings[i] == w.openings[i] {
      SameEntries(command, t, v, w, i);
    }
    assert v.commitments == w.commitments && v.openings == w.openings;
  }

  lemma {:induction false} SameEntries(command: Command, t: Transcript, v: CandidateView, w: CandidateView, i: nat)
    requires command.Valid() && CommonView(command, t, v) && CommonView(command, t, w) && i < |command.roles|
    ensures v.commitments[i] == w.commitments[i] && v.openings[i] == w.openings[i]
  {
    hide OpeningStands, ViewBytes, RoleBytes, ScalarBytes, AggregatePoints, OpensRoles, TargetShape.Valid, SourceSum,
      TargetDevices;
    var role := command.roles[i].Role();
    assert CommitmentStands(t, role, v.commitments[i].1) && CommitmentStands(t, role, w.commitments[i].1);
    ScalarBytesInjective(v.commitments[i].1, w.commitments[i].1);
    SameOpening(command, t, role, v.openings[i], w.openings[i]);
  }

  lemma {:induction false} BuiltParts(command: Command, commitments: map<RoleId, Scalar>,
      openings: map<RoleId, Opening>, v: CandidateView)
    requires BuildView(command, commitments, openings) == Ok(v)
    ensures v.command == command
    ensures v.commitments == OrderedCommitments(commitments) && v.openings == OrderedOpenings(openings)
    ensures ViewBytes(command, v.commitments, v.openings) == Ok(v.bytes)
  {
    hide AggregatePoints, ViewBytes, OrderedCommitments, OrderedOpenings, ContributionPoints.Validate;
  }

  /** Maps over exactly the mandatory roles list them in role order. */
  lemma {:induction false} OrderedByRole(command: Command, commitments: map<RoleId, Scalar>,
      openings: map<RoleId, Opening>)
    requires command.Valid() && commitments.Keys == openings.Keys == command.RoleIds()
    ensures |OrderedCommitments(commitments)| == |OrderedOpenings(openings)| == |command.roles|
    ensures forall i :: 0 <= i < |command.roles| ==>
      var role := command.roles[i].Role();
      && role in command.RoleIds()
      && OrderedCommitments(commitments)[i] == (role, commitments[role])
      && OrderedOpenings(openings)[i] == openings[role]
  {
    hide Ascending, TargetShape.Valid, SourceSum, TargetDevices;
    RolesInOrder(command);
    forall i | 0 <= i < |command.roles| ensures command.roles[i].Role() == command.RoleSeq()[i] {}
    forall i | 0 <= i < |command.roles| ensures command.roles[i].Role() in command.RoleIds() {}
  }

  lemma {:induction false} DriverOpeningsComplete(d: Driver, t: Transcript)
    requires DriverInv(d, t) && d.view.Some?
    ensures CompleteOpenings(d.command, d.openings)
  {
    hide RoleBytes, ScalarBytes, CommitmentOf, OpeningBytes, FitsRole, CommandBytes, BuildView, Command.Valid,
      ReceiptBytes, TargetBytes, TargetShape.Targets;
    forall role | role in d.openings ensures FitsRole(d.command, role, d.openings[role]) {
      assert OpeningStands(d.command, t, role, d.openings[role]);
    }
  }

  /** Every view a driver holds is the common one. */
  lemma {:induction false} DriverViewIsCommon(d: Driver, t: Transcript)
    requires DriverInv(d, t) && d.view.Some?
    ensures CommonView(d.command, t, d.view.value)
  {
    hide CommitmentStands, OpeningStands, ReceiptStands, ViewBytes, CandidateView.Sound, Command.Valid, CommandBytes,
      BuildView, OrderedCommitments, OrderedOpenings;
    hide CompleteOpenings, Command.RoleIds, RoleSpec.Role;
    var command, v := d.command, d.view.value;
    DriverOpeningsComplete(d, t);
    BuildViewSucceeds(command, d.commitments, d.openings);
    BuiltParts(command, d.commitments, d.openings, v);
    OrderedByRole(command, d.commitments, d.openings);
  }

  // ----- what candidate-driven transcripts keep

  ghost predicate CommitsComplete(t: Transcript, command: Command) {
    forall role :: role in command.RoleIds() ==> (CommitPhase, RoleBytes(role)) in t.posts
  }

  ghost predicate OpensComplete(t: Transcript, command: Command) {
    forall role :: role in command.RoleIds() ==> (OpenPhase, RoleBytes(role)) in t.posts
  }

  ghost predicate ReceiptsComplete(t: Transcript, command: Command) {
    forall target :: target in command.shape.Targets() ==> (ReceiptPhase, TargetBytes(target)) in t.posts
  }

  ghost predicate OpenPostStands(t: Transcript, command: Command, key: bytes) {
    exists o: Opening :: key == RoleBytes(o.role) && OpeningStands(command, t, o.role, o)
  }

  ghost predicate ReceiptPostStands(t: Transcript, command: Command, key: bytes) {
    exists v: CandidateView, target: TargetId ::
      key == TargetBytes(target) && CommonView(command, t, v) && ReceiptStands(command, t, target, v.bytes)
  }

  ghost predicate TranscriptInv(t: Transcript, command: Command) {
    && (Progress(t.next) >= 1 ==> CommitsComplete(t, command))
    && (Progress(t.next) >= 2 ==> OpensComplete(t, command))
    && (Progress(t.next) == 3 ==> ReceiptsComplete(t, command))
    && (forall key :: (OpenPhase, key) in t.posts ==> Progress(t.next) >= 1 && OpenPostStands(t, command, key))
    && (forall key :: (ReceiptPhase, key) in t.posts ==> Progress(t.next) >= 2 && ReceiptPostStands(t, command, key))
  }

  lemma {:induction false} StandingPostsStable(t: Transcript, u: Transcript, command: Command)
    requires Grows(t, u)
    ensures forall key :: OpenPostStands(t, command, key) ==> OpenPostStands(u, command, key)
    ensures forall key :: ReceiptPostStands(t, command, key) ==> ReceiptPostStands(u, command, key)
  {
    hide RoleBytes, TargetBytes, ScalarBytes, CommitmentOf, OpeningBytes, ReceiptBytes, FitsRole, ViewBytes,
      CandidateView.Sound;
    hide TargetShape.Targets;
    forall key | OpenPostStands(t, command, key) ensures OpenPostStands(u, command, key) {
      var o: Opening :| key == RoleBytes(o.role) && OpeningStands(command, t, o.role, o);
      assert OpeningStands(command, u, o.role, o);
    }
    forall key | ReceiptPostStands(t, command, key) ensures ReceiptPostStands(u, command, key) {
      var v: CandidateView, target: TargetId :|
        key == TargetBytes(target) && CommonView(command, t, v) && ReceiptStands(command, t, target, v.bytes);
      assert CommonView(command, u, v) && ReceiptStands(command, u, target, v.bytes);
    }
  }

  /** Ending a transcript leaves its posts and phase alone. */
  lemma {:induction false} QuietKeeps(t: Transcript, u: Transcript, command: Command)
    requires Grows(t, u) && u.posts == t.posts && u.next == t.next && TranscriptInv(t, command)
    ensures TranscriptInv(u, command)
  {
    hide OpenPostStands, ReceiptPostStands, RoleBytes, TargetBytes, Grows, TargetShape.Targets;
    StandingPostsStable(t, u, command);
  }

  // ----- single driver calls

  /** The driver, its own transcript and every earlier fact are kept by one call. */
  ghost predicate Kept(d: Driver, log: LogState, d': Driver, log': LogState) {
    && d'.command == d.command
    && d.command.id in log.transcripts && d.command.id in log'.transcripts
    && Grows(log.transcripts[d.command.id], log'.transcripts[d.command.id])
    && DriverInv(d', log'.transcripts[d.command.id])
    && (TranscriptInv(log.transcripts[d.command.id], d.command) ==>
      TranscriptInv(log'.transcripts[d.command.id], d.command))
    && (d.view.Some? ==> d'.view == d.view)
    && (d.terminal.Some? ==> d'.terminal == d.terminal)
  }

  /** A driver that knows its transcript. */
  ghost predicate Knows(d: Driver, log: LogState) {
    d.command.id in log.transcripts && DriverInv(d, log.transcripts[d.command.id])
  }

  lemma {:induction false} KnownTranscript(d: Driver, log: LogState)
    requires Knows(d, log)
    ensures d.command.id in log.transcripts
  {
    hide DriverInv;
  }

  lemma {:induction false} NothingKept(d: Driver, log: LogState)
    requires Knows(d, log)
    ensures Kept(d, log, d, log)
  {}

  lemma {:induction false} AbortEffect(log: LogState, id: CommandId)
    requires id in log.transcripts
    ensures var (after, r) := log.Abort(id);
      && id in after.transcripts
      && (r.Err? ==>
        after == log && log.transcripts[id].terminal.Some? && log.transcripts[id].terminal != Some(Aborted))
      && (r.Ok? ==> r.value == Aborted && after.transcripts[id] == log.transcripts[id].(terminal := Some(Aborted)))
      && Grows(log.transcripts[id], after.transcripts[id])
      && after.transcripts[id].posts == log.transcripts[id].posts
        && after.transcripts[id].next == log.transcripts[id].next
  {}

  lemma {:induction false} AbortWithKeeps<T>(d: Driver, log: LogState, error: Error)
    requires Knows(d, log)
    ensures var s := d.AbortWith<T>(log, error); Kept(d, log, s.driver, s.log)
  {
    hide PostsStand, Anchored, TranscriptInv, Grows, LogState.Abort;
    AbortEffect(log, d.command.id);
    var s := d.AbortWith<T>(log, error);
    var t, u := log.transcripts[d.command.id], s.log.transcripts[d.command.id];
    EndKeeps(d, t, u, s.driver);
  }

  /** What a driver knows survives the end of its transcript. */
  lemma {:induction false} EndKeeps(d: Driver, t: Transcript, u: Transcript, d': Driver)
    requires DriverInv(d, t) && Grows(t, u) && u.posts == t.posts && u.next == t.next
    requires d' == d.(terminal := d'.terminal, stage := d'.stage)
    requires d'.stage == TerminalStage || d' == d
    requires d'.terminal.Some? ==> d'.terminal == u.terminal
    ensures DriverInv(d', u)
    ensures TranscriptInv(t, d.command) ==> TranscriptInv(u, d.command)
  {
    hide TranscriptInv, BuildView, CommandBytes, Command.Valid, OpeningStands, CommitmentStands, ReceiptStands,
      Command.RoleIds;
    DriverInvStable(d, t, u);
    if TranscriptInv(t, d.command) { QuietKeeps(t, u, d.command); }
  }

  lemma {:induction false} PostEffect(log: LogState, id: CommandId, phase: Phase, role: bytes, payload: bytes)
    requires id in log.transcripts
    ensures var (after, r) := log.Post(id, phase, role, payload);
      && (r.Err? ==> after == log)
      && (r.Ok? ==> Posted(log, after, id, phase, role, payload))
  {}

  /** The one change of an accepted post. */
  ghost predicate Posted(log: LogState, after: LogState, id: CommandId, phase: Phase, role: bytes, payload: bytes)
    requires id in log.transcripts
  {
    && id in after.transcripts
    && var t, u, key := log.transcripts[id], after.transcripts[id], (phase, role);
    && Grows(t, u) && u.next == t.next
    && key in u.posts && u.posts[key] == payload
    && (key !in t.posts ==> t.next == Some(phase))
    && forall k :: k in u.posts ==> k in t.posts || k == key
  }

  lemma {:induction false} CloseEffect(log: LogState, id: CommandId, phase: Phase)
    requires id in log.transcripts
    ensures var (after, r) := log.ClosePhase(id, phase);
      && (r.Err? ==> after == log)
      && id in after.transcripts
      && Grows(log.transcripts[id], after.transcripts[id])
      && after.transcripts[id].posts == log.transcripts[id].posts
      && (after.transcripts[id].next == log.transcripts[id].next
          || (log.transcripts[id].next == Some(phase) && after.transcripts[id].next == Following(phase)))
      && (r.Ok? ==> Progress(after.transcripts[id].next) > Rank(phase))
  {}

  lemma {:induction false} CommitKeeps(d: Driver, log: LogState, role: RoleId, commitment: Scalar)
    requires Knows(d, log)
    ensures var s := d.Commit(role, commitment, log); Kept(d, log, s.driver, s.log)
  {
    hide Knows, Kept, Posted, LogState.Post, RoleBytes, ScalarBytes, Driver.AbortWith, Command.RoleOf;
    KnownTranscript(d, log);
    if role in d.commitments {
      NothingKept(d, log);
      AbortWithKeeps<()>(d, log, ReplayMismatch);
    } else if d.stage != CommitStage || d.command.RoleOf(role).Err? {
      AbortWithKeeps<()>(d, log, WrongStage);
    } else {
      var (after, r) := log.Post(d.command.id, CommitPhase, RoleBytes(role), ScalarBytes(commitment));
      PostEffect(log, d.command.id, CommitPhase, RoleBytes(role), ScalarBytes(commitment));
      if r.Err? {
        AbortWithKeeps<()>(d, log, r.error);
      } else {
        CommittedKeeps(d, log, after, role, commitment);
      }
    }
  }

  lemma {:induction false} CommittedKeeps(d: Driver, log: LogState, after: LogState, role: RoleId, commitment: Scalar)
    requires Knows(d, log) && Posted(log, after, d.command.id, CommitPhase, RoleBytes(role), ScalarBytes(commitment))
    requires d.command.RoleOf(role).Ok? && d.stage == CommitStage
    ensures Kept(d, log, d.(commitments := d.commitments[role := commitment]), after)
  {
    hide BuildView, CommandBytes, Command.Valid, OpeningStands, ReceiptStands, RoleBytes, ScalarBytes, TranscriptInv,
      Grows;
    var t, u := log.transcripts[d.command.id], after.transcripts[d.command.id];
    assert role in d.command.RoleIds();
    DriverInvStable(d, t, u);
    CommitPostKeeps(t, u, d.command, RoleBytes(role));
  }

  lemma {:induction false} CommitPostKeeps(t: Transcript, u: Transcript, command: Command, key: bytes)
    requires Grows(t, u) && u.next == t.next
    requires forall k :: k in u.posts ==> k in t.posts || k == (CommitPhase, key)
    ensures TranscriptInv(t, command) ==> TranscriptInv(u, command)
  {
    hide OpenPostStands, ReceiptPostStands, RoleBytes, TargetBytes, TargetShape.Targets;
    StandingPostsStable(t, u, command);
  }

  lemma {:induction false} RolesCounted(command: Command, keys: set<RoleId>)
    requires command.Valid() && keys <= command.RoleIds()
    requires forall s :: s in command.roles ==> s.Role() in keys
    ensures keys == command.RoleIds()
  {}

  lemma {:induction false} CloseCommitmentsKeeps(d: Driver, log: LogState)
    requires Knows(d, log)
    ensures var s := d.CloseCommitments(log); Kept(d, log, s.driver, s.log)
  {
    hide DriverInv, TranscriptInv, Grows, LogState.ClosePhase, Driver.AllCommitted, Driver.AbortWith;
    NothingKept(d, log);
    AbortWithKeeps<()>(d, log, SupportMismatch);
    var (after, r) := log.ClosePhase(d.command.id, CommitPhase);
    CloseEffect(log, d.command.id, CommitPhase);
    if r.Err? {
      AbortWithKeeps<()>(d, log, r.error);
    } else if !d.commitClosed && d.stage == CommitStage && d.AllCommitted() && d.terminal.None? {
      ClosedKeeps(d, log.transcripts[d.command.id], after.transcripts[d.command.id]);
    }
  }

  lemma {:induction false} ClosedKeeps(d: Driver, t: Transcript, u: Transcript)
    requires DriverInv(d, t) && !d.commitClosed && d.stage == CommitStage && d.AllCommitted() && d.terminal.None?
    requires Grows(t, u) && u.posts == t.posts && Progress(u.next) >= 1
    requires u.next == t.next || (t.next == Some(CommitPhase) && u.next == Following(CommitPhase))
    ensures DriverInv(d.(commitClosed := true, stage := OpenStage), u)
    ensures TranscriptInv(t, d.command) ==> TranscriptInv(u, d.command)
  {
    hide BuildView, CommandBytes, Command.Valid, OpeningStands, ReceiptStands, CommitmentStands, TranscriptInv;
    hide CommitsComplete, OpensComplete, ReceiptsComplete, Grows, Command.RoleIds, TargetShape.Targets;
    RolesCounted(d.command, d.commitments.Keys);
    DriverInvStable(d, t, u);
    CompletePosts(d, t);
    CloseKeeps(t, u, d.command, CommitPhase);
  }

  /** Closing a phase whose posts are complete keeps the transcript invariant. */
  lemma {:induction false} CloseKeeps(t: Transcript, u: Transcript, command: Command, phase: Phase)
    requires Grows(t, u) && u.posts == t.posts
    requires u.next == t.next || (t.next == Some(phase) && u.next == Following(phase))
    requires phase == CommitPhase ==> CommitsComplete(t, command)
    requires phase == OpenPhase ==> CommitsComplete(t, command) && OpensComplete(t, command)
    requires phase == ReceiptPhase ==>
      CommitsComplete(t, command) && OpensComplete(t, command) && ReceiptsComplete(t, command)
    ensures TranscriptInv(t, command) ==> TranscriptInv(u, command)
  {
    hide OpenPostStands, ReceiptPostStands, RoleBytes, TargetBytes, TargetShape.Targets;
    StandingPostsStable(t, u, command);
  }

  lemma {:induction false} CheckedOpeningFits(d: Driver, opening: Opening)
    requires d.CheckOpening(opening).Ok?
    ensures FitsRole(d.command, opening.role, opening) && opening.role in d.commitments
    ensures CommitmentOf(d.command, opening) == Ok(d.commitments[opening.role])
    ensures OpeningBytes(opening) == d.CheckOpening(opening)
  {
    hide CommitmentOf, OpeningBytes, ContributionPoints.Fits;
  }

  lemma {:induction false} OpenKeeps(d: Driver, log: LogState, opening: Opening)
    requires Knows(d, log)
    ensures var s := d.Open(opening, log); Kept(d, log, s.driver, s.log)
  {
    hide Knows, Kept, Posted, LogState.Post, RoleBytes, Driver.CheckOpening, Driver.AbortWith;
    NothingKept(d, log);
    KnownTranscript(d, log);
    AbortWithKeeps<()>(d, log, ReplayMismatch);
    AbortWithKeeps<()>(d, log, WrongStage);
    var body := d.CheckOpening(opening);
    if body.Err? {
      AbortWithKeeps<()>(d, log, body.error);
    } else {
      var (after, r) := log.Post(d.command.id, OpenPhase, RoleBytes(opening.role), body.value);
      PostEffect(log, d.command.id, OpenPhase, RoleBytes(opening.role), body.value);
      if r.Err? {
        AbortWithKeeps<()>(d, log, r.error);
      } else if opening.role !in d.openings && d.stage == OpenStage {
        PostedOpenKeeps(d, log, after, opening);
      }
    }
  }

  lemma {:induction false} PostedOpenKeeps(d: Driver, log: LogState, after: LogState, opening: Opening)
    requires Knows(d, log) && d.stage == OpenStage && d.CheckOpening(opening).Ok?
    requires Posted(log, after, d.command.id, OpenPhase, RoleBytes(opening.role), d.CheckOpening(opening).value)
    ensures Kept(d, log, d.(openings := d.openings[opening.role := opening]), after)
  {
    hide BuildView, CommandBytes, Command.Valid, ReceiptStands, RoleBytes, ScalarBytes, TranscriptInv,
      Driver.CheckOpening, FitsRole, CommitmentOf, OpeningBytes;
    var t, u := log.transcripts[d.command.id], after.transcripts[d.command.id];
    CheckedOpeningFits(d, opening);
    DriverInvStable(d, t, u);
    assert CommitmentStands(t, opening.role, d.commitments[opening.role]);
    assert OpeningStands(d.command, u, opening.role, opening);
    OpenPostKeeps(t, u, d.command, opening);
  }

  lemma {:induction false} OpenPostKeeps(t: Transcript, u: Transcript, command: Command, o: Opening)
    requires Grows(t, u) && u.next == t.next && Progress(t.next) >= 1
    requires OpeningStands(command, u, o.role, o)
    requires forall k :: k in u.posts ==> k in t.posts || k == (OpenPhase, RoleBytes(o.role))
    ensures TranscriptInv(t, command) ==> TranscriptInv(u, command)
  {
    hide ReceiptPostStands, OpeningStands, RoleBytes, TargetBytes, TargetShape.Targets;
    StandingPostsStable(t, u, command);
    assert OpenPostStands(u, command, RoleBytes(o.role));
  }

  lemma {:induction false} CloseOpeningsKeeps(d: Driver, log: LogState)
    requires Knows(d, log)
    ensures var s := d.CloseOpenings(log); Kept(d, log, s.driver, s.log)
  {
    hide Knows, Kept, LogState.ClosePhase, BuildView, Driver.AllOpened, Driver.AbortWith;
    KnownTranscript(d, log);
    if d.view.Some? {
      NothingKept(d, log);
    } else if d.stage != OpenStage || !d.AllOpened() {
      AbortWithKeeps<CandidateView>(d, log, SupportMismatch);
    } else {
      var built := BuildView(d.command, d.commitments, d.openings);
      var (after, r) := log.ClosePhase(d.command.id, OpenPhase);
      CloseEffect(log, d.command.id, OpenPhase);
      if built.Err? {
        AbortWithKeeps<CandidateView>(d, log, built.error);
      } else if r.Err? {
        AbortWithKeeps<CandidateView>(d, log, r.error);
      } else {
        OpenedKept(d, log, after, built.value);
      }
    }
  }

  lemma {:induction false} OpenedKept(d: Driver, log: LogState, after: LogState, v: CandidateView)
    requires Knows(d, log) && d.view.None? && d.stage == OpenStage && d.AllOpened()
    requires BuildView(d.command, d.commitments, d.openings) == Ok(v)
    requires log.ClosePhase(d.command.id, OpenPhase).0 == after && log.ClosePhase(d.command.id, OpenPhase).1.Ok?
    ensures Kept(d, log, d.(stage := ReceiptStage, view := Some(v)), after)
  {
    hide DriverInv, TranscriptInv, Grows, LogState.ClosePhase, BuildView, Driver.AllOpened;
    CloseEffect(log, d.command.id, OpenPhase);
    OpenedKeeps(d, log.transcripts[d.command.id], after.transcripts[d.command.id], v);
  }

  lemma {:induction false} OpenedKeeps(d: Driver, t: Transcript, u: Transcript, v: CandidateView)
    requires DriverInv(d, t) && d.view.None? && d.stage == OpenStage && d.AllOpened()
    requires BuildView(d.command, d.commitments, d.openings) == Ok(v)
    requires Grows(t, u) && u.posts == t.posts && Progress(u.next) >= 2
    requires u.next == t.next || (t.next == Some(OpenPhase) && u.next == Following(OpenPhase))
    ensures DriverInv(d.(stage := ReceiptStage, view := Some(v)), u)
    ensures TranscriptInv(t, d.command) ==> TranscriptInv(u, d.command)
  {
    hide BuildView, CommandBytes, Command.Valid, OpeningStands, ReceiptStands, CommitmentStands, TranscriptInv;
    hide CommitsComplete, OpensComplete, ReceiptsComplete, Grows, Command.RoleIds, TargetShape.Targets,
      Driver.AllOpened;
    OpenedRoles(d, t);
    DriverInvStable(d, t, u);
    CompletePosts(d, t);
    CloseKeeps(t, u, d.command, OpenPhase);
  }

  lemma {:induction false} OpenedRoles(d: Driver, t: Transcript)
    requires DriverInv(d, t) && d.AllOpened()
    ensures d.openings.Keys == d.command.RoleIds()
  {
    hide BuildView, CommandBytes, CommitmentOf, OpeningBytes, RoleBytes, ScalarBytes, TargetBytes,
      TargetShape.Targets, ContributionPoints.Fits, TargetShape.Valid;
    forall role | role in d.openings ensures role in d.command.RoleIds() {
      assert OpeningStands(d.command, t, role, d.openings[role]);
      assert d.command.RoleOf(role).value in d.command.roles;
    }
    RolesCounted(d.command, d.openings.Keys);
  }

  /** What a driver collected for every role is posted for every role. */
  lemma {:induction false} CompletePosts(d: Driver, t: Transcript)
    requires DriverInv(d, t)
    ensures d.commitments.Keys == d.command.RoleIds() ==> CommitsComplete(t, d.command)
    ensures d.openings.Keys == d.command.RoleIds() ==> OpensComplete(t, d.command)
    ensures d.receipts.Keys == (set x | x in d.command.shape.Targets()) ==> ReceiptsComplete(t, d.command)
  {
    hide BuildView, CommandBytes, CommitmentOf, OpeningBytes, RoleBytes, ScalarBytes, TargetBytes, ReceiptBytes,
      FitsRole, TargetShape.Targets, TargetShape.Valid, Command.Valid;
    if d.commitments.Keys == d.command.RoleIds() {
      forall role | role in d.command.RoleIds() ensures (CommitPhase, RoleBytes(role)) in t.posts {
        assert role in d.commitments && CommitmentStands(t, role, d.commitments[role]);
      }
    }
    if d.openings.Keys == d.command.RoleIds() {
      forall role | role in d.command.RoleIds() ensures (OpenPhase, RoleBytes(role)) in t.posts {
        assert role in d.openings && OpeningStands(d.command, t, role, d.openings[role]);
      }
    }
    if d.receipts.Keys == (set x | x in d.command.shape.Targets()) {
      forall target | target in d.command.shape.Targets() ensures (ReceiptPhase, TargetBytes(target)) in t.posts {
        assert target in d.receipts.Keys && ReceiptStands(d.command, t, target, d.view.value.bytes);
      }
    }
  }

  lemma {:induction false} ReceiptKeeps(d: Driver, log: LogState, receipt: TargetReceipt)
    requires Knows(d, log)
    ensures var s := d.Receipt(receipt, log); Kept(d, log, s.driver, s.log)
  {
    hide Knows, Kept, Posted, LogState.Post, TargetBytes, ReceiptBytes, TargetShape.Targets, Driver.AbortWith;
    NothingKept(d, log);
    KnownTranscript(d, log);
    AbortWithKeeps<()>(d, log, ReplayMismatch);
    AbortWithKeeps<()>(d, log, WrongStage);
    AbortWithKeeps<()>(d, log, InvalidTranscript);
    var body := ReceiptBytes(receipt);
    if body.Err? {
      AbortWithKeeps<()>(d, log, body.error);
    } else {
      var (after, r) := log.Post(d.command.id, ReceiptPhase, TargetBytes(receipt.target), body.value);
      PostEffect(log, d.command.id, ReceiptPhase, TargetBytes(receipt.target), body.value);
      if r.Err? {
        AbortWithKeeps<()>(d, log, r.error);
      } else if receipt.target !in d.receipts && d.stage == ReceiptStage && receipt.command == d.command.id
          && receipt.target in d.command.shape.Targets() && d.view.Some? && receipt.view == d.view.value.bytes {
        PostedReceiptKeeps(d, log, after, receipt);
      }
    }
  }

  lemma {:induction false} PostedReceiptKeeps(d: Driver, log: LogState, after: LogState, receipt: TargetReceipt)
    requires Knows(d, log) && d.stage == ReceiptStage && d.view.Some?
    requires receipt.command == d.command.id && receipt.target in d.command.shape.Targets()
      && receipt.view == d.view.value.bytes
    requires ReceiptBytes(receipt).Ok?
    requires Posted(log, after, d.command.id, ReceiptPhase, TargetBytes(receipt.target), ReceiptBytes(receipt).value)
    ensures Kept(d, log, d.(receipts := d.receipts[receipt.target := receipt]), after)
  {
    hide BuildView, CommandBytes, Command.Valid, OpeningStands, CommitmentStands, TargetBytes, TranscriptInv,
      ReceiptBytes, TargetShape.Targets, CommonView;
    var t, u := log.transcripts[d.command.id], after.transcripts[d.command.id];
    DriverInvStable(d, t, u);
    assert receipt == TargetReceipt(d.command.id, receipt.target, d.view.value.bytes);
    assert ReceiptStands(d.command, u, receipt.target, d.view.value.bytes);
    DriverViewIsCommon(d, u);
    ReceiptPostKeeps(t, u, d.command, receipt.target, d.view.value);
  }

  lemma {:induction false} ReceiptPostKeeps(t: Transcript, u: Transcript, command: Command, target: TargetId,
      v: CandidateView)
    requires Grows(t, u) && u.next == t.next && Progress(t.next) >= 2
    requires CommonView(command, u, v) && ReceiptStands(command, u, target, v.bytes)
    requires forall k :: k in u.posts ==> k in t.posts || k == (ReceiptPhase, TargetBytes(target))
    ensures TranscriptInv(t, command) ==> TranscriptInv(u, command)
  {
    hide OpenPostStands, CommonView, ReceiptStands, RoleBytes, TargetBytes, TargetShape.Targets;
    StandingPostsStable(t, u, command);
    assert ReceiptPostStands(u, command, TargetBytes(target));
  }

  lemma {:induction false} NoRepeatsSize<T>(s: seq<T>)
    requires NoRepeats(s)
    ensures |(set x | x in s)| == |s|
  {
    if s != [] {
      var n := |s| - 1;
      NoRepeatsSize(s[..n]);
      assert s == s[..n] + [s[n]];
      assert (set x | x in s) == (set x | x in s[..n]) + {s[n]};
      assert s[n] !in s[..n];
    }
  }

  lemma {:induction false} SubsetOfSameSize<T>(a: set<T>, b: set<T>)
    requires a <= b && |a| == |b|
    ensures a == b
  {
    if a != b {
      var x :| x in b && x !in a;
      SubsetSize(a, b - {x});
    }
  }

  /** As many receipts as targets are receipts from every target. */
  lemma {:induction false} ReceiptsCounted(d: Driver, t: Transcript)
    requires DriverInv(d, t) && |d.receipts| == |d.command.shape.Targets()|
    ensures d.receipts.Keys == set x | x in d.command.shape.Targets()
  {
    hide BuildView, CommandBytes, OpeningStands, CommitmentStands, RoleBytes, ScalarBytes, TargetBytes, ReceiptBytes,
      TargetShape.Targets, TargetShape.Valid;
    TargetsDistinct(d.command.shape);
    NoRepeatsSize(d.command.shape.Targets());
    SubsetOfSameSize(d.receipts.Keys, set x | x in d.command.shape.Targets());
  }

  /** The four ways in which preparing ends. */
  lemma {:induction false} PrepareShape(d: Driver, log: LogState)
    ensures var s := d.Prepare(log);
      var (after, r) := log.ClosePhase(d.command.id, ReceiptPhase);
      && (s.result.Ok? ==> s.driver == d.(stage := ReadyStage))
      && (|| (d.stage == ReadyStage && s == Step(d, log, Ok(())))
          || s == d.AbortWith<()>(log, SupportMismatch)
          || (r.Err? && s == d.AbortWith<()>(after, r.error))
          || (r.Ok? && d.stage == ReceiptStage && |d.receipts| == |d.command.shape.Targets()|
            && s == Step(d.(stage := ReadyStage), after, Ok(()))))
  {
    hide LogState.ClosePhase, LogState.Abort, TargetShape.Targets;
    var s := d.Prepare(log);
    var (after, r) := log.ClosePhase(d.command.id, ReceiptPhase);
    if d.stage == ReadyStage { assert s == Step(d, log, Ok(())); }
    else if d.stage != ReceiptStage || |d.receipts| != |d.command.shape.Targets()| {
      assert s == d.AbortWith<()>(log, SupportMismatch);
    }
    else if r.Err? { assert s == d.AbortWith<()>(after, r.error); }
    else { assert s == Step(d.(stage := ReadyStage), after, Ok(())); }
  }

  lemma {:induction false} PrepareKeeps(d: Driver, log: LogState)
    requires Knows(d, log) && d.terminal.None?
    ensures var s := d.Prepare(log); Kept(d, log, s.driver, s.log)
    ensures var s := d.Prepare(log); s.result.Ok? ==> s.driver.terminal.None?
  {
    hide DriverInv, TranscriptInv, TargetShape.Targets, Grows, LogState.ClosePhase, Driver.AbortWith;
    PrepareShape(d, log);
    NothingKept(d, log);
    AbortWithKeeps<()>(d, log, SupportMismatch);
    var (after, r) := log.ClosePhase(d.command.id, ReceiptPhase);
    CloseEffect(log, d.command.id, ReceiptPhase);
    if r.Err? {
      AbortWithKeeps<()>(d, log, r.error);
    } else if d.stage == ReceiptStage && |d.receipts| == |d.command.shape.Targets()| {
      PreparedKeeps(d, log.transcripts[d.command.id], after.transcripts[d.command.id]);
    }
  }

  lemma {:induction false} PreparedKeeps(d: Driver, t: Transcript, u: Transcript)
    requires DriverInv(d, t) && d.terminal.None? && d.stage == ReceiptStage
      && |d.receipts| == |d.command.shape.Targets()|
    requires Grows(t, u) && u.posts == t.posts && Progress(u.next) == 3
    requires u.next == t.next || (t.next == Some(ReceiptPhase) && u.next == Following(ReceiptPhase))
    ensures DriverInv(d.(stage := ReadyStage), u)
    ensures TranscriptInv(t, d.command) ==> TranscriptInv(u, d.command)
  {
    hide BuildView, CommandBytes, Command.Valid, OpeningStands, ReceiptStands, CommitmentStands, TranscriptInv,
      TargetShape.Targets;
    hide CommitsComplete, OpensComplete, ReceiptsComplete, Grows, Command.RoleIds;
    ReceiptsCounted(d, t);
    DriverInvStable(d, t, u);
    CompletePosts(d, t);
    CloseKeeps(t, u, d.command, ReceiptPhase);
  }

  lemma {:induction false} KeptTrans(d: Driver, log: LogState, e: Driver, mid: LogState, f: Driver, end: LogState)
    requires Kept(d, log, e, mid) && Kept(e, mid, f, end)
    ensures Kept(d, log, f, end)
  {
    hide DriverInv, TranscriptInv;
  }

  lemma {:induction false} ActivateKeeps(d: Driver, log: LogState)
    requires Knows(d, log) && HasFresh(log.handles)
    ensures var s := d.Activate(log); Kept(d, log, s.driver, s.log)
  {
    hide Driver.Prepare, LogState.Activate, DriverInv, TranscriptInv, Grows, HasFresh;
    NothingKept(d, log);
    if d.terminal.None? {
      PrepareKeeps(d, log);
      var ready := d.Prepare(log);
      if ready.result.Ok? {
        PrepareKeepsHandles(d, log);
        ActivatePreparedKeeps(ready.driver, ready.log);
        var (after, r) := ready.log.Activate(d.command.id);
        var s := d.Activate(log);
        KeptTrans(d, log, ready.driver, ready.log, s.driver, s.log);
      }
    }
  }

  lemma {:induction false} ActivatePreparedKeeps(d: Driver, log: LogState)
    requires Knows(d, log) && HasFresh(log.handles) && d.terminal.None?
    ensures var (after, r) := log.Activate(d.command.id);
      && (r.Err? ==> after == log && var s := d.AbortWith<Terminal>(after, r.error); Kept(d, log, s.driver, s.log))
      && (r.Ok? ==> Kept(d, log, d.(stage := TerminalStage, terminal := Some(r.value)), after))
  {
    hide PostsStand, Anchored, BuildView, TranscriptInv, HandleFor, FirstFresh, LogState.ActivateBundle, HasFresh;
    var (after, r) := log.Activate(d.command.id);
    BundleIsAtomic(log, [d.command.id]);
    if r.Err? {
      AbortWithKeeps<Terminal>(d, log, r.error);
    } else {
      ActivatedTerminal(log, d.command.id);
      var t, u := log.transcripts[d.command.id], after.transcripts[d.command.id];
      EndKeeps(d, t, u, d.(stage := TerminalStage, terminal := Some(r.value)));
    }
  }

  /** A successful activation leaves exactly its result as the command's terminal. */
  lemma {:induction false} ActivatedTerminal(log: LogState, id: CommandId)
    requires HasFresh(log.handles) && log.Activate(id).1.Ok?
    ensures var (after, r) := log.Activate(id);
      id in log.transcripts && id in after.transcripts && after.transcripts[id].terminal == Some(r.value)
      && Grows(log.transcripts[id], after.transcripts[id])
      && after.transcripts[id].posts == log.transcripts[id].posts
        && after.transcripts[id].next == log.transcripts[id].next
  {
    hide HandleFor, FirstFresh, HasFresh, Sort, LogState.NextCounter;
    ScanIff(log, [id]);
    assert [id][..0] == [];
  }

  lemma {:induction false} AbortKeeps(d: Driver, log: LogState)
    requires Knows(d, log)
    ensures var s := d.Abort(log); Kept(d, log, s.driver, s.log)
  {
    hide DriverInv, TranscriptInv, Grows, LogState.Abort;
    NothingKept(d, log);
    AbortEffect(log, d.command.id);
    if d.terminal.None? {
      var s := d.Abort(log);
      var t, u := log.transcripts[d.command.id], s.log.transcripts[d.command.id];
      if s.result.Ok? { EndKeeps(d, t, u, s.driver); }
    }
  }
}

/** What every run of the log keeps (src/log_act.rs). */
module LogHistory {
  import opened Results
  import opened Sorting
  import opened Ids
  import opened Encoding
  import opened LogAct

  // ----- runs

  datatype Op =
    | GenesisOp(scope: ScopeId, handle: Handle)
    | BeginOp(scope: ScopeId, command: CommandId, predecessor: Handle, parameters: bytes)
    | PostOp(command: CommandId, phase: Phase, role: bytes, payload: bytes)
    | CloseOp(command: CommandId, phase: Phase)
    | AbortOp(command: CommandId)
    | ActivateOp(commands: seq<CommandId>)

  /** The log after one call; an activation that never returns leaves none, so the
    * run stays where it is.
    */
  ghost function Apply(s: LogState, op: Op): LogState {
    match op
    case GenesisOp(scope, handle) => s.InstallGenesis(scope, handle).0
    case BeginOp(scope, command, predecessor, parameters) => s.Begin(scope, command, predecessor, parameters).0
    case PostOp(command, phase, role, payload) => s.Post(command, phase, role, payload).0
    case CloseOp(command, phase) => s.ClosePhase(command, phase).0
    case AbortOp(command) => s.Abort(command).0
    case ActivateOp(commands) => if HasFresh(s.handles) then s.ActivateBundle(commands).0 else s
  }

  ghost function RunFrom(s: LogState, ops: seq<Op>): LogState {
    if ops == [] then s else Apply(RunFrom(s, ops[..|ops| - 1]), ops[|ops| - 1])
  }

  ghost function Run(ops: seq<Op>): LogState { RunFrom(EMPTY_LOG, ops) }

  predicate IsActivated(t: Transcript) { t.terminal.Some? && t.terminal.value.Activated? }

  // ----- what one bundle does

  ghost predicate AllOpen(s: LogState, commands: seq<CommandId>) {
    forall c :: c in commands ==>
      c in s.transcripts && s.transcripts[c].terminal.None? && s.transcripts[c].next.None?
        && s.IsCurrent(s.transcripts[c])
  }

  ghost predicate AllActivated(s: LogState, commands: seq<CommandId>, h: Handle) {
    forall c :: c in commands ==> c in s.transcripts && s.transcripts[c].terminal == Some(Activated(h))
  }

  ghost predicate OwnScopes(s: LogState, commands: seq<CommandId>) {
    forall c, d :: c in commands && d in commands && c in s.transcripts && d in s.transcripts && c != d ==>
      s.transcripts[c].scope != s.transcripts[d].scope
  }

  lemma {:induction false} LastDistinct(commands: seq<CommandId>)
    requires commands != []
    ensures var n := |commands| - 1;
      DistinctKeys(commands, CommandKey) <==> DistinctKeys(commands[..n], CommandKey) && commands[n] !in commands[..n]
  {
    var n := |commands| - 1;
    if DistinctKeys(commands[..n], CommandKey) && commands[n] !in commands[..n] {
      forall i, j | 0 <= i < j < |commands| ensures CommandKey(commands[i]) != CommandKey(commands[j]) {
        if j < n { assert CommandKey(commands[..n][i]) != CommandKey(commands[..n][j]); }
        else { assert commands[..n][i] in commands[..n]; }
      }
    }
  }

  lemma {:induction false} ScanSound(s: LogState, commands: seq<CommandId>)
    requires s.Scan(commands).Ok?
    ensures DistinctKeys(commands, CommandKey) && OwnScopes(s, commands)
    ensures match s.Scan(commands).value
      case None => AllOpen(s, commands)
      case Some(h) => commands != [] && AllActivated(s, commands, h)
  {
    hide DistinctKeys, OwnScopes, LogState.Scan;
    if commands == [] {
      EmptyBundle(s, commands);
    } else {
      var n := |commands| - 1;
      var front, c := commands[..n], commands[n];
      assert commands == front + [c];
      ScanLast(s, commands);
      ScanSound(s, front);
      LastDistinct(commands);
      OwnScopesGrow(s, front, c);
    }
  }

  lemma {:induction false} ScanLast(s: LogState, commands: seq<CommandId>)
    requires commands != []
    ensures var front := s.Scan(commands[..|commands| - 1]);
      s.Scan(commands) == if front.Err? then front
        else s.ScanStep(commands[..|commands| - 1], front.value, commands[|commands| - 1])
  {
    hide LogState.ScanStep;
  }

  lemma {:induction false} EmptyBundle(s: LogState, commands: seq<CommandId>)
    requires commands == []
    ensures s.Scan(commands) == Ok(None) && AllOpen(s, commands)
    ensures DistinctKeys(commands, CommandKey) && OwnScopes(s, commands)
  {}

  /** The scan accepts exactly repeat-free bundles over distinct scopes that are
    * either all ready to activate or all activated under one handle.
    */
  lemma {:induction false} ScanIff(s: LogState, commands: seq<CommandId>)
    ensures s.Scan(commands).Ok? <==>
      && DistinctKeys(commands, CommandKey) && OwnScopes(s, commands)
      && (AllOpen(s, commands) || exists h :: AllActivated(s, commands, h))
    ensures s.Scan(commands).Ok? ==> match s.Scan(commands).value
      case None => AllOpen(s, commands)
      case Some(h) => commands != [] && AllActivated(s, commands, h)
  {
    hide LogState.Scan, DistinctKeys, OwnScopes, AllOpen, AllActivated;
    if s.Scan(commands).Ok? { ScanSound(s, commands); }
    if DistinctKeys(commands, CommandKey) && OwnScopes(s, commands) {
      if AllOpen(s, commands) { OpenScan(s, commands); }
      if h :| AllActivated(s, commands, h) { ActivatedScan(s, commands, h); }
    }
    if commands == [] { AnyHandle(s); }
  }

  lemma {:induction false} AnyHandle(s: LogState)
    ensures AllOpen(s, []) && s.Scan([]) == Ok(None)
  {}

  lemma {:induction false} OwnScopesGrow(s: LogState, front: seq<CommandId>, c: CommandId)
    requires OwnScopes(s, front) && c in s.transcripts && s.transcripts[c].scope !in s.ScopesOf(front)
    ensures OwnScopes(s, front + [c])
  {
  }

  lemma {:induction false} FrontScopes(s: LogState, commands: seq<CommandId>)
    requires commands != [] && DistinctKeys(commands, CommandKey) && OwnScopes(s, commands)
    requires commands[|commands| - 1] in s.transcripts
    ensures s.transcripts[commands[|commands| - 1]].scope !in s.ScopesOf(commands[..|commands| - 1])
  {
    var n := |commands| - 1;
    LastDistinct(commands);
    if d :| d in commands[..n] && d in s.transcripts && s.transcripts[d].scope == s.transcripts[commands[n]].scope {
      assert d in commands && d != commands[n];
    }
  }

  lemma {:induction false} FrontOwn(s: LogState, commands: seq<CommandId>)
    requires commands != [] && OwnScopes(s, commands)
    ensures OwnScopes(s, commands[..|commands| - 1])
  {}

  lemma {:induction false} OpenScan(s: LogState, commands: seq<CommandId>)
    requires DistinctKeys(commands, CommandKey) && OwnScopes(s, commands) && AllOpen(s, commands)
    ensures s.Scan(commands) == Ok(None)
  {
    hide LogState.Scan, DistinctKeys, OwnScopes;
    if commands == [] {
      EmptyBundle(s, commands);
    } else {
      var n := |commands| - 1;
      assert commands == commands[..n] + [commands[n]];
      ScanLast(s, commands);
      FrontOwn(s, commands);
      LastDistinct(commands);
      FrontScopes(s, commands);
      OpenScan(s, commands[..n]);
    }
  }

  lemma {:induction false} ActivatedScan(s: LogState, commands: seq<CommandId>, h: Handle)
    requires DistinctKeys(commands, CommandKey) && OwnScopes(s, commands) && AllActivated(s, commands, h)
    ensures s.Scan(commands) == Ok(if commands == [] then None else Some(h))
  {
    hide LogState.Scan, DistinctKeys, OwnScopes;
    if commands == [] {
      EmptyBundle(s, commands);
    } else {
      var n := |commands| - 1;
      assert commands == commands[..n] + [commands[n]];
      ScanLast(s, commands);
      FrontOwn(s, commands);
      LastDistinct(commands);
      FrontScopes(s, commands);
      ActivatedScan(s, commands[..n], h);
    }
  }

  /** A bundle changes nothing, or moves every scope and terminal at once under a
    * handle that was never used and leaves all other commands alone.
    */
  lemma {:induction false} BundleIsAtomic(s: LogState, commands: seq<CommandId>)
    requires HasFresh(s.handles)
    ensures var (after, r) := s.ActivateBundle(commands);
      || after == s
      || (&& r.Ok? && r.value.Activated? && r.value.handle !in s.handles && AllOpen(s, commands)
          && after.handles == s.handles + {r.value.handle}
          && after.transcripts.Keys == s.transcripts.Keys
          && (forall c :: c in s.transcripts ==>
            after.transcripts[c] == if c in commands then s.transcripts[c].(terminal := Some(r.value))
              else s.transcripts[c])
          && after.current.Keys == s.current.Keys
          && (forall scope :: scope in s.current ==>
            after.current[scope] == if scope in s.ScopesOf(commands) then r.value.handle else s.current[scope]))
    ensures s.ActivateBundle(commands).1.Err? ==> s.ActivateBundle(commands).0 == s
  {
    hide HandleFor, FirstFresh, Sort, LogState.Scan;
    ScanIff(s, commands);
    var (after, r) := s.ActivateBundle(commands);
    if s.Scan(commands) == Ok(None) {
      FreshIsWithin(s.handles, s.nextHandle);
      assert s.ScopesOf(commands) <= s.current.Keys;
    }
  }

  /** The order of a bundle does not matter: every arrangement gives the same state
    * and succeeds exactly when any other does, with the same handle.
    */
  lemma {:induction false} BundleIsOrderFree(s: LogState, a: seq<CommandId>, b: seq<CommandId>)
    requires HasFresh(s.handles) && multiset(a) == multiset(b)
    ensures s.ActivateBundle(a).0 == s.ActivateBundle(b).0
    ensures s.ActivateBundle(a).1.Ok? <==> s.ActivateBundle(b).1.Ok?
    ensures s.ActivateBundle(a).1.Ok? ==> s.ActivateBundle(a).1 == s.ActivateBundle(b).1
  {
    hide HandleFor, FirstFresh, Sort, LogState.Scan, DistinctKeys, HasFresh, LogState.NextCounter;
    forall c ensures c in a <==> c in b { SameElements(a, b, c); }
    ScanIff(s, a);
    ScanIff(s, b);
    assert |a| == |multiset(a)| == |multiset(b)| == |b|;
    assert DistinctKeys(a, CommandKey) <==> DistinctKeys(b, CommandKey) by {
      if DistinctKeys(a, CommandKey) { SortPermute(a, b, CommandKey); }
      if DistinctKeys(b, CommandKey) { SortPermute(b, a, CommandKey); }
    }
    assert AllOpen(s, a) <==> AllOpen(s, b);
    forall h ensures AllActivated(s, a, h) <==> AllActivated(s, b, h) {}
    assert OwnScopes(s, a) <==> OwnScopes(s, b);
    if s.Scan(a).Ok? {
      SortPermute(a, b, CommandKey);
      SameScan(s, a, b);
      assert s.ScopesOf(a) == s.ScopesOf(b);
    }
  }

  lemma {:induction false} SameScan(s: LogState, a: seq<CommandId>, b: seq<CommandId>)
    requires s.Scan(a).Ok? && s.Scan(b).Ok? && |a| == |b| && forall c :: c in a <==> c in b
    ensures s.Scan(a) == s.Scan(b)
  {
    hide LogState.Scan;
    ScanIff(s, a);
    ScanIff(s, b);
    if a != [] {
      assert a[0] in a && a[0] in b;
    }
  }

  // ----- invariants

  ghost predicate KnownScopes(s: LogState) {
    && (forall c :: c in s.transcripts ==>
      s.transcripts[c].scope in s.current && s.transcripts[c].predecessor in s.handles)
    && (forall scope :: scope in s.current ==> s.current[scope] in s.handles)
  }

  ghost predicate ActivationsRecorded(s: LogState) {
    forall c :: c in s.transcripts && IsActivated(s.transcripts[c]) ==>
      ActivatedWell(s, c, s.transcripts[c].terminal.value.handle)
  }

  ghost predicate RecordsHold(s: LogState) {
    forall h :: h in s.activations ==> h in s.handles && RecordHolds(s, s.activations[h], h)
  }

  /** A recorded bundle: repeat-free, one command a scope, all activated under the handle. */
  ghost predicate RecordHolds(s: LogState, commands: seq<CommandId>, h: Handle) {
    AllActivated(s, commands, h) && DistinctKeys(commands, CommandKey) && OwnScopes(s, commands)
  }

  ghost predicate WellFormed(s: LogState) {
    KnownScopes(s) && ActivationsRecorded(s) && RecordsHold(s)
  }

  /** An activated command closed all its phases and is a member of its handle. */
  ghost predicate ActivatedWell(s: LogState, c: CommandId, h: Handle)
    requires c in s.transcripts
  {
    s.transcripts[c].next.None? && h in s.handles && h in s.activations && c in s.activations[h]
  }

  lemma {:induction false} ApplyKeepsWellFormed(s: LogState, op: Op)
    requires WellFormed(s)
    ensures WellFormed(Apply(s, op))
  {
    hide HandleFor, FirstFresh, Sort, LogState.Scan, HasFresh;
    if op.ActivateOp? && HasFresh(s.handles) {
      BundleIsAtomic(s, op.commands);
      ActivateKeepsWellFormed(s, op.commands);
    }
  }

  lemma {:induction false} ActivateKeepsWellFormed(s: LogState, commands: seq<CommandId>)
    requires WellFormed(s) && HasFresh(s.handles)
    ensures WellFormed(s.ActivateBundle(commands).0)
  {
    hide HandleFor, Sort, LogState.Scan, HasFresh, LogState.ActivateBundle, AllOpen, LogState.ScopesOf;
    BundleIsAtomic(s, commands);
    var (after, r) := s.ActivateBundle(commands);
    if after != s {
      InstallRecords(s, commands);
      OpenFacts(s, commands);
      assert KnownScopes(after);
      forall c | c in after.transcripts && IsActivated(after.transcripts[c])
        ensures ActivatedWell(after, c, after.transcripts[c].terminal.value.handle)
      {
        if c !in commands { assert ActivatedWell(s, c, s.transcripts[c].terminal.value.handle); }
      }
      ActivateKeepsRecords(s, commands);
    }
  }

  lemma {:induction false} ActivateKeepsRecords(s: LogState, commands: seq<CommandId>)
    requires WellFormed(s) && HasFresh(s.handles) && s.ActivateBundle(commands).0 != s
    ensures RecordsHold(s.ActivateBundle(commands).0)
  {
    hide HandleFor, Sort, LogState.Scan, HasFresh, LogState.ActivateBundle, AllOpen, LogState.ScopesOf, OwnScopes,
      DistinctKeys, KnownScopes, ActivationsRecorded;
    BundleIsAtomic(s, commands);
    InstallRecords(s, commands);
    ScanIff(s, commands);
    SortedAlike(s, commands);
    var (after, r) := s.ActivateBundle(commands);
    forall h | h in after.activations ensures h in after.handles && RecordHolds(after, after.activations[h], h) {
      ScopesStay(s, after, after.activations[h]);
      if h != r.value.handle {
        assert RecordHolds(s, s.activations[h], h);
        OpenStays(s, after, commands, h);
      } else {
        OpenFacts(s, commands);
        assert r.value == Activated(h) && AllActivated(after, after.activations[h], h);
      }
    }
  }

  /** Members of a recorded bundle are not among the newly activated ones. */
  lemma {:induction false} OpenStays(s: LogState, after: LogState, commands: seq<CommandId>, h: Handle)
    requires h in s.activations && AllActivated(s, s.activations[h], h) && AllOpen(s, commands)
    requires forall c :: c in s.transcripts && c !in commands ==>
      c in after.transcripts && after.transcripts[c] == s.transcripts[c]
    ensures AllActivated(after, s.activations[h], h)
  {}

  lemma {:induction false} OpenFacts(s: LogState, commands: seq<CommandId>)
    requires AllOpen(s, commands)
    ensures forall c :: c in commands ==>
      c in s.transcripts && s.transcripts[c].next.None? && s.transcripts[c].terminal.None?
        && s.IsCurrent(s.transcripts[c])
  {}

  lemma {:induction false} ScopesStay(s: LogState, u: LogState, commands: seq<CommandId>)
    requires u.transcripts.Keys == s.transcripts.Keys
    requires forall c :: c in s.transcripts ==> u.transcripts[c].scope == s.transcripts[c].scope
    ensures OwnScopes(u, commands) <==> OwnScopes(s, commands)
  {}

  /** Sorting a bundle changes neither its members nor their scopes. */
  lemma {:induction false} SortedAlike(s: LogState, commands: seq<CommandId>)
    ensures var sorted := Sort(commands, CommandKey);
      && (DistinctKeys(sorted, CommandKey) <==> DistinctKeys(commands, CommandKey))
      && (OwnScopes(s, sorted) <==> OwnScopes(s, commands))
  {
    hide Sort;
    var sorted := Sort(commands, CommandKey);
    forall c ensures c in sorted <==> c in commands { SameElements(sorted, commands, c); }
    if DistinctKeys(commands, CommandKey) { PermuteDistinct(commands, sorted, CommandKey); }
    if DistinctKeys(sorted, CommandKey) { PermuteDistinct(sorted, commands, CommandKey); }
  }

  lemma {:induction false} InstallRecords(s: LogState, commands: seq<CommandId>)
    requires HasFresh(s.handles) && s.ActivateBundle(commands).0 != s
    ensures var (after, r) := s.ActivateBundle(commands);
      && r.Ok? && r.value.Activated? && s.Scan(commands).Ok?
      && after.activations.Keys == s.activations.Keys + {r.value.handle}
      && (forall h :: h in s.activations && h != r.value.handle ==> after.activations[h] == s.activations[h])
      && after.activations[r.value.handle] == Sort(commands, CommandKey)
      && forall c :: c in after.activations[r.value.handle] <==> c in commands
  {
    hide HandleFor, FirstFresh, Sort, LogState.Scan, HasFresh;
    forall c ensures c in Sort(commands, CommandKey) <==> c in commands {
      SameElements(Sort(commands, CommandKey), commands, c);
    }
  }

  /** In every run a handle's members are exactly the commands activated under it, so
    * replaying a bundle succeeds exactly for an arrangement of the bundle installed.
    */
  lemma {:induction false} ReplayIsExact(s: LogState, commands: seq<CommandId>)
    requires WellFormed(s) && HasFresh(s.handles)
    requires commands != [] && commands[0] in s.transcripts && s.transcripts[commands[0]].terminal.Some?
    ensures var r := s.ActivateBundle(commands);
      && r.0 == s
      && (r.1.Ok? <==>
          && s.transcripts[commands[0]].terminal.value.Activated?
          && s.activations[s.transcripts[commands[0]].terminal.value.handle] == Sort(commands, CommandKey))
      && (r.1.Ok? ==> r.1.value == s.transcripts[commands[0]].terminal.value)
  {
    hide HandleFor, FirstFresh, Sort, LogState.Scan, HasFresh, OwnScopes, DistinctKeys;
    ScanIff(s, commands);
    SortedAlike(s, commands);
    assert commands[0] in commands;
    var t := s.transcripts[commands[0]].terminal.value;
    if t.Activated? && s.activations[t.handle] == Sort(commands, CommandKey) {
      assert RecordHolds(s, s.activations[t.handle], t.handle);
      forall c | c in commands ensures c in s.activations[t.handle] {
        SameElements(Sort(commands, CommandKey), commands, c);
      }
      assert AllActivated(s, commands, t.handle);
    }
  }

  // ----- transcripts only grow

  ghost predicate Grows(t: Transcript, u: Transcript) {
    && t.scope == u.scope && t.predecessor == u.predecessor && t.parameters == u.parameters
    && (forall k :: k in t.posts ==> k in u.posts && u.posts[k] == t.posts[k])
    && Progress(t.next) <= Progress(u.next)
    && (t.terminal.Some? ==> u.terminal == t.terminal)
  }

  /** No call drops or rewrites what a transcript already holds. */
  lemma {:induction false} TranscriptsGrow(s: LogState, op: Op, c: CommandId)
    requires c in s.transcripts
    ensures c in Apply(s, op).transcripts && Grows(s.transcripts[c], Apply(s, op).transcripts[c])
  {
    hide HandleFor, FirstFresh, Sort, LogState.Scan, HasFresh, LogState.ActivateBundle;
    if op.ActivateOp? && HasFresh(s.handles) {
      BundleIsAtomic(s, op.commands);
    }
  }

  lemma {:induction false} RunGrows(s: LogState, ops: seq<Op>, c: CommandId)
    requires c in s.transcripts
    ensures c in RunFrom(s, ops).transcripts && Grows(s.transcripts[c], RunFrom(s, ops).transcripts[c])
  {
    hide Apply;
    if ops != [] {
      var n := |ops| - 1;
      RunGrows(s, ops[..n], c);
      TranscriptsGrow(RunFrom(s, ops[..n]), ops[n], c);
    }
  }

  /** Closing a phase succeeds exactly when the phase is over or is the open one of a
    * live, current transcript; on a terminal transcript that leaves the phases over.
    */
  lemma {:induction false} ClosePhaseIff(s: LogState, c: CommandId, phase: Phase)
    requires c in s.transcripts
    ensures var (after, r) := s.ClosePhase(c, phase);
      var t := s.transcripts[c];
      && (r.Ok? <==> Progress(t.next) > Rank(phase) || (t.next == Some(phase) && t.terminal.None? && s.IsCurrent(t)))
      && (t.terminal.Some? ==> after == s && (r.Ok? <==> Progress(t.next) > Rank(phase)))
      && (r.Ok? ==> Progress(after.transcripts[c].next) > Rank(phase))
  {}

  /** A phase once closed closes again without effect after any later calls, terminal
    * or stale transcript included.
    */
  lemma {:induction false} ClosingRepeats(s: LogState, ops: seq<Op>, c: CommandId, phase: Phase)
    requires c in s.transcripts && s.ClosePhase(c, phase).1.Ok?
    ensures var u := RunFrom(s.ClosePhase(c, phase).0, ops); u.ClosePhase(c, phase) == (u, Ok(()))
  {
    hide RunFrom;
    ClosePhaseIff(s, c, phase);
    RunGrows(s.ClosePhase(c, phase).0, ops, c);
  }

  // ----- each scope's history is a simple chain

  /** `commands` are the activated commands of the scope, in order, linking the
    * pairwise distinct `handles` from the genesis to the current one.
    */
  ghost predicate Chain(s: LogState, scope: ScopeId, commands: seq<CommandId>, handles: seq<Handle>) {
    && |handles| == |commands| + 1
    && scope in s.current && s.current[scope] == handles[|commands|]
    && (forall h :: h in handles ==> h in s.handles)
    && (forall i, j :: 0 <= i < j < |handles| ==> handles[i] != handles[j])
    && (forall i :: 0 <= i < |commands| ==> Link(s, scope, commands[i], handles[i], handles[i + 1]))
    && (forall c :: c in s.transcripts && s.transcripts[c].scope == scope && IsActivated(s.transcripts[c]) ==>
      c in commands)
  }

  ghost predicate Link(s: LogState, scope: ScopeId, c: CommandId, before: Handle, after: Handle) {
    c in s.transcripts && s.transcripts[c].scope == scope
      && s.transcripts[c].predecessor == before && s.transcripts[c].terminal == Some(Activated(after))
  }

  lemma {:induction false} LinkStays(s: LogState, op: Op, scope: ScopeId, c: CommandId, before: Handle, after: Handle)
    requires Link(s, scope, c, before, after)
    ensures Link(Apply(s, op), scope, c, before, after)
  {
    hide Apply;
    TranscriptsGrow(s, op, c);
  }

  /** Any call leaves a scope's chain as it is or appends one fresh link. */
  lemma {:induction false} ChainStep(s: LogState, op: Op, scope: ScopeId, commands: seq<CommandId>,
      handles: seq<Handle>)
    requires WellFormed(s) && Chain(s, scope, commands, handles)
    ensures exists cs, hs :: commands <= cs && handles <= hs && Chain(Apply(s, op), scope, cs, hs)
  {
    hide WellFormed, Chain, Link, HasFresh, LogState.ActivateBundle;
    if op.ActivateOp? && HasFresh(s.handles) {
      ActivationChain(s, op.commands, scope, commands, handles);
      assert Apply(s, op) == s.ActivateBundle(op.commands).0;
    } else {
      QuietStep(s, op, scope, commands, handles);
    }
  }

  /** What `BundleIsAtomic` says of a bundle that moved. */
  ghost predicate Moved(s: LogState, after: LogState, bundle: seq<CommandId>, h: Handle) {
    && h !in s.handles && after.handles == s.handles + {h} && after.transcripts.Keys == s.transcripts.Keys
    && (forall c :: c in s.transcripts ==>
      after.transcripts[c] == if c in bundle then s.transcripts[c].(terminal := Some(Activated(h)))
        else s.transcripts[c])
    && after.current.Keys == s.current.Keys
    && (forall scope :: scope in s.current ==>
      after.current[scope] == if scope in s.ScopesOf(bundle) then h else s.current[scope])
    && AllOpen(s, bundle) && OwnScopes(s, bundle)
  }

  lemma {:induction false} BundleMoves(s: LogState, bundle: seq<CommandId>)
    requires HasFresh(s.handles) && s.ActivateBundle(bundle).0 != s
    ensures var (after, r) := s.ActivateBundle(bundle);
      r.Ok? && r.value.Activated? && Moved(s, after, bundle, r.value.handle)
  {
    hide HandleFor, FirstFresh, Sort, LogState.Scan, HasFresh, AllOpen, OwnScopes, AllActivated, DistinctKeys;
    BundleIsAtomic(s, bundle);
    ScanIff(s, bundle);
  }

  lemma {:induction false} ActivationChain(s: LogState, bundle: seq<CommandId>, scope: ScopeId,
      commands: seq<CommandId>, handles: seq<Handle>)
    requires WellFormed(s) && Chain(s, scope, commands, handles) && HasFresh(s.handles)
    ensures exists cs, hs :: commands <= cs && handles <= hs && Chain(s.ActivateBundle(bundle).0, scope, cs, hs)
  {
    hide WellFormed, Chain, HasFresh, LogState.ActivateBundle, Moved;
    var (after, r) := s.ActivateBundle(bundle);
    if after != s {
      BundleMoves(s, bundle);
      if scope in s.ScopesOf(bundle) {
        var c :| c in bundle && c in s.transcripts && s.transcripts[c].scope == scope;
        AppendLink(s, after, bundle, scope, commands, handles, c, r.value.handle);
        assert commands <= commands + [c] && handles <= handles + [r.value.handle];
      } else {
        KeepChain(s, after, bundle, scope, commands, handles, r.value.handle);
      }
    }
  }

  lemma {:induction false} KeepChain(s: LogState, after: LogState, bundle: seq<CommandId>, scope: ScopeId,
      commands: seq<CommandId>, handles: seq<Handle>, h: Handle)
    requires Chain(s, scope, commands, handles) && Moved(s, after, bundle, h) && scope !in s.ScopesOf(bundle)
    ensures Chain(after, scope, commands, handles)
  {
    forall i | 0 <= i < |commands| ensures Link(after, scope, commands[i], handles[i], handles[i + 1]) {
      assert Link(s, scope, commands[i], handles[i], handles[i + 1]);
    }
  }

  lemma {:induction false} AppendLink(s: LogState, after: LogState, bundle: seq<CommandId>, scope: ScopeId,
      commands: seq<CommandId>, handles: seq<Handle>, c: CommandId, h: Handle)
    requires WellFormed(s) && Chain(s, scope, commands, handles) && Moved(s, after, bundle, h)
    requires c in bundle && c in s.transcripts && s.transcripts[c].scope == scope
    ensures Chain(after, scope, commands + [c], handles + [h])
  {
    var cs, hs := commands + [c], handles + [h];
    forall i | 0 <= i < |cs| ensures Link(after, scope, cs[i], hs[i], hs[i + 1]) {
      if i < |commands| {
        assert Link(s, scope, commands[i], handles[i], handles[i + 1]);
        assert commands[i] !in bundle;
      } else {
        assert s.IsCurrent(s.transcripts[c]);
      }
    }
    forall d | d in after.transcripts && after.transcripts[d].scope == scope && IsActivated(after.transcripts[d])
      ensures d in cs
    {
      if d in bundle { assert d == c; } else { assert d in commands; }
    }
  }

  lemma {:induction false} QuietStep(s: LogState, op: Op, scope: ScopeId, commands: seq<CommandId>,
      handles: seq<Handle>)
    requires Chain(s, scope, commands, handles) && (op.ActivateOp? ==> !HasFresh(s.handles))
    ensures Chain(Apply(s, op), scope, commands, handles)
  {
    hide HasFresh, Link;
    forall i | 0 <= i < |commands| ensures Link(Apply(s, op), scope, commands[i], handles[i], handles[i + 1]) {
      LinkStays(s, op, scope, commands[i], handles[i], handles[i + 1]);
    }
  }

  lemma {:induction false} GenesisChain(s: LogState, op: Op, scope: ScopeId)
    requires WellFormed(s) && scope !in s.current && scope in Apply(s, op).current
    ensures Chain(Apply(s, op), scope, [], [Apply(s, op).current[scope]])
  {
    hide HandleFor, FirstFresh, Sort, LogState.Scan, HasFresh, LogState.ActivateBundle;
    if op.ActivateOp? && HasFresh(s.handles) { BundleIsAtomic(s, op.commands); }
  }

  ghost predicate HasChain(s: LogState, scope: ScopeId) {
    exists cs, hs :: Chain(s, scope, cs, hs)
  }

  /** Over every run, each scope's activated commands form one chain from its genesis
    * to its current handle, and no handle of the chain is ever met twice.
    */
  lemma {:induction false} HistoryIsAChain(ops: seq<Op>)
    ensures WellFormed(Run(ops))
    ensures forall scope :: scope in Run(ops).current ==> HasChain(Run(ops), scope)
  {
    hide Apply, Chain, WellFormed;
    if ops == [] {
      EmptyIsWellFormed();
    } else {
      var n := |ops| - 1;
      var s := Run(ops[..n]);
      HistoryIsAChain(ops[..n]);
      ApplyKeepsWellFormed(s, ops[n]);
      forall scope | scope in Run(ops).current ensures HasChain(Run(ops), scope) {
        if scope in s.current {
          var cs, hs :| Chain(s, scope, cs, hs);
          ChainStep(s, ops[n], scope, cs, hs);
        } else {
          GenesisChain(s, ops[n], scope);
        }
      }
    }
  }

  lemma {:induction false} EmptyIsWellFormed()
    ensures WellFormed(EMPTY_LOG)
  {}

  /** A chain is only ever extended. */
  lemma {:induction false} ChainExtends(s: LogState, ops: seq<Op>, scope: ScopeId, commands: seq<CommandId>,
      handles: seq<Handle>)
    requires WellFormed(s) && Chain(s, scope, commands, handles)
    ensures WellFormed(RunFrom(s, ops))
    ensures exists cs, hs :: commands <= cs && handles <= hs && Chain(RunFrom(s, ops), scope, cs, hs)
  {
    hide Apply, Chain, WellFormed;
    if ops == [] {
      assert commands <= commands && handles <= handles;
    } else {
      var n := |ops| - 1;
      ChainExtends(s, ops[..n], scope, commands, handles);
      var cs, hs :| commands <= cs && handles <= hs && Chain(RunFrom(s, ops[..n]), scope, cs, hs);
      ApplyKeepsWellFormed(RunFrom(s, ops[..n]), ops[n]);
      ChainStep(RunFrom(s, ops[..n]), ops[n], scope, cs, hs);
      var ds, ks :| cs <= ds && hs <= ks && Chain(Apply(RunFrom(s, ops[..n]), ops[n]), scope, ds, ks);
      assert commands <= ds && handles <= ks;
    }
  }

  /** At most one command per scope and predecessor activates. */
  lemma {:induction false} OneSuccessor(s: LogState, c: CommandId, d: CommandId, scope: ScopeId)
    requires HasChain(s, scope) && c in s.transcripts && d in s.transcripts
    requires s.transcripts[c].scope == scope == s.transcripts[d].scope
    requires s.transcripts[c].predecessor == s.transcripts[d].predecessor
    requires IsActivated(s.transcripts[c]) && IsActivated(s.transcripts[d])
    ensures c == d
  {
    var cs, hs :| Chain(s, scope, cs, hs);
    var i :| 0 <= i < |cs| && cs[i] == c;
    var j :| 0 <= j < |cs| && cs[j] == d;
    assert Link(s, scope, cs[i], hs[i], hs[i + 1]) && Link(s, scope, cs[j], hs[j], hs[j + 1]);
  }

  // ----- stale commands

  /** Not activated, and its predecessor has been replaced. */
  ghost predicate Stale(s: LogState, c: CommandId) {
    && c in s.transcripts
    && !IsActivated(s.transcripts[c])
    && !s.IsCurrent(s.transcripts[c])
  }

  lemma {:induction false} StaleStep(s: LogState, op: Op, c: CommandId)
    requires WellFormed(s) && Stale(s, c)
    ensures var u := Apply(s, op);
      && Stale(u, c)
      && u.transcripts[c].posts == s.transcripts[c].posts && u.transcripts[c].next == s.transcripts[c].next
  {
    hide HandleFor, FirstFresh, Sort, LogState.Scan, HasFresh, LogState.ActivateBundle;
    if op.ActivateOp? && HasFresh(s.handles) { BundleIsAtomic(s, op.commands); }
  }

  /** A stale command stays stale, with its posts and phase frozen for ever; only an
    * abort can still reach it.
    */
  lemma {:induction false} StaleForever(s: LogState, ops: seq<Op>, c: CommandId)
    requires WellFormed(s) && Stale(s, c)
    ensures var u := RunFrom(s, ops);
      && WellFormed(u) && Stale(u, c)
      && u.transcripts[c].posts == s.transcripts[c].posts && u.transcripts[c].next == s.transcripts[c].next
  {
    hide Apply, WellFormed, Stale;
    if ops != [] {
      var n := |ops| - 1;
      StaleForever(s, ops[..n], c);
      ApplyKeepsWellFormed(RunFrom(s, ops[..n]), ops[n]);
      StaleStep(RunFrom(s, ops[..n]), ops[n], c);
    }
  }

  // ----- commands that a call leaves alone

  /** The commands that a log call could change. */
  ghost predicate Spares(op: Op, owned: iset<CommandId>) {
    match op
    case GenesisOp(_, _) => true
    case BeginOp(_, command, _, _) => command !in owned
    case PostOp(command, _, _, _) => command !in owned
    case CloseOp(command, _) => command !in owned
    case AbortOp(command) => command !in owned
    case ActivateOp(commands) => forall c :: c in commands ==> c !in owned
  }

  lemma {:induction false} SparedStays(log: LogState, op: Op, owned: iset<CommandId>, id: CommandId)
    requires Spares(op, owned) && id in owned
    ensures id in Apply(log, op).transcripts <==> id in log.transcripts
    ensures id in log.transcripts ==> Apply(log, op).transcripts[id] == log.transcripts[id]
  {
    hide HandleFor, FirstFresh, HasFresh, LogState.ActivateBundle;
    if op.ActivateOp? && HasFresh(log.handles) { BundleIsAtomic(log, op.commands); }
  }
}

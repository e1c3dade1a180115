/** Append-only transcripts with activation compare-and-set (src/log_act.rs). */
module LogAct {
  import opened Results
  import opened Sorting
  import opened Ids
  import opened Encoding

  datatype Phase = CommitPhase | OpenPhase | ReceiptPhase

  function Rank(p: Phase): nat { match p case CommitPhase => 0 case OpenPhase => 1 case ReceiptPhase => 2 }

  /** The rank of the next open phase; three once all are closed. */
  function Progress(next: Option<Phase>): nat { if next.Some? then Rank(next.value) else 3 }

  function Following(p: Phase): Option<Phase> {
    match p case CommitPhase => Some(OpenPhase) case OpenPhase => Some(ReceiptPhase) case ReceiptPhase => None
  }

  type PostKey = (Phase, bytes)

  datatype Transcript = Transcript(
    scope: ScopeId, predecessor: Handle, parameters: bytes,
    posts: map<PostKey, bytes>, next: Option<Phase>, terminal: Option<Terminal>)

  // ----- handles

  // "KSNFLOG1"
  const HANDLE_MARK: bytes := [75, 83, 78, 70, 76, 79, 71, 49]

  /** The handle of one counter value. */
  function HandleFor(n: U64): Handle {
    FromWide(HANDLE_MARK + Zeros(16) + ToBytes(n, 8))
  }

  lemma {:induction false} HandleForInjective(m: U64, n: U64)
    requires HandleFor(m) == HandleFor(n)
    ensures m == n
  {
    Widths();
    var a, b := HANDLE_MARK + Zeros(16) + ToBytes(m, 8), HANDLE_MARK + Zeros(16) + ToBytes(n, 8);
    WideRoundTrip(0, a);
    WideRoundTrip(0, b);
    assert a[24..] == ToBytes(m, 8) && b[24..] == ToBytes(n, 8);
    FromToBytes(m, 8);
    FromToBytes(n, 8);
  }

  /** Wrapping addition. */
  function Bump(n: U64, k: nat): U64 { (n + k) % U64_LIMIT }

  lemma {:induction false} BumpZero(n: U64)
    ensures Bump(n, 0) == n
  {}

  /** Some counter handle is unused. */
  ghost predicate HasFresh(handles: set<Handle>) {
    exists n: U64 :: HandleFor(n) !in handles
  }

  ghost predicate FreshWithin(handles: set<Handle>, n: U64, k: nat) {
    exists j: nat :: k <= j <= U64_LIMIT && HandleFor(Bump(n, j)) !in handles
  }

  lemma {:induction false} FreshIsWithin(handles: set<Handle>, n: U64)
    requires HasFresh(handles)
    ensures FreshWithin(handles, n, 1)
  {
    hide HandleFor;
    var m: U64 :| HandleFor(m) !in handles;
    var j := if m > n then m - n else m + U64_LIMIT - n;
    assert Bump(n, j) == m;
  }

  /** The first counter step from `n`, at least `k`, that gives an unused handle. */
  function FirstFresh(handles: set<Handle>, n: U64, k: nat): (j: nat)
    requires FreshWithin(handles, n, k)
    ensures k <= j <= U64_LIMIT && HandleFor(Bump(n, j)) !in handles
    ensures forall i :: k <= i < j ==> HandleFor(Bump(n, i)) in handles
    decreases U64_LIMIT - k
  {
    if HandleFor(Bump(n, k)) !in handles then
      assert k <= U64_LIMIT;
      k
    else
      assert FreshWithin(handles, n, k + 1);
      FirstFresh(handles, n, k + 1)
  }

  lemma {:induction false} SearchStep(handles: set<Handle>, n: U64, k: nat)
    requires FreshWithin(handles, n, 1) && k < FirstFresh(handles, n, 1)
    ensures Bump(n, k + 1) == Bump(Bump(n, k), 1)
    ensures HandleFor(Bump(n, k + 1)) !in handles <==> k + 1 == FirstFresh(handles, n, 1)
  {
    BumpNext(n, k);
    hide HandleFor, FirstFresh, Bump, FreshWithin;
    var j := FirstFresh(handles, n, 1);
    if k + 1 < j { assert HandleFor(Bump(n, k + 1)) in handles; }
  }

  lemma {:induction false} BumpNext(n: U64, k: nat)
    ensures Bump(n, k + 1) == Bump(Bump(n, k), 1)
  {}

  /** The counter handles of the first `k` values. */
  function CounterHandles(k: nat): (r: set<Handle>)
    requires k <= U64_LIMIT
  {
    if k == 0 then {} else CounterHandles(k - 1) + {HandleFor(k - 1)}
  }

  lemma {:induction false} CounterHandlesSize(k: nat)
    requires k <= U64_LIMIT
    ensures |CounterHandles(k)| == k
    ensures forall h :: h in CounterHandles(k) ==> exists n: U64 :: n < k && h == HandleFor(n)
  {
    hide HandleFor;
    if k > 0 {
      CounterHandlesSize(k - 1);
      if HandleFor(k - 1) in CounterHandles(k - 1) {
        var n: U64 :| n < k - 1 && HandleFor(k - 1) == HandleFor(n);
        HandleForInjective(k - 1, n);
      }
    }
  }

  lemma {:induction false} SubsetSize<T>(a: set<T>, b: set<T>)
    requires a <= b
    ensures |a| <= |b|
  {
    if a != {} {
      var x :| x in a;
      SubsetSize(a - {x}, b - {x});
    }
  }

  /** Fewer than 2^64 handles leave a counter handle unused, so allocation ends. */
  lemma {:induction false} FewHandlesLeaveOne(handles: set<Handle>)
    requires |handles| < U64_LIMIT
    ensures HasFresh(handles)
  {
    hide HandleFor;
    var all := CounterHandles(U64_LIMIT);
    CounterHandlesSize(U64_LIMIT);
    if all <= handles {
      SubsetSize(all, handles);
    } else {
      var h :| h in all && h !in handles;
    }
  }

  // ----- the log as a value

  /** The transcripts with the commands activated under `handle`. */
  function Terminated(ts: map<CommandId, Transcript>, commands: seq<CommandId>,
      handle: Handle): map<CommandId, Transcript> {
    map c | c in ts :: if c in commands then ts[c].(terminal := Some(Activated(handle))) else ts[c]
  }

  datatype LogState = LogState(
    current: map<ScopeId, Handle>, transcripts: map<CommandId, Transcript>, handles: set<Handle>,
    activations: map<Handle, seq<CommandId>>, nextHandle: U64)
  {
    predicate IsCurrent(t: Transcript) {
      t.scope in current && current[t.scope] == t.predecessor
    }

    function InstallGenesis(scope: ScopeId, handle: Handle): (LogState, Result<()>) {
      if scope in current then (this, Err(CommandMismatch))
      else (this.(current := current[scope := handle], handles := handles + {handle}), Ok(()))
    }

    function Begin(scope: ScopeId, command: CommandId, predecessor: Handle, parameters: bytes): (LogState, Result<()>) {
      if command in transcripts then
        var t := transcripts[command];
        (this, Need(t.scope == scope && t.predecessor == predecessor && t.parameters == parameters, CommandMismatch))
      else if scope !in current || current[scope] != predecessor then (this, Err(StalePredecessor))
      else
        var t := Transcript(scope, predecessor, parameters, map[], Some(CommitPhase), None);
        (this.(transcripts := transcripts[command := t]), Ok(()))
    }

    function Post(command: CommandId, phase: Phase, role: bytes, payload: bytes): (LogState, Result<()>) {
      if command !in transcripts then (this, Err(ParticipantNotFound))
      else
        var t, key := transcripts[command], (phase, role);
        if key in t.posts then (this, Need(t.posts[key] == payload, ReplayMismatch))
        else if t.terminal.Some? then (this, Err(AlreadyTerminal))
        else if t.next != Some(phase) then (this, Err(PhaseClosed))
        else if !IsCurrent(t) then (this, Err(StalePredecessor))
        else (this.(transcripts := transcripts[command := t.(posts := t.posts[key := payload])]), Ok(()))
    }

    function ClosePhase(command: CommandId, phase: Phase): (LogState, Result<()>) {
      if command !in transcripts then (this, Err(ParticipantNotFound))
      else
        var t := transcripts[command];
        if Progress(t.next) > Rank(phase) then (this, Ok(()))
        else if t.terminal.Some? then (this, Err(AlreadyTerminal))
        else if !IsCurrent(t) then (this, Err(StalePredecessor))
        else if t.next == Some(phase) then
          (this.(transcripts := transcripts[command := t.(next := Following(phase))]), Ok(()))
        else (this, Err(PhaseClosed))
    }

    function Abort(command: CommandId): (LogState, Result<Terminal>) {
      if command !in transcripts then (this, Err(ParticipantNotFound))
      else
        var t := transcripts[command];
        match t.terminal
        case Some(Aborted) => (this, Ok(Aborted))
        case Some(Activated(_)) => (this, Err(AlreadyTerminal))
        case None => (this.(transcripts := transcripts[command := t.(terminal := Some(Aborted))]), Ok(Aborted))
    }

    function ScopesOf(commands: seq<CommandId>): set<ScopeId> {
      set c | c in commands && c in transcripts :: transcripts[c].scope
    }

    /** One step of the scan: `c` after the commands `front`, which replay `replay`. */
    function ScanStep(front: seq<CommandId>, replay: Option<Handle>, c: CommandId): Result<Option<Handle>> {
      if c in front then Err(CommandMismatch)
      else if c !in transcripts then Err(ParticipantNotFound)
      else if transcripts[c].scope in ScopesOf(front) then Err(CommandMismatch)
      else
        var t := transcripts[c];
        match t.terminal
        case Some(Activated(h)) =>
          if front != [] && replay != Some(h) then Err(AlreadyTerminal) else Ok(Some(h))
        case Some(Aborted) => Err(AlreadyTerminal)
        case None =>
          if replay.Some? then Err(AlreadyTerminal)
          else if t.next.Some? then Err(PhaseClosed)
          else if !IsCurrent(t) then Err(StalePredecessor)
          else Ok(None)
    }

    /** The left-to-right scan of a bundle: the handle it replays, if any. */
    function Scan(commands: seq<CommandId>): Result<Option<Handle>> {
      if commands == [] then Ok(None)
      else
        var n := |commands| - 1;
        var replay :- Scan(commands[..n]);
        ScanStep(commands[..n], replay, commands[n])
    }

    /** The counter that the allocation loop stops at. */
    function NextCounter(): U64
      requires HasFresh(handles)
    {
      FreshIsWithin(handles, nextHandle);
      Bump(nextHandle, FirstFresh(handles, nextHandle, 1))
    }

    /** Moves every scope and terminal of the bundle to `handle` at once. */
    function Install(commands: seq<CommandId>, handle: Handle, counter: U64): LogState
      requires forall c :: c in commands ==> c in transcripts
    {
      LogState(
        current + map scope | scope in ScopesOf(commands) :: handle,
        Terminated(transcripts, commands, handle),
        handles + {handle},
        activations[handle := Sort(commands, CommandKey)],
        counter)
    }

    /** Allocation never ends when no counter handle is left; that case has no result. */
    function ActivateBundle(commands: seq<CommandId>): (LogState, Result<Terminal>)
      requires HasFresh(handles)
    {
      if commands == [] then (this, Err(EmptyInput))
      else
        var scan := Scan(commands);
        if scan.Err? then (this, Err(scan.error))
        else if scan.value.Some? then
          var h := scan.value.value;
          if h in activations && activations[h] == Sort(commands, CommandKey) then (this, Ok(Activated(h)))
          else (this, Err(CommandMismatch))
        else
          ScanKnows(this, commands);
          var counter := NextCounter();
          (Install(commands, HandleFor(counter), counter), Ok(Activated(HandleFor(counter))))
    }

    function Activate(command: CommandId): (LogState, Result<Terminal>)
      requires HasFresh(handles)
    {
      ActivateBundle([command])
    }
  }

  function CommandKey(c: CommandId): int { c }

  const EMPTY_LOG := LogState(map[], map[], {}, map[], 0)

  lemma {:induction false} ScanKnows(s: LogState, commands: seq<CommandId>)
    requires s.Scan(commands).Ok?
    ensures forall c :: c in commands ==> c in s.transcripts
  {
    if commands != [] {
      var n := |commands| - 1;
      ScanKnows(s, commands[..n]);
      assert commands == commands[..n] + [commands[n]];
    }
  }

  function Members(commands: seq<CommandId>): set<CommandId> { set c | c in commands }

  lemma {:induction false} ScanNothing(s: LogState, commands: seq<CommandId>)
    ensures s.Scan(commands[..0]) == Ok(None) && Members(commands[..0]) == {} && s.ScopesOf(commands[..0]) == {}
  {
    assert commands[..0] == [];
  }

  lemma {:induction false} ScanExtends(s: LogState, commands: seq<CommandId>, i: nat)
    requires i < |commands| && s.Scan(commands[..i]).Ok?
    ensures commands[..i + 1] == commands[..i] + [commands[i]]
    ensures s.Scan(commands[..i + 1]) == s.ScanStep(commands[..i], s.Scan(commands[..i]).value, commands[i])
    ensures Members(commands[..i + 1]) == Members(commands[..i]) + {commands[i]}
  {
    hide LogState.ScanStep;
    assert commands[..i + 1][..i] == commands[..i];
  }

  lemma {:induction false} ScopesExtend(s: LogState, front: seq<CommandId>, c: CommandId)
    requires c in s.transcripts
    ensures s.ScopesOf(front + [c]) == s.ScopesOf(front) + {s.transcripts[c].scope}
  {}

  lemma {:induction false} StepFacts(s: LogState, front: seq<CommandId>, replay: Option<Handle>, c: CommandId)
    requires s.ScanStep(front, replay, c).Ok? && (front == [] ==> replay.None?)
    ensures c in s.transcripts
    ensures s.ScopesOf(front + [c]) == s.ScopesOf(front) + {s.transcripts[c].scope}
    ensures s.ScanStep(front, replay, c).value.None? ==> replay.None?
    ensures s.ScanStep(front, replay, c).value.Some? ==> front == [] || replay.Some?
  {
    hide LogState.ScopesOf;
    if c in s.transcripts { ScopesExtend(s, front, c); }
  }

  // ----- the in-memory log

  class MemoryLog {
    var current: map<ScopeId, Handle>
    var transcripts: map<CommandId, Transcript>
    var handles: set<Handle>
    var activations: map<Handle, seq<CommandId>>
    var nextHandle: U64

    function State(): LogState reads this { LogState(current, transcripts, handles, activations, nextHandle) }

    constructor ()
      ensures State() == EMPTY_LOG
    {
      current, transcripts, handles, activations, nextHandle := map[], map[], {}, map[], 0;
    }

    method InstallGenesis(scope: ScopeId, handle: Handle) returns (r: Result<()>)
      modifies this
      ensures (State(), r) == old(State()).InstallGenesis(scope, handle)
    {
      if scope in current { return Err(CommandMismatch); }
      current := current[scope := handle];
      handles := handles + {handle};
      return Ok(());
    }

    method Begin(scope: ScopeId, command: CommandId, predecessor: Handle, parameters: bytes) returns (r: Result<()>)
      modifies this
      ensures (State(), r) == old(State()).Begin(scope, command, predecessor, parameters)
    {
      if command in transcripts {
        var t := transcripts[command];
        return Need(t.scope == scope && t.predecessor == predecessor && t.parameters == parameters, CommandMismatch);
      }
      if scope !in current || current[scope] != predecessor { return Err(StalePredecessor); }
      transcripts := transcripts[command := Transcript(scope, predecessor, parameters, map[], Some(CommitPhase), None)];
      return Ok(());
    }

    method Post(command: CommandId, phase: Phase, role: bytes, payload: bytes) returns (r: Result<()>)
      modifies this
      ensures (State(), r) == old(State()).Post(command, phase, role, payload)
    {
      if command !in transcripts { return Err(ParticipantNotFound); }
      var t, key := transcripts[command], (phase, role);
      if key in t.posts { return Need(t.posts[key] == payload, ReplayMismatch); }
      if t.terminal.Some? { return Err(AlreadyTerminal); }
      if t.next != Some(phase) { return Err(PhaseClosed); }
      if t.scope !in current || current[t.scope] != t.predecessor { return Err(StalePredecessor); }
      transcripts := transcripts[command := t.(posts := t.posts[key := payload])];
      return Ok(());
    }

    method ClosePhase(command: CommandId, phase: Phase) returns (r: Result<()>)
      modifies this
      ensures (State(), r) == old(State()).ClosePhase(command, phase)
    {
      if command !in transcripts { return Err(ParticipantNotFound); }
      var t := transcripts[command];
      if t.next.None? || Rank(t.next.value) > Rank(phase) { return Ok(()); }
      if t.terminal.Some? { return Err(AlreadyTerminal); }
      if t.scope !in current || current[t.scope] != t.predecessor { return Err(StalePredecessor); }
      if t.next != Some(phase) { return Err(PhaseClosed); }
      transcripts := transcripts[command := t.(next := Following(phase))];
      return Ok(());
    }

    method Abort(command: CommandId) returns (r: Result<Terminal>)
      modifies this
      ensures (State(), r) == old(State()).Abort(command)
    {
      if command !in transcripts { return Err(ParticipantNotFound); }
      var t := transcripts[command];
      match t.terminal
      case Some(Aborted) => return Ok(Aborted);
      case Some(Activated(_)) => return Err(AlreadyTerminal);
      case None =>
        transcripts := transcripts[command := t.(terminal := Some(Aborted))];
        return Ok(Aborted);
    }

    /** The allocation loop. */
    method FreshHandle() returns (handle: Handle)
      requires HasFresh(handles)
      modifies this`nextHandle, this`handles
      ensures nextHandle == old(State()).NextCounter()
      ensures handle == HandleFor(nextHandle) && handle !in old(handles)
      ensures handles == old(handles) + {handle}
    {
      FreshIsWithin(handles, nextHandle);
      hide HandleFor, Bump, HasFresh, FreshWithin, FirstFresh;
      ghost var start, k := nextHandle, 0;
      BumpZero(start);
      assert State().NextCounter() == Bump(start, FirstFresh(handles, start, 1));
      hide LogState.NextCounter;
      handle := HandleFor(nextHandle);
      var searching := true;
      while searching
        invariant FreshWithin(handles, start, 1) && handles == old(handles)
        invariant searching ==> 0 <= k < FirstFresh(handles, start, 1) && nextHandle == Bump(start, k)
        invariant !searching ==>
          nextHandle == Bump(start, FirstFresh(handles, start, 1)) && handle == HandleFor(nextHandle)
        decreases if searching then FirstFresh(handles, start, 1) - k else 0
      {
        SearchStep(handles, start, k);
        nextHandle := Bump(nextHandle, 1);
        handle := HandleFor(nextHandle);
        k := k + 1;
        searching := handle in handles;
      }
      handles := handles + {handle};
    }

    /** The checks on one member, against the members before it. */
    method CheckMember(ghost front: seq<CommandId>, seen: set<CommandId>, scopes: set<ScopeId>,
        records: seq<CommandId>, replay: Option<Handle>, c: CommandId)
      returns (r: Result<Option<Handle>>)
      requires seen == Members(front) && scopes == State().ScopesOf(front)
      requires records == (if replay.Some? then [] else front) && (front == [] ==> replay.None?)
      ensures r == State().ScanStep(front, replay, c)
    {
      hide LogState.ScopesOf;
      if c in seen { return Err(CommandMismatch); }
      if c !in transcripts { return Err(ParticipantNotFound); }
      var t := transcripts[c];
      if t.scope in scopes { return Err(CommandMismatch); }
      match t.terminal
      case Some(Activated(h)) =>
        if records != [] { return Err(AlreadyTerminal); }
        if replay.Some? && replay.value != h { return Err(AlreadyTerminal); }
        return Ok(Some(h));
      case Some(Aborted) =>
        return Err(AlreadyTerminal);
      case None =>
        if replay.Some? { return Err(AlreadyTerminal); }
        if t.next.Some? { return Err(PhaseClosed); }
        if t.scope !in current || current[t.scope] != t.predecessor { return Err(StalePredecessor); }
        return Ok(None);
    }

    /** The checking loop of `ActivateBundle`. */
    method ScanBundle(commands: seq<CommandId>) returns (scan: Result<Option<Handle>>)
      ensures scan == State().Scan(commands)
    {
      ScanNothing(State(), commands);
      hide LogState.Scan, LogState.ScanStep, LogState.ScopesOf, Members;
      var seen: set<CommandId>, scopes: set<ScopeId>, records: seq<CommandId> := {}, {}, [];
      var replay: Option<Handle> := None;
      for i := 0 to |commands|
        invariant State().Scan(commands[..i]) == Ok(replay)
        invariant seen == Members(commands[..i]) && scopes == State().ScopesOf(commands[..i])
        invariant records == if replay.Some? then [] else commands[..i]
        invariant i == 0 ==> replay.None?
      {
        var c := commands[i];
        var step := CheckMember(commands[..i], seen, scopes, records, replay, c);
        ScanExtends(State(), commands, i);
        if step.Err? {
          ScanFailureStays(State(), commands, i + 1);
          return step;
        }
        StepFacts(State(), commands[..i], replay, c);
        replay := step.value;
        seen := seen + {c};
        scopes := scopes + {transcripts[c].scope};
        if replay.None? { records := records + [c]; }
      }
      assert commands[..|commands|] == commands;
      return Ok(replay);
    }

    /** The first installing loop: every scope moves. */
    method MoveScopes(commands: seq<CommandId>, handle: Handle)
      requires forall c :: c in commands ==> c in transcripts
      modifies this`current
      ensures current == old(current) + map scope | scope in old(State()).ScopesOf(commands) :: handle
    {
      ghost var before := State();
      hide LogState.ScopesOf;
      ScanNothing(before, commands);
      for i := 0 to |commands|
        invariant current == before.current + map scope | scope in before.ScopesOf(commands[..i]) :: handle
      {
        assert commands[..i + 1] == commands[..i] + [commands[i]];
        ScopesExtend(before, commands[..i], commands[i]);
        current := current[transcripts[commands[i]].scope := handle];
      }
      assert commands[..|commands|] == commands;
    }

    /** The second installing loop: every transcript becomes terminal. */
    method MoveTerminals(commands: seq<CommandId>, handle: Handle)
      requires forall c :: c in commands ==> c in transcripts
      modifies this`transcripts
      ensures transcripts == Terminated(old(transcripts), commands, handle)
    {
      ghost var before := transcripts;
      for i := 0 to |commands|
        invariant transcripts == Terminated(before, commands[..i], handle)
      {
        assert commands[..i + 1] == commands[..i] + [commands[i]];
        var t := transcripts[commands[i]];
        transcripts := transcripts[commands[i] := t.(terminal := Some(Activated(handle)))];
      }
      assert commands[..|commands|] == commands;
    }

    method ActivateBundle(commands: seq<CommandId>) returns (r: Result<Terminal>)
      requires HasFresh(handles)
      modifies this
      ensures (State(), r) == old(State()).ActivateBundle(commands)
    {
      hide HandleFor, LogState.NextCounter, Sort, LogState.Scan, HasFresh;
      if commands == [] { return Err(EmptyInput); }
      var scan := ScanBundle(commands);
      if scan.Err? { return Err(scan.error); }
      if scan.value.Some? {
        var h := scan.value.value;
        if h in activations && activations[h] == Sort(commands, CommandKey) { return Ok(Activated(h)); }
        return Err(CommandMismatch);
      }
      ScanKnows(State(), commands);
      var handle := FreshHandle();
      MoveScopes(commands, handle);
      MoveTerminals(commands, handle);
      activations := activations[handle := Sort(commands, CommandKey)];
      return Ok(Activated(handle));
    }

    method Activate(command: CommandId) returns (r: Result<Terminal>)
      requires HasFresh(handles)
      modifies this
      ensures (State(), r) == old(State()).Activate(command)
    {
      r := ActivateBundle([command]);
    }
  }

  lemma {:induction false} ScanFailureStays(s: LogState, commands: seq<CommandId>, n: nat)
    requires n <= |commands| && s.Scan(commands[..n]).Err?
    ensures s.Scan(commands) == s.Scan(commands[..n])
  {
    if n < |commands| {
      var m := |commands| - 1;
      assert commands[..m][..n] == commands[..n];
      ScanFailureStays(s, commands[..m], n);
    } else {
      assert commands[..n] == commands;
    }
  }
}

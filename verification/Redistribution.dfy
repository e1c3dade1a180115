/** A redistribution from the shared log to the installed shares
  * (src/dealing/candidate.rs, src/dealing/target.rs).
  */
module Redistribution {
  import opened Results
  import opened Field
  import opened Shamir
  import opened Ids
  import opened Shape
  import opened Target
  import opened CandidateSystem
  import opened CandidateRuns

  /** The accumulator after the given deliveries, accepted or not. */
  function Received(a: Accumulator, deliveries: seq<PrivateShare>): Accumulator {
    if deliveries == [] then a
    else Received(a, deliveries[..|deliveries| - 1]).Receive(deliveries[|deliveries| - 1]).0
  }

  /** What a target installs from a view, its deliveries and the log's terminal. */
  function Installed(view: CandidateView, target: TargetId, deliveries: seq<PrivateShare>,
      terminal: Terminal): Result<Option<InstalledShare>> {
    var start :- Accumulator.New(view, target);
    var ready :- Received(start, deliveries).Finish();
    ready.pending.Resolve(terminal)
  }

  /** Some driver of the command holds a view from which a target installed the share
    * under the command's terminal in the log.
    */
  ghost predicate Installs(s: System, id: CommandId, share: InstalledShare) {
    && id in s.log.transcripts && s.log.transcripts[id].terminal.Some?
    && exists j, deliveries ::
      && 0 <= j < |s.drivers| && s.drivers[j].command.id == id && s.drivers[j].view.Some?
      && Installed(s.drivers[j].view.value, share.target, deliveries, s.log.transcripts[id].terminal.value) ==
        Ok(Some(share))
  }

  lemma {:induction false} ReceivedValid(a: Accumulator, deliveries: seq<PrivateShare>)
    requires a.Valid()
    ensures var b := Received(a, deliveries); b.Valid() && b.view == a.view && b.target == a.target
  {
    hide Accumulator.Valid, Accumulator.Check;
    if deliveries != [] {
      ReceivedValid(a, deliveries[..|deliveries| - 1]);
      ReceiveKeepsValid(Received(a, deliveries[..|deliveries| - 1]), deliveries[|deliveries| - 1]);
    }
  }

  lemma {:induction false} InstalledFits(view: CandidateView, target: TargetId, deliveries: seq<PrivateShare>,
      terminal: Terminal, share: InstalledShare)
    requires view.Sound() && Installed(view, target, deliveries, terminal) == Ok(Some(share))
    ensures terminal == Activated(share.handle) && share.target == target && InstalledIn(view, share)
  {
    hide CandidateView.Sound, Accumulator.Finish, InstalledIn, TargetShape.TargetNode;
    var start := Accumulator(view, target, map[]);
    ReceivedValid(start, deliveries);
    if terminal.Activated? { ResolvedIsInstalled(Received(start, deliveries), terminal.handle, share); }
  }

  /** All views of one command on the log are one, so every share that any of its
    * targets installs belongs to the view of the given driver and to the handle that
    * the log activated.
    */
  lemma {:induction false} InstallsOnView(events: seq<Event>, i: nat, share: InstalledShare)
    requires RunAllowed(events, iset{})
    requires var s := RunSystem(events);
      i < |s.drivers| && s.drivers[i].view.Some? && Installs(s, s.drivers[i].command.id, share)
    ensures var s := RunSystem(events);
      && s.drivers[i].view.value.Sound() && s.drivers[i].view.value.command == s.drivers[i].command
      && InstalledIn(s.drivers[i].view.value, share)
      && s.log.transcripts[s.drivers[i].command.id].terminal == Some(Activated(share.handle))
  {
    hide RunSystem, CandidateView.Sound, InstalledIn, Installed, DriverInv;
    var s := RunSystem(events);
    var d := s.drivers[i];
    var terminal := s.log.transcripts[d.command.id].terminal.value;
    var j, deliveries :|
      && 0 <= j < |s.drivers| && s.drivers[j].command.id == d.command.id && s.drivers[j].view.Some?
      && Installed(s.drivers[j].view.value, share.target, deliveries, terminal) == Ok(Some(share));
    ViewsAgree(events, i, j);
    RunKeepsSystem(events, iset{});
    assert Knows(d, s.log);
    DriverViewIsCommon(d, s.log.transcripts[d.command.id]);
    InstalledFits(d.view.value, share.target, deliveries, terminal, share);
  }

  /** Same-key redistribution over the log, one sharing: whatever drivers, deliveries and
    * interleavings led to them, any threshold of shares that a command's targets
    * installed interpolates to the secret behind its anchor.
    */
  lemma {:induction false} RunKeepsKey(events: seq<Event>, i: nat, chosen: seq<InstalledShare>)
    requires RunAllowed(events, iset{})
    requires var s := RunSystem(events);
      && i < |s.drivers| && s.drivers[i].view.Some? && s.drivers[i].command.shape.OneSharing?
      && (forall k :: 0 <= k < |chosen| ==> Installs(s, s.drivers[i].command.id, chosen[k]))
      && |chosen| >= s.drivers[i].command.shape.single.threshold
    requires DistinctTargets(chosen)
    ensures var command := RunSystem(events).drivers[i].command;
      InterpolateConstant(NodesOf(command.shape, chosen), Values(chosen)) == Ok(command.anchor.log)
  {
    hide RunSystem, CandidateView.Sound, InstalledIn, Installs, InterpolateConstant, NodesOf, DistinctTargets;
    var view := RunSystem(events).drivers[i].view.value;
    ViewOfDriver(events, i);
    forall k | 0 <= k < |chosen| ensures InstalledIn(view, chosen[k]) { InstallsOnView(events, i, chosen[k]); }
    SharingKeepsKey(view, chosen);
  }

  lemma {:induction false} ViewOfDriver(events: seq<Event>, i: nat)
    requires RunAllowed(events, iset{})
    requires i < |RunSystem(events).drivers| && RunSystem(events).drivers[i].view.Some?
    ensures var d := RunSystem(events).drivers[i]; d.view.value.Sound() && d.view.value.command == d.command
  {
    hide RunSystem, CandidateView.Sound, DriverInv;
    var s := RunSystem(events);
    RunKeepsSystem(events, iset{});
    assert Knows(s.drivers[i], s.log);
    DriverViewIsCommon(s.drivers[i], s.log.transcripts[s.drivers[i].command.id]);
  }

  /** Shares that one person's devices installed. */
  ghost predicate GroupInstalled(s: System, id: CommandId, person: PersonId, group: seq<InstalledShare>) {
    && DistinctTargets(group)
    && forall k :: 0 <= k < |group| ==>
      Installs(s, id, group[k]) && group[k].target.MemberTarget? && group[k].target.person == person
  }

  /** The same for two tiers: any outer threshold of people with any inner threshold of
    * devices each.
    */
  lemma {:induction false} NestedRunKeepsKey(events: seq<Event>, i: nat, people: seq<PersonId>,
      groups: seq<seq<InstalledShare>>, members: seq<Scalar>)
    requires RunAllowed(events, iset{})
    requires var s := RunSystem(events);
      && i < |s.drivers| && s.drivers[i].view.Some? && s.drivers[i].command.shape.TwoTier?
      && var outer := s.drivers[i].command.shape.outer;
      && |people| == |groups| == |members| >= outer.threshold
      && NoRepeats(people) && (forall p :: p in people ==> outer.Person(p).Ok?)
      && forall k :: 0 <= k < |people| ==>
        && GroupInstalled(s, s.drivers[i].command.id, people[k], groups[k])
        && |groups[k]| >= outer.Person(people[k]).value.inner.threshold
        && InterpolateConstant(NodesOf(s.drivers[i].command.shape, groups[k]), Values(groups[k])) == Ok(members[k])
    ensures var command := RunSystem(events).drivers[i].command;
      InterpolateConstant(PeopleNodes(command.shape.outer, people), members) == Ok(command.anchor.log)
  {
    hide RunSystem, CandidateView.Sound, InstalledIn, Installs, InterpolateConstant, NodesOf, DistinctTargets,
      PeopleNodes;
    hide OuterShape.Person;
    var view := RunSystem(events).drivers[i].view.value;
    ViewOfDriver(events, i);
    forall k | 0 <= k < |people| ensures GroupOf(view, people[k], groups[k]) {
      forall m | 0 <= m < |groups[k]| ensures InstalledIn(view, groups[k][m]) {
        InstallsOnView(events, i, groups[k][m]);
      }
    }
    NestedSharingKeepsKey(view, people, groups, members);
  }
}

/** Redistribution targets, roles and commands (src/dealing/shape.rs). */
module Shape {
  import opened Results
  import opened Field
  import opened Sorting
  import opened Algebra
  import opened Shamir
  import opened Ids

  // ----- target shapes

  datatype TargetDevice = TargetDevice(device: DeviceId, node: Node)

  function TargetKey(d: TargetDevice): int { d.device }

  /** Left-to-right duplicate scan; the device is compared before the node. */
  function RejectDuplicateTargets(ds: seq<TargetDevice>): Result<()> {
    if ds == [] then Ok(())
    else
      var n := |ds| - 1;
      var _ :- RejectDuplicateTargets(ds[..n]);
      if exists j :: 0 <= j < n && ds[j].device == ds[n].device then Err(DuplicateParticipant)
      else Need(forall j :: 0 <= j < n ==> ds[j].node != ds[n].node, DuplicateNode)
  }

  /** A target shape for one Shamir sharing. */
  datatype SingleShape = SingleShape(threshold: U16, devices: seq<TargetDevice>)
  {
    /** What `New` establishes. */
    ghost predicate Valid() {
      && 1 <= threshold <= |devices|
      && StrictlySorted(devices, TargetKey)
      && forall i, j :: 0 <= i < j < |devices| ==> devices[i].node != devices[j].node
    }

    static function New(threshold: U16, devices: seq<TargetDevice>): Result<SingleShape> {
      if threshold == 0 || threshold > |devices| then Err(SupportMismatch)
      else
        var sorted := Sort(devices, TargetKey);
        var _ :- RejectDuplicateTargets(sorted);
        Ok(SingleShape(threshold, sorted))
    }

    function Device(device: DeviceId): (r: Result<TargetDevice>)
      ensures r.Ok? ==> r.value in devices && r.value.device == device
      ensures r.Err? ==> r.error == ParticipantNotFound && forall d :: d in devices ==> d.device != device
    {
      var i := Find(devices, TargetKey, device);
      if i.Some? then Ok(devices[i.value]) else Err(ParticipantNotFound)
    }
  }

  lemma {:induction false} TargetsDistinctIff(ds: seq<TargetDevice>)
    ensures RejectDuplicateTargets(ds).Ok? <==>
      && (forall i, j :: 0 <= i < j < |ds| ==> ds[i].device != ds[j].device)
      && (forall i, j :: 0 <= i < j < |ds| ==> ds[i].node != ds[j].node)
  {
    if ds != [] {
      var n := |ds| - 1;
      TargetsDistinctIff(ds[..n]);
      if RejectDuplicateTargets(ds).Ok? {
        forall i, j | 0 <= i < j < |ds| ensures ds[i].device != ds[j].device && ds[i].node != ds[j].node {
          if j < n { assert ds[..n][i].device != ds[..n][j].device && ds[..n][i].node != ds[..n][j].node; }
        }
      }
    }
  }

  lemma {:induction false} SingleShapeNew(threshold: U16, devices: seq<TargetDevice>)
    ensures var r := SingleShape.New(threshold, devices); r.Ok? ==> r.value.Valid()
  {
    hide Sort;
    var sorted := Sort(devices, TargetKey);
    TargetsDistinctIff(sorted);
    if RejectDuplicateTargets(sorted).Ok? {
      forall i, j | 0 <= i < j < |sorted| ensures TargetKey(sorted[i]) < TargetKey(sorted[j]) {
        assert TargetKey(sorted[i]) <= TargetKey(sorted[j]);
      }
    }
  }

  /** One person's target sharing in an outer redistribution. */
  datatype OuterTarget = OuterTarget(person: PersonId, node: Node, inner: SingleShape)

  function OuterTargetKey(t: OuterTarget): int { t.person }

  /** Every device below the people. */
  function AllDevices(people: seq<OuterTarget>): set<DeviceId> {
    if people == [] then {}
    else AllDevices(people[..|people| - 1]) + DeviceIds(people[|people| - 1].inner.devices)
  }

  function DeviceIds(ds: seq<TargetDevice>): set<DeviceId> { set d | d in ds :: d.device }

  lemma {:induction false} InAllDevices(people: seq<OuterTarget>, i: nat, d: TargetDevice)
    requires i < |people| && d in people[i].inner.devices
    ensures d.device in AllDevices(people)
  {
    var n := |people| - 1;
    if i < n { InAllDevices(people[..n], i, d); }
  }

  /** Left-to-right check: the person, then the node, then each device in turn. */
  function CheckTargetPeople(people: seq<OuterTarget>): Result<()> {
    if people == [] then Ok(())
    else
      var n := |people| - 1;
      var _ :- CheckTargetPeople(people[..n]);
      var t := people[n];
      if exists j :: 0 <= j < n && people[j].person == t.person then Err(DuplicateParticipant)
      else if exists j :: 0 <= j < n && people[j].node == t.node then Err(DuplicateNode)
      else Need(FreshDevices(AllDevices(people[..n]), t.inner.devices), DuplicateParticipant)
  }

  /** No listed device repeats or is already known. */
  predicate FreshDevices(known: set<DeviceId>, ds: seq<TargetDevice>) {
    forall i :: 0 <= i < |ds| ==>
      ds[i].device !in known && forall j :: 0 <= j < i ==> ds[j].device != ds[i].device
  }

  /** A composed outer and inner target shape. */
  datatype OuterShape = OuterShape(threshold: U16, people: seq<OuterTarget>)
  {
    /** What `New` establishes. */
    ghost predicate Valid() {
      && 1 <= threshold <= |people|
      && StrictlySorted(people, OuterTargetKey)
      && (forall i, j :: 0 <= i < j < |people| ==> people[i].node != people[j].node)
      && (forall t :: t in people ==> t.inner.Valid())
      && DisjointDevices(people)
    }

    static function New(threshold: U16, people: seq<OuterTarget>): Result<OuterShape> {
      if threshold == 0 || threshold > |people| then Err(SupportMismatch)
      else
        var sorted := Sort(people, OuterTargetKey);
        var _ :- CheckTargetPeople(sorted);
        Ok(OuterShape(threshold, sorted))
    }

    function Person(person: PersonId): (r: Result<OuterTarget>)
      ensures r.Ok? ==> r.value in people && r.value.person == person
      ensures r.Err? ==> r.error == ParticipantNotFound && forall t :: t in people ==> t.person != person
    {
      var i := Find(people, OuterTargetKey, person);
      if i.Some? then Ok(people[i.value]) else Err(ParticipantNotFound)
    }
  }

  /** No device stands below two people. */
  ghost predicate DisjointDevices(people: seq<OuterTarget>) {
    forall i, j, d, e :: 0 <= i < j < |people| && d in people[i].inner.devices && e in people[j].inner.devices ==>
      d.device != e.device
  }

  lemma {:induction false} PeopleStep(people: seq<OuterTarget>)
    requires people != [] && CheckTargetPeople(people).Ok?
    ensures var n := |people| - 1;
      && CheckTargetPeople(people[..n]).Ok?
      && (forall j :: 0 <= j < n ==> people[j].person != people[n].person && people[j].node != people[n].node)
      && FreshDevices(AllDevices(people[..n]), people[n].inner.devices)
  {
    hide FreshDevices;
  }

  lemma {:induction false} CheckedTargetPeople(people: seq<OuterTarget>)
    requires CheckTargetPeople(people).Ok?
    ensures DistinctKeys(people, OuterTargetKey) && DisjointDevices(people)
    ensures forall i, j :: 0 <= i < j < |people| ==> people[i].node != people[j].node
  {
    hide CheckTargetPeople, FreshDevices, AllDevices;
    if people != [] {
      var n := |people| - 1;
      PeopleStep(people);
      CheckedTargetPeople(people[..n]);
      forall i, j | 0 <= i < j < |people|
        ensures OuterTargetKey(people[i]) != OuterTargetKey(people[j]) && people[i].node != people[j].node
      {
        if j < n {
          assert OuterTargetKey(people[..n][i]) != OuterTargetKey(people[..n][j]);
          assert people[..n][i].node != people[..n][j].node;
        }
      }
      forall i, j, d, e | 0 <= i < j < |people| && d in people[i].inner.devices && e in people[j].inner.devices
        ensures d.device != e.device
      {
        if j < n {
          assert people[..n][i] == people[i] && people[..n][j] == people[j];
        } else {
          UnknownDevice(people[..n], i, d, e, people[n].inner.devices);
        }
      }
    }
  }

  lemma {:induction false} UnknownDevice(people: seq<OuterTarget>, i: nat, d: TargetDevice, e: TargetDevice,
      ds: seq<TargetDevice>)
    requires i < |people| && d in people[i].inner.devices && e in ds && FreshDevices(AllDevices(people), ds)
    ensures d.device != e.device
  {
    hide AllDevices;
    InAllDevices(people, i, d);
    var k :| 0 <= k < |ds| && ds[k] == e;
  }

  lemma {:induction false} OuterShapeNew(threshold: U16, people: seq<OuterTarget>)
    requires forall t :: t in people ==> t.inner.Valid()
    ensures var r := OuterShape.New(threshold, people); r.Ok? ==> r.value.Valid()
  {
    hide Sort, SingleShape.Valid;
    var sorted := Sort(people, OuterTargetKey);
    if CheckTargetPeople(sorted).Ok? {
      CheckedTargetPeople(sorted);
      forall i, j | 0 <= i < j < |sorted| ensures OuterTargetKey(sorted[i]) < OuterTargetKey(sorted[j]) {
        assert OuterTargetKey(sorted[i]) <= OuterTargetKey(sorted[j]);
      }
      forall t | t in sorted ensures t.inner.Valid() { SameElements(sorted, people, t); }
    }
  }

  /** Adds one person's devices to the known ones, stopping at a repeated device. */
  method InsertDevices(known: set<DeviceId>, ds: seq<TargetDevice>) returns (grown: set<DeviceId>, unseen: bool)
    ensures unseen == FreshDevices(known, ds)
    ensures unseen ==> grown == known + DeviceIds(ds)
  {
    grown := known;
    for k := 0 to |ds|
      invariant FreshDevices(known, ds[..k])
      invariant grown == known + DeviceIds(ds[..k])
    {
      assert ds[..k + 1] == ds[..k] + [ds[k]];
      if ds[k].device in grown {
        if d :| d in ds[..k] && d.device == ds[k].device {
          var j :| 0 <= j < k && ds[j] == d;
          assert ds[j].device == ds[k].device;
        }
        return grown, false;
      }
      grown := grown + {ds[k].device};
      forall j | 0 <= j < k ensures ds[j].device != ds[k].device { assert ds[j] in ds[..k]; }
    }
    assert ds[..|ds|] == ds;
    return grown, true;
  }

  /** The scan behind `OuterShape.New`, growing the set of known devices. */
  method ScanTargetPeople(people: seq<OuterTarget>) returns (r: Result<()>)
    ensures r == CheckTargetPeople(people)
  {
    hide FreshDevices, CheckTargetPeople, AllDevices;
    NobodyScanned(people);
    var known: set<DeviceId> := {};
    for i := 0 to |people|
      invariant CheckTargetPeople(people[..i]) == Ok(())
      invariant known == AllDevices(people[..i])
    {
      var t := people[i];
      assert people[..i + 1][..i] == people[..i];
      ScanStep(people, i);
      if exists j :: 0 <= j < i && people[j].person == t.person {
        TargetFailureStays(people, i + 1);
        return Err(DuplicateParticipant);
      }
      if exists j :: 0 <= j < i && people[j].node == t.node {
        TargetFailureStays(people, i + 1);
        return Err(DuplicateNode);
      }
      var grown, unseen := InsertDevices(known, t.inner.devices);
      if !unseen {
        TargetFailureStays(people, i + 1);
        return Err(DuplicateParticipant);
      }
      known := grown;
    }
    assert people[..|people|] == people;
    return Ok(());
  }

  lemma {:induction false} NobodyScanned(people: seq<OuterTarget>)
    ensures CheckTargetPeople(people[..0]) == Ok(()) && AllDevices(people[..0]) == {}
  {
    assert people[..0] == [];
  }

  lemma {:induction false} ScanStep(people: seq<OuterTarget>, i: nat)
    requires i < |people| && CheckTargetPeople(people[..i]).Ok?
    ensures CheckTargetPeople(people[..i + 1]) ==
      if exists j :: 0 <= j < i && people[j].person == people[i].person then Err(DuplicateParticipant)
      else if exists j :: 0 <= j < i && people[j].node == people[i].node then Err(DuplicateNode)
      else Need(FreshDevices(AllDevices(people[..i]), people[i].inner.devices), DuplicateParticipant)
    ensures AllDevices(people[..i + 1]) == AllDevices(people[..i]) + DeviceIds(people[i].inner.devices)
  {
    hide FreshDevices;
    var front := people[..i + 1];
    assert front[..i] == people[..i];
    forall j | 0 <= j < i ensures front[j] == people[j] {}
  }

  lemma {:induction false} TargetFailureStays(people: seq<OuterTarget>, n: nat)
    requires n <= |people| && CheckTargetPeople(people[..n]).Err?
    ensures CheckTargetPeople(people) == CheckTargetPeople(people[..n])
  {
    if n < |people| {
      var m := |people| - 1;
      assert people[..m][..n] == people[..n];
      TargetFailureStays(people[..m], n);
    } else {
      assert people[..n] == people;
    }
  }

  // ----- target and role identifiers

  datatype TargetId = SingleTarget(device: DeviceId) | MemberTarget(person: PersonId, device: DeviceId)

  /** A mandatory redistribution role. */
  datatype RoleId = Source(device: DeviceId) | Refresher(device: DeviceId)

  /** Sources come before refreshers, each by device. */
  function RoleKey(r: RoleId): int { if r.Source? then r.device else WIDE_LIMIT + r.device }

  lemma {:induction false} RoleKeyInjective(a: RoleId, b: RoleId)
    requires RoleKey(a) == RoleKey(b)
    ensures a == b
  {}

  datatype TargetShape = OneSharing(single: SingleShape) | TwoTier(outer: OuterShape)
  {
    ghost predicate Valid() { if OneSharing? then single.Valid() else outer.Valid() }

    /** Every target in canonical order. */
    function Targets(): seq<TargetId> {
      match this
      case OneSharing(s) => SingleTargets(s.devices)
      case TwoTier(s) => MemberTargets(s.people)
    }

    function TargetNode(target: TargetId): Result<Node> {
      match (this, target)
      case (OneSharing(s), SingleTarget(device)) =>
        var d :- s.Device(device);
        Ok(d.node)
      case (TwoTier(s), MemberTarget(person, device)) =>
        var t :- s.Person(person);
        var d :- t.inner.Device(device);
        Ok(d.node)
      case _ => Err(ParticipantMismatch)
    }
  }

  function SingleTargets(ds: seq<TargetDevice>): (r: seq<TargetId>)
    ensures |r| == |ds|
  {
    seq(|ds|, i requires 0 <= i < |ds| => SingleTarget(ds[i].device))
  }

  function PersonTargets(t: OuterTarget): (r: seq<TargetId>)
    ensures |r| == |t.inner.devices|
  {
    seq(|t.inner.devices|, i requires 0 <= i < |t.inner.devices| => MemberTarget(t.person, t.inner.devices[i].device))
  }

  function MemberTargets(people: seq<OuterTarget>): seq<TargetId> {
    if people == [] then [] else MemberTargets(people[..|people| - 1]) + PersonTargets(people[|people| - 1])
  }

  lemma {:induction false} MemberTargetsIff(people: seq<OuterTarget>, target: TargetId)
    ensures target in MemberTargets(people) <==>
      target.MemberTarget? && exists t, d ::
        t in people && d in t.inner.devices && t.person == target.person && d.device == target.device
  {
    if people != [] {
      var n := |people| - 1;
      MemberTargetsIff(people[..n], target);
      assert people == people[..n] + [people[n]];
      assert MemberTargets(people) == MemberTargets(people[..n]) + PersonTargets(people[n]);
      if target in PersonTargets(people[n]) {
        var i :| 0 <= i < |PersonTargets(people[n])| && PersonTargets(people[n])[i] == target;
        assert people[n] in people && people[n].inner.devices[i] in people[n].inner.devices;
      }
      if target.MemberTarget? {
        if t, d :| t in people && d in t.inner.devices && t.person == target.person && d.device == target.device {
          if t !in people[..n] {
            assert t == people[n];
            var i :| 0 <= i < |t.inner.devices| && t.inner.devices[i] == d;
            assert PersonTargets(people[n])[i] == target;
          }
        }
      }
    }
  }

  lemma {:induction false} SingleTargetsHaveNodes(s: SingleShape, device: DeviceId)
    ensures SingleTarget(device) in SingleTargets(s.devices) <==> s.Device(device).Ok?
  {
    var found, target := s.Device(device), SingleTarget(device);
    if found.Ok? {
      var i :| 0 <= i < |s.devices| && s.devices[i] == found.value;
      assert SingleTargets(s.devices)[i] == target;
    }
    if target in SingleTargets(s.devices) {
      var i :| 0 <= i < |s.devices| && SingleTargets(s.devices)[i] == target;
      assert s.devices[i] in s.devices;
    }
  }

  lemma {:induction false} MemberTargetsHaveNodes(s: OuterShape, person: PersonId, device: DeviceId)
    requires s.Valid()
    ensures MemberTarget(person, device) in MemberTargets(s.people) <==>
      s.Person(person).Ok? && s.Person(person).value.inner.Device(device).Ok?
  {
    hide MemberTargets, SingleShape.Valid;
    MemberTargetsIff(s.people, MemberTarget(person, device));
    if MemberTarget(person, device) in MemberTargets(s.people) {
      var t, d :| t in s.people && d in t.inner.devices && t.person == person && d.device == device;
      SamePerson(s, s.Person(person).value, t);
    }
  }

  /** The listed targets are exactly those that have a node. */
  lemma {:induction false} TargetsHaveNodes(shape: TargetShape, target: TargetId)
    requires shape.Valid()
    ensures target in shape.Targets() <==> shape.TargetNode(target).Ok?
  {
    hide SingleShape.Valid, OuterShape.Valid, SingleShape.Device, OuterShape.Person, MemberTargets;
    match (shape, target)
    case (OneSharing(s), SingleTarget(device)) => SingleTargetsHaveNodes(s, device);
    case (TwoTier(s), MemberTarget(person, device)) => MemberTargetsHaveNodes(s, person, device);
    case (OneSharing(s), MemberTarget(_, _)) =>
    case (TwoTier(s), SingleTarget(_)) => MemberTargetsIff(s.people, target);
  }

  lemma {:induction false} SamePerson(s: OuterShape, t: OuterTarget, u: OuterTarget)
    requires s.Valid() && t in s.people && u in s.people && t.person == u.person
    ensures t == u
  {
    var i :| 0 <= i < |s.people| && s.people[i] == t;
    var j :| 0 <= j < |s.people| && s.people[j] == u;
  }

  ghost predicate NoRepeats<T>(s: seq<T>) {
    forall i, j :: 0 <= i < j < |s| ==> s[i] != s[j]
  }

  lemma {:induction false} OtherPersonTargets(people: seq<OuterTarget>, t: OuterTarget, target: TargetId)
    requires (forall i :: 0 <= i < |people| ==> people[i].person != t.person) && target in MemberTargets(people)
    ensures target !in PersonTargets(t)
  {
    hide MemberTargets;
    MemberTargetsIff(people, target);
    var u, d :| u in people && d in u.inner.devices && u.person == target.person && d.device == target.device;
    var k :| 0 <= k < |people| && people[k] == u;
  }

  lemma {:induction false} PersonTargetsDistinct(t: OuterTarget)
    requires t.inner.Valid()
    ensures NoRepeats(PersonTargets(t))
  {
    var ds, ts := t.inner.devices, PersonTargets(t);
    forall i, j | 0 <= i < j < |ts| ensures ts[i] != ts[j] { assert TargetKey(ds[i]) < TargetKey(ds[j]); }
  }

  lemma {:induction false} MemberTargetsDistinct(people: seq<OuterTarget>)
    requires DistinctKeys(people, OuterTargetKey) && forall t :: t in people ==> t.inner.Valid()
    ensures NoRepeats(MemberTargets(people))
  {
    hide SingleShape.Valid;
    if people != [] {
      var n := |people| - 1;
      var front, back := MemberTargets(people[..n]), PersonTargets(people[n]);
      MemberTargetsDistinct(people[..n]);
      PersonTargetsDistinct(people[n]);
      forall i | 0 <= i < n ensures people[..n][i].person != people[n].person {
        assert OuterTargetKey(people[i]) != OuterTargetKey(people[n]);
      }
      forall i, j | 0 <= i < j < |front + back| ensures (front + back)[i] != (front + back)[j] {
        if i < |front| <= j { OtherPersonTargets(people[..n], people[n], front[i]); }
      }
    }
  }

  /** No target is listed twice, so counting receipts counts targets. */
  lemma {:induction false} TargetsDistinct(shape: TargetShape)
    requires shape.Valid()
    ensures NoRepeats(shape.Targets())
  {
    match shape
    case OneSharing(s) =>
      forall i, j | 0 <= i < j < |s.devices| ensures SingleTargets(s.devices)[i] != SingleTargets(s.devices)[j] {
        assert TargetKey(s.devices[i]) < TargetKey(s.devices[j]);
      }
    case TwoTier(s) =>
      MemberTargetsDistinct(s.people);
  }

  // ----- roles and commands

  /** One mandatory role. A source contributes its weighted share; a refresher
    * contributes the identity.
    */
  datatype RoleSpec = SourceRole(device: DeviceId, share: Element, weight: Scalar) | RefresherRole(device: DeviceId)
  {
    function Role(): RoleId { if SourceRole? then Source(device) else Refresher(device) }

    function Constant(): Element { if SourceRole? then Times(share, weight) else IDENTITY }
  }

  function SpecKey(r: RoleSpec): int { RoleKey(r.Role()) }

  /** The fold over source constants. */
  function SourceSum(roles: seq<RoleSpec>): Element {
    if roles == [] then IDENTITY
    else
      var front := SourceSum(roles[..|roles| - 1]);
      var last := roles[|roles| - 1];
      if last.SourceRole? then Plus(front, last.Constant()) else front
  }

  function Refreshers(roles: seq<RoleSpec>): set<DeviceId> {
    set r | r in roles && r.RefresherRole? :: r.device
  }

  function TargetDevices(shape: TargetShape): set<DeviceId> {
    set t | t in shape.Targets() :: t.device
  }

  /** Immutable parameters of one redistribution candidate. */
  datatype Command = Command(
    scope: ScopeId, id: CommandId, predecessor: Handle, anchor: Point, shape: TargetShape, roles: seq<RoleSpec>)
  {
    /** What `New` establishes on a valid shape. */
    ghost predicate Valid() {
      && shape.Valid()
      && roles != []
      && StrictlySorted(roles, SpecKey)
      && SourceSum(roles) == anchor
      && Refreshers(roles) == TargetDevices(shape)
    }

    static function New(
      scope: ScopeId, id: CommandId, predecessor: Handle, anchor: Point, shape: TargetShape,
        roles: seq<RoleSpec>): Result<Command>
    {
      var sorted := Sort(roles, SpecKey);
      if roles == [] then Err(EmptyInput)
      else if !AdjacentDistinct(sorted, SpecKey) then Err(DuplicateParticipant)
      else if SourceSum(sorted) != anchor then Err(ShareMismatch)
      else if Refreshers(sorted) != TargetDevices(shape) then Err(SupportMismatch)
      else Ok(Command(scope, id, predecessor, anchor, shape, sorted))
    }

    function RoleOf(role: RoleId): (r: Result<RoleSpec>)
      ensures r.Ok? ==> r.value in roles && r.value.Role() == role
      ensures r.Err? ==> r.error == ParticipantNotFound && forall s :: s in roles ==> s.Role() != role
    {
      var i := Find(roles, SpecKey, RoleKey(role));
      if i.Some? then
        RoleKeyInjective(roles[i.value].Role(), role);
        Ok(roles[i.value])
      else Err(ParticipantNotFound)
    }

    /** The mandatory roles. */
    function RoleIds(): set<RoleId> { set s | s in roles :: s.Role() }

    function RoleSeq(): (r: seq<RoleId>)
      ensures |r| == |roles|
    {
      seq(|roles|, i requires 0 <= i < |roles| => roles[i].Role())
    }
  }

  lemma {:induction false} CommandNew(scope: ScopeId, id: CommandId, predecessor: Handle, anchor: Point,
      shape: TargetShape, roles: seq<RoleSpec>)
    requires shape.Valid()
    ensures var r := Command.New(scope, id, predecessor, anchor, shape, roles); r.Ok? ==> r.value.Valid()
  {
    hide Sort, TargetShape.Valid, SourceSum;
    AdjacentIsStrict(Sort(roles, SpecKey), SpecKey);
  }

  /** An ordered map over exactly the mandatory roles iterates in role order. */
  lemma {:induction false} RolesInOrder(c: Command)
    requires StrictlySorted(c.roles, SpecKey)
    ensures InjectiveOn(c.RoleIds(), RoleKey)
    ensures Ascending(c.RoleIds(), RoleKey) == c.RoleSeq()
    ensures |c.RoleIds()| == |c.roles|
  {
    forall a, b | a in c.RoleIds() && b in c.RoleIds() && RoleKey(a) == RoleKey(b) ensures a == b {
      RoleKeyInjective(a, b);
    }
    var r := c.RoleSeq();
    forall i, j | 0 <= i < j < |r| ensures RoleKey(r[i]) < RoleKey(r[j]) {
      assert SpecKey(c.roles[i]) < SpecKey(c.roles[j]);
    }
    forall x ensures x in r <==> x in c.RoleIds() {
      if x in r {
        var i :| 0 <= i < |r| && r[i] == x;
        assert c.roles[i] in c.roles;
      }
      if x in c.RoleIds() {
        var s :| s in c.roles && s.Role() == x;
        var i :| 0 <= i < |c.roles| && c.roles[i] == s;
        assert r[i] == x;
      }
    }
    AscendingIs(c.RoleIds(), RoleKey, r);
  }

  function Constants(roles: seq<RoleSpec>): (r: seq<Element>)
    ensures |r| == |roles|
  {
    seq(|roles|, i requires 0 <= i < |roles| => roles[i].Constant())
  }

  /** Refreshers add nothing: all role constants together give the source sum. */
  lemma {:induction false} ConstantsTotal(roles: seq<RoleSpec>)
    ensures Total(Constants(roles)) == SourceSum(roles)
  {
    if roles != [] {
      var n := |roles| - 1;
      ConstantsTotal(roles[..n]);
      assert Constants(roles)[..n] == Constants(roles[..n]);
      AddZero(SourceSum(roles[..n]).log);
    }
  }
}

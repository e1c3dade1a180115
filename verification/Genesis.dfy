/** Import and validation of an existing two-tier sharing (src/genesis.rs). */
module Genesis {
  import opened Results
  import opened Field
  import opened Sums
  import opened Sorting
  import opened Algebra
  import opened Shamir
  import opened Support
  import opened Ids

  /** Public commitments to one Shamir polynomial. */
  datatype PublicPolynomial = PublicPolynomial(constant: Point, commitments: seq<Element>)
  {
    ghost predicate Valid() {
      commitments != [] && commitments[0] == constant
    }

    static function New(commitments: seq<Element>): (r: Result<PublicPolynomial>)
      ensures r.Ok? ==> r.value.Valid()
    {
      if commitments == [] then Err(EmptyInput)
      else if commitments[0] == IDENTITY then Err(IdentityPoint)
      else Ok(PublicPolynomial(commitments[0], commitments))
    }

    function Threshold(): nat { |commitments| }

    predicate Verifies(node: Node, share: Element) {
      EvaluatePoints(commitments, node) == share
    }
  }

  datatype PublicDevice =
    PublicDevice(device: DeviceId, node: Node, identityShare: Element, memberShare: Element)

  function PublicDeviceKey(d: PublicDevice): int { d.device }
  function PublicPersonKey(p: PublicPerson): int { p.person }

  /** Left-to-right check of sorted devices: first the node, then both shares. */
  function CheckDevices(devices: seq<PublicDevice>, identity: PublicPolynomial, member: PublicPolynomial): Result<()> {
    if devices == [] then Ok(())
    else
      var n := |devices| - 1;
      var _ :- CheckDevices(devices[..n], identity, member);
      var d := devices[n];
      if exists j :: 0 <= j < n && devices[j].node == d.node then Err(DuplicateNode)
      else Need(identity.Verifies(d.node, d.identityShare) && member.Verifies(d.node, d.memberShare), ShareMismatch)
  }

  ghost predicate DevicesAgree(devices: seq<PublicDevice>, identity: PublicPolynomial, member: PublicPolynomial) {
    && (forall i, j :: 0 <= i < j < |devices| ==> devices[i].node != devices[j].node)
    && (forall i :: 0 <= i < |devices| ==>
      && identity.Verifies(devices[i].node, devices[i].identityShare)
      && member.Verifies(devices[i].node, devices[i].memberShare))
  }

  lemma {:induction false} CheckDevicesAgree(devices: seq<PublicDevice>, identity: PublicPolynomial,
      member: PublicPolynomial)
    ensures CheckDevices(devices, identity, member).Ok? <==> DevicesAgree(devices, identity, member)
  {
    hide PublicPolynomial.Verifies;
    if devices != [] {
      var n := |devices| - 1;
      CheckDevicesAgree(devices[..n], identity, member);
      if CheckDevices(devices, identity, member).Ok? {
        forall i, j | 0 <= i < j < |devices| ensures devices[i].node != devices[j].node {
          if j < n { assert devices[..n][i].node != devices[..n][j].node; }
        }
        forall i | 0 <= i < |devices|
          ensures identity.Verifies(devices[i].node, devices[i].identityShare)
          ensures member.Verifies(devices[i].node, devices[i].memberShare)
        {
          if i < n { assert devices[..n][i] == devices[i]; }
        }
      }
      if DevicesAgree(devices, identity, member) {
        assert DevicesAgree(devices[..n], identity, member);
        assert forall j :: 0 <= j < n ==> devices[j].node != devices[n].node;
      }
    }
  }

  datatype PublicPerson = PublicPerson(
    person: PersonId,
    outerNode: Node,
    identity: PublicPolynomial,
    member: PublicPolynomial,
    devices: seq<PublicDevice>)
  {
    /** What `New` establishes. */
    ghost predicate Valid() {
      && identity.Valid() && member.Valid()
      && identity.Threshold() == member.Threshold() <= |devices|
      && StrictlySorted(devices, PublicDeviceKey)
      && DevicesAgree(devices, identity, member)
    }

    static function New(
      person: PersonId, outerNode: Node, identity: PublicPolynomial, member: PublicPolynomial,
      devices: seq<PublicDevice>): (r: Result<PublicPerson>)
    {
      if identity.Threshold() != member.Threshold() then Err(LengthMismatch)
      else if |devices| < identity.Threshold() then Err(SupportMismatch)
      else
        var sorted := Sort(devices, PublicDeviceKey);
        if !AdjacentDistinct(sorted, PublicDeviceKey) then Err(DuplicateParticipant)
        else
          var _ :- CheckDevices(sorted, identity, member);
          Ok(PublicPerson(person, outerNode, identity, member, sorted))
    }

    function Device(device: DeviceId): (r: Result<PublicDevice>)
      ensures r.Ok? ==> r.value in devices && r.value.device == device
    {
      var i := Find(devices, PublicDeviceKey, device);
      if i.Some? then Ok(devices[i.value]) else Err(ParticipantNotFound)
    }
  }

  lemma {:induction false} PersonNew(person: PersonId, outerNode: Node, identity: PublicPolynomial,
      member: PublicPolynomial, devices: seq<PublicDevice>)
    requires identity.Valid() && member.Valid()
    ensures var r := PublicPerson.New(person, outerNode, identity, member, devices);
      r.Ok? ==> r.value.Valid()
  {
    var sorted := Sort(devices, PublicDeviceKey);
    AdjacentIsStrict(sorted, PublicDeviceKey);
    CheckDevicesAgree(sorted, identity, member);
  }

  /** Left-to-right check of sorted people: first the node, then the outer share. */
  function CheckPeople(people: seq<PublicPerson>, outer: PublicPolynomial): Result<()> {
    if people == [] then Ok(())
    else
      var n := |people| - 1;
      var _ :- CheckPeople(people[..n], outer);
      var p := people[n];
      if exists j :: 0 <= j < n && people[j].outerNode == p.outerNode then Err(DuplicateNode)
      else Need(outer.Verifies(p.outerNode, p.member.constant), ShareMismatch)
  }

  ghost predicate PeopleAgree(people: seq<PublicPerson>, outer: PublicPolynomial) {
    && (forall i, j :: 0 <= i < j < |people| ==> people[i].outerNode != people[j].outerNode)
    && (forall i :: 0 <= i < |people| ==> outer.Verifies(people[i].outerNode, people[i].member.constant))
  }

  lemma {:induction false} CheckPeopleAgree(people: seq<PublicPerson>, outer: PublicPolynomial)
    ensures CheckPeople(people, outer).Ok? <==> PeopleAgree(people, outer)
  {
    hide PublicPolynomial.Verifies;
    if people != [] {
      var n := |people| - 1;
      CheckPeopleAgree(people[..n], outer);
      if CheckPeople(people, outer).Ok? {
        forall i, j | 0 <= i < j < |people| ensures people[i].outerNode != people[j].outerNode {
          if j < n { assert people[..n][i].outerNode != people[..n][j].outerNode; }
        }
        forall i | 0 <= i < |people| ensures outer.Verifies(people[i].outerNode, people[i].member.constant) {
          if i < n { assert people[..n][i] == people[i]; }
        }
      }
      if PeopleAgree(people, outer) {
        assert PeopleAgree(people[..n], outer);
        assert forall j :: 0 <= j < n ==> people[j].outerNode != people[n].outerNode;
      }
    }
  }

  datatype PublicGenesis = PublicGenesis(vault: VaultId, outer: PublicPolynomial, people: seq<PublicPerson>)
  {
    /** What `Validate` establishes. */
    ghost predicate Valid() {
      && outer.Valid() && outer.Threshold() <= |people|
      && StrictlySorted(people, PublicPersonKey)
      && PeopleAgree(people, outer)
      && forall p :: p in people ==> p.Valid()
    }

    static function Validate(vault: VaultId, outer: PublicPolynomial,
        people: seq<PublicPerson>): (r: Result<PublicGenesis>) {
      if |people| < outer.Threshold() then Err(SupportMismatch)
      else
        var sorted := Sort(people, PublicPersonKey);
        if !AdjacentDistinct(sorted, PublicPersonKey) then Err(DuplicateParticipant)
        else
          var _ :- CheckPeople(sorted, outer);
          Ok(PublicGenesis(vault, outer, sorted))
    }

    function Person(person: PersonId): (r: Result<PublicPerson>)
      ensures r.Ok? ==> r.value in people && r.value.person == person
    {
      var i := Find(people, PublicPersonKey, person);
      if i.Some? then Ok(people[i.value]) else Err(ParticipantNotFound)
    }

    /** Participants of sorted people; slots count from one. */
    function OuterParticipants(selected: seq<PersonId>): (r: Result<seq<PersonParticipant>>) {
      if selected == [] then Ok([])
      else
        var n := |selected| - 1;
        var front :- OuterParticipants(selected[..n]);
        var p :- Person(selected[n]);
        if n + 1 >= U16_LIMIT then Err(LengthOverflow)
        else Ok(front + [PersonParticipant(p.person, n + 1, p.outerNode, p.member.constant)])
    }

    /** An exact outer-threshold support. */
    function OuterSupportOf(selected: seq<PersonId>): Result<OuterSupport> {
      var key := (p: PersonId) => p;
      if |selected| != outer.Threshold() then Err(SupportMismatch)
      else
        var sorted := Sort(selected, key);
        if !AdjacentDistinct(sorted, key) then Err(DuplicateParticipant)
        else
          var participants :- OuterParticipants(sorted);
          OuterSupport.New(participants)
    }

    static function InnerParticipants(person: PublicPerson,
        devices: seq<DeviceId>): (r: Result<seq<DeviceParticipant>>) {
      if devices == [] then Ok([])
      else
        var n := |devices| - 1;
        var front :- InnerParticipants(person, devices[..n]);
        var d :- person.Device(devices[n]);
        Ok(front + [DeviceParticipant(d.device, d.node, d.memberShare)])
    }

    /** An exact inner-threshold support of one person. */
    function InnerSupportOf(person: PersonId, devices: seq<DeviceId>): Result<InnerSupport> {
      var p :- Person(person);
      if |devices| != p.member.Threshold() then Err(SupportMismatch)
      else
        var participants :- InnerParticipants(p, devices);
        InnerSupport.New(participants)
    }
  }

  lemma {:induction false} ValidateGenesis(vault: VaultId, outer: PublicPolynomial, people: seq<PublicPerson>)
    requires outer.Valid() && forall p :: p in people ==> p.Valid()
    ensures var r := PublicGenesis.Validate(vault, outer, people);
      r.Ok? ==> r.value.Valid()
  {
    var sorted := Sort(people, PublicPersonKey);
    AdjacentIsStrict(sorted, PublicPersonKey);
    CheckPeopleAgree(sorted, outer);
    forall p | p in sorted ensures p.Valid() { SameElements(sorted, people, p); }
  }

  // ----- supports drawn from validated data recombine the keys

  lemma {:induction false} InnerParticipantsOnCurve(person: PublicPerson, devices: seq<DeviceId>)
    requires person.Valid()
    ensures var r := PublicGenesis.InnerParticipants(person, devices);
      r.Ok? ==>
        && |r.value| == |devices|
        && forall p :: p in r.value ==> p.share == EvaluatePoints(person.member.commitments, p.node)
  {
    if devices != [] {
      var n := |devices| - 1;
      InnerParticipantsOnCurve(person, devices[..n]);
      var d := person.Device(devices[n]);
      if d.Ok? { assert d.value in person.devices; }
    }
  }

  lemma {:induction false} OuterParticipantsOnCurve(g: PublicGenesis, selected: seq<PersonId>)
    requires g.Valid()
    ensures var r := g.OuterParticipants(selected);
      r.Ok? ==>
        && |r.value| == |selected|
        && forall p :: p in r.value ==> p.member == EvaluatePoints(g.outer.commitments, p.node)
  {
    if selected != [] {
      var n := |selected| - 1;
      OuterParticipantsOnCurve(g, selected[..n]);
      var p := g.Person(selected[n]);
      if p.Ok? { assert p.value in g.people; }
    }
  }

  lemma {:induction false} OuterParticipantsArePeople(g: PublicGenesis, selected: seq<PersonId>)
    ensures var r := g.OuterParticipants(selected);
      r.Ok? ==> forall p :: p in r.value ==>
        g.Person(p.person).Ok? && g.Person(p.person).value.member.constant == p.member
  {
    if selected != [] { OuterParticipantsArePeople(g, selected[..|selected| - 1]); }
  }

  /** The members of an outer support are the people of the genesis. */
  lemma {:induction false} OuterSupportMembers(g: PublicGenesis, selected: seq<PersonId>, p: PersonParticipant)
    requires g.OuterSupportOf(selected).Ok? && p in g.OuterSupportOf(selected).value.participants
    ensures g.Person(p.person).Ok? && g.Person(p.person).value.member.constant == p.member
  {
    hide Row, PublicGenesis.OuterParticipants, Sort, Find, RejectDuplicatePeople, AdjacentDistinct;
    var sorted := Sort(selected, (p: PersonId) => p);
    OuterParticipantsArePeople(g, sorted);
    var ps := g.OuterParticipants(sorted).value;
    SameElements(g.OuterSupportOf(selected).value.participants, ps, p);
  }

  /** Every exact inner support recombines the person's member point. */
  lemma {:induction false} InnerSupportRecombines(g: PublicGenesis, person: PersonId, devices: seq<DeviceId>)
    requires g.Valid()
    ensures var r := g.InnerSupportOf(person, devices);
      r.Ok? ==>
        && r.value.Valid() && g.Person(person).Ok?
        && Dot(r.value.coefficients, Logs(Shares(r.value.participants))) == g.Person(person).value.member.constant.log
  {
    hide EvaluatePoints, Sort, Dot, Weight;
    var r := g.InnerSupportOf(person, devices);
    if r.Ok? {
      var p := g.Person(person).value;
      assert p.Valid();
      InnerParticipantsOnCurve(p, devices);
      var ps := PublicGenesis.InnerParticipants(p, devices).value;
      InnerNew(ps);
      forall x | x in r.value.participants ensures x in ps { SameElements(r.value.participants, ps, x); }
      InnerReconstructs(r.value, p.member.commitments);
    }
  }

  /** Every exact outer support recombines the vault key. */
  lemma {:induction false} OuterSupportRecombines(g: PublicGenesis, selected: seq<PersonId>)
    requires g.Valid()
    ensures var r := g.OuterSupportOf(selected);
      r.Ok? ==>
        && r.value.Valid()
        && Dot(r.value.coefficients, Logs(Members(r.value.participants))) == g.outer.constant.log
  {
    hide EvaluatePoints, Sort, Dot, Weight;
    var r := g.OuterSupportOf(selected);
    if r.Ok? {
      var sorted := Sort(selected, (p: PersonId) => p);
      OuterParticipantsOnCurve(g, sorted);
      var ps := g.OuterParticipants(sorted).value;
      OuterNew(ps);
      forall x | x in r.value.participants ensures x in ps { SameElements(r.value.participants, ps, x); }
      OuterReconstructs(r.value, g.outer.commitments);
    }
  }

  // ----- one device's secret state

  datatype IdentityDevice = IdentityDevice(device: DeviceId, node: Node, share: Element)
  datatype IdentityMap = IdentityMap(commitments: seq<Element>, devices: seq<IdentityDevice>)
  datatype MemberMap = MemberMap(commitments: seq<Element>)
  datatype OuterPerson = OuterPerson(person: PersonId, node: Node, member: Point)
  datatype OuterMap = OuterMap(commitments: seq<Element>, people: seq<OuterPerson>)

  datatype DeviceGenesis = DeviceGenesis(
    vault: VaultId, person: PersonId, device: DeviceId, outerNode: Node, node: Node,
    identityMap: IdentityMap, memberMap: MemberMap, outerMap: OuterMap,
    identityKey: Point, memberPoint: Point, vaultKey: Point,
    identity: Scalar, anchor: Scalar)

  /** `member - identity`, and its inverse (src/keys.rs). */
  function AnchorShare(member: Scalar, identity: Scalar): Scalar { Sub(member, identity) }
  function SigningShare(identity: Scalar, anchor: Scalar): Scalar { Add(identity, anchor) }

  lemma {:induction false} AnchorRoundTrip(member: Scalar, identity: Scalar)
    ensures SigningShare(identity, AnchorShare(member, identity)) == member
  {
    hide Add, Neg;
    SubAdd(member, identity);
    AddComm(identity, Sub(member, identity));
  }

  function IdentityDevices(ds: seq<PublicDevice>): (r: seq<IdentityDevice>)
    ensures |r| == |ds|
  {
    seq(|ds|, i requires 0 <= i < |ds| => IdentityDevice(ds[i].device, ds[i].node, ds[i].identityShare))
  }

  function OuterPeople(ps: seq<PublicPerson>): (r: seq<OuterPerson>)
    ensures |r| == |ps|
  {
    seq(|ps|, i requires 0 <= i < |ps| => OuterPerson(ps[i].person, ps[i].outerNode, ps[i].member.constant))
  }

  function AttachShare(g: PublicGenesis, person: PersonId, device: DeviceId, identity: Scalar,
      member: Scalar): Result<DeviceGenesis> {
    var p :- g.Person(person);
    var d :- p.Device(device);
    if FromScalar(identity) != d.identityShare || FromScalar(member) != d.memberShare then Err(ShareMismatch)
    else Ok(DeviceGenesis(
      g.vault, person, device, p.outerNode, d.node,
      IdentityMap(p.identity.commitments, IdentityDevices(p.devices)),
      MemberMap(p.member.commitments),
      OuterMap(g.outer.commitments, OuterPeople(g.people)),
      p.identity.constant, p.member.constant, g.outer.constant,
      identity, AnchorShare(member, identity)))
  }
}

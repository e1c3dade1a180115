/** What installed leaf material satisfies (src/leaf/store/record.rs). */
module Material {
  import opened Results
  import opened Field
  import opened Sorting
  import opened Algebra
  import opened Shamir
  import opened Genesis
  import opened Ids
  import opened Transcript
  import opened Leaf

  // ----- the validator

  /** Left-to-right check of the identity devices; the result is the own share. */
  function CheckIdentityDevices(r: Registry, devices: seq<IdentityDevice>): Result<Option<Element>> {
    if devices == [] then Ok(None)
    else
      var n := |devices| - 1;
      var own :- CheckIdentityDevices(r, devices[..n]);
      var d := devices[n];
      if n > 0 && devices[n - 1].device >= d.device then Err(DuplicateParticipant)
      else if exists j :: 0 <= j < n && devices[j].node == d.node then Err(DuplicateNode)
      else if EvaluatePoints(r.identityMap.commitments, d.node) != d.share then Err(ShareMismatch)
      else if d.device != r.device then Ok(own)
      else if d.node != r.node then Err(ParticipantMismatch)
      else Ok(Some(d.share))
  }

  /** Left-to-right check of a vault's people; the result is the own entry. */
  function CheckOuterPeople(r: Registry, vault: VaultState, people: seq<OuterPerson>): Result<Option<OuterPerson>> {
    if people == [] then Ok(None)
    else
      var n := |people| - 1;
      var own :- CheckOuterPeople(r, vault, people[..n]);
      var p := people[n];
      if n > 0 && people[n - 1].person >= p.person then Err(DuplicateParticipant)
      else if exists j :: 0 <= j < n && people[j].node == p.node then Err(DuplicateNode)
      else if EvaluatePoints(vault.outerMap.commitments, p.node) != p.member then Err(ShareMismatch)
      else Ok(if p.person == r.person then Some(p) else own)
  }

  function ValidateVault(r: Registry, vault: VaultState): Result<()> {
    if
      || |vault.memberMap.commitments| != |r.identityMap.commitments|
      || vault.memberMap.commitments == [] || vault.memberMap.commitments[0] != vault.memberPoint
      || vault.outerMap.commitments == [] || |vault.outerMap.commitments| > |vault.outerMap.people|
      || vault.outerMap.commitments[0] != vault.vaultKey
      then Err(SupportMismatch)
    else if EvaluatePoints(vault.memberMap.commitments, r.node) != Plus(FromScalar(r.identity),
      FromScalar(vault.anchor))
      then Err(ShareMismatch)
    else
      var own :- CheckOuterPeople(r, vault, vault.outerMap.people);
      Need(own.Some? && own.value.node == vault.outerNode && own.value.member == vault.memberPoint, ParticipantMismatch)
  }

  /** The vaults in order; the first failure decides. */
  function ValidateVaults(r: Registry, order: seq<VaultId>): Result<()>
    requires forall v :: v in order ==> v in r.vaults
  {
    if order == [] then Ok(())
    else
      var _ :- ValidateVaults(r, order[..|order| - 1]);
      ValidateVault(r, r.vaults[order[|order| - 1]])
  }

  function ValidateMaterial(r: Registry): Result<()> {
    var commitments := r.identityMap.commitments;
    if commitments == [] || |commitments| > |r.identityMap.devices| then Err(SupportMismatch)
    else if commitments[0] != r.identityKey then Err(ShareMismatch)
    else
      var own :- CheckIdentityDevices(r, r.identityMap.devices);
      if own.None? then Err(ParticipantNotFound)
      else if FromScalar(r.identity) != own.value then Err(ShareMismatch)
      else ValidateVaults(r, r.VaultOrder())
  }

  // ----- what it means

  ghost predicate DevicesFit(r: Registry, devices: seq<IdentityDevice>) {
    && StrictlySorted(devices, IdentityKeyOf)
    && (forall i, j :: 0 <= i < j < |devices| ==> devices[i].node != devices[j].node)
    && forall i :: 0 <= i < |devices| ==>
      && devices[i].share == EvaluatePoints(r.identityMap.commitments, devices[i].node)
      && (devices[i].device == r.device ==> devices[i].node == r.node)
  }

  ghost predicate PeopleFit(vault: VaultState, people: seq<OuterPerson>) {
    && StrictlySorted(people, OuterPersonKey)
    && (forall i, j :: 0 <= i < j < |people| ==> people[i].node != people[j].node)
    && forall i :: 0 <= i < |people| ==> people[i].member == EvaluatePoints(vault.outerMap.commitments, people[i].node)
  }

  ghost predicate VaultFits(r: Registry, vault: VaultState) {
    && 1 <= |vault.memberMap.commitments| == |r.identityMap.commitments|
    && vault.memberMap.commitments[0] == vault.memberPoint
    && 1 <= |vault.outerMap.commitments| <= |vault.outerMap.people|
    && vault.outerMap.commitments[0] == vault.vaultKey
    && EvaluatePoints(vault.memberMap.commitments, r.node) == FromScalar(SigningShare(r.identity, vault.anchor))
    && PeopleFit(vault, vault.outerMap.people)
    && OuterPerson(r.person, vault.outerNode, vault.memberPoint) in vault.outerMap.people
  }

  /** Consistent installed state: every share on its commitments, and the own entries
    * where the registry says they are.
    */
  ghost predicate Fits(r: Registry) {
    && 1 <= |r.identityMap.commitments| <= |r.identityMap.devices|
    && r.identityMap.commitments[0] == r.identityKey
    && DevicesFit(r, r.identityMap.devices)
    && IdentityDevice(r.device, r.node, FromScalar(r.identity)) in r.identityMap.devices
    && forall v :: v in r.vaults ==> VaultFits(r, r.vaults[v])
  }

  /** The last device extends a consistent list. */
  ghost predicate ExtendsDevices(r: Registry, devices: seq<IdentityDevice>)
    requires devices != []
  {
    var n := |devices| - 1;
    && (n > 0 ==> devices[n - 1].device < devices[n].device)
    && (forall j :: 0 <= j < n ==> devices[j].node != devices[n].node)
    && devices[n].share == EvaluatePoints(r.identityMap.commitments, devices[n].node)
    && (devices[n].device == r.device ==> devices[n].node == r.node)
  }

  lemma {:induction false} DevicesFitStep(r: Registry, devices: seq<IdentityDevice>)
    requires devices != []
    ensures DevicesFit(r, devices) <==> DevicesFit(r, devices[..|devices| - 1]) && ExtendsDevices(r, devices)
  {
    hide EvaluatePoints;
    var n := |devices| - 1;
    var front := devices[..n];
    LastSorted(devices, IdentityKeyOf);
    if DevicesFit(r, front) && ExtendsDevices(r, devices) {
      forall i, j | 0 <= i < j < |devices| ensures devices[i].node != devices[j].node {
        if j < n { assert front[i].node != front[j].node; }
      }
      forall i | 0 <= i < |devices|
        ensures devices[i].share == EvaluatePoints(r.identityMap.commitments, devices[i].node)
        ensures devices[i].device == r.device ==> devices[i].node == r.node
      {
        if i < n { assert front[i] == devices[i]; }
      }
    }
  }

  lemma {:induction false} CheckedDevices(r: Registry, devices: seq<IdentityDevice>)
    ensures CheckIdentityDevices(r, devices).Ok? <==> DevicesFit(r, devices)
    ensures CheckIdentityDevices(r, devices).Ok? ==>
      match CheckIdentityDevices(r, devices).value
      case None => forall i :: 0 <= i < |devices| ==> devices[i].device != r.device
      case Some(share) => IdentityDevice(r.device, r.node, share) in devices
  {
    hide EvaluatePoints;
    if devices == [] {
      NoDevicesFit(r);
    } else {
      hide DevicesFit, CheckIdentityDevices, ExtendsDevices;
      var n := |devices| - 1;
      CheckedDevices(r, devices[..n]);
      assert devices == devices[..n] + [devices[n]];
      DeviceCheckStep(r, devices);
      DevicesFitStep(r, devices);
    }
  }

  lemma {:induction false} DeviceCheckStep(r: Registry, devices: seq<IdentityDevice>)
    requires devices != []
    ensures var n := |devices| - 1;
      var front, d := CheckIdentityDevices(r, devices[..n]), devices[n];
      && (CheckIdentityDevices(r, devices).Ok? <==> front.Ok? && ExtendsDevices(r, devices))
      && (CheckIdentityDevices(r, devices).Ok? ==>
        && CheckIdentityDevices(r, devices).value == (if d.device == r.device then Some(d.share) else front.value)
        && (d.device == r.device ==> d == IdentityDevice(r.device, r.node, d.share)))
  {
    hide EvaluatePoints;
  }

  lemma {:induction false} NoDevicesFit(r: Registry)
    ensures DevicesFit(r, [])
  {}

  lemma {:induction false} LastSorted<T>(s: seq<T>, key: T -> int)
    requires s != []
    ensures var n := |s| - 1;
      StrictlySorted(s, key) <==> StrictlySorted(s[..n], key) && (n > 0 ==> key(s[n - 1]) < key(s[n]))
  {
    var n := |s| - 1;
    if StrictlySorted(s[..n], key) && (n > 0 ==> key(s[n - 1]) < key(s[n])) {
      forall i, j | 0 <= i < j < |s| ensures key(s[i]) < key(s[j]) {
        if j < n { assert key(s[..n][i]) < key(s[..n][j]); }
        else if i < n - 1 { assert key(s[..n][i]) < key(s[..n][n - 1]); }
      }
    }
  }

  /** The last person follows the ones before, at a new node and with its own share. */
  ghost predicate ExtendsPeople(vault: VaultState, people: seq<OuterPerson>)
    requires people != []
  {
    var n := |people| - 1;
    && (n > 0 ==> people[n - 1].person < people[n].person)
    && (forall j :: 0 <= j < n ==> people[j].node != people[n].node)
    && people[n].member == EvaluatePoints(vault.outerMap.commitments, people[n].node)
  }

  lemma {:induction false} PeopleFitStep(vault: VaultState, people: seq<OuterPerson>)
    requires people != []
    ensures PeopleFit(vault, people) <==> PeopleFit(vault, people[..|people| - 1]) && ExtendsPeople(vault, people)
  {
    hide EvaluatePoints;
    var n := |people| - 1;
    var front := people[..n];
    LastSorted(people, OuterPersonKey);
    if PeopleFit(vault, front) && ExtendsPeople(vault, people) {
      forall i, j | 0 <= i < j < |people| ensures people[i].node != people[j].node {
        if j < n { assert front[i].node != front[j].node; }
      }
      forall i | 0 <= i < |people|
        ensures people[i].member == EvaluatePoints(vault.outerMap.commitments, people[i].node) {
        if i < n { assert front[i] == people[i]; }
      }
    }
  }

  lemma {:induction false} CheckedPeople(r: Registry, vault: VaultState, people: seq<OuterPerson>)
    ensures CheckOuterPeople(r, vault, people).Ok? <==> PeopleFit(vault, people)
    ensures CheckOuterPeople(r, vault, people).Ok? ==>
      match CheckOuterPeople(r, vault, people).value
      case None => forall i :: 0 <= i < |people| ==> people[i].person != r.person
      case Some(own) => own in people && own.person == r.person
  {
    hide EvaluatePoints;
    if people == [] {
      NobodyFits(vault);
    } else {
      hide PeopleFit, CheckOuterPeople, ExtendsPeople;
      var n := |people| - 1;
      CheckedPeople(r, vault, people[..n]);
      assert people == people[..n] + [people[n]];
      PeopleCheckStep(r, vault, people);
      PeopleFitStep(vault, people);
    }
  }

  lemma {:induction false} PeopleCheckStep(r: Registry, vault: VaultState, people: seq<OuterPerson>)
    requires people != []
    ensures var n := |people| - 1;
      var front := CheckOuterPeople(r, vault, people[..n]);
      && (CheckOuterPeople(r, vault, people).Ok? <==> front.Ok? && ExtendsPeople(vault, people))
      && (CheckOuterPeople(r, vault, people).Ok? ==>
        CheckOuterPeople(r, vault, people).value == if people[n].person == r.person then Some(people[n])
          else front.value)
  {
    hide EvaluatePoints;
  }

  lemma {:induction false} NobodyFits(vault: VaultState)
    ensures PeopleFit(vault, [])
  {}

  lemma {:induction false} OnePerson(vault: VaultState, people: seq<OuterPerson>, p: OuterPerson, q: OuterPerson)
    requires StrictlySorted(people, OuterPersonKey) && p in people && q in people && p.person == q.person
    ensures p == q
  {
    var i :| 0 <= i < |people| && people[i] == p;
    var j :| 0 <= j < |people| && people[j] == q;
    assert OuterPersonKey(people[i]) == OuterPersonKey(people[j]);
  }

  lemma {:induction false} OneDevice(devices: seq<IdentityDevice>, p: IdentityDevice, q: IdentityDevice)
    requires StrictlySorted(devices, IdentityKeyOf) && p in devices && q in devices && p.device == q.device
    ensures p == q
  {
    var i :| 0 <= i < |devices| && devices[i] == p;
    var j :| 0 <= j < |devices| && devices[j] == q;
    assert IdentityKeyOf(devices[i]) == IdentityKeyOf(devices[j]);
  }

  lemma {:induction false} ValidVault(r: Registry, vault: VaultState)
    ensures ValidateVault(r, vault).Ok? <==> VaultFits(r, vault)
  {
    hide EvaluatePoints, CheckOuterPeople, PeopleFit;
    CheckedPeople(r, vault, vault.outerMap.people);
    var own := CheckOuterPeople(r, vault, vault.outerMap.people);
    if own.Ok? {
      assert StrictlySorted(vault.outerMap.people, OuterPersonKey) by { PeopleSorted(vault, vault.outerMap.people); }
      var mine := OuterPerson(r.person, vault.outerNode, vault.memberPoint);
      if own.value.Some? && mine in vault.outerMap.people {
        OnePerson(vault, vault.outerMap.people, own.value.value, mine);
      }
    }
  }

  lemma {:induction false} PeopleSorted(vault: VaultState, people: seq<OuterPerson>)
    requires PeopleFit(vault, people)
    ensures StrictlySorted(people, OuterPersonKey)
  {}

  lemma {:induction false} ValidVaults(r: Registry, order: seq<VaultId>)
    requires forall v :: v in order ==> v in r.vaults
    ensures ValidateVaults(r, order).Ok? <==> forall v :: v in order ==> VaultFits(r, r.vaults[v])
  {
    hide ValidateVault, VaultFits;
    if order != [] {
      var n := |order| - 1;
      assert order == order[..n] + [order[n]];
      ValidVaults(r, order[..n]);
      ValidVault(r, r.vaults[order[n]]);
    }
  }

  /** The validator accepts exactly consistent state. */
  lemma {:induction false} ValidateIff(r: Registry)
    ensures ValidateMaterial(r).Ok? <==> Fits(r)
  {
    hide EvaluatePoints, CheckIdentityDevices, ValidateVaults, VaultFits, Ascending;
    CheckedDevices(r, r.identityMap.devices);
    ValidVaults(r, r.VaultOrder());
    var own := CheckIdentityDevices(r, r.identityMap.devices);
    var mine := IdentityDevice(r.device, r.node, FromScalar(r.identity));
    if own.Ok? && own.value.Some? && mine in r.identityMap.devices {
      OneDevice(r.identityMap.devices, IdentityDevice(r.device, r.node, own.value.value), mine);
    }
  }

  // ----- it holds from the start

  /** What attaching shares to a validated genesis gives. */
  ghost predicate GenesisFits(d: DeviceGenesis) {
    forall epoch: KeyEpoch :: Registry.New(d, epoch).Ok? ==> Fits(Registry.New(d, epoch).value)
  }

  lemma {:induction false} AttachedDevices(p: PublicPerson, d: PublicDevice, r: Registry)
    requires p.Valid() && d in p.devices
    requires r.identityMap == IdentityMap(p.identity.commitments, IdentityDevices(p.devices))
    requires r.device == d.device && r.node == d.node && FromScalar(r.identity) == d.identityShare
    ensures 1 <= |r.identityMap.commitments| <= |r.identityMap.devices|
    ensures DevicesFit(r, r.identityMap.devices)
    ensures IdentityDevice(r.device, r.node, FromScalar(r.identity)) in r.identityMap.devices
  {
    hide EvaluatePoints;
    var ds := r.identityMap.devices;
    forall i, j | 0 <= i < j < |ds| ensures IdentityKeyOf(ds[i]) < IdentityKeyOf(ds[j]) {
      assert PublicDeviceKey(p.devices[i]) < PublicDeviceKey(p.devices[j]);
    }
    var k :| 0 <= k < |p.devices| && p.devices[k] == d;
    assert ds[k] == IdentityDevice(r.device, r.node, FromScalar(r.identity));
    forall i | 0 <= i < |ds| && ds[i].device == r.device ensures ds[i].node == r.node {
      assert PublicDeviceKey(p.devices[i]) == PublicDeviceKey(p.devices[k]);
    }
  }

  lemma {:induction false} AttachedVault(g: PublicGenesis, p: PublicPerson, d: PublicDevice, member: Scalar,
      r: Registry, vault: VaultState)
    requires g.Valid() && p in g.people && p.Valid() && d in p.devices
    requires FromScalar(member) == d.memberShare && r.node == d.node && r.person == p.person
    requires r.identityMap.commitments == p.identity.commitments
    requires vault.memberMap == MemberMap(p.member.commitments) && vault.memberPoint == p.member.constant
    requires vault.outerMap == OuterMap(g.outer.commitments, OuterPeople(g.people))
      && vault.vaultKey == g.outer.constant
    requires vault.outerNode == p.outerNode && vault.anchor == AnchorShare(member, r.identity)
    ensures VaultFits(r, vault)
  {
    hide EvaluatePoints, AnchorShare, SigningShare;
    AnchorRoundTrip(member, r.identity);
    var people := vault.outerMap.people;
    forall i, j | 0 <= i < j < |people| ensures OuterPersonKey(people[i]) < OuterPersonKey(people[j]) {
      assert PublicPersonKey(g.people[i]) < PublicPersonKey(g.people[j]);
    }
    var k :| 0 <= k < |g.people| && g.people[k] == p;
    assert people[k] == OuterPerson(r.person, vault.outerNode, vault.memberPoint);
    var m :| 0 <= m < |p.devices| && p.devices[m] == d;
    assert p.member.Verifies(d.node, d.memberShare);
    forall i | 0 <= i < |people|
      ensures people[i].member == EvaluatePoints(vault.outerMap.commitments, people[i].node) {
      assert g.outer.Verifies(g.people[i].outerNode, g.people[i].member.constant);
    }
  }

  /** A registry made from validated genesis data is consistent. */
  lemma {:induction false} GenesisIsConsistent(g: PublicGenesis, person: PersonId, device: DeviceId, identity: Scalar,
      member: Scalar)
    requires g.Valid()
    ensures var d := AttachShare(g, person, device, identity, member);
      d.Ok? ==> GenesisFits(d.value)
  {
    hide EvaluatePoints, AnchorShare, DevicesFit, VaultFits, PublicPerson.Valid, Find;
    var attached := AttachShare(g, person, device, identity, member);
    if attached.Ok? {
      var p := g.Person(person).value;
      var d := p.Device(device).value;
      assert p.Valid();
      forall epoch: KeyEpoch | Registry.New(attached.value, epoch).Ok?
        ensures Fits(Registry.New(attached.value, epoch).value) {
        var r := Registry.New(attached.value, epoch).value;
        PersonIdentity(p);
        AttachedDevices(p, d, r);
        AttachedVault(g, p, d, member, r, r.vaults[g.vault]);
      }
    }
  }

  lemma {:induction false} PersonIdentity(p: PublicPerson)
    requires p.Valid()
    ensures p.identity.commitments != [] && p.identity.commitments[0] == p.identity.constant
  {}
}

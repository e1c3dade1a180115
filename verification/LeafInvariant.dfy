/** What every reachable registry keeps (src/leaf.rs, src/leaf/store/record.rs). */
module LeafInvariant {
  import opened Results
  import opened Field
  import opened Sorting
  import opened Algebra
  import opened Shamir
  import opened Genesis
  import opened Ids
  import opened Transcript
  import opened Shape
  import opened Contribution
  import opened Target
  import opened Leaf
  import opened Material

  // ----- installed state stays consistent

  /** A vault's consistency depends on the person's own entries only. */
  lemma {:induction false} VaultFitsSame(r: Registry, u: Registry, vault: VaultState)
    requires u.node == r.node && u.identity == r.identity && u.person == r.person
    requires |u.identityMap.commitments| == |r.identityMap.commitments|
    ensures VaultFits(r, vault) <==> VaultFits(u, vault)
  {
    hide EvaluatePoints, PeopleFit, SigningShare;
  }

  lemma {:induction false} IdentityFitsSame(r: Registry, u: Registry)
    requires Fits(r) && u.device == r.device && u.node == r.node && u.identity == r.identity
    requires u.identityMap == r.identityMap && u.identityKey == r.identityKey
    requires forall v :: v in u.vaults ==> VaultFits(u, u.vaults[v])
    ensures Fits(u)
  {
    hide EvaluatePoints, VaultFits;
  }

  lemma {:induction false} AddVaultFits(r: Registry, d: DeviceGenesis, epoch: KeyEpoch)
    requires Fits(r) && GenesisFits(d)
    ensures Fits(r.AddVault(d, epoch).0)
  {
    hide Fits, VaultFits;
    var (after, result) := r.AddVault(d, epoch);
    if result.Ok? {
      var alone := Registry.New(d, epoch).value;
      SameIdentityScalar(d.identity, r.identity);
      forall v | v in after.vaults ensures VaultFits(after, after.vaults[v]) {
        if v == d.vault {
          FitsVault(alone, v);
          VaultFitsSame(alone, after, after.vaults[v]);
        } else {
          FitsVault(r, v);
          VaultFitsSame(r, after, after.vaults[v]);
        }
      }
      IdentityFitsSame(r, after);
    }
  }

  lemma {:induction false} FitsVault(r: Registry, v: VaultId)
    requires Fits(r) && v in r.vaults
    ensures VaultFits(r, r.vaults[v])
  {
    hide VaultFits, DevicesFit;
  }

  lemma {:induction false} SameIdentityScalar(a: Scalar, b: Scalar)
    requires FromScalar(a) == FromScalar(b)
    ensures a == b
  {}

  lemma {:induction false} EvaluatedDevices(shape: SingleShape, points: ContributionPoints, devices: seq<TargetDevice>)
    requires shape.Valid() && points.OnePolynomial? && EvaluateDevices(shape, points, devices).Ok?
    requires forall d :: d in devices ==> d in shape.devices
    ensures var r := EvaluateDevices(shape, points, devices).value;
      && |r| == |devices|
      && forall i :: 0 <= i < |devices| ==>
        r[i] == IdentityDevice(devices[i].device, devices[i].node, EvaluatePoints(points.points, devices[i].node))
  {
    hide EvaluatePoints;
    if devices != [] {
      var n := |devices| - 1;
      EvaluatedDevices(shape, points, devices[..n]);
      SameTarget(shape, devices[n]);
    }
  }

  lemma {:induction false} SameTarget(shape: SingleShape, d: TargetDevice)
    requires shape.Valid() && d in shape.devices
    ensures shape.Device(d.device) == Ok(d)
  {
    var i :| 0 <= i < |shape.devices| && shape.devices[i] == d;
    FindAt(shape.devices, TargetKey, i);
  }

  /** Everything one checked member of an inner bundle agrees on. */
  ghost predicate MemberAgrees(r: Registry, m: MemberShare, v: VaultId, identityShare: InstalledShare, next: Epoch) {
    && v in r.vaults
    && m.epoch.anchor == AnchorId(v, r.person, identityShare.handle, identityShare.handle)
    && m.epoch.outer == r.vaults[v].outerEpoch && m.epoch.inner == next && next > r.innerEpoch
    && m.share.target == SingleTarget(r.device) && m.share.shape == identityShare.shape
    && m.share.points.OnePolynomial? && m.share.points.points != []
      && m.share.points.points[0] == r.vaults[v].memberPoint
  }

  lemma {:induction false} MembersAgree(r: Registry, members: seq<MemberShare>, order: seq<VaultId>,
      identityShare: InstalledShare)
    requires |members| == |order| && (forall v :: v in order ==> v in r.vaults)
    requires r.CheckMembers(members, order, identityShare).Ok?
    ensures var next := r.CheckMembers(members, order, identityShare).value;
      && (next.None? <==> members == [])
      && (next.Some? ==> forall i :: 0 <= i < |members| ==>
        MemberAgrees(r, members[i], order[i], identityShare, next.value))
  {
    if members != [] {
      var n := |members| - 1;
      MembersAgree(r, members[..n], order[..n], identityShare);
      var next := r.CheckMembers(members[..n], order[..n], identityShare).value;
      assert MemberAgrees(r, members[n], order[n], identityShare, members[n].epoch.inner);
      forall i | 0 <= i < n ensures MemberAgrees(r, members[i], order[i], identityShare, members[n].epoch.inner) {
        assert MemberAgrees(r, members[..n][i], order[..n][i], identityShare, next.value);
      }
    }
  }

  lemma {:induction false} MapsAgree(members: seq<MemberShare>, shape: SingleShape)
    requires Registry.NextMaps(members, shape).Ok?
    ensures var maps := Registry.NextMaps(members, shape).value;
      && |maps| == |members|
      && forall i :: 0 <= i < |members| ==>
        && members[i].share.points.OnePolynomial?
        && maps[i].commitments == members[i].share.points.points && |maps[i].commitments| == shape.threshold
  {
    if members != [] { MapsAgree(members[..|members| - 1], shape); }
  }

  /** A share of one sharing lies on its polynomial at the device's node. */
  lemma {:induction false} ShareOnPolynomial(s: InstalledShare, device: DeviceId)
    requires SoundShare(s) && s.shape.OneSharing? && s.target == SingleTarget(device) && s.points.OnePolynomial?
    ensures s.shape.single.Device(device).Ok?
    ensures EvaluatePoints(s.points.points, s.shape.single.Device(device).value.node) == FromScalar(s.share)
  {
    hide EvaluatePoints, ContributionPoints.Fits, SingleShape.Valid;
  }

  lemma {:induction false} InstalledDevicesFit(r: Registry, identityShare: InstalledShare, after: Registry)
    requires SoundShare(identityShare) && identityShare.shape.OneSharing?
      && identityShare.target == SingleTarget(r.device)
    requires IdentityMapOf(identityShare.shape.single, identityShare.points) == Ok(after.identityMap)
    requires identityShare.shape.single.Device(r.device).Ok?
      && identityShare.shape.single.Device(r.device).value.node == r.node
    requires after.device == r.device && after.node == r.node && after.identity == identityShare.share
    ensures 1 <= |after.identityMap.commitments| <= |after.identityMap.devices|
    ensures after.identityMap.commitments == identityShare.points.points
    ensures DevicesFit(after, after.identityMap.devices)
    ensures IdentityDevice(after.device, after.node, FromScalar(after.identity)) in after.identityMap.devices
  {
    hide EvaluatePoints, ContributionPoints.Fits;
    var shape, points := identityShare.shape.single, identityShare.points;
    EvaluatedDevices(shape, points, shape.devices);
    ShareOnPolynomial(identityShare, r.device);
    var ds := after.identityMap.devices;
    forall i, j | 0 <= i < j < |ds| ensures IdentityKeyOf(ds[i]) < IdentityKeyOf(ds[j]) {
      assert TargetKey(shape.devices[i]) < TargetKey(shape.devices[j]);
    }
    var own := shape.Device(r.device).value;
    forall i | 0 <= i < |ds| && ds[i].device == r.device ensures ds[i].node == r.node {
      SameTarget(shape, shape.devices[i]);
    }
    var k :| 0 <= k < |shape.devices| && shape.devices[k] == own;
    assert ds[k] == IdentityDevice(after.device, after.node, FromScalar(after.identity));
  }

  lemma {:induction false} InstalledVaultFits(r: Registry, after: Registry, m: MemberShare, vault: VaultState,
      next: VaultState)
    requires VaultFits(r, vault) && SoundShare(m.share) && m.share.shape.OneSharing?
      && m.share.target == SingleTarget(r.device)
    requires m.share.points.OnePolynomial? && m.share.points.points != []
      && m.share.points.points[0] == vault.memberPoint
    requires m.share.shape.single.Device(r.device).Ok? && m.share.shape.single.Device(r.device).value.node == r.node
    requires after.node == r.node && after.person == r.person
    requires |m.share.points.points| == |after.identityMap.commitments|
    requires next == vault.(
      anchor := AnchorShare(m.share.share, after.identity), memberHandle := next.memberHandle,
      memberMap := MemberMap(m.share.points.points))
    ensures VaultFits(after, next)
  {
    hide EvaluatePoints, ContributionPoints.Fits, AnchorShare, SigningShare, SingleShape.Valid;
    ShareOnPolynomial(m.share, r.device);
    AnchorRoundTrip(m.share.share, after.identity);
  }

  /** What the checks of an inner activation establish. */
  lemma {:induction false} CheckedInner(r: Registry, identityShare: InstalledShare, members: seq<MemberShare>)
    requires r.CheckInner(identityShare, members).Ok?
    ensures var (nextMap, next, sorted, maps) := r.CheckInner(identityShare, members).value;
      && identityShare.shape.OneSharing? && identityShare.target == SingleTarget(r.device)
      && IdentityMapOf(identityShare.shape.single, identityShare.points) == Ok(nextMap)
      && identityShare.shape.single.Device(r.device).Ok?
        && identityShare.shape.single.Device(r.device).value.node == r.node
      && identityShare.points.Constant() == Ok(r.identityKey)
      && identityShare.handle != r.identityHandle
        && (forall v :: v in r.vaults ==> r.vaults[v].memberHandle != identityShare.handle)
      && sorted == Sort(members, MemberVaultKey)
      && |sorted| == |r.VaultOrder()| && (forall v :: v in r.VaultOrder() ==> v in r.vaults)
      && r.CheckMembers(sorted, r.VaultOrder(), identityShare) == Ok(Some(next))
      && Registry.NextMaps(sorted, identityShare.shape.single) == Ok(maps)
  {
    hide EvaluatePoints, IdentityMapOf, Registry.CheckMembers, Registry.NextMaps, Sort, Registry.VaultOrder,
      SingleShape.Device;
  }

  /** The vaults of a checked inner bundle stay consistent one by one. */
  lemma {:induction false} InstalledVaults(r: Registry, identityShare: InstalledShare, members: seq<MemberShare>,
      v: VaultId)
    requires Fits(r) && SoundShare(identityShare) && forall m :: m in members ==> SoundShare(m.share)
    requires r.CheckInner(identityShare, members).Ok? && v in r.vaults
    ensures var after := r.ActivateInnerBundle(identityShare, members).0;
      v in after.vaults && VaultFits(after, after.vaults[v])
  {
    hide EvaluatePoints, SoundShare, IdentityMapOf, Registry.CheckMembers, Registry.NextMaps, Sort, Fits, VaultFits,
      Registry.VaultOrder, AnchorShare, SigningShare, SingleShape.Device;
    hide Registry.CheckInner;
    CheckedInner(r, identityShare, members);
    var (nextMap, next, sorted, maps) := r.CheckInner(identityShare, members).value;
    var after := r.ActivateInnerBundle(identityShare, members).0;
    var order := r.VaultOrder();
    MembersAgree(r, sorted, order, identityShare);
    MapsAgree(sorted, identityShare.shape.single);
    assert v in order;
    var i := Find(order, VaultKey, v).value;
    assert VaultKey(order[i]) == VaultKey(v);
    SameElements(sorted, members, sorted[i]);
    assert MemberAgrees(r, sorted[i], v, identityShare, next);
    IdentityLength(identityShare, nextMap);
    FitsVault(r, v);
    InstalledVaultFits(r, after, sorted[i], r.vaults[v], after.vaults[v]);
  }

  /** Activating an inner bundle of installed shares keeps the state consistent. */
  lemma {:induction false} ActivateInnerFits(r: Registry, identityShare: InstalledShare, members: seq<MemberShare>)
    requires Fits(r) && SoundShare(identityShare) && forall m :: m in members ==> SoundShare(m.share)
    ensures Fits(r.ActivateInnerBundle(identityShare, members).0)
  {
    hide EvaluatePoints, SoundShare, IdentityMapOf, Registry.CheckMembers, Registry.NextMaps, Sort, DevicesFit,
      VaultFits, Registry.VaultOrder, SingleShape.Device;
    hide Registry.CheckInner;
    if r.CheckInner(identityShare, members).Ok? {
      CheckedInner(r, identityShare, members);
      var after := r.ActivateInnerBundle(identityShare, members).0;
      InstalledDevicesFit(r, identityShare, after);
      forall v | v in after.vaults ensures VaultFits(after, after.vaults[v]) {
        InstalledVaults(r, identityShare, members, v);
      }
      assert identityShare.points.OnePolynomial? by { PolynomialMap(identityShare); }
      assert Fits(after);
    }
  }

  lemma {:induction false} PolynomialMap(identityShare: InstalledShare)
    requires identityShare.shape.OneSharing? && IdentityMapOf(identityShare.shape.single, identityShare.points).Ok?
    ensures identityShare.points.OnePolynomial?
  {
    hide EvaluateDevices;
  }

  lemma {:induction false} IdentityLength(identityShare: InstalledShare, m: IdentityMap)
    requires identityShare.shape.OneSharing? && IdentityMapOf(identityShare.shape.single, identityShare.points) == Ok(m)
    ensures |m.commitments| == identityShare.shape.single.threshold
  {
    hide EvaluateDevices;
  }

  // ----- outer activation

  lemma {:induction false} OuterPeople(people: seq<OuterTarget>, members: seq<MemberPoints>)
    requires |people| == |members| && OuterPeopleOf(people, members).Ok?
    ensures var r := OuterPeopleOf(people, members).value;
      && |r| == |people|
      && forall i :: 0 <= i < |people| ==>
        && members[i].person == people[i].person && members[i].points != []
        && r[i].person == people[i].person && r[i].node == people[i].node && r[i].member == members[i].points[0]
  {
    if people != [] { OuterPeople(people[..|people| - 1], members[..|people| - 1]); }
  }

  /** What the checks of an outer activation establish. */
  lemma {:induction false} CheckedOuter(r: Registry, epoch: KeyEpoch, member: InstalledShare)
    requires r.CheckOuter(epoch, member).Ok?
    ensures var v, next := epoch.anchor.vault, r.CheckOuter(epoch, member).value;
      && v in r.vaults && member.target == MemberTarget(r.person, r.device) && member.shape.TwoTier?
      && member.shape.outer.Person(r.person).Ok?
      && (var target := member.shape.outer.Person(r.person).value;
          target.node == r.vaults[v].outerNode && SameRoster(r.identityMap, target.inner))
      && epoch == KeyEpoch(next.outerEpoch, r.innerEpoch, AnchorId(v, r.person, r.identityHandle, next.memberHandle))
      && next.outerEpoch > r.vaults[v].outerEpoch && next.memberHandle == member.handle != r.vaults[v].memberHandle
      && member.points.Constant() == Ok(r.vaults[v].vaultKey)
      && member.points.MemberConstant(r.person) == Ok(next.memberPoint)
      && OuterMapsOf(member.shape.outer, member.points, r.person) == Ok((next.outerMap, next.memberMap))
      && next.anchor == AnchorShare(member.share, r.identity)
      && next.outerNode == r.vaults[v].outerNode && next.vaultKey == r.vaults[v].vaultKey
  {
    hide EvaluatePoints, OuterMapsOf, SameRoster, OuterShape.Person, ContributionPoints.Constant,
      ContributionPoints.MemberConstant, AnchorShare;
  }

  lemma {:induction false} OuterMapsFit(shape: OuterShape, points: ContributionPoints, constant: Element,
      person: PersonId, vault: VaultState, maps: (OuterMap, MemberMap))
    requires shape.Valid() && points.Fits(TwoTier(shape), constant)
    requires OuterMapsOf(shape, points, person) == Ok(maps) && vault.outerMap == maps.0
    ensures maps.0.commitments == points.outer && |maps.0.people| == |shape.people|
    ensures forall i :: 0 <= i < |shape.people| ==>
      maps.0.people[i].person == shape.people[i].person && maps.0.people[i].node == shape.people[i].node
    ensures PeopleFit(vault, maps.0.people)
    ensures 1 <= |points.outer| <= |maps.0.people| && points.outer[0] == constant
  {
    hide EvaluatePoints, Find;
    OuterPeople(shape.people, points.members);
    var people := maps.0.people;
    forall i, j | 0 <= i < j < |people| ensures OuterPersonKey(people[i]) < OuterPersonKey(people[j]) {
      assert OuterTargetKey(shape.people[i]) < OuterTargetKey(shape.people[j]);
    }
    forall i | 0 <= i < |people|
      ensures people[i].member == EvaluatePoints(vault.outerMap.commitments, people[i].node) {
      assert MemberFits(points.members[i], shape.people[i], points.outer);
    }
  }

  lemma {:induction false} OwnOuterEntry(shape: OuterShape, points: ContributionPoints, constant: Element,
      person: PersonId, maps: (OuterMap, MemberMap), point: Point)
    requires shape.Valid() && points.Fits(TwoTier(shape), constant) && shape.Person(person).Ok?
    requires OuterMapsOf(shape, points, person) == Ok(maps) && points.MemberConstant(person) == Ok(point)
    ensures OuterPerson(person, shape.Person(person).value.node, point) in maps.0.people
    ensures maps.1.commitments != [] && maps.1.commitments[0] == point
    ensures |maps.1.commitments| == shape.Person(person).value.inner.threshold
    ensures maps.1.commitments == PolynomialFor(points, MemberTarget(person, 0))
  {
    hide EvaluatePoints, OuterPeopleOf, SingleShape.Valid;
    OuterPeople(shape.people, points.members);
    forall i | 0 <= i < |shape.people| ensures points.members[i].person == shape.people[i].person {
      assert MemberFits(points.members[i], shape.people[i], points.outer);
    }
    FindMember(points.members, shape.people, person);
    var i := Find(shape.people, OuterTargetKey, person).value;
    assert MemberFits(points.members[i], shape.people[i], points.outer);
    assert maps.0.people[i] == OuterPerson(person, shape.people[i].node, point);
  }

  lemma {:induction false} OuterShareOnPolynomial(s: InstalledShare, person: PersonId, device: DeviceId)
    requires SoundShare(s) && s.shape.TwoTier? && s.target == MemberTarget(person, device)
    ensures s.shape.TargetNode(s.target).Ok? && s.points.Linked?
    ensures EvaluatePoints(PolynomialFor(s.points, s.target), s.shape.TargetNode(s.target).value) == FromScalar(s.share)
  {
    hide EvaluatePoints, TargetShape.Valid;
    var constant :| s.points.Fits(s.shape, constant);
    FittingEvaluates(s.points, s.shape, constant, s.target);
  }

  /** A roster equal to the identity map puts the device at its own node. */
  lemma {:induction false} RosterNode(r: Registry, shape: SingleShape)
    requires Fits(r) && shape.Valid() && SameRoster(r.identityMap, shape) && shape.Device(r.device).Ok?
    ensures shape.Device(r.device).value.node == r.node
  {
    hide EvaluatePoints, VaultFits;
    var d := shape.Device(r.device).value;
    var k :| 0 <= k < |shape.devices| && shape.devices[k] == d;
    assert r.identityMap.devices[k].device == r.device && r.identityMap.devices[k].node == d.node;
  }

  lemma {:induction false} OuterVaultFits(r: Registry, epoch: KeyEpoch, member: InstalledShare)
    requires Fits(r) && SoundShare(member) && r.CheckOuter(epoch, member).Ok?
    ensures VaultFits(r, r.CheckOuter(epoch, member).value)
  {
    hide EvaluatePoints, OuterMapsOf, SameRoster, Registry.CheckOuter, AnchorShare, SigningShare, PolynomialFor,
      DevicesFit, PeopleFit, Find;
    hide ContributionPoints.Fits, ContributionPoints.Evaluate, SingleShape.Valid, TargetShape.TargetNode,
      ContributionPoints.MemberConstant;
    CheckedOuter(r, epoch, member);
    var next, shape := r.CheckOuter(epoch, member).value, member.shape.outer;
    var target := shape.Person(r.person).value;
    var constant :| member.points.Fits(member.shape, constant);
    FitsVault(r, epoch.anchor.vault);
    assert shape.Valid() && target.inner.Valid();
    OuterMapsFit(shape, member.points, constant, r.person, next, (next.outerMap, next.memberMap));
    OwnOuterEntry(shape, member.points, constant, r.person, (next.outerMap, next.memberMap), next.memberPoint);
    OuterShareOnPolynomial(member, r.person, r.device);
    TwoTierNode(member.shape, r.person, r.device);
    RosterNode(r, target.inner);
    SamePolynomial(member.points, r.person, r.device);
    AnchorRoundTrip(member.share, r.identity);
    RosterLength(r, target.inner);
    FittingConstant(member.points, member.shape, constant);
  }

  lemma {:induction false} FittingConstant(p: ContributionPoints, shape: TargetShape, constant: Element)
    requires p.Fits(shape, constant)
    ensures p.Constant() == Ok(constant)
  {}

  lemma {:induction false} RosterLength(r: Registry, shape: SingleShape)
    requires SameRoster(r.identityMap, shape)
    ensures |r.identityMap.commitments| == shape.threshold
  {}

  lemma {:induction false} SamePolynomial(p: ContributionPoints, person: PersonId, device: DeviceId)
    requires p.Linked?
    ensures PolynomialFor(p, MemberTarget(person, 0)) == PolynomialFor(p, MemberTarget(person, device))
  {}

  lemma {:induction false} TwoTierNode(shape: TargetShape, person: PersonId, device: DeviceId)
    requires shape.TwoTier? && shape.TargetNode(MemberTarget(person, device)).Ok?
    ensures shape.outer.Person(person).Ok? && shape.outer.Person(person).value.inner.Device(device).Ok?
    ensures shape.TargetNode(MemberTarget(person, device)).value ==
      shape.outer.Person(person).value.inner.Device(device).value.node
  {}

  /** Activating an outer block keeps the state consistent. */
  lemma {:induction false} ActivateOuterFits(r: Registry, epoch: KeyEpoch, member: InstalledShare)
    requires Fits(r) && SoundShare(member)
    ensures Fits(r.ActivateOuter(epoch, member).0)
  {
    hide Fits, VaultFits, Registry.CheckOuter, SoundShare;
    var (after, result) := r.ActivateOuter(epoch, member);
    if result.Ok? {
      OuterVaultFits(r, epoch, member);
      forall v | v in after.vaults ensures VaultFits(after, after.vaults[v]) {
        if v == epoch.anchor.vault {
          VaultFitsSame(r, after, after.vaults[v]);
        } else {
          FitsVault(r, v);
          VaultFitsSame(r, after, after.vaults[v]);
        }
      }
      IdentityFitsSame(r, after);
    }
  }
}

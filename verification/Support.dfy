/** Accepted signing supports (src/support.rs). */
module Support {
  import opened Results
  import opened Field
  import opened Sums
  import opened Sorting
  import opened Algebra
  import opened Shamir
  import opened Ids

  datatype DeviceParticipant = DeviceParticipant(device: DeviceId, node: Node, share: Element)

  datatype PersonParticipant =
    PersonParticipant(person: PersonId, slot: Slot, node: Node, member: Point)

  function DeviceKey(p: DeviceParticipant): int { p.device }
  function SlotKey(p: PersonParticipant): int { p.slot }
  function PersonKey(p: PersonParticipant): int { p.person }

  function DeviceNodes(ps: seq<DeviceParticipant>): (r: seq<Node>)
    ensures |r| == |ps|
  {
    seq(|ps|, i requires 0 <= i < |ps| => ps[i].node)
  }

  function PersonNodes(ps: seq<PersonParticipant>): (r: seq<Node>)
    ensures |r| == |ps|
  {
    seq(|ps|, i requires 0 <= i < |ps| => ps[i].node)
  }

  function Shares(ps: seq<DeviceParticipant>): (r: seq<Element>)
    ensures |r| == |ps|
  {
    seq(|ps|, i requires 0 <= i < |ps| => ps[i].share)
  }

  function Members(ps: seq<PersonParticipant>): (r: seq<Element>)
    ensures |r| == |ps|
  {
    seq(|ps|, i requires 0 <= i < |ps| => ps[i].member)
  }

  datatype InnerSupport = InnerSupport(participants: seq<DeviceParticipant>, coefficients: seq<Scalar>)
  {
    /** What `New` establishes. */
    ghost predicate Valid() {
      && participants != []
      && StrictlySorted(participants, DeviceKey)
      && Distinct(DeviceNodes(participants))
      && coefficients == Weights(DeviceNodes(participants))
    }

    /** A support sorted by device. */
    static function New(participants: seq<DeviceParticipant>): (r: Result<InnerSupport>) {
      var sorted := Sort(participants, DeviceKey);
      if participants == [] then Err(EmptyInput)
      else if !AdjacentDistinct(sorted, DeviceKey) then Err(DuplicateParticipant)
      else
        var row :- Row(DeviceNodes(sorted));
        Ok(InnerSupport(sorted, row))
    }

    function Participant(device: DeviceId): Result<DeviceParticipant> {
      var i := Find(participants, DeviceKey, device);
      if i.Some? then Ok(participants[i.value]) else Err(ParticipantNotFound)
    }

    function Coefficient(device: DeviceId): Result<Scalar> {
      var i := Find(participants, DeviceKey, device);
      if i.Some? && i.value < |coefficients| then Ok(coefficients[i.value]) else Err(ParticipantNotFound)
    }
  }

  /** A person's outer Lagrange coefficient. */
  datatype OuterCoefficient = OuterCoefficient(person: PersonId, slot: Slot, member: Point, scalar: Scalar)

  /** Left-to-right duplicate scan; the slot is compared before the person. */
  function RejectDuplicatePeople(ps: seq<PersonParticipant>): Result<()> {
    if ps == [] then Ok(())
    else
      var n := |ps| - 1;
      var _ :- RejectDuplicatePeople(ps[..n]);
      if exists j :: 0 <= j < n && ps[j].slot == ps[n].slot then Err(DuplicateSlot)
      else Need(forall j :: 0 <= j < n ==> ps[j].person != ps[n].person, DuplicateParticipant)
  }

  lemma {:induction false} PeopleDistinct(ps: seq<PersonParticipant>)
    ensures RejectDuplicatePeople(ps).Ok? <==> DistinctKeys(ps, SlotKey) && DistinctKeys(ps, PersonKey)
  {
    if ps != [] {
      var n := |ps| - 1;
      PeopleDistinct(ps[..n]);
      if DistinctKeys(ps, SlotKey) && DistinctKeys(ps, PersonKey) {
        assert forall j :: 0 <= j < n ==> SlotKey(ps[j]) != SlotKey(ps[n]);
        assert forall j :: 0 <= j < n ==> PersonKey(ps[j]) != PersonKey(ps[n]);
        assert DistinctKeys(ps[..n], SlotKey) && DistinctKeys(ps[..n], PersonKey);
      }
      if RejectDuplicatePeople(ps).Ok? {
        forall i, j | 0 <= i < j < |ps|
          ensures SlotKey(ps[i]) != SlotKey(ps[j]) && PersonKey(ps[i]) != PersonKey(ps[j])
        {
          if j < n {
            assert SlotKey(ps[..n][i]) != SlotKey(ps[..n][j]);
            assert PersonKey(ps[..n][i]) != PersonKey(ps[..n][j]);
          }
        }
      }
    }
  }

  datatype OuterSupport = OuterSupport(participants: seq<PersonParticipant>, coefficients: seq<Scalar>)
  {
    /** What `New` establishes. */
    ghost predicate Valid() {
      && participants != []
      && StrictlySorted(participants, SlotKey)
      && DistinctKeys(participants, PersonKey)
      && Distinct(PersonNodes(participants))
      && coefficients == Weights(PersonNodes(participants))
    }

    /** A support sorted by slot. */
    static function New(participants: seq<PersonParticipant>): (r: Result<OuterSupport>) {
      var sorted := Sort(participants, SlotKey);
      if participants == [] then Err(EmptyInput)
      else
        var _ :- RejectDuplicatePeople(sorted);
        var row :- Row(PersonNodes(sorted));
        Ok(OuterSupport(sorted, row))
    }

    function Coefficient(person: PersonId): Result<OuterCoefficient> {
      var i := Find(participants, PersonKey, person);
      if i.None? || i.value >= |coefficients| then Err(ParticipantNotFound)
      else
        var p := participants[i.value];
        Ok(OuterCoefficient(person, p.slot, p.member, coefficients[i.value]))
    }
  }

  /** An inner support exists exactly for nonempty participants with distinct
    * devices and distinct nodes, in whatever order they arrive.
    */
  lemma {:induction false} InnerNew(ps: seq<DeviceParticipant>)
    ensures InnerSupport.New(ps).Ok? <==>
      ps != [] && DistinctKeys(ps, DeviceKey) && Distinct(DeviceNodes(Sort(ps, DeviceKey)))
    ensures InnerSupport.New(ps).Ok? ==> InnerSupport.New(ps).value.Valid()
  {
    var sorted := Sort(ps, DeviceKey);
    AdjacentIsStrict(sorted, DeviceKey);
    SortStrict(ps, DeviceKey);
  }

  lemma {:induction false} OuterNew(ps: seq<PersonParticipant>)
    ensures OuterSupport.New(ps).Ok? ==> OuterSupport.New(ps).value.Valid()
    ensures OuterSupport.New(ps).Ok? <==>
      var sorted := Sort(ps, SlotKey);
      ps != [] && DistinctKeys(sorted, SlotKey) && DistinctKeys(sorted, PersonKey)
        && Distinct(PersonNodes(sorted))
  {
    var sorted := Sort(ps, SlotKey);
    PeopleDistinct(sorted);
    if DistinctKeys(sorted, SlotKey) {
      forall i, j | 0 <= i < j < |sorted| ensures SlotKey(sorted[i]) < SlotKey(sorted[j]) {
        assert SlotKey(sorted[i]) <= SlotKey(sorted[j]) && SlotKey(sorted[i]) != SlotKey(sorted[j]);
      }
    }
  }

  /** The coefficients recombine any polynomial sampled at the support's nodes. */
  lemma {:induction false} InnerReconstructs(s: InnerSupport, p: seq<Element>)
    requires s.Valid() && 1 <= |p| <= |s.participants|
    requires forall i :: 0 <= i < |s.participants| ==>
      s.participants[i].share == EvaluatePoints(p, s.participants[i].node)
    ensures Dot(s.coefficients, Logs(Shares(s.participants))) == p[0].log
  {
    var nodes := DeviceNodes(s.participants);
    forall i | 0 <= i < |nodes| ensures Shares(s.participants)[i].log == Evaluate(Logs(p), nodes[i]) {
      EvaluateLogs(p, nodes[i]);
    }
    assert Logs(Shares(s.participants)) == Evaluations(Logs(p), nodes);
    Exactness(nodes, Logs(p));
  }

  lemma {:induction false} OuterReconstructs(s: OuterSupport, p: seq<Element>)
    requires s.Valid() && 1 <= |p| <= |s.participants|
    requires forall i :: 0 <= i < |s.participants| ==>
      s.participants[i].member == EvaluatePoints(p, s.participants[i].node)
    ensures Dot(s.coefficients, Logs(Members(s.participants))) == p[0].log
  {
    var nodes := PersonNodes(s.participants);
    forall i | 0 <= i < |nodes| ensures Members(s.participants)[i].log == Evaluate(Logs(p), nodes[i]) {
      EvaluateLogs(p, nodes[i]);
    }
    assert Logs(Members(s.participants)) == Evaluations(Logs(p), nodes);
    Exactness(nodes, Logs(p));
  }

  lemma {:induction false} RowSumsToOne(nodes: seq<Scalar>)
    requires nodes != [] && Distinct(nodes)
    ensures Sum(Weights(nodes)) == 1
  {
    hide Mul, Weight;
    var w := Weights(nodes);
    WeightsSumToOne(nodes);
    forall i | 0 <= i < |w| ensures w[i] == Mul(w[i], Ones(|w|)[i]) { MulOne(w[i]); }
    DotIsSum(w, Ones(|w|), w);
  }

  /** The coefficients of either tier sum to one, so a value added once to every
    * share is added once to the secret.
    */
  lemma {:induction false} CoefficientsSumToOne(s: InnerSupport)
    requires s.Valid()
    ensures Sum(s.coefficients) == 1
  {
    RowSumsToOne(DeviceNodes(s.participants));
  }

  lemma {:induction false} OuterCoefficientsSumToOne(s: OuterSupport)
    requires s.Valid()
    ensures Sum(s.coefficients) == 1
  {
    RowSumsToOne(PersonNodes(s.participants));
  }
}

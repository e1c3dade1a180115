/** Receiver-local authenticated deliveries (src/auth.rs). */
module Auth {
  import opened Results
  import opened Field
  import opened Sorting
  import opened Algebra
  import opened Support
  import opened Ids
  import opened Encoding
  import opened Hashes
  import opened Transcript
  import opened Signing

  /** One authenticated receiver-specific delivery: a commitment or an opening. */
  datatype Delivery<T> =
    Delivery(sender: LeafAttempt, receiver: LeafAttempt, session: SessionId, reservation: bytes, content: T)

  /** One authenticated sibling abort. */
  datatype AuthenticatedAbort =
    AuthenticatedAbort(sender: LeafAttempt, receiver: LeafAttempt, session: SessionId, reservation: bytes)

  function SenderKey<T>(d: Delivery<T>): int { d.sender.device }

  datatype Entry<T> = Entry(attempt: LeafAttempt, content: T)

  function EntryKey<T>(e: Entry<T>): int { e.attempt.device }

  /** A fixed, complete view of one receiver. */
  datatype View<T> = View(receiver: LeafAttempt, session: SessionId, reservation: bytes, entries: seq<Entry<T>>)
  {
    static function New(support: InnerSupport, deliveries: seq<Delivery<T>>): Result<View<T>> {
      var sorted := Sort<Delivery<T>>(deliveries, SenderKey);
      if deliveries == [] then Err(EmptyInput)
      else
        var first := sorted[0];
        var _ :- support.Participant(first.receiver.device);
        if |deliveries| != |support.participants| then Err(SupportMismatch)
        else if !AdjacentDistinct<Delivery<T>>(sorted, SenderKey) then Err(DuplicateParticipant)
        else
          var _ :- CheckDeliveries(support, first, sorted);
          Ok(View(first.receiver, first.session, first.reservation, Entries(sorted)))
    }

    function Lookup(sender: LeafAttempt): Result<T> {
      var i := Find<Entry<T>>(entries, EntryKey, sender.device);
      if i.None? then Err(ParticipantNotFound)
      else if entries[i.value].attempt == sender then Ok(entries[i.value].content)
      else Err(AttemptMismatch)
    }

    /** The same devices as the support, in its order. */
    ghost predicate Covers(support: InnerSupport) {
      && |entries| == |support.participants|
      && StrictlySorted<Entry<T>>(entries, EntryKey)
      && forall i :: 0 <= i < |entries| ==> entries[i].attempt.device == support.participants[i].device
    }
  }

  /** Left-to-right agreement of sorted deliveries with the support and the first one. */
  function CheckDeliveries<T>(support: InnerSupport, first: Delivery<T>, sorted: seq<Delivery<T>>): Result<()>
    requires |sorted| <= |support.participants|
  {
    if sorted == [] then Ok(())
    else
      var n := |sorted| - 1;
      var _ :- CheckDeliveries(support, first, sorted[..n]);
      var d := sorted[n];
      if d.sender.device != support.participants[n].device then Err(SupportMismatch)
      else if d.receiver != first.receiver then Err(ReceiverMismatch)
      else Need(d.session == first.session && d.reservation == first.reservation, InvalidTranscript)
  }

  function Entries<T>(ds: seq<Delivery<T>>): (r: seq<Entry<T>>)
    ensures |r| == |ds|
  {
    seq(|ds|, i requires 0 <= i < |ds| => Entry(ds[i].sender, ds[i].content))
  }

  /** The checking and collecting loop behind `View.New`. */
  method CollectEntries<T>(support: InnerSupport, first: Delivery<T>, sorted: seq<Delivery<T>>)
    returns (r: Result<seq<Entry<T>>>)
    requires |sorted| <= |support.participants|
    ensures r == var checked := CheckDeliveries(support, first, sorted);
      if checked.Err? then Err(checked.error) else Ok(Entries(sorted))
  {
    assert CheckDeliveries(support, first, sorted[..0]).Ok? && Entries(sorted[..0]) == [];
    hide CheckDeliveries, Entries;
    var entries: seq<Entry<T>> := [];
    for i := 0 to |sorted|
      invariant CheckDeliveries(support, first, sorted[..i]).Ok?
      invariant entries == Entries(sorted[..i])
    {
      var d := sorted[i];
      CollectStep(support, first, sorted, i);
      if d.sender.device != support.participants[i].device {
        DeliveryFailureStays(support, first, sorted, i + 1);
        return Err(SupportMismatch);
      }
      if d.receiver != first.receiver {
        DeliveryFailureStays(support, first, sorted, i + 1);
        return Err(ReceiverMismatch);
      }
      if d.session != first.session || d.reservation != first.reservation {
        DeliveryFailureStays(support, first, sorted, i + 1);
        return Err(InvalidTranscript);
      }
      entries := entries + [Entry(d.sender, d.content)];
    }
    assert sorted[..|sorted|] == sorted;
    return Ok(entries);
  }

  lemma {:induction false} CollectStep<T>(support: InnerSupport, first: Delivery<T>, sorted: seq<Delivery<T>>, i: nat)
    requires i < |sorted| <= |support.participants| && CheckDeliveries(support, first, sorted[..i]).Ok?
    ensures CheckDeliveries(support, first, sorted[..i + 1]) ==
      if sorted[i].sender.device != support.participants[i].device then Err(SupportMismatch)
      else if sorted[i].receiver != first.receiver then Err(ReceiverMismatch)
      else Need(sorted[i].session == first.session && sorted[i].reservation == first.reservation, InvalidTranscript)
    ensures Entries(sorted[..i + 1]) == Entries(sorted[..i]) + [Entry(sorted[i].sender, sorted[i].content)]
  {
    assert sorted[..i + 1][..i] == sorted[..i];
  }

  lemma {:induction false} DeliveryFailureStays<T>(support: InnerSupport, first: Delivery<T>,
      sorted: seq<Delivery<T>>, n: nat)
    requires n <= |sorted| <= |support.participants| && CheckDeliveries(support, first, sorted[..n]).Err?
    ensures CheckDeliveries(support, first, sorted) == CheckDeliveries(support, first, sorted[..n])
  {
    if n < |sorted| {
      var m := |sorted| - 1;
      assert sorted[..m][..n] == sorted[..n];
      DeliveryFailureStays(support, first, sorted[..m], n);
    } else {
      assert sorted[..n] == sorted;
    }
  }

  lemma {:induction false} CheckedDeliveries<T>(support: InnerSupport, first: Delivery<T>, sorted: seq<Delivery<T>>)
    requires |sorted| <= |support.participants| && CheckDeliveries(support, first, sorted).Ok?
    ensures forall i :: 0 <= i < |sorted| ==>
      && sorted[i].sender.device == support.participants[i].device
      && sorted[i].receiver == first.receiver && sorted[i].session == first.session
        && sorted[i].reservation == first.reservation
  {
    if sorted != [] {
      var n := |sorted| - 1;
      CheckedDeliveries(support, first, sorted[..n]);
      forall i | 0 <= i < |sorted|
        ensures sorted[i].sender.device == support.participants[i].device && sorted[i].receiver == first.receiver
        ensures sorted[i].session == first.session && sorted[i].reservation == first.reservation
      {
        if i < n { assert sorted[..n][i] == sorted[i]; }
      }
    }
  }

  /** A view covers its support exactly, and its entries are the given deliveries, all
    * under one receiver, session and reservation, whatever order they came in.
    */
  lemma {:induction false} ViewIsComplete<T>(support: InnerSupport, deliveries: seq<Delivery<T>>, d: Delivery<T>)
    requires View.New(support, deliveries).Ok?
    ensures var v := View.New(support, deliveries).value;
      && v.Covers(support)
      && (d in deliveries ==>
        && d.receiver == v.receiver && d.session == v.session && d.reservation == v.reservation
        && v.Lookup(d.sender) == Ok(d.content))
  {
    hide Sort, Find, Pow256;
    var sorted := Sort<Delivery<T>>(deliveries, SenderKey);
    var v := View.New(support, deliveries).value;
    AdjacentIsStrict<Delivery<T>>(sorted, SenderKey);
    CheckedDeliveries(support, sorted[0], sorted);
    forall i, j | 0 <= i < j < |v.entries| ensures EntryKey(v.entries[i]) < EntryKey(v.entries[j]) {
      assert SenderKey(sorted[i]) < SenderKey(sorted[j]);
    }
    if d in deliveries {
      SameElements(sorted, deliveries, d);
      var i :| 0 <= i < |sorted| && sorted[i] == d;
      FindAt<Entry<T>>(v.entries, EntryKey, i);
    }
  }

  // ----- canonical view bytes

  function AttemptFields(): Codec<(Id, U64)> { Then(IdField(), U64Field()) }
  function ToAttempt(t: (Id, U64)): LeafAttempt { LeafAttempt(t.0, t.1) }
  function FromAttempt(a: LeafAttempt): (Id, U64) { (a.device, a.sequence) }
  function AttemptField(): Codec<LeafAttempt> { Map(AttemptFields(), ToAttempt, FromAttempt) }

  function PairFields(): Codec<(Point, Point)> { Then(PointField(), PointField()) }
  function ToPair(t: (Point, Point)): NoncePair { NoncePair(t.0, t.1) }
  function FromPair(n: NoncePair): (Point, Point) { (n.hiding, n.binding) }
  function PairField(): Codec<NoncePair> { Map(PairFields(), ToPair, FromPair) }

  lemma {:induction false} AttemptLawful()
    ensures AttemptField().Lawful() && PairField().Lawful()
    ensures forall a: LeafAttempt :: AttemptField().wf(a)
    ensures forall n: NoncePair :: PairField().wf(n)
  {
    hide Codec.Lawful, IdField, U64Field, PointField;
    FieldsLawful();
    FieldsFit();
    ThenLawful(IdField(), U64Field());
    MapLawful(AttemptFields(), ToAttempt, FromAttempt);
    ThenLawful(PointField(), PointField());
    MapLawful(PairFields(), ToPair, FromPair);
    forall a: LeafAttempt ensures AttemptField().wf(a) { assert AttemptFields().wf(FromAttempt(a)); }
    forall n: NoncePair ensures PairField().wf(n) { assert PairFields().wf(FromPair(n)); }
  }

  function ToEntry<T>(t: (LeafAttempt, T)): Entry<T> { Entry(t.0, t.1) }
  function FromEntry<T>(e: Entry<T>): (LeafAttempt, T) { (e.attempt, e.content) }

  function EntryField<T(!new, ==)>(c: Codec<T>): Codec<Entry<T>> {
    Map<(LeafAttempt, T), Entry<T>>(Then(AttemptField(), c), ToEntry, FromEntry)
  }

  type ViewParts<T> = (LeafAttempt, (Id, (bytes, seq<Entry<T>>)))

  function ViewFields<T(!new, ==)>(c: Codec<T>): Codec<ViewParts<T>> {
    Marked(WIRE_ID, UnsupportedVersion,
      Then(AttemptField(), Then(IdField(), Then(Blob(), Counted(2, 0, EntryField(c))))))
  }

  function PartsOfView<T>(v: View<T>): ViewParts<T> { (v.receiver, (v.session, (v.reservation, v.entries))) }

  /** Canonical view bytes; an oversized field fails. */
  function ViewBytes<T(!new, ==)>(c: Codec<T>, v: View<T>): Result<bytes> {
    if |v.reservation| < U32_LIMIT && |v.entries| < U16_LIMIT then Ok(ViewFields(c).enc(PartsOfView(v)))
    else Err(LengthOverflow)
  }

  /** Equal view bytes are equal views. */
  lemma {:induction false} ViewBytesInjective<T(!new)>(c: Codec<T>, v: View<T>, w: View<T>)
    requires c.Lawful() && (forall x: T :: c.wf(x))
    requires ViewBytes(c, v).Ok? && ViewBytes(c, v) == ViewBytes(c, w)
    ensures v == w
  {
    hide Codec.Lawful, ViewFields;
    ViewFieldsLawful(c);
    ViewFits(c, v);
    ViewFits(c, w);
    ViewFields(c).Injective(PartsOfView(v), [], PartsOfView(w), []);
  }

  lemma {:induction false} ViewFieldsLawful<T(!new)>(c: Codec<T>)
    requires c.Lawful()
    ensures ViewFields(c).Lawful()
  {
    hide Codec.Lawful, AttemptField, IdField, Blob;
    FieldsLawful();
    AttemptLawful();
    ThenLawful(AttemptField(), c);
    MapLawful<(LeafAttempt, T), Entry<T>>(Then(AttemptField(), c), ToEntry, FromEntry);
    CountedLawful(2, 0, EntryField(c));
    ThenLawful(Blob(), Counted(2, 0, EntryField(c)));
    ThenLawful(IdField(), Then(Blob(), Counted(2, 0, EntryField(c))));
    ThenLawful(AttemptField(), Then(IdField(), Then(Blob(), Counted(2, 0, EntryField(c)))));
    MarkedLawful(WIRE_ID, UnsupportedVersion,
      Then(AttemptField(), Then(IdField(), Then(Blob(), Counted(2, 0, EntryField(c))))));
  }

  lemma {:induction false} EntriesFit<T(!new)>(c: Codec<T>, v: View<T>)
    requires (forall x: T :: c.wf(x)) && |v.entries| < U16_LIMIT
    ensures Counted(2, 0, EntryField(c)).wf(v.entries)
  {
    hide AttemptField, Pow256;
    Widths();
    AttemptLawful();
    forall e: Entry<T> ensures EntryField(c).wf(e) {
      assert AttemptField().wf(e.attempt) && c.wf(e.content);
      assert Then(AttemptField(), c).wf(FromEntry(e)) && ToEntry(FromEntry(e)) == e;
    }
  }

  lemma {:induction false} ViewFits<T(!new)>(c: Codec<T>, v: View<T>)
    requires (forall x: T :: c.wf(x)) && ViewBytes(c, v).Ok?
    ensures ViewFields(c).wf(PartsOfView(v))
  {
    hide AttemptField, IdField, Pow256, Counted, EntryField;
    Widths();
    FieldsFit();
    AttemptLawful();
    EntriesFit(c, v);
    assert Blob().wf(v.reservation) && IdField().wf(v.session) && AttemptField().wf(v.receiver);
  }

  // ----- nonce commitments

  // "nonce"
  const NONCE_LABEL: bytes := [110, 111, 110, 99, 101]

  function NonceFields(): Codec<(bytes, (LeafAttempt, (bytes, NoncePair)))> {
    Marked(WIRE_ID, UnsupportedVersion, Then(Blob(), Then(AttemptField(), Then(Blob(), PairField()))))
  }

  function NonceInput(attempt: LeafAttempt, reservation: bytes, nonce: NoncePair): bytes {
    NonceFields().enc((NONCE_LABEL, (attempt, (reservation, nonce))))
  }

  /** Commits a nonce pair to one attempt and reservation. */
  function NonceCommitment(attempt: LeafAttempt, reservation: bytes, nonce: NoncePair): Result<Scalar> {
    if |reservation| < U32_LIMIT then Ok(HASHES.nonce(NonceInput(attempt, reservation, nonce)))
    else Err(LengthOverflow)
  }

  /** A commitment opens to one pair only, or its two openings collide. */
  lemma {:induction false} NonceCommitmentBinds(attempt: LeafAttempt, reservation: bytes, n: NoncePair, m: NoncePair)
    requires NonceCommitment(attempt, reservation, n).Ok?
      && NonceCommitment(attempt, reservation, n) == NonceCommitment(attempt, reservation, m)
    ensures n == m || Collide(HASHES.nonce, NonceInput(attempt, reservation, n), NonceInput(attempt, reservation, m))
  {
    hide Codec.Lawful, NonceFields;
    NonceFieldsLawful();
    NonceFits(attempt, reservation, n);
    NonceFits(attempt, reservation, m);
    if NonceInput(attempt, reservation, n) == NonceInput(attempt, reservation, m) {
      NonceFields().Injective((NONCE_LABEL, (attempt, (reservation, n))), [],
        (NONCE_LABEL, (attempt, (reservation, m))), []);
    }
  }

  lemma {:induction false} NonceFieldsLawful()
    ensures NonceFields().Lawful()
  {
    hide Codec.Lawful, AttemptField, PairField, Blob;
    BlobLawful();
    AttemptLawful();
    ThenLawful(Blob(), PairField());
    ThenLawful(AttemptField(), Then(Blob(), PairField()));
    ThenLawful(Blob(), Then(AttemptField(), Then(Blob(), PairField())));
    MarkedLawful(WIRE_ID, UnsupportedVersion, Then(Blob(), Then(AttemptField(), Then(Blob(), PairField()))));
  }

  lemma {:induction false} NonceFits(attempt: LeafAttempt, reservation: bytes, n: NoncePair)
    requires |reservation| < U32_LIMIT
    ensures NonceFields().wf((NONCE_LABEL, (attempt, (reservation, n))))
  {
    hide AttemptField, PairField, Pow256;
    Widths();
    AttemptLawful();
    assert Blob().wf(NONCE_LABEL) && Blob().wf(reservation);
  }

  // ----- opening views

  /** Every entry opens its sender's commitment; the first failure decides. */
  function CheckOpenings(entries: seq<Entry<NoncePair>>, reservation: bytes, commitments: View<Scalar>): Result<()> {
    if entries == [] then Ok(())
    else
      var n := |entries| - 1;
      var _ :- CheckOpenings(entries[..n], reservation, commitments);
      var actual :- NonceCommitment(entries[n].attempt, reservation, entries[n].content);
      var expected :- commitments.Lookup(entries[n].attempt);
      Need(actual == expected, CommitmentMismatch)
  }

  function DeviceNonces(entries: seq<Entry<NoncePair>>): (r: seq<DeviceNonce>)
    ensures |r| == |entries|
  {
    seq(|entries|, i requires 0 <= i < |entries| => DeviceNonce(entries[i].attempt, entries[i].content))
  }

  /** Checks every opening against a fixed commitment view. */
  function VerifyOpenings(v: View<NoncePair>, commitments: View<Scalar>,
      support: InnerSupport): Result<DeviceNonceSet> {
    if v.receiver != commitments.receiver || v.session != commitments.session
      || v.reservation != commitments.reservation
      then Err(InvalidTranscript)
    else
      var _ :- CheckOpenings(v.entries, v.reservation, commitments);
      DeviceNonceSet.New(support, DeviceNonces(v.entries))
  }

  lemma {:induction false} CheckedOpenings(entries: seq<Entry<NoncePair>>, reservation: bytes,
      commitments: View<Scalar>)
    requires CheckOpenings(entries, reservation, commitments).Ok?
    ensures forall e :: e in entries ==>
      commitments.Lookup(e.attempt).Ok?
        && NonceCommitment(e.attempt, reservation, e.content) == commitments.Lookup(e.attempt)
  {
    hide NonceCommitment, View.Lookup;
    if entries != [] {
      var n := |entries| - 1;
      CheckedOpenings(entries[..n], reservation, commitments);
      assert entries == entries[..n] + [entries[n]];
    }
  }
}

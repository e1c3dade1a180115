# A verified model of coupery-ksnf

coupery-ksnf is a two-level threshold Schnorr protocol. A vault key is shared among
people, each person's member secret is shared among that person's devices, and both
tiers can be redistributed without changing the key. The parts modelled here are

- the algebra: Lagrange rows, nested signing, the Taproot transform, contributions
  and their redistribution (`Field`, `Sums`, `Shamir`, `Support`, `Genesis`, `Signing`,
  `NestedSigning`, `Taproot`, `Contribution`, `Target`);
- the redistribution protocol: target shapes and commands, the append-only phase log,
  the commit/open/receipt candidate, and the all-or-nothing bundle (`Shape`, `LogAct`,
  `LogHistory`, `Candidates`, `CandidateSystem`, `CandidateRuns`, `InnerBundles`,
  `Redistribution`);
- the one-use signing leaf (`Auth`, `Leaf`, `Material`, `LeafInvariant`, `LeafLive`,
  `LeafRuns`, `LeafResponses`, `LeafObject`) and its durable wrapper over a compare-and-set store
  (`Record`, `Store`, `Persistent`, `PersistentRuns`, `PersistentSystem`,
  `PersistentMaterial`, `SoleWriter`, `DurableCalls`, `Holders`, `StrandedMaterial`,
  `SharedAttempt`);
- the canonical codecs that the protocol and the leaf rely on (`Encoding`, `Transcript`,
  `DealEncoding`, `Record`).

Code that the crate writes as expressions is a function here. Code that updates fields
step by step is a class whose methods and loops are proved equal to a function on the
abstract state; the theorems are about those functions.

## Standing choices

- `Q` stands for any odd prime of at most 32 bytes, a group element is its discrete
  logarithm, and `SECP` stands for any even-lift coordinate map (`Field`, `Curve`). The
  fields have no definition on purpose, so the theorems hold for every choice.
- Hashes (`HASHES`, `TAGGED`, `MATERIAL_HASH`) are arbitrary functions. No lemma assumes
  that a hash is injective; where a collision matters, the conclusion names the two
  colliding inputs.
- Nonces, salts, polynomial coefficients, clock values, deliveries and store outcomes
  are inputs.
- An identifier of 32 bytes is its big-endian value. Integer widths are subset types,
  and overflow branches are modelled.
- A store call may succeed, fail without effect, apply and then fail, or lose to another
  writer (`Store.CasOutcome`, `Store.PutOutcome`).

## Findings

- `reconcile` takes a stored journal equal to its pending one for its own write whoever
  wrote it, so two instances can hold one live attempt: `SharedAttempt.TwoHolders` is such a
  run. Holders stay unique exactly while no reconciliation takes that branch for an attempt
  that another leaf holds (`Holders.OneHolderIff`), and always while every journal so taken
  is the leaf's own (`Holders.OwnWritesHoldAlone`). Released responses are unique in every
  case (`PersistentSystem.AtMostOneResponse`).
- `activate_outer` keeps an attempt of another vault live. The durable wrapper then cannot
  encode the material and drops its registry; `DurableCalls.UnwritableByInputs` states
  exactly when, and `StrandedMaterial.ActivationStrandsMaterial` is a run that gets there.
- The reconstruction checks that end both support validators never decide: the row
  checks before them already do (`LeafLive.InnerCheckIsRows`, `LeafLive.OuterCheckIsRows`).
- `close_phase` on a phase that is already over succeeds on a terminal transcript too, and
  changes nothing (`LogHistory.ClosePhaseIff`).
- An exact replay of a live reservation skips the expiry check, and nothing else does
  (`LeafRuns.ExpiredReserveIff`).

## Model

| member | source | states |
|---|---|---|
| Shamir.InterpolationIsExact | src/shamir.rs:143-194 | interpolation succeeds exactly on nonempty supports without a repeated node, and returns the constant of every polynomial no longer than the support |
| Shamir.LagrangeAtZero | src/shamir.rs:143-161 | the nested loops compute the Lagrange row; inversion never meets a zero denominator, so the only failures are those of the support check |
| Shamir.ValidateSupport | src/shamir.rs:184-194 | an empty support or a repeated node is refused, nothing else |
| Support.InnerReconstructs | src/support.rs:216-257 | the coefficients of a constructed inner support recombine the constant of any polynomial that its shares lie on |
| Support.OuterReconstructs | src/support.rs:291-333 | the same for an outer support and member points |
| Support.CoefficientsSumToOne | src/support.rs:216-257 | the coefficients of an inner support sum to one, so a value added once to every share is added once to the secret |
| Support.OuterCoefficientsSumToOne | src/support.rs:291-333 | the coefficients of an outer support sum to one |
| Genesis.PersonNew | src/genesis.rs:95-135 | an accepted person has distinct devices and nodes, and every device share and the tier points lie on the person's polynomials |
| Genesis.ValidateGenesis | src/genesis.rs:175-206 | accepted public data has distinct people, nodes and devices, and every member point lies on the outer polynomial |
| Genesis.InnerSupportRecombines | src/genesis.rs:272-289 | every exact inner support of an accepted genesis recombines the person's member point |
| Genesis.OuterSupportRecombines | src/genesis.rs:244-264 | every exact outer support of an accepted genesis recombines the vault key |
| Genesis.AnchorRoundTrip | src/keys.rs:179-203 | the signing share rebuilt from an anchor and the identity share is the member share the anchor was made from |
| Signing.NonceSetNew | src/signing.rs:76-98 | a constructed nonce set covers the support exactly, in device order, and its aggregate is the sum of the entries |
| Signing.AggregateMember | src/signing.rs:615-665 | the sorting, checking and accumulating loop computes the specified member response or the same error |
| Signing.AggregateSignature | src/signing.rs:671-711 | the outer loop computes the specified signature, which is returned only after it verifies |
| NestedSigning.DeviceResponds | src/signing.rs:580-605 | an honest device of an exact support is never refused |
| NestedSigning.MemberAggregates | src/signing.rs:615-665 | the honest device responses of one member aggregate in any delivery order |
| NestedSigning.NestedSigningIsComplete | src/signing.rs:580-711 | for every accepted genesis, every exact outer and inner support and all nonces with nonidentity sums: no device is refused, every member and the signature aggregate in any order, zG = R + cQ holds and the signature verifies |
| Taproot.EvenPoint | src/taproot/key.rs:190-209 | normalising multiplies by the sign, and the even point is found again from its x-coordinate |
| Taproot.OutputKey | src/taproot/key.rs:125-139 | the x-only output key lifts to the sign-adjusted tweaked vault key |
| Taproot.TwistSum | src/taproot/sign.rs:91-216 | summing the signed and tweaked partials of a tier adds the tweak exactly once, because the coefficients sum to one |
| Taproot.AggregateTapSignature | src/taproot/sign.rs:181-216 | the accumulation loop computes the specified signature or the same error |
| Taproot.TaprootSigningIsComplete | src/taproot/sign.rs:28-216 | for every sign combination, an honest two-tier run aggregates in any order to a signature that verifies under the tweaked output key |
| Shape.SingleShapeNew | src/dealing/shape.rs:58-73 | an accepted device set is sorted, without repeated devices or nodes, and at least the threshold |
| Shape.OuterShapeNew | src/dealing/shape.rs:139-165 | an accepted two-tier shape has distinct people and nodes and no device below two people |
| Shape.InsertDevices | src/dealing/shape.rs:144-163 | growing the known devices stops exactly at a repeated one |
| Shape.ScanTargetPeople | src/dealing/shape.rs:139-165 | the scan with its growing device set decides the specified check |
| Shape.TargetsHaveNodes | src/dealing/shape.rs:199-227 | the listed targets are exactly those that have a node |
| Shape.TargetsDistinct | src/dealing/shape.rs:199-217 | no target is listed twice, so counting receipts counts targets |
| Shape.CommandNew | src/dealing/shape.rs:411-458 | an accepted command has sorted distinct roles, sources that sum to the anchor, and exactly one refresher for each target device |
| Shape.RolesInOrder | src/dealing/shape.rs:411-458 | iterating the role set in key order lists the roles of the command in order |
| Shape.ConstantsTotal | src/dealing/shape.rs:359-458 | the constants of all roles sum to the anchor |
| Contribution.FittingEvaluates | src/dealing/contribution.rs:157-170 | valid points evaluate, for each target, on that target's polynomial |
| Contribution.AddPointsInPlace | src/dealing/contribution.rs:585-593 | the loop over an array adds the points elementwise |
| Contribution.FittingAdd | src/dealing/contribution.rs:66-201 | valid contributions of one shape add without error to a valid one, and constants and evaluations add |
| Contribution.Aggregate | src/dealing/contribution.rs:565-574 | the loop over openings computes their left-to-right sum or the first error |
| Contribution.AggregateIsValid | src/dealing/contribution.rs:565-574 | openings valid for the roles of an accepted command aggregate without error to points valid for the anchor, and every target evaluation is the sum of the role evaluations |
| Contribution.Sample | src/dealing/contribution.rs:488-516 | the sampling loops build the specified block from the coins drawn |
| Contribution.SampledBlockFits | src/dealing/contribution.rs:488-545 | a sampled block fits its constant on every shape, and each private share matches the public evaluation |
| Target.HonestContribution | src/dealing/contribution.rs:365-480 | an honest contributor passes its own checks, fits its role, and every target accepts its delivery |
| Target.BuildViewSucceeds | src/dealing/candidate.rs:333-350 | with all roles in, a view is built unless its bytes overflow, and the view is sound |
| Target.ViewBytesIff | src/dealing/candidate.rs:665-683 | the view encoder fails exactly when a count or a length does not fit |
| Target.FinishSucceeds | src/dealing/target.rs:166-183 | a target finishes exactly when every role's share is in, its sum matches the aggregate, and an activated share always resolves |
| Target.TargetAccumulator.Receive | src/dealing/target.rs:295-315 | an accepted share is recorded for its role, an exact replay changes nothing, every refusal leaves the accumulator alone |
| Target.ResolvedIsSound | src/dealing/target.rs:324-363 | a resolved share lies on points valid for its shape at its own node |
| Target.SharingKeepsKey | src/dealing/target.rs:295-363 | after a redistribution with one sharing, any threshold of installed shares interpolates to the secret behind the anchor |
| Target.NestedSharingKeepsKey | src/dealing/target.rs:295-363 | after a two-tier redistribution, any outer threshold of people with any inner threshold of devices recovers the secret behind the anchor through both tiers |
| Redistribution.InstallsOnView | src/dealing/candidate.rs:198-229 | whatever driver and deliveries led to it, a share installed under an activated command lies on that command's one view and carries the handle the log activated |
| Redistribution.RunKeepsKey | src/dealing/candidate.rs:62-358 | over any interleaving on the log, any threshold of shares that a command's targets installed interpolates to the secret behind its anchor |
| Redistribution.NestedRunKeepsKey | src/dealing/candidate.rs:62-358 | the same through both tiers for any outer threshold of people with any inner threshold of devices |
| Encoding.BlobLawful | src/encoding.rs:61-182 | length-prefixed byte strings decode to what was encoded, in front of any bytes, and only encodings are accepted |
| Encoding.ScalarLawful | src/encoding.rs:69-196 | scalars are fixed width and canonical |
| Encoding.PointRoundTrip | src/algebra.rs:160-178 | a compressed point determines its bytes and its bytes determine the point |
| Encoding.ElementLawful | src/algebra.rs:60-90 | the identity-tagged element codec is canonical |
| Encoding.CountedLawful | src/leaf/store/record.rs:223-289 | a counted list of lawful fields is lawful |
| Transcript.PrepackageNew | src/transcript.rs:345-371 | a constructed prepackage has sorted distinct slots, matches its support, and fits its counts |
| Transcript.FinalizeValid | src/transcript.rs:530-569 | finalising a prepackage keeps its head and records and gives a valid package on the same support |
| Transcript.PackageCanonical | src/transcript.rs:571-634 | accepted package bytes re-encode to themselves, and every valid package encodes and decodes back |
| Transcript.ReservationCanonical | src/transcript.rs:823-856 | accepted reservation bytes re-encode to themselves, so the leaf's re-encoding check never fires |
| Transcript.ReservationRoundTrip | src/transcript.rs:797-856 | a reservation built on an outer support decodes back on that support |
| DealEncoding.IdentifiersInjective | src/dealing/shape.rs:273-345 | distinct roles and distinct targets have distinct log keys |
| DealEncoding.CommandBytesInjective | src/dealing/shape.rs:465-486 | equal command bytes are equal commands |
| DealEncoding.PointsCanonical | src/dealing/contribution.rs:102-155 | accepted coefficient points re-encode to themselves, and canonical points decode back |
| DealEncoding.OpeningCanonical | src/dealing/contribution.rs:242-267 | accepted openings re-encode to themselves, and canonical openings decode back |
| DealEncoding.ReceiptCanonical | src/dealing/target.rs:117-150 | a receipt decodes from exactly its own bytes |
| Record.MaterialRoundTrip | src/leaf/store/record.rs:28-131 | accepted material re-encodes to itself, and the material of any consistent idle registry decodes to the same installed state |
| Record.JournalRoundTrip | src/leaf/store/record.rs:291-323 | journal records are 89 bytes and decode exactly the valid journals |
| LogAct.MemoryLog.Begin | src/log_act.rs:160-192 | starting on the current predecessor opens an empty transcript; an exact repeat changes nothing |
| LogAct.MemoryLog.Post | src/log_act.rs:194-228 | a post lands once, in the open phase of a current live transcript; an exact repeat changes nothing |
| LogAct.MemoryLog.ClosePhase | src/log_act.rs:230-260 | closing moves to the next phase; closing a phase that is over succeeds and changes nothing |
| LogAct.MemoryLog.ScanBundle | src/log_act.rs:278-320 | the checking loop, with its sets of commands and scopes, decides the left-to-right scan |
| LogAct.MemoryLog.ActivateBundle | src/log_act.rs:278-343 | checking, allocating and the two installing loops move every scope and terminal, or change nothing |
| LogAct.MemoryLog.FreshHandle | src/log_act.rs:145-156 | the retry loop ends and returns a handle that was never used, whenever one is left |
| LogAct.FewHandlesLeaveOne | src/log_act.rs:145-156 | with fewer than 2^64 handles in use a counter handle is left |
| LogHistory.ScanIff | src/log_act.rs:278-320 | a bundle passes exactly when it has no repeat, its scopes are distinct, and its members are all ready or all activated under one handle |
| LogHistory.BundleIsAtomic | src/log_act.rs:278-343 | activation changes nothing, or moves every scope and terminal together under a never used handle and nothing else |
| LogHistory.BundleIsOrderFree | src/log_act.rs:278-343 | every arrangement of a bundle gives the same state and succeeds exactly when any other does |
| LogHistory.ReplayIsExact | src/log_act.rs:278-343 | replaying an activated bundle succeeds exactly for an arrangement of the commands recorded under its handle, and changes nothing |
| LogHistory.ClosePhaseIff | src/log_act.rs:230-260 | closing succeeds exactly when the phase is over, on a terminal transcript too and then without effect, or is the open phase of a live, current transcript |
| LogHistory.ClosingRepeats | src/log_act.rs:230-260 | a phase once closed closes again without effect after any later calls |
| LogHistory.RunGrows | src/log_act.rs:160-343 | over every run transcripts only grow: scope, predecessor, parameters, posts and terminal never change once set |
| LogHistory.HistoryIsAChain | src/log_act.rs:160-343 | over every run the activated commands of a scope link its genesis to its current handle without repeats |
| LogHistory.ChainExtends | src/log_act.rs:160-343 | later calls only extend the chain of a scope |
| LogHistory.OneSuccessor | src/log_act.rs:278-343 | at most one command per scope and predecessor activates |
| LogHistory.StaleForever | src/log_act.rs:160-343 | a stale command stays stale with its posts and phase frozen; only an abort can still reach it |
| Candidates.Candidate.Start | src/dealing/candidate.rs:36-60 | starting encodes the command and begins its transcript |
| Candidates.Candidate.Commit | src/dealing/candidate.rs:62-95 | one commitment per role; an altered replay, a wrong stage and a refused post abort the transcript |
| Candidates.Candidate.CloseCommitments | src/dealing/candidate.rs:97-127 | the phase closes only with every role committed, otherwise the transcript aborts |
| Candidates.Candidate.Open | src/dealing/candidate.rs:129-182 | an opening is posted only after it fits its role and matches the role's commitment |
| Candidates.Candidate.CloseOpenings | src/dealing/candidate.rs:198-229 | the view is built from all openings and fixed before receipts |
| Candidates.Candidate.Receipt | src/dealing/candidate.rs:231-273 | a receipt is posted only for a listed target and exactly the common view bytes |
| Candidates.Candidate.Activate | src/dealing/candidate.rs:275-331 | activation needs every receipt, and the terminal is the log's |
| CandidateSystem.CommonViewUnique | src/dealing/candidate.rs:333-350 | the posts of a transcript determine at most one complete view |
| CandidateSystem.DriverViewIsCommon | src/dealing/candidate.rs:198-350 | every view that a driver holds is the one its transcript determines |
| CandidateRuns.ViewsAgree | src/dealing/candidate.rs:62-222 | in every interleaving of drivers and other log calls, drivers of one command id hold identical views, bytes and aggregate included |
| CandidateRuns.ActivationIsComplete | src/dealing/candidate.rs:97-358 | an activated command driven by candidates has every role committed and opened to match, and a receipt of every target for one view |
| CandidateRuns.CommitBeforeOpen | src/dealing/candidate.rs:97-182 | every role has committed before the first opening is in the log |
| CandidateRuns.TerminalsAgree | src/dealing/candidate.rs:275-358 | a driver's terminal is the log's, and nothing that happens later changes either |
| InnerBundles.NewBundleStarts | src/dealing/candidate.rs:384-419 | a bundle over fresh commands starts all of them, or leaves nothing but aborted transcripts |
| InnerBundles.ActivateKeeps | src/dealing/candidate.rs:600-663 | activation ends every component under one shared handle, or every component alike |
| InnerBundles.AbortKeeps | src/dealing/candidate.rs:577-598 | an abort ends every component alike |
| InnerBundles.BundleRunsTogether | src/dealing/candidate.rs:384-663 | over every run of a bundle from its start, with other log calls in between, all components have one terminal, equal to the log's, and the barriers hold |
| InnerBundles.BundleStaysTogether | src/dealing/candidate.rs:384-663 | every public call keeps the bundle's invariant: one terminal for all, which is the log's, and no post in a phase that some component has not reached |
| Auth.CollectEntries | src/auth.rs:239-277 | the loop over sorted deliveries checks each against the first and collects the entries |
| Auth.ViewIsComplete | src/auth.rs:239-291 | a view covers its support exactly, its entries are the deliveries, all under one receiver, session and reservation |
| Auth.ViewBytesInjective | src/auth.rs:320-470 | equal view bytes are equal views |
| Auth.CheckedOpenings | src/auth.rs:409-440 | openings that verify match the commitment view entry by entry |
| Auth.NonceCommitmentBinds | src/auth.rs:488-501 | a nonce commitment opens to one pair for an attempt and reservation, or the two openings collide under the hash |
| Material.ValidateIff | src/leaf/store/record.rs:133-221 | the validator accepts exactly the consistent registries |
| Material.GenesisIsConsistent | src/genesis.rs:296-340 | device data attached to an accepted genesis is consistent |
| LeafInvariant.AddVaultFits | src/leaf.rs:132-172 | adding a vault keeps a registry consistent |
| LeafInvariant.ActivateInnerFits | src/leaf.rs:617-686 | activating an inner bundle of installed shares keeps a registry consistent |
| LeafInvariant.ActivateOuterFits | src/leaf.rs:697-743 | activating an outer block keeps a registry consistent |
| LeafLive.InnerCheckIsRows | src/leaf.rs:800-831 | the inner support check accepts exactly when every row does; the final reconstruction never decides |
| LeafLive.OuterCheckIsRows | src/leaf.rs:833-863 | the same for the outer support and the vault key |
| LeafLive.ResponseUsesCurrentShare | src/leaf.rs:443-477 | a live reservation names the installed epoch, a response uses the installed share, and that is the share its support lists for the device |
| LeafLive.ResponseUsesOwnNonce | src/leaf.rs:443-477 | the fixed nonce set lists the device's own nonce, short of a collision between two named inputs |
| LeafResponses.DeviceAnswers | src/signing.rs:580-605 | on a reachable leaf the response function never returns a share mismatch and succeeds exactly when the transcript checks pass, short of a named collision |
| LeafResponses.TapAnswersAlike | src/taproot/sign.rs:91-125 | the Taproot response passes and fails by the same checks, with the same attempt or error |
| LeafResponses.PlainAnswers | src/leaf.rs:420-441 | a plain response succeeds exactly on canonical bytes of a root package that names the reservation's prepackage, has a signing context and carries the fixed aggregate nonce, short of a named collision |
| LeafRuns.NewIsReachable | src/leaf.rs:78-108 | a registry made from validated genesis data starts inside the invariant |
| LeafRuns.RunKeeps | src/leaf.rs:78-743 | every registry that any run reaches passes material validation, and its live attempt is still valid for the installed epoch, points and share |
| LeafRuns.PlainReserveIsHonest | src/leaf.rs:179-200 | a plain reservation meets the run's input condition whatever bytes arrive |
| LeafRuns.ExpiredReserveIff | src/leaf.rs:203-252 | a reservation returns an expired attempt exactly when it is the exact replay of that live attempt, and then changes nothing |
| LeafRuns.AttemptsAreOneUse | src/leaf.rs:203-477 | over every run sequences only increase, a closed attempt never lives again, and what a live attempt has fixed stays fixed |
| LeafRuns.RespondingCloses | src/leaf.rs:420-477 | every response call on the live attempt closes it |
| LeafRuns.CommitsAgree | src/leaf.rs:260-296 | all successful commits of one attempt return one commitment and keep the first nonce |
| LeafRuns.RevealsAgree | src/leaf.rs:304-356 | all successful reveals of one attempt return one pair and carry one commitment view, in any delivery order |
| LeafRuns.FixesAgree | src/leaf.rs:364-412 | all successful fixes of one attempt return one member pair |
| LeafRuns.RevealFixesTheView | src/leaf.rs:304-412 | the nonce pair is revealed only after a complete commitment view is fixed, which every opening that a later fix accepts matches |
| LeafObject.LeafRegistry.AddVault | src/leaf.rs:132-172 | the next registry and result are those of the function, for every branch |
| LeafObject.LeafRegistry.ReserveWith | src/leaf.rs:203-253 | replays, altered replays, expiry and validation in the order of the crate |
| LeafObject.LeafRegistry.Commit | src/leaf.rs:260-296 | samples at most once per attempt and closes on an altered reservation |
| LeafObject.LeafRegistry.Reveal | src/leaf.rs:304-356 | fixes the commitment view once and closes on an altered view |
| LeafObject.LeafRegistry.Fix | src/leaf.rs:364-412 | fixes the opening view once and closes on an altered view |
| LeafObject.LeafRegistry.RespondWith | src/leaf.rs:443-477 | takes the live attempt before it computes, so every outcome closes it |
| LeafObject.LeafRegistry.Close | src/leaf.rs:484-500 | closes the live attempt and refuses any other |
| LeafObject.LeafRegistry.ReceiveAbort | src/leaf.rs:508-541 | an authenticated abort of a support member closes the live attempt |
| LeafObject.LeafRegistry.CloseExpired | src/leaf.rs:545-556 | closes a live attempt whose expiry is not after the given time |
| LeafObject.LeafRegistry.CheckInnerSupport | src/leaf.rs:800-831 | the loop accumulates the weighted shares and stops at the first bad row |
| LeafObject.LeafRegistry.CheckOuterSupport | src/leaf.rs:833-863 | the loop accumulates the weighted member points and stops at the first bad row |
| LeafObject.LeafRegistry.NextAnchors | src/leaf.rs:664-674 | the loop computes every vault's new anchor and member map, or the first error |
| LeafObject.LeafRegistry.CheckInner | src/leaf.rs:617-674 | every check of an inner activation, in order, with the values it will install |
| LeafObject.LeafRegistry.InstallVaults | src/leaf.rs:681-685 | the installing loop gives every listed vault its anchor, handle and map and leaves the others |
| LeafObject.LeafRegistry.ActivateInnerBundle | src/leaf.rs:617-686 | installs identity, epoch and every vault together, or changes nothing |
| LeafObject.LeafRegistry.ActivateOuter | src/leaf.rs:697-743 | installs one vault's block and closes a live attempt of that vault only |
| Store.MemoryLeafStore.PutMaterial | src/leaf/store.rs:395-405 | content is written once; another body under the same identifier is refused |
| Store.MemoryLeafStore.CompareExchange | src/leaf/store.rs:418-460 | the journal moves only from the expected revision, and unreferenced material is collected |
| Store.MemoryStoreIsCas | src/leaf/store.rs:418-460 | a compare-and-set on the exact revision that touches one device, increases its revision and never drops referenced material |
| Store.MemoryStoreConforms | src/leaf/store.rs:300-460 | the in-memory store behaves as the abstract store when its writes go through |
| Persistent.PersistentLeaf.Create | src/leaf/store/persistent.rs:41-65 | writes material and then the first journal, and only where the device has none |
| Persistent.PersistentLeaf.Load | src/leaf/store/persistent.rs:73-123 | loads and checks the record, and closes an attempt that was left live |
| Persistent.PersistentLeaf.Reconcile | src/leaf/store/persistent.rs:152-200 | settles, retries or gives up a pending write, branch by branch |
| Persistent.PersistentLeaf.Persist | src/leaf/store/persistent.rs:427-453 | marks the write as pending before any store call, and is ready again only on success |
| Persistent.PersistentLeaf.Transition | src/leaf/store/persistent.rs:382-394 | runs the transition and withholds its result until a changed journal is stored |
| Persistent.PersistentLeaf.MaterialTransition | src/leaf/store/persistent.rs:396-425 | stores new material with the journal, and drops the registry when it cannot be encoded |
| PersistentRuns.ResponseNeedsLiveJournal | src/leaf/store/persistent.rs:287-294 | a response is handed out only if the stored journal moved from the attempt live to the attempt closed in that call |
| PersistentSystem.AtMostOneResponse | src/leaf/store/persistent.rs:73-200 | over any interleaving of instances, crashes, loads, ambiguous writes and reconciliations, with any delay between reading a journal and writing it, at most one response leaves per attempt |
| PersistentSystem.EarlierIsLater | src/leaf/store/persistent.rs:73-200 | every earlier store of a run is one that a later reconciliation or load may have read |
| PersistentSystem.ClosedForever | src/leaf/store/persistent.rs:382-453 | an attempt that the stored journal has closed is never live in it again |
| PersistentRuns.SplitReconcile | src/leaf/store/persistent.rs:152-200 | a reconciliation with other writers between its read and its writes is the atomic one at the writes or, if overtaken, the atomic one at the read with its journal write lost |
| PersistentRuns.SplitLoad | src/leaf/store/persistent.rs:73-123 | the same for loading |
| Holders.ReconcileHoldsIff | src/leaf/store/persistent.rs:152-200 | a leaf that awaits an attempt holds it after reconciling exactly when the journal read equals its pending one, or its own revision and journal are still there and the write applies |
| Holders.StepOneHolderIff | src/leaf/store/persistent.rs:152-200 | from a state with one holder per attempt, an event leaves two exactly when a reconciliation takes the equal-journal branch for an attempt that another leaf holds |
| Holders.OneHolderIff | src/leaf/store/persistent.rs:152-200 | over every run, no two leaves ever hold one attempt if and only if no reconciliation takes that branch for an attempt another leaf holds |
| Holders.OwnWritesHoldAlone | src/leaf/store/persistent.rs:152-200 | in every run without a reconciliation that takes a journal another leaf wrote, each attempt has at most one holder, counting leaves whose own write waits |
| Holders.BothReserve | src/leaf/store/persistent.rs:152-173 | two instances at one revision that issue the same attempt both end up holding it, because reconciling takes the equal journal |
| SharedAttempt.TwoHolders | src/leaf/store/persistent.rs:73-173 | such a run: one stored record is loaded twice, both leaves reserve from the same canonical bytes, and after the loser reconciles both hold the attempt |
| PersistentSystem.RunLoads | src/leaf/store/persistent.rs:41-123 | in every run, whatever fails or races, every stored journal names material that decodes for its device |
| PersistentMaterial.LoadNeverInvalid | src/leaf/store/persistent.rs:73-123 | loading through a working store never meets a malformed or missing record, and returns the stored counter with nothing live |
| PersistentMaterial.LoadRestores | src/leaf/store/persistent.rs:73-123 | a settled leaf is loaded back with the same installed state and its attempt closed |
| SoleWriter.ReconcileNeverConflicts | src/leaf/store/persistent.rs:152-200 | with a sole writer reconciling never conflicts or invalidates, never touches the registry, and on success leaves the stored journal equal to the registry's own |
| DurableCalls.UnwritableIff | src/leaf.rs:731-735 | material cannot be written after a successful installation exactly when an outer activation left another vault's attempt live or a count exceeds four bytes |
| DurableCalls.UnwritableByInputs | src/leaf.rs:731-735 | the same from material that fits, by the lengths of the call's own inputs |
| StrandedMaterial.ActivationStrandsMaterial | src/leaf.rs:694-742 | the failing case is reachable: a device of two vaults reserves for one from canonical bytes, activates a sound outer share of the other, and can no longer encode its material |
| SoleWriter.PerformMirrors | src/leaf/store/persistent.rs:382-453 | a call on a ready leaf runs its transition once and returns the in-memory result or a store error; on a reliable store it returns exactly the in-memory result, unwritable material apart |
| DurableCalls.SoloRunRefines | src/leaf/store/persistent.rs:152-453 | over any run with any store failures the durable leaf is the in-memory leaf after the executed calls, each run exactly once |
| DurableCalls.CreatedRefines | src/leaf/store/persistent.rs:41-65 | a created leaf starts such a run |

## Left out

- The Ed25519 profile, and hash-to-field failures: the model follows the secp256k1 profile, whose hashes always succeed.
- Curve arithmetic, SHA-2, point compression and randomness: library code, replaced by the standing choices above.
- Secrecy, unforgeability, zeroization and `Debug`/`Display` code: not functional correctness.
- The `exposure` audit, the fixed-length response codecs of `signing.rs` and `taproot/sign.rs`, `taproot/package.rs` decoding and the hazmat wrappers: they would only add easy members.
- `source_weight` and the role lookups of `RoleSpec::source` and `LocalContribution::source`: a source role carries its share and weight directly.
- The byte encoder and decoder objects of `encoding.rs` are modelled as codecs, functions from values to bytes and from bytes to a value and a rest; appending to a buffer and advancing an offset in place are not captured, and neither are error positions.
- A leaf's live reservation and nonce are plain fields; the crate holds them behind options that are empty only while `respond` consumes them.
- `LeafRegistry.from_vaults` is `New` followed by `AddVault`, and `activate_inner` is the bundle with one member; neither has its own theorem.
- Material decoding reads all fields before it looks at the order of vault identifiers, so for input with two defects the error may differ from the crate's; acceptance and the decoded value do not.
- Garbage collection of unreferenced material is modelled in the in-memory store only; the abstract store of the durable wrapper keeps every record.
- An event of `PersistentSystem` makes its material write and its journal write together; the journal that a load or a reconciliation reads may be any earlier one, and a writer that comes between the two writes is the outcome `Raced`.
- `InnerBundle` is modelled as functions on the sequence of its drivers, so the loops that change each candidate in place are folds; the candidates themselves are objects.
- PersistentMaterial.LoadRestores: excludes two different materials with one hash by a precondition on the two bodies at hand.
- SoleWriter.PerformMirrors: a reliable store is one that succeeds and does not already hold another body under the new material's identifier.
- Target.BuildViewSucceeds: a complete candidate still fails when its view bytes overflow a length prefix; `Target.ViewBytesIff` gives the exact condition.
- InnerBundles.BundleStaysTogether: asks that nobody else drives the bundle's commands; other log calls and other commands may interleave freely.

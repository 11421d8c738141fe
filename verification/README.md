# Verified model of yadorilink's policy, durability and lifecycle core

yadorilink keeps folders in sync between a person's devices without a trusted file server. This project models, in
Dafny, the parts of it where a mistake would silently lose data or trust, and proves what they promise.

- **The signed group policy log** (`PolicyLog`, `PolicyChain`, `PolicyResume`, `Watermark`, `PolicyQueries`): a
  hash-chained log of grants, revokes and authority rotations; its verification, from nothing or on a retained
  prefix; the watermark that keeps an old log from being adopted again; and the questions asked of a verified log.
- **Custody evidence** (`Custody`, `CustodyRuns`, `CustodyAnswers`, `CustodyReasons`, `CustodyWitnesses`,
  `RootSetMemo`): the background check that a peer holds this
  device's current files, its cache, and the one derivation of `Protected`.
- **Sign-in and status** (`Login`, `StatusWatch`): a sign-in with its flow, cancels and consumer, and the status
  poll loop.
- **Author incarnations** (`Sidecar`, `SidecarFiles`, `AuthorIdentity`): the author a replica signs as, across
  crashes between the database commit and the sidecar write, and the file steps of that write.
- **Publication** (`Merkle`, `RequestId`, `RequestBoundary`, `Flush`): the batch of deltas one signed checkpoint covers, its Merkle
  proofs and its request id.
- **Small concurrent protocols** (`SingleFlight`, `LinkSlots`, `Gc`): coalesced hydration, link start and stop,
  and garbage collection of blocks.

`Bytes` and `Sorting` hold what these share. `dafny verify dfyconfig.toml` checks the project.

## How the model is made

A protocol with several actors is a state machine: one step for each critical section, each database or clock
read, and each wakeup. A run is a sequence of worlds and the steps between them, in any order the steps allow, and
a safety property is stated about every world of every run. The invariant is proved step by step and the property
drawn from it. Objects the source updates in place are classes, each
method one critical section or one undisturbed call. Where the state machine has a function for that section the
method is proved against it; `LinkRegistry`, `HydrateSingleFlight`, `GcState` and `SummaryMemo` state their new maps
and fields outright.

The digest, key validity and signature verification are parameters: SHA-256 (section 6.2 of FIPS 180-4) and strict
Ed25519 verification (section 5.1.7 of RFC 8032). Nothing is assumed about them. A result that needs SHA-256 not to
collide says so as a hypothesis about the byte strings it names. Clocks, replies of peers and of the coordination
service, and failures of reads and writes are inputs of the steps, so every outcome is covered. Random draws of
incarnations and nonces are inputs assumed new: a draw that repeats an earlier one is not modelled.

## Where code and documentation differ

The model follows the code. In these places the code does not meet a property its comments state or suggest; each has
a lemma with a concrete case and a lemma with the exact condition.

- Text of 2^32 bytes or more is truncated in its length prefix, so signing bytes are injective exactly below that
  (`PolicyLog.HugeTextsCollide`, `PolicyLog.InjectiveExactlyBelowTwo32`).
- A stored watermark of the empty chain refuses every longer chain, although each extends it
  (`Watermark.EmptyWatermarkRefusesGrowth`, `Watermark.AcceptsExactlyExtensions`).
- A custody cycle captures the membership generation before the epoch, and a status query compares digests after it
  has read the cache. So `Protected` can rest on a cycle that began before the last clear; it does not exactly when no
  clear fell between the two captures nor between cache read and answer. Likewise the membership may have moved since
  the query read it (`CustodyWitnesses.ClearInsideProtectedCycle`, `CustodyWitnesses.ClearBeforeTheAnswer`,
  `CustodyWitnesses.MembershipMovesBeforeTheAnswer`, `CustodyAnswers.ProtectedMeansCustody`).
- An absence of evidence is meant to leave a fresh corroboration alone. A cycle reads the generation for that test
  before it takes the cache's lock, so one that read it before a membership change erases what another cycle
  corroborated after it (`CustodyWitnesses.StaleAbsenceErases`, `CustodyAnswers.FailedCheckRetractsIff`).
- A cancelled sign-in is said to write nothing afterwards. A cancel that finds the flow's task inside a poll comes too
  late, and only such a one (`Login.CancelTooLate`, `Login.CompletesAfterStopIff`).
- A status watch can return the same content twice in a row without a refresh. A call returns exactly when a poll
  since the last one returned was forced or differed from the poll before it (`StatusWatch.SameContentTwice`,
  `StatusWatch.NeverStale`).
- The author module says an incarnation that was committed but died before its sidecar is abandoned. One minted by a
  rebootstrap is kept on purpose (`AuthorIdentity.RebootstrapSurvivesItsCrash`,
  `AuthorIdentity.GivenOutAfterCrashIff`, `AuthorIdentity.OpenKeepsTheRecordIff`).
- The branch of `wait_and_take_ready` called unreachable is reached exactly when a start reserves the path between
  its two lock acquisitions and is not resolved yet (`LinkSlots.StopPanics`, `LinkSlots.PathPanicsIff`).
- The request id separates group, device and hashes with zero bytes. A request is told apart from every other exactly
  when neither its group nor its device holds a zero byte and none of its hashes ends in one
  (`RequestBoundary.ZeroByteMovesTheBoundary`, `RequestBoundary.ZeroFreePairSharesItsId`,
  `RequestBoundary.UnmistakableIff`).

## Model

| member | source | states |
|---|---|---|
| `PolicyLog.SigningBytesInjective` | crates/yadorilink-daemon/src/change_policy.rs:747-789 | The signing bytes determine the group and every signed field while every text is below 2^32 bytes |
| `PolicyLog.RecordPreimageInjective` | crates/yadorilink-daemon/src/change_policy.rs:714-722 | The bytes a record hash is taken over determine the group, every signed field and the 64-byte signature |
| `PolicyLog.HugeTextsCollide` | crates/yadorilink-daemon/src/change_policy.rs:786-789 | A concrete pair of different records with one encoding: a 2^32-byte text has the length prefix of an empty one |
| `PolicyLog.InjectiveExactlyBelowTwo32` | crates/yadorilink-daemon/src/change_policy.rs:747-789 | The encoding tells apart all records with texts shorter than a bound if and only if the bound is at most 2^32 |
| `PolicyLog.VerifyRecordIff` | crates/yadorilink-daemon/src/change_policy.rs:682-745 | A wire record is accepted, and as which record, exactly when it is well formed, links to the previous hash, and its signature verifies under the given key |
| `PolicyChain.VerifyNext` | crates/yadorilink-daemon/src/change_policy.rs:624-649 | One turn of the verification loop is one step of the specified cursor: key, previous hash, sequence, generation, records, key history, and each refusal |
| `PolicyChain.VerifyOrdered` | crates/yadorilink-daemon/src/change_policy.rs:624-649 | The loop over the ordered records equals the fold of those steps, including which error comes first |
| `PolicyChain.VerifyGroupPolicyLogWithBase` | crates/yadorilink-daemon/src/change_policy.rs:586-680 | The whole verification, with its length checks, resumption and closing checks, equals the specified function |
| `PolicyChain.AdvanceAllIff` | crates/yadorilink-daemon/src/change_policy.rs:624-649 | From a valid chain, the loop accepts exactly the records that spell a valid continuation, and ends on the cursor of the longer chain |
| `PolicyChain.VerifyLogIff` | crates/yadorilink-daemon/src/change_policy.rs:586-680 | A state is handed out exactly when the sorted records spell a valid continuation of the base, the summary fields match its tip, and the state is that chain's |
| `PolicyChain.AnswersAreVerified` | crates/yadorilink-daemon/src/change_policy.rs:586-680 | Every state handed out holds records 1 to `current_seq`, each signed by the key the rotations before it leave in force, with the generation counting the rotations |
| `PolicyResume.AcceptedAreConsecutive` | crates/yadorilink-daemon/src/change_policy.rs:624-649 | Accepted records are numbered consecutively |
| `PolicyResume.OrderIrrelevant` | crates/yadorilink-daemon/src/change_policy.rs:616-649 | Reordering the records of a log changes neither acceptance nor the resulting state, on any base |
| `PolicyResume.ResumeIsStartingOver` | crates/yadorilink-daemon/src/change_policy.rs:586-680 | Verifying a first part and then the rest on its state answers exactly what verifying both at once answers |
| `Watermark.SameHashSameHistory` | crates/yadorilink-daemon/src/change_policy.rs:682-723 | Two valid chains that share a record hash are of one group and agree on every record up to it |
| `Watermark.AcceptsExactlyExtensions` | crates/yadorilink-daemon/src/change_policy.rs:439-547 | A snapshot is adopted if and only if its chain extends the one the watermark was taken from, except that a watermark of the empty chain accepts only the empty chain |
| `Watermark.EmptyWatermarkRefusesGrowth` | crates/yadorilink-daemon/src/change_policy.rs:494-547 | After an empty chain every longer chain extends it and is refused |
| `Watermark.EmptyWatermarkWitness` | crates/yadorilink-daemon/src/change_policy.rs:452-454 | A concrete empty chain and a concrete one-record chain that shows it |
| `Watermark.StoreFollowsLastAccepted` | crates/yadorilink-daemon/src/change_policy.rs:439-547 | Over any sequence of snapshots the stored watermark is that of the last accepted one |
| `Watermark.AcceptedChainsOnlyGrow` | crates/yadorilink-daemon/src/change_policy.rs:494-547 | Over any sequence of snapshots each accepted chain has every earlier accepted chain as an exact prefix |
| `Watermark.StoreNeverMovesBack` | crates/yadorilink-daemon/src/change_policy.rs:494-547 | Over any sequence of snapshots the stored sequence and authority generation never decrease |
| `PolicyQueries.ReplayGrants` | crates/yadorilink-daemon/src/change_policy.rs:273-298 | The loop over the records up to a point computes the specified fold of grants and revokes |
| `PolicyQueries.FoldKeepsLatest` | crates/yadorilink-daemon/src/change_policy.rs:273-298 | The fold keeps for each device exactly its latest grant not followed by a revoke |
| `PolicyQueries.WritersAtIff` | crates/yadorilink-daemon/src/change_policy.rs:260-298 | A device is listed at a point exactly when its latest grant or revoke up to there is an Editor or Owner grant; every past point of a verified chain answers |
| `PolicyQueries.MembersUpToIff` | crates/yadorilink-daemon/src/change_policy.rs:332-353 | A member is listed exactly with its latest unrevoked grant |
| `PolicyQueries.MembersInOrder` | crates/yadorilink-daemon/src/change_policy.rs:332-353 | The list is strictly ordered by device, so it names each device once |
| `PolicyQueries.PolicyPointIff` | crates/yadorilink-daemon/src/change_policy.rs:412-432 | The answer at a point is true exactly when the chain holds that head there and the device was a writer under that key |
| `PolicyQueries.PolicyPointIsStable` | crates/yadorilink-daemon/src/change_policy.rs:412-432 | Every extension of a chain answers alike at a point the chain covers |
| `PolicyQueries.EmptyPointEndsAtFirstRotation` | crates/yadorilink-daemon/src/change_policy.rs:412-432 | The answer at the empty point turns from true to false exactly at the first rotation |
| `PolicyQueries.ResolvesTheSigningKey` | crates/yadorilink-daemon/src/change_policy.rs:384-402 | At a record's head with its signer id the key returned is the one that verified the record, whatever rotated since, unless the head is the all-zero hash |
| `PolicyQueries.ResolvesOnlyChainPoints` | crates/yadorilink-daemon/src/change_policy.rs:384-402 | A key is returned only for a point of the chain and only if its fingerprint is the one asked for |
| `Custody.DurabilityService.PublishBackgroundCustody` | crates/yadorilink-daemon/src/durability_service.rs:607-656 | A result lands exactly when the epoch is unchanged and it is not an absence over a fresh corroboration; the entry is then the new record, and other groups are untouched |
| `Custody.DurabilityService.ClearCustodyConfirmation` | crates/yadorilink-daemon/src/durability_service.rs:727-732 | The record goes and the epoch moves on; other groups are untouched |
| `Custody.DurabilityService.NoteStrongProof` | crates/yadorilink-daemon/src/durability_service.rs:740-747 | Only the proof stamp of that group changes |
| `Custody.DurabilityService.ReadFreshCorroboration` | crates/yadorilink-daemon/src/durability_service.rs:671-686 | A corroboration is returned exactly while it is within the bound and under the same membership generation |
| `Custody.DurabilityService.ClassifyGroup` | crates/yadorilink-daemon/src/durability_service.rs:832-835 | A latched group is Unknown whatever the caller says; otherwise the status is the classification of the facts |
| `Custody.RetractedIff` | crates/yadorilink-daemon/src/durability_service.rs:607-656 | Over a corroboration a reader trusts under its own generation, a failed check from the current epoch takes it away from every reader exactly if it is a contradiction or comes with another generation; otherwise the entry is untouched |
| `Custody.OnlyConfirmationProtects` | crates/yadorilink-daemon/src/durability_service.rs:285-318 | No local fact earns Protected: it depends on the peer confirmation alone once nothing is distrusted |
| `Custody.StatusRestsOn` | crates/yadorilink-daemon/src/durability_service.rs:285-326 | The exact facts behind AtRisk and Protecting, and that a pending first check is exactly an Unknown that no distrust explains |
| `Custody.FanOut` | crates/yadorilink-daemon/src/background_custody.rs:366-408 | The first agreeing answer from a peer still authorized wins, and one wins exactly if there is one; otherwise the reason is the specified one |
| `Custody.LastUsableDecides` | crates/yadorilink-daemon/src/background_custody.rs:366-408 | The reason is a contradiction exactly when the last usable answer objects |
| `Custody.ContradictionIffAnyoneAnswered` | crates/yadorilink-daemon/src/background_custody.rs:152-160 | With the premises unmoved, a fan-out that corroborates nothing reports a contradiction exactly when a usable answer arrived, in any order |
| `CustodyRuns.StepKeepsInv` | crates/yadorilink-daemon/src/background_custody.rs:295-436 | Every step of every cycle, clear, membership change, write and query keeps what the log shows about each cycle, the cached record and each query |
| `CustodyRuns.LandedIsSound` | crates/yadorilink-daemon/src/durability_service.rs:607-656 | A corroboration that lands is grounded and no clear came since its cycle took the epoch |
| `CustodyAnswers.FailedCheckRetractsIff` | crates/yadorilink-daemon/src/background_custody.rs:309-317 | In every run, a failed check published over a trusted corroboration takes it away exactly when no clear came since its epoch capture and it is a contradiction, or a membership change fell between its reading of the generation and its publication |
| `CustodyWitnesses.StaleAbsenceErases` | crates/yadorilink-daemon/src/background_custody.rs:309-324 | An eleven-step run of two cycles in which an absence, with no clear and no contradiction, erases a corroboration every reader trusted |
| `CustodyAnswers.ProtectedMeansCustody` | crates/yadorilink-daemon/src/daemon_state.rs:2063-2076 | In every interleaving, Protected implies a grounded corroboration under the generation the query read, at most 270 s old at its cache read, not cleared from its epoch capture to that read, naming this device's digest at the answer; grounded means no current files, or an eager, materialized, digest-equal reply re-checked afterwards. At the answer the generation is still the group's exactly if membership did not move since the query read it, and the cycle began after the last clear exactly if none fell between its captures nor between cache read and answer |
| `CustodyWitnesses.ClearInsideProtectedCycle` | crates/yadorilink-daemon/src/background_custody.rs:303-304 | A run that answers Protected on a cycle with a clear between its two captures |
| `CustodyWitnesses.ClearBeforeTheAnswer` | crates/yadorilink-daemon/src/daemon_state.rs:2063-2076 | A run that answers Protected after a clear that followed the cache read |
| `CustodyWitnesses.MembershipMovesBeforeTheAnswer` | crates/yadorilink-daemon/src/daemon_state.rs:2063-2076 | A run that answers Protected under a generation that is no longer the group's |
| `CustodyReasons.FanOutPublishes` | crates/yadorilink-daemon/src/background_custody.rs:366-408 | In every run, a cycle that stopped asking publishes the reason its last usable reply leaves against the local state it read; with its re-checks unmoved, a contradiction exactly if a usable reply arrived |
| `RootSetMemo.AnswersFromInsideTheCall` | crates/yadorilink-daemon/src/durability_service.rs:781-800 | If every write moves the generation to a new value, each answer's rows and stamp are those of instants within the call, even when a stale computation overwrites a newer entry |
| `RootSetMemo.SameStampMeansUnmoved` | crates/yadorilink-daemon/src/background_custody.rs:410-416 | A later call that answers with the same stamp proves no write fell between the two stamps and that the first answer was one instant's |
| `RootSetMemo.StaleHitWhenAGenerationReturns` | crates/yadorilink-daemon/src/durability_service.rs:781-800 | Without that hypothesis a call can be answered with rows not there at any instant of it |
| `RootSetMemo.SummaryMemo.LocalRootSetSummary` | crates/yadorilink-daemon/src/durability_service.rs:781-800 | An unreadable generation answers nothing, an entry of the same generation answers, anything else is answered as computed and, if it could be, kept |
| `Login.LoginQueue.Push` | crates/yadorilink-client-core/src/session.rs:68-77 | An event is queued unless a terminal one is or a cancel came before a step |
| `Login.LoginQueue.Cancel` | crates/yadorilink-client-core/src/session.rs:84-99 | Unread steps go and, with no flow running, Cancelled is queued; a queued terminal event stands |
| `Login.LoginQueue.TryNext` | crates/yadorilink-client-core/src/session.rs:183-197 | The next event in order, nothing after a terminal one |
| `Login.LoginQueue.TryStart` | crates/yadorilink-client-core/src/session.rs:165-171 | The flow starts exactly if no cancel was requested |
| `Login.StepKeepsStream` | crates/yadorilink-client-core/src/session.rs:66-99 | Every step keeps the relation between everything queued, given out, dropped and waiting |
| `Login.StepKeepsFlow` | crates/yadorilink-client-core/src/session.rs:221-247 | Every step keeps that only the flow's task ends a started sign-in and that terminal events tell what happened |
| `Login.OneTerminalAndLast` | crates/yadorilink-client-core/src/session.rs:66-99 | In every run at most one terminal event is queued, nothing follows it, and the consumer is given the queued events in order except what a cancel dropped |
| `Login.NoStepAfterCancel` | crates/yadorilink-client-core/src/session.rs:84-99 | After a cancel that preceded the terminal event, at most that terminal event is given |
| `Login.TerminalIsHonest` | crates/yadorilink-client-core/src/session.rs:221-247 | SignedIn names the account the flow completed with, Cancelled only if it never completes, Failed only if it failed or timed out first |
| `Login.StoppedFlowNeverCompletes` | crates/yadorilink-client-core/src/session.rs:215-247 | A stop that is there while the flow task is not inside a poll keeps the flow from ever completing |
| `Login.CompletesAfterStopIff` | crates/yadorilink-client-core/src/session.rs:199-247 | Once a cancel's stop is set and the flow has not completed, some continuation has it complete exactly if its task is inside a poll of it |
| `Login.CancelTooLate` | crates/yadorilink-client-core/src/session.rs:79-99 | A run in which the flow completes and SignedIn is given after a whole cancel |
| `Login.NoLostWakeup` | crates/yadorilink-client-core/src/session.rs:183-197 | A parked consumer beside a queued event has a wakeup to come |
| `StatusWatch.SameContentIsEquivalence` | crates/yadorilink-client-core/src/session.rs:377-386 | Equality up to capture time is an equivalence and exactly equality of the content shown |
| `StatusWatch.WatchSlot.Publish` | crates/yadorilink-client-core/src/session.rs:359-374 | A result is stored if it differs, marked unread if it differs or is forced, and ignored after a cancel |
| `StatusWatch.WatchSlot.TryNext` | crates/yadorilink-client-core/src/session.rs:304-318 | The unread value once, nothing after a cancel |
| `StatusWatch.NeverStale` | crates/yadorilink-client-core/src/session.rs:339-374 | With nothing unread the last result given shows what the latest poll found; something is unread exactly when a poll since was forced or differed from the one before it |
| `StatusWatch.NoLostWakeup` | crates/yadorilink-client-core/src/session.rs:304-330 | A parked consumer with something to read, or cancelled, has a wakeup to come |
| `StatusWatch.SameContentTwice` | crates/yadorilink-client-core/src/session.rs:269-272 | A run without refresh in which the same content is given twice in a row |
| `Sidecar.Encode` | crates/yadorilink-daemon/src/author_sidecar.rs:44-51 | The array filled is laid out as magic, version, nonce, incarnation |
| `Sidecar.Decode` | crates/yadorilink-daemon/src/author_sidecar.rs:53-61 | A sidecar is read exactly from the bytes laid out for it |
| `Sidecar.LayoutIsOneToOne` | crates/yadorilink-daemon/src/author_sidecar.rs:44-61 | Two files are equal exactly when the sidecars they encode are |
| `Sidecar.TornIsAbsent` | crates/yadorilink-daemon/src/author_sidecar.rs:53-61 | No shorter part of a sidecar file and no continuation of it reads as a sidecar |
| `SidecarFiles.StepKeepsInv` | crates/yadorilink-daemon/src/author_sidecar.rs:82-99 | Every create, write, sync, rename, failure and crash keeps every file the sidecar may lead to whole and nobody's temp file |
| `SidecarFiles.NeverTorn` | crates/yadorilink-daemon/src/author_sidecar.rs:5-14 | At every point of every run, crashes and overlapping writes included, the sidecar is absent or decodes |
| `SidecarFiles.RenamePublishesItsOwn` | crates/yadorilink-daemon/src/author_sidecar.rs:82-99 | A rename puts exactly its own write's bytes there |
| `SidecarFiles.ReturnedIsDurable` | crates/yadorilink-daemon/src/author_sidecar.rs:79-99 | After a write returned success the sidecar survives any crash unchanged until the next rename |
| `AuthorIdentity.UnreadableNeverMigrates` | crates/yadorilink-daemon/src/author_identity.rs:112-121 | A migration rotates exactly for a readable, different machine id on an otherwise matching record |
| `AuthorIdentity.StepKeepsInv` | crates/yadorilink-daemon/src/author_identity.rs:83-167 | Every step of opens, rotations, rebootstraps, failed writes and crashes keeps what handles and the sidecar say about the current record |
| `AuthorIdentity.HandleHasDurableSidecar` | crates/yadorilink-daemon/src/author_identity.rs:83-131 | Every handle given out names a record whose sidecar is durable; it is the current record exactly if no rebootstrap committed another meanwhile; records are given out in order |
| `AuthorIdentity.RetryConverges` | crates/yadorilink-daemon/src/author_identity.rs:144-167 | After any failed writes, one rotation whose write succeeds leaves the slot on the current record with its sidecar durable |
| `AuthorIdentity.DiedIncarnationNeverGivenOut` | crates/yadorilink-sync-sqlite/src/author_incarnation.rs:247-296 | No incarnation minted before a crash, replaced already or still current, is given out after it unless it is current and the sidecar is its own or names the one its rebootstrap replaced |
| `AuthorIdentity.GivenOutAfterCrashIff` | crates/yadorilink-sync-sqlite/src/author_incarnation.rs:247-296 | Right after a crash a record minted before it can still be given out in some continuation exactly under that condition |
| `AuthorIdentity.RebootstrapSurvivesItsCrash` | crates/yadorilink-sync-sqlite/src/author_incarnation.rs:281-296 | A run in which such an excepted incarnation is given out |
| `AuthorIdentity.OpenKeepsTheRecordIff` | crates/yadorilink-daemon/src/author_identity.rs:83-104 | The exact condition under which an open keeps the record it finds; otherwise it mints; either way slot and sidecar end on the current record |
| `AuthorIdentity.Replica.EnsureIncarnation` | crates/yadorilink-sync-sqlite/src/author_incarnation.rs:247-281 | The check order device, sidecar, machine and what each mints |
| `AuthorIdentity.Replica.OpenAuthorIdentity` | crates/yadorilink-daemon/src/author_identity.rs:83-104 | The call ends in the specified state for each way the sidecar write can end |
| `AuthorIdentity.Replica.RotateOnOwnAuthorAhead` | crates/yadorilink-daemon/src/author_identity.rs:144-167 | The call ends in the specified state; without a report and with the slot current it changes nothing |
| `AuthorIdentity.Replica.Publish` | crates/yadorilink-daemon/src/author_identity.rs:124-131 | The handle is given out only after a durable write |
| `SingleFlight.OneRunningLeader` | crates/yadorilink-daemon/src/hydration_single_flight.rs:129-143 | In every reachable state at most one leader of a group and folded path is unfinished |
| `SingleFlight.FollowerGetsItsRound` | crates/yadorilink-daemon/src/hydration_single_flight.rs:84-143 | A follower gets the outcome of the round running when it joined, as its leader finished it afterwards, failure if dropped; never an earlier round's |
| `SingleFlight.NoFollowerStranded` | crates/yadorilink-daemon/src/hydration_single_flight.rs:100-118 | A waiting follower's leader can finish, or its broadcast is to come, or it can be read |
| `SingleFlight.StepKeepsInv` | crates/yadorilink-daemon/src/hydration_single_flight.rs:84-143 | Every join, finish, broadcast and receipt keeps the map equal to the running rounds |
| `SingleFlight.HydrateSingleFlight.Join` | crates/yadorilink-daemon/src/hydration_single_flight.rs:129-143 | A caller follows the registered round or registers and leads a new one |
| `SingleFlight.HydrateSingleFlight.Drop` | crates/yadorilink-daemon/src/hydration_single_flight.rs:100-118 | The entry goes and the outcome, or failure, is broadcast |
| `LinkSlots.StepKeepsInv` | crates/yadorilink-daemon/src/link_registry.rs:57-78 | Every reserve, publish, give-up, notify and stop step keeps slot ownership and wakeups |
| `LinkSlots.StartingWhileReserved` | crates/yadorilink-daemon/src/link_registry.rs:162-190 | Unless a stop of that path panicked, its slot is starting exactly while one unresolved reservation owns it |
| `LinkSlots.WaitingStopIsWoken` | crates/yadorilink-daemon/src/link_registry.rs:215-227 | A waiting stop is woken, or its slot is still starting, or the wakeup is to come and reaches it |
| `LinkSlots.TakePanicsIff` | crates/yadorilink-daemon/src/link_registry.rs:215-237 | On a path that has not panicked, a take reaches the branch called unreachable exactly when a start reserved the path between the stop's two lock acquisitions and is unresolved at the second |
| `LinkSlots.PathPanicsIff` | crates/yadorilink-daemon/src/link_registry.rs:215-237 | In every run a path has panicked exactly if a start slipped in like that for some stop of it, whatever else happened |
| `LinkSlots.KeptOutNeverPanics` | crates/yadorilink-daemon/src/link_registry.rs:206-237 | If no start of a path is begun while a stop of it is between its look and its take, that path never panics |
| `LinkSlots.StopPanics` | crates/yadorilink-daemon/src/link_registry.rs:228-236 | A run that reaches it |
| `LinkSlots.TakeReturnsWhatItSaw` | crates/yadorilink-daemon/src/link_registry.rs:215-237 | With no start in between, a stop returns the runtime it saw, or nothing if it saw nothing |
| `LinkSlots.LinkRegistry.ReserveStarting` | crates/yadorilink-daemon/src/link_registry.rs:162-175 | A slot is reserved exactly if the path has none |
| `LinkSlots.LinkRegistry.PublishReady` | crates/yadorilink-daemon/src/link_registry.rs:180-183 | The slot becomes ready, no other changes |
| `LinkSlots.LinkRegistry.RemoveStartingReservation` | crates/yadorilink-daemon/src/link_registry.rs:187-190 | The slot goes, no other changes |
| `LinkSlots.LinkRegistry.TakeReady` | crates/yadorilink-daemon/src/link_registry.rs:228-236 | The slot is removed whatever it holds, and its runtime returned if ready |
| `Merkle.ComputeMerkleRoot` | crates/yadorilink-replica-domain/src/authorization_checkpoint.rs:318-328 | The level-by-level loop computes the root of the recursive tree |
| `Merkle.ExpectedProofDepth` | crates/yadorilink-replica-domain/src/authorization_checkpoint.rs:336-347 | The loop counts the levels of the tree |
| `Merkle.RecomputeRootFromProof` | crates/yadorilink-replica-domain/src/authorization_checkpoint.rs:401-413 | The loop climbs the path |
| `Merkle.BuildMerkleProofs` | crates/yadorilink-replica-domain/src/authorization_checkpoint.rs:374-399 | Hashing each level once gives every change the proof its own climb would |
| `Merkle.BuiltProofVerifiesIff` | crates/yadorilink-replica-domain/src/authorization_checkpoint.rs:669-687 | A built proof passes exactly against a checkpoint that commits to this batch's root and size |
| `Merkle.VerifiedChangeIsInBatch` | crates/yadorilink-replica-domain/src/authorization_checkpoint.rs:669-687 | Against a batch's root and size only the change at that position with its own proof passes, unless SHA-256 collides |
| `Merkle.RepeatedLastChangeHasTheSameRoot` | crates/yadorilink-replica-domain/src/authorization_checkpoint.rs:307-328 | Repeating the last change of an odd batch keeps the root, which is why the size is committed to |
| `RequestId.PendingBatchRequestId` | crates/yadorilink-daemon/src/checkpoint_source.rs:119-132 | The hashing loop computes the specified id |
| `RequestId.IdIgnoresOrder` | crates/yadorilink-daemon/src/checkpoint_source.rs:119-132 | The id does not depend on the order of the hashes |
| `RequestId.SameIdIffSameBatch` | crates/yadorilink-daemon/src/checkpoint_source.rs:104-132 | For one group and device the id repeats exactly for the same batch, unless SHA-256 collides |
| `RequestId.SameIdIffSameRequest` | crates/yadorilink-daemon/src/checkpoint_source.rs:119-132 | Between two requests that both have a zero-free group and device, the id tells everything apart |
| `RequestBoundary.UnmistakableIff` | crates/yadorilink-daemon/src/checkpoint_source.rs:119-132 | A request is hashed unlike every other group, device and batch exactly when its group and device hold no zero byte and none of its hashes ends in one (the last sorted hash may, if empty batches are excluded) |
| `RequestBoundary.UnmistakableId` | crates/yadorilink-daemon/src/checkpoint_source.rs:119-132 | Such a request shares its id with no other request, unless SHA-256 collides |
| `RequestBoundary.ZeroFreePairSharesItsId` | crates/yadorilink-daemon/src/checkpoint_source.rs:123-129 | A zero-free group and device with a hash that ends in a zero byte share their id with a longer device |
| `RequestBoundary.ZeroByteMovesTheBoundary` | crates/yadorilink-daemon/src/checkpoint_source.rs:123-126 | With a zero byte inside the group or device two different requests are hashed alike |
| `Flush.VerifyLeaves` | crates/yadorilink-daemon/src/native_checkpoint_flush.rs:126-142 | All leaves are reported included exactly if all are and no stop was seen; then each index was checked once, in order; a failure is at the first bad leaf |
| `Flush.AllOrFirst` | crates/yadorilink-daemon/src/native_checkpoint_flush.rs:126-136 | A checkpoint covers the whole batch or fails its first leaf |
| `Flush.AuthorizedIffSignedFor` | crates/yadorilink-replica-domain/src/authorization_checkpoint.rs:637-662 | A checkpoint passes exactly if the authority in force at its policy head signed it for this group, device and signing key |
| `Flush.CheckReply` | crates/yadorilink-daemon/src/native_checkpoint_flush.rs:112-145 | Nothing is reported exactly when the checkpoint is signed for this device, covers exactly this batch, and no stop was seen |
| `Flush.PublishingDrains` | crates/yadorilink-daemon/src/native_checkpoint_flush.rs:82-89 | Evidence for the first pending deltas leaves exactly the rest pending, in order |
| `Flush.NativeStore.FlushPending` | crates/yadorilink-daemon/src/native_checkpoint_flush.rs:73-173 | Evidence is attached for the whole capped batch exactly when the checkpoint is authorized and covers that batch, no stop was seen and the write succeeds; otherwise for nothing; the batch leaves the front of the backlog |
| `Flush.NativeStore.AttachAuthorizationEvidence` | crates/yadorilink-daemon/src/native_checkpoint_flush.rs:144-164 | Each delta of the batch gets the checkpoint and its own proof; no other evidence changes |
| `Gc.StepKeepsInv` | crates/yadorilink-daemon/src/gc.rs:154-237 | Every step of writers, sweeps, caching, row removal and time keeps the gate, the running flag and the live set |
| `Gc.ReferencedBlockStays` | crates/yadorilink-daemon/src/gc.rs:154-237 | In every interleaving a stored block a committed row refers to survives the next step |
| `Gc.OneSweepAtATime` | crates/yadorilink-daemon/src/gc_state.rs:94-123 | At most one sweep is unfinished, the flag is up exactly then, and the deletion guard excludes writers |
| `Gc.SweepCanGoOn` | crates/yadorilink-daemon/src/gc.rs:154-237 | An unfinished sweep can always take a step unless it waits for writers in the gate |
| `Gc.NothingLiveNothingDeleted` | crates/yadorilink-daemon/src/gc.rs:199-219 | An automatic sweep that found nothing live, and a dry run, delete nothing |
| `Gc.StepKeepsGate` | crates/yadorilink-filesystem-sync/src/block_liveness.rs:15-60 | The gate's counts are those of the writers inside and no writer is inside while a sweep deletes |
| `Gc.GcState.TryStart` | crates/yadorilink-daemon/src/gc_state.rs:94-99 | The flag is claimed exactly if it was free |
| `Gc.GcState.SweepStore` | crates/yadorilink-daemon/src/gc.rs:193-236 | Exactly the old unreferenced blocks are counted and, unless dry, removed; the bytes reported are the bytes the store lost; every refusal changes nothing |
| `Gc.GcState.Record` | crates/yadorilink-daemon/src/gc_state.rs:72-89 | A dry run sets only the estimate; a real sweep sets the figures of the last one and leaves nothing to reclaim |
| `Gc.GcState.RunSweepSync` | crates/yadorilink-daemon/src/gc.rs:154-237 | Every exit leaves the flag as it was and keeps every referenced block; the error says which guard refused |

## Left out

- Cryptography, SQLite and the operating system's file calls: abstract functions, atomic commits and step outcomes.
- Transports, control socket, coordination client, credential store, diagnostics and metrics: plumbing and field mapping.
- Startup order, the command line, the Apple facade, wording, log handling and device configuration: calls into the parts above and tables of texts.
- The strong handoff proof, retention of old versions and the block store's compaction: other protocols.
- Degraded links, draining the registry at shutdown, `remove_if_ready` and the custody confirmer: map updates and delegation.
- Order of epochs in the policy log: the verifier does not check it, so nothing is claimed about it.
- Sorting itself: the library sort is a function proved to sort; the in-place moves are not modelled.
- Custody.FanOut: takes the answers in arrival order with the outcome of their re-check; `CustodyRuns` interleaves the re-checks.
- CustodyAnswers.ProtectedMeansCustody: one group at a time, since each cache entry belongs to one group; a read of the local summary gives the rows of the instant it happens at, which `RootSetMemo` shows to be an instant of that call.
- RootSetMemo.AnswersFromInsideTheCall: the scan of the rows is one read; the table of materialization proofs read beside it is part of that read.
- Login.StepKeepsFlow: a runtime that drops the flow's task at shutdown is not modelled.
- AuthorIdentity.HandleHasDurableSidecar: draws are assumed new; one open or rotation runs at a time, with rebootstraps, reports and crashes at any point; overlapping opens and a database restored together with its sidecar are not modelled.
- SingleFlight.FollowerGetsItsRound: path folding is any function; its Unicode rules are not modelled.
- Gc.ReferencedBlockStays: rows are committed only inside the write guard, as the deletion guard's contract states; commits outside it are not modelled.
- Flush.NativeStore.FlushPending: one flush at a time; evidence attached by another flush in between is not modelled.

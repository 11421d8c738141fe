/** Every interleaving of custody cycles, clears, membership changes, writes and
    time for one group. Each event is one atomic step of the program; the world
    keeps the log of all events, and what a reader may conclude from `Protected`
    is stated about that log. */
module CustodyRuns {
  import opened Bytes
  import opened Custody

  type CycleId = nat
  type QueryId = nat

  /** Where in the log a cycle did what it later relies on. */
  datatype Trail = Trail(
    generationAt: nat, epochAt: nat, localAt: nat, replyAt: nat,
    generationCheckAt: nat, replicaCheckAt: nat, writerCheckAt: nat, rereadAt: nat)

  datatype Event =
    | CaptureGeneration(cycle: CycleId, generation: nat)
    | CaptureEpoch(cycle: CycleId, epoch: nat)
    | ReadLocal(cycle: CycleId, summary: Option<RootSetSummary>)
    | ChooseCandidates(cycle: CycleId, peers: set<PeerId>)
    | Reply(cycle: CycleId, peer: PeerId, reply: Option<PeerSummary>)
    | CheckGeneration(cycle: CycleId, generation: nat)
    | CheckReplica(cycle: CycleId, peer: PeerId, holds: bool)
    | CheckWriter(cycle: CycleId, peer: PeerId, holds: bool)
    | StopAsking(cycle: CycleId)
    | RereadLocal(cycle: CycleId, seen: Option<nat>)
    | ReadGeneration(cycle: CycleId, generation: nat)
    | Publish(cycle: CycleId, evidence: Evidence, generation: nat, time: nat, landed: bool, trail: Trail)
    | Clear
    | SetRoles(fullReplicas: set<PeerId>, writers: set<PeerId>)
    | BumpGeneration(generation: nat)
    | Tick(time: nat)
    | WriteRoots(count: nat, digest: Hash)
    | QueryGeneration(query: QueryId, generation: nat)
    | QueryCache(query: QueryId, time: nat)
    | QueryLocal(query: QueryId, local: Option<Hash>, confirmed: bool)

  datatype Stage =
    | NeedsEpoch | NeedsLocal | NeedsCandidates | Asking | CheckingGeneration | CheckingReplica | CheckingWriter
    | Rereading | ReadingGeneration | Publishing | Finished

  datatype Cycle = Cycle(
    stage: Stage, generationBefore: nat, epochBefore: nat, local: RootSetSummary, pending: set<PeerId>,
    reason: NotCorroboratedReason, peer: PeerId, rootsMatched: bool, evidence: Evidence,
    currentGeneration: nat, trail: Trail)

  datatype Query =
    | AskedGeneration(generation: nat, generationAt: nat)
    | AskedCache(generation: nat, generationAt: nat, cacheAt: nat, publishedAt: nat, digest: Hash)
    | Answered

  datatype World = World(
    now: nat, generation: nat, fullReplicas: set<PeerId>, writers: set<PeerId>, count: nat, digest: Hash,
    entry: CacheEntry, publishedAt: nat, cycles: map<CycleId, Cycle>, queries: map<QueryId, Query>, log: seq<Event>)

  const NO_SUMMARY := RootSetSummary(0, 0, ZERO_HASH, ZERO_HASH)
  const NO_TRAIL := Trail(0, 0, 0, 0, 0, 0, 0, 0)

  predicate Initial(w: World)
  {
    w.entry == EMPTY_ENTRY && w.cycles == map[] && w.queries == map[] && w.log == []
  }

  // ----- steps ----------------------------------------------------------

  predicate At(w: World, c: CycleId, stage: Stage)
  {
    c in w.cycles && w.cycles[c].stage == stage
  }

  /** The step can happen in `w`: its actor is at that point of the program and it
      reads what the world then holds. A local read gives the row counts and
      digest of the instant it happens at; the generation stamp it carries may be
      older, and the read may fail. */
  predicate Enabled(w: World, e: Event)
  {
    match e
    case CaptureGeneration(c, g) => c !in w.cycles && g == w.generation
    case CaptureEpoch(c, epoch) => At(w, c, NeedsEpoch) && epoch == w.entry.epoch
    case ReadLocal(c, s) =>
      At(w, c, NeedsLocal) && (s.Some? ==> s.value.currentCount == w.count && s.value.currentDigest == w.digest)
    case ChooseCandidates(c, peers) => At(w, c, NeedsCandidates)
    case Reply(c, peer, _) => At(w, c, Asking) && peer in w.cycles[c].pending
    case CheckGeneration(c, g) => At(w, c, CheckingGeneration) && g == w.generation
    case CheckReplica(c, peer, holds) =>
      At(w, c, CheckingReplica) && peer == w.cycles[c].peer && holds == (peer in w.fullReplicas)
    case CheckWriter(c, peer, holds) =>
      At(w, c, CheckingWriter) && peer == w.cycles[c].peer && holds == (peer in w.writers)
    case StopAsking(c) => At(w, c, Asking)
    case RereadLocal(c, _) => At(w, c, Rereading)
    case ReadGeneration(c, g) => At(w, c, ReadingGeneration) && g == w.generation
    case Publish(c, evidence, g, time, landed, trail) =>
      && At(w, c, Publishing) && evidence == w.cycles[c].evidence && g == w.cycles[c].generationBefore
      && time == w.now && trail == w.cycles[c].trail
      && landed == Lands(w.entry, evidence, w.cycles[c].epochBefore, w.cycles[c].currentGeneration, time)
    case Clear => true
    case SetRoles(_, _) => true
    case BumpGeneration(g) => g > w.generation
    case Tick(time) => time >= w.now
    case WriteRoots(_, _) => true
    case QueryGeneration(q, g) => q !in w.queries && g == w.generation
    case QueryCache(q, time) => q in w.queries && w.queries[q].AskedGeneration? && time == w.now
    case QueryLocal(q, local, confirmed) =>
      && q in w.queries && w.queries[q].AskedCache?
      && (local.Some? ==> local.value == w.digest)
      && confirmed == (local == Some(w.queries[q].digest))
  }

  function AfterLocal(cycle: Cycle, summary: Option<RootSetSummary>, at: nat): Cycle
  {
    match summary
    case None => cycle.(stage := ReadingGeneration, evidence := NotCorroborated(LocalStateUnreadable))
    case Some(local) =>
      var read := cycle.(local := local, trail := cycle.trail.(localAt := at));
      if local.currentCount == 0
      then read.(stage := ReadingGeneration, evidence := Corroborated(None, local.currentDigest, true))
      else read.(stage := NeedsCandidates)
  }

  function AfterReply(cycle: Cycle, peer: PeerId, reply: Option<PeerSummary>, at: nat): Cycle
  {
    var asked := cycle.(pending := cycle.pending - {peer});
    match reply
    case None => asked
    case Some(summary) =>
      match Objection(cycle.local, summary)
      case Some(objection) => asked.(reason := objection)
      case None => asked.(stage := CheckingGeneration, peer := peer,
                          rootsMatched := summary.rootsDigest == cycle.local.rootsDigest,
                          trail := cycle.trail.(replyAt := at))
  }

  /** The program's own step of a cycle. `at` is the event's place in the log. */
  function AfterEvent(cycle: Cycle, e: Event, at: nat): Cycle
  {
    match e
    case CaptureEpoch(_, epoch) =>
      cycle.(stage := NeedsLocal, epochBefore := epoch, trail := cycle.trail.(epochAt := at))
    case ReadLocal(_, summary) => AfterLocal(cycle, summary, at)
    case ChooseCandidates(_, peers) =>
      if peers == {} then cycle.(stage := ReadingGeneration, evidence := NotCorroborated(NoCandidatePeer))
      else cycle.(stage := Asking, pending := peers, reason := NoUsableReply)
    case Reply(_, peer, reply) => AfterReply(cycle, peer, reply, at)
    case CheckGeneration(_, g) =>
      if g == cycle.generationBefore
      then cycle.(stage := CheckingReplica, trail := cycle.trail.(generationCheckAt := at))
      else cycle.(stage := Asking, reason := PremisesMoved)
    case CheckReplica(_, _, holds) =>
      if holds then cycle.(stage := CheckingWriter, trail := cycle.trail.(replicaCheckAt := at))
      else cycle.(stage := Asking, reason := PremisesMoved)
    case CheckWriter(_, _, holds) =>
      if holds then cycle.(stage := Rereading, trail := cycle.trail.(writerCheckAt := at))
      else cycle.(stage := Asking, reason := PremisesMoved)
    case StopAsking(_) => cycle.(stage := ReadingGeneration, evidence := NotCorroborated(cycle.reason))
    case RereadLocal(_, seen) =>
      if seen != Some(cycle.local.generation)
      then cycle.(stage := ReadingGeneration, evidence := NotCorroborated(PremisesMoved))
      else cycle.(stage := ReadingGeneration,
                  evidence := Corroborated(Some(cycle.peer), cycle.local.currentDigest, cycle.rootsMatched),
                  trail := cycle.trail.(rereadAt := at))
    case ReadGeneration(_, g) => cycle.(stage := Publishing, currentGeneration := g)
    case Publish(_, _, _, _, _, _) => cycle.(stage := Finished)
    case _ => cycle
  }

  function FirstStep(generation: nat, at: nat): Cycle
  {
    Cycle(NeedsEpoch, generation, 0, NO_SUMMARY, {}, NoUsableReply, "", false, NotCorroborated(NoUsableReply), 0,
          NO_TRAIL.(generationAt := at))
  }

  function AfterCacheRead(w: World, query: Query, at: nat): Query
    requires query.AskedGeneration?
  {
    match FreshCorroboration(w.entry, query.generation, w.now)
    case None => Answered
    case Some(found) => AskedCache(query.generation, query.generationAt, at, w.publishedAt, found.1)
  }

  function Step(w: World, e: Event): World
    requires Enabled(w, e)
  {
    var at := |w.log|;
    var next := w.(log := w.log + [e]);
    match e
    case CaptureGeneration(c, g) => next.(cycles := w.cycles[c := FirstStep(g, at)])
    case Publish(c, evidence, g, time, landed, _) =>
      next.(cycles := w.cycles[c := AfterEvent(w.cycles[c], e, at)],
            entry := Published(w.entry, evidence, g, w.cycles[c].epochBefore, w.cycles[c].currentGeneration, time),
            publishedAt := if landed then at else w.publishedAt)
    case Clear => next.(entry := Cleared(w.entry))
    case SetRoles(fullReplicas, writers) => next.(fullReplicas := fullReplicas, writers := writers)
    case BumpGeneration(g) => next.(generation := g)
    case Tick(time) => next.(now := time)
    case WriteRoots(count, digest) => next.(count := count, digest := digest)
    case QueryGeneration(q, g) => next.(queries := w.queries[q := AskedGeneration(g, at)])
    case QueryCache(q, _) => next.(queries := w.queries[q := AfterCacheRead(w, w.queries[q], at)])
    case QueryLocal(q, _, _) => next.(queries := w.queries[q := Answered])
    case _ => next.(cycles := w.cycles[e.cycle := AfterEvent(w.cycles[e.cycle], e, at)])
  }

  predicate StepAt(ws: seq<World>, es: seq<Event>, i: nat)
    requires i < |es| < |ws|
  {
    Enabled(ws[i], es[i]) && ws[i + 1] == Step(ws[i], es[i])
  }

  /** A run: the worlds passed through and the events between them. */
  predicate Run(ws: seq<World>, es: seq<Event>)
  {
    |ws| == |es| + 1 && Initial(ws[0]) && forall i :: 0 <= i < |es| ==> StepAt(ws, es, i)
  }

  // ----- what the log then shows ----------------------------------------

  predicate NoClearFrom(log: seq<Event>, from: nat)
  {
    forall i :: from <= i < |log| ==> !log[i].Clear?
  }

  function Clears(log: seq<Event>): nat
  {
    if log == [] then 0 else Clears(log[..|log| - 1]) + if log[|log| - 1].Clear? then 1 else 0
  }

  /** The first part of a cycle: the generation it captured, then the epoch, which
      counts the clears so far, then a readable local state with `digest`. */
  predicate BeganProperly(log: seq<Event>, c: CycleId, t: Trail, generation: nat)
  {
    && t.generationAt < t.epochAt < |log|
    && log[t.generationAt] == CaptureGeneration(c, generation)
    && log[t.epochAt] == CaptureEpoch(c, Clears(log[..t.epochAt]))
  }

  predicate SawLocal(log: seq<Event>, c: CycleId, t: Trail, local: RootSetSummary)
  {
    t.epochAt < t.localAt < |log| && log[t.localAt] == ReadLocal(c, Some(local))
  }

  /** A peer answered after the local read: eager, fully materialized, same digest. */
  predicate PeerAgreed(log: seq<Event>, c: CycleId, t: Trail, peer: PeerId, digest: Hash)
  {
    && t.localAt < t.replyAt < |log| && log[t.replyAt].Reply?
    && log[t.replyAt].cycle == c && log[t.replyAt].peer == peer && log[t.replyAt].reply.Some?
    && var reply := log[t.replyAt].reply.value;
       reply.eager && reply.fullyMaterialized && reply.currentDigest == digest
  }

  predicate GenerationRechecked(log: seq<Event>, c: CycleId, t: Trail, generation: nat)
  {
    t.replyAt < t.generationCheckAt < |log| && log[t.generationCheckAt] == CheckGeneration(c, generation)
  }

  predicate ReplicaRechecked(log: seq<Event>, c: CycleId, t: Trail, peer: PeerId)
  {
    t.generationCheckAt < t.replicaCheckAt < |log| && log[t.replicaCheckAt] == CheckReplica(c, peer, true)
  }

  predicate WriterRechecked(log: seq<Event>, c: CycleId, t: Trail, peer: PeerId)
  {
    t.replicaCheckAt < t.writerCheckAt < |log| && log[t.writerCheckAt] == CheckWriter(c, peer, true)
  }

  predicate LocalUnmoved(log: seq<Event>, c: CycleId, t: Trail, local: RootSetSummary)
  {
    t.writerCheckAt < t.rereadAt < |log| && log[t.rereadAt] == RereadLocal(c, Some(local.generation))
  }

  /** What a corroboration stands on: either a local read that saw no current files,
      or one agreeing peer, re-checked after it answered as a full replica and a
      writer under the captured generation, and a second local read that finds the
      first one's root-set generation. */
  predicate Grounded(log: seq<Event>, c: CycleId, t: Trail, generation: nat, evidence: Evidence)
    requires evidence.Corroborated?
  {
    && BeganProperly(log, c, t, generation)
    && t.epochAt < t.localAt < |log| && log[t.localAt].ReadLocal? && log[t.localAt].summary.Some?
    && var local := log[t.localAt].summary.value;
    && log[t.localAt].cycle == c && local.currentDigest == evidence.currentDigest
    && match evidence.peer
       case None => local.currentCount == 0
       case Some(peer) =>
         && PeerAgreed(log, c, t, peer, evidence.currentDigest)
         && GenerationRechecked(log, c, t, generation)
         && ReplicaRechecked(log, c, t, peer) && WriterRechecked(log, c, t, peer)
         && LocalUnmoved(log, c, t, local)
  }

  /** Event `p` published a grounded corroboration, with no clear since the cycle took its epoch. */
  predicate SoundPublication(log: seq<Event>, p: nat)
  {
    && p < |log| && log[p].Publish? && log[p].landed && log[p].evidence.Corroborated?
    && Grounded(log[..p], log[p].cycle, log[p].trail, log[p].generation, log[p].evidence)
    && forall i :: log[p].trail.epochAt <= i < p ==> !log[i].Clear?
  }

  // ----- the invariant --------------------------------------------------

  /** How much of the chain of observations a cycle in `stage` holds. */
  function Progress(stage: Stage): nat
  {
    match stage
    case NeedsEpoch => 0
    case NeedsLocal | ReadingGeneration | Publishing | Finished => 1
    case NeedsCandidates | Asking => 2
    case CheckingGeneration => 3
    case CheckingReplica => 4
    case CheckingWriter => 5
    case Rereading => 6
  }

  predicate Begun(log: seq<Event>, c: CycleId, cy: Cycle)
  {
    BeganProperly(log, c, cy.trail, cy.generationBefore) && cy.epochBefore == Clears(log[..cy.trail.epochAt])
  }

  /** What the log shows about a cycle at each point of its program. */
  predicate CycleInv(log: seq<Event>, c: CycleId, cy: Cycle)
  {
    var p := Progress(cy.stage);
    && cy.trail.generationAt < |log| && log[cy.trail.generationAt] == CaptureGeneration(c, cy.generationBefore)
    && (p >= 1 ==> Begun(log, c, cy))
    && (p >= 2 ==> SawLocal(log, c, cy.trail, cy.local))
    && (p >= 3 ==> PeerAgreed(log, c, cy.trail, cy.peer, cy.local.currentDigest))
    && (p >= 4 ==> GenerationRechecked(log, c, cy.trail, cy.generationBefore))
    && (p >= 5 ==> ReplicaRechecked(log, c, cy.trail, cy.peer))
    && (p >= 6 ==> WriterRechecked(log, c, cy.trail, cy.peer))
    && (cy.stage in {ReadingGeneration, Publishing} && cy.evidence.Corroborated? ==>
          Grounded(log, c, cy.trail, cy.generationBefore, cy.evidence))
  }

  /** What the log shows about the cached record. */
  predicate EntryInv(log: seq<Event>, entry: CacheEntry, publishedAt: nat)
  {
    && entry.epoch == Clears(log)
    && (entry.record.Some? && entry.record.value.outcome.Corroborated? ==>
          && SoundPublication(log, publishedAt)
          && NoClearFrom(log, publishedAt)
          && var p := log[publishedAt];
             entry.record.value == ConfirmationRecord(p.evidence, p.time, p.generation))
  }

  /** Query `q` asked for the generation at `asked` and at `read` found the corroboration
      published at `p`: published under that generation, at most the bound ago, and
      not cleared since. */
  predicate FoundFresh(log: seq<Event>, q: QueryId, asked: nat, read: nat, p: nat)
  {
    && asked < read < |log| && p < read
    && log[asked].QueryGeneration? && log[asked].query == q
    && log[read].QueryCache? && log[read].query == q
    && SoundPublication(log, p)
    && log[p].generation == log[asked].generation
    && log[read].time - log[p].time <= STALENESS_BOUND
    && forall i :: p <= i < read ==> !log[i].Clear?
  }

  predicate QueryInv(log: seq<Event>, q: QueryId, query: Query)
  {
    match query
    case AskedGeneration(g, asked) => asked < |log| && log[asked] == QueryGeneration(q, g)
    case AskedCache(_, asked, read, p, digest) =>
      FoundFresh(log, q, asked, read, p) && log[p].evidence.currentDigest == digest
    case Answered => true
  }

  ghost predicate Inv(w: World)
  {
    && EntryInv(w.log, w.entry, w.publishedAt)
    && (forall c :: c in w.cycles ==> CycleInv(w.log, c, w.cycles[c]))
    && (forall q :: q in w.queries ==> QueryInv(w.log, q, w.queries[q]))
  }

  // ----- a longer log shows what a shorter one showed -------------------

  lemma TakeOfLonger(log: seq<Event>, e: Event, n: nat)
    requires n <= |log|
    ensures (log + [e])[..n] == log[..n]
  {
  }

  lemma BeganStays(log: seq<Event>, e: Event, c: CycleId, t: Trail, generation: nat)
    requires BeganProperly(log, c, t, generation)
    ensures BeganProperly(log + [e], c, t, generation)
  {
    TakeOfLonger(log, e, t.epochAt);
  }

  lemma GroundedStays(log: seq<Event>, e: Event, c: CycleId, t: Trail, generation: nat, evidence: Evidence)
    requires evidence.Corroborated? && Grounded(log, c, t, generation, evidence)
    ensures Grounded(log + [e], c, t, generation, evidence)
  {
    BeganStays(log, e, c, t, generation);
  }

  lemma PublicationStays(log: seq<Event>, e: Event, p: nat)
    requires SoundPublication(log, p)
    ensures SoundPublication(log + [e], p)
  {
    TakeOfLonger(log, e, p);
  }

  lemma CycleStays(log: seq<Event>, e: Event, c: CycleId, cy: Cycle)
    requires CycleInv(log, c, cy)
    ensures CycleInv(log + [e], c, cy)
  {
    if Progress(cy.stage) >= 1 {
      BeganStays(log, e, c, cy.trail, cy.generationBefore);
      TakeOfLonger(log, e, cy.trail.epochAt);
    }
    if cy.stage in {ReadingGeneration, Publishing} && cy.evidence.Corroborated? {
      GroundedStays(log, e, c, cy.trail, cy.generationBefore, cy.evidence);
    }
  }

  lemma FoundStays(log: seq<Event>, e: Event, q: QueryId, asked: nat, read: nat, p: nat)
    requires FoundFresh(log, q, asked, read, p)
    ensures FoundFresh(log + [e], q, asked, read, p)
  {
    PublicationStays(log, e, p);
  }

  lemma QueryStays(log: seq<Event>, e: Event, q: QueryId, query: Query)
    requires QueryInv(log, q, query)
    ensures QueryInv(log + [e], q, query)
  {
    if query.AskedCache? {
      FoundStays(log, e, q, query.generationAt, query.cacheAt, query.publishedAt);
    }
  }

  // ----- each step keeps the invariant ----------------------------------

  lemma ClearsStep(log: seq<Event>, e: Event)
    ensures Clears(log + [e]) == Clears(log) + if e.Clear? then 1 else 0
  {
    TakeOfLonger(log, e, |log|);
    assert log[..|log|] == log;
  }

  /** As many clears as at `from`: none in between. */
  lemma {:induction false} EqualCountsNoClear(log: seq<Event>, from: nat)
    requires from <= |log|
    ensures Clears(log[..from]) <= Clears(log)
    ensures Clears(log[..from]) == Clears(log) ==> NoClearFrom(log, from)
  {
    if from == |log| {
      assert log[..from] == log;
    } else {
      var n := |log| - 1;
      EqualCountsNoClear(log[..n], from);
      assert log[..n][..from] == log[..from];
      assert forall i :: from <= i < n ==> log[..n][i] == log[i];
    }
  }

  lemma FirstStepInv(log: seq<Event>, c: CycleId, g: nat)
    ensures CycleInv(log + [CaptureGeneration(c, g)], c, FirstStep(g, |log|))
  {
  }

  predicate OfCycle(e: Event)
  {
    Starts(e) || Asks(e) || e.Reply? || e.CheckGeneration? || e.CheckReplica? || e.CheckWriter?
    || e.RereadLocal? || Ends(e)
  }

  predicate Starts(e: Event) { e.CaptureEpoch? || e.ReadLocal? }

  predicate Asks(e: Event) { e.ChooseCandidates? || e.StopAsking? }

  predicate Ends(e: Event) { e.ReadGeneration? || e.Publish? }

  /** The point of the program a cycle's event belongs to. */
  function StageOf(e: Event): Stage
    requires OfCycle(e)
  {
    match e
    case CaptureEpoch(_, _) => NeedsEpoch
    case ReadLocal(_, _) => NeedsLocal
    case ChooseCandidates(_, _) => NeedsCandidates
    case Reply(_, _, _) => Asking
    case StopAsking(_) => Asking
    case CheckGeneration(_, _) => CheckingGeneration
    case CheckReplica(_, _, _) => CheckingReplica
    case CheckWriter(_, _, _) => CheckingWriter
    case RereadLocal(_, _) => Rereading
    case ReadGeneration(_, _) => ReadingGeneration
    case Publish(_, _, _, _, _, _) => Publishing
  }

  /** `log` ends with `e`, the next step of cycle `cy`, and shows what the cycle relied on so far. */
  predicate Next(log: seq<Event>, e: Event, cy: Cycle)
  {
    && log != [] && log[|log| - 1] == e && OfCycle(e) && cy.stage == StageOf(e) && CycleInv(log, e.cycle, cy)
    && (e.CaptureEpoch? ==> cy.trail.generationAt < |log| - 1 && e.epoch == Clears(log[..|log| - 1]))
    && (e.CheckReplica? || e.CheckWriter? ==> e.peer == cy.peer)
  }

  /** What the trail points at lies before the event being added. */
  predicate Earlier(t: Trail, stage: Stage, at: nat)
  {
    var p := Progress(stage);
    && t.generationAt < at && (p >= 1 ==> t.epochAt < at) && (p >= 2 ==> t.localAt < at) && (p >= 3 ==> t.replyAt < at)
    && (p >= 4 ==> t.generationCheckAt < at) && (p >= 5 ==> t.replicaCheckAt < at) && (p >= 6 ==> t.writerCheckAt < at)
  }

  lemma CycleStarts(log: seq<Event>, e: Event, cy: Cycle)
    requires Next(log, e, cy) && Starts(e) && Earlier(cy.trail, cy.stage, |log| - 1)
    ensures CycleInv(log, e.cycle, AfterEvent(cy, e, |log| - 1))
  {
  }

  lemma CycleAsks(log: seq<Event>, e: Event, cy: Cycle)
    requires Next(log, e, cy) && Asks(e)
    ensures CycleInv(log, e.cycle, AfterEvent(cy, e, |log| - 1))
  {
  }

  lemma CycleHears(log: seq<Event>, e: Event, cy: Cycle)
    requires Next(log, e, cy) && e.Reply? && Earlier(cy.trail, cy.stage, |log| - 1)
    ensures CycleInv(log, e.cycle, AfterEvent(cy, e, |log| - 1))
  {
  }

  lemma CycleChecks(log: seq<Event>, e: Event, cy: Cycle)
    requires Next(log, e, cy) && (e.CheckGeneration? || e.CheckReplica? || e.CheckWriter?)
    requires Earlier(cy.trail, cy.stage, |log| - 1)
    ensures CycleInv(log, e.cycle, AfterEvent(cy, e, |log| - 1))
  {
  }

  lemma CycleRereads(log: seq<Event>, e: Event, cy: Cycle)
    requires Next(log, e, cy) && e.RereadLocal? && Earlier(cy.trail, cy.stage, |log| - 1)
    ensures CycleInv(log, e.cycle, AfterEvent(cy, e, |log| - 1))
  {
  }

  lemma CycleEnds(log: seq<Event>, e: Event, cy: Cycle)
    requires Next(log, e, cy) && Ends(e)
    ensures CycleInv(log, e.cycle, AfterEvent(cy, e, |log| - 1))
  {
  }

  lemma TrailIsEarlier(log: seq<Event>, c: CycleId, cy: Cycle)
    requires CycleInv(log, c, cy)
    ensures Earlier(cy.trail, cy.stage, |log|)
  {
  }

  lemma EnabledIsNext(w: World, e: Event)
    requires Enabled(w, e) && OfCycle(e) && w.entry.epoch == Clears(w.log)
    ensures w.cycles[e.cycle].stage == StageOf(e)
    ensures e.CaptureEpoch? ==> e.epoch == Clears(w.log)
    ensures e.CheckReplica? || e.CheckWriter? ==> e.peer == w.cycles[e.cycle].peer
  {
  }

  /** The cycle's own next step adds what that step observed. */
  lemma CycleAdvances(log: seq<Event>, e: Event, cy: Cycle, at: nat)
    requires Next(log, e, cy) && at == |log| - 1 && Earlier(cy.trail, cy.stage, at)
    ensures CycleInv(log, e.cycle, AfterEvent(cy, e, at))
  {
    if Starts(e) {
      CycleStarts(log, e, cy);
    } else if Asks(e) {
      CycleAsks(log, e, cy);
    } else if e.Reply? {
      CycleHears(log, e, cy);
    } else if e.RereadLocal? {
      CycleRereads(log, e, cy);
    } else if Ends(e) {
      CycleEnds(log, e, cy);
    } else {
      CycleChecks(log, e, cy);
    }
  }

  lemma OwnStepIsNext(w: World, e: Event, cy: Cycle)
    requires Enabled(w, e) && OfCycle(e) && w.entry.epoch == Clears(w.log)
    requires cy == w.cycles[e.cycle] && CycleInv(w.log, e.cycle, cy)
    ensures Next(w.log + [e], e, cy) && Earlier(cy.trail, cy.stage, |w.log|)
  {
    CycleStays(w.log, e, e.cycle, cy);
    TrailIsEarlier(w.log, e.cycle, cy);
    EnabledIsNext(w, e);
    TakeOfLonger(w.log, e, |w.log|);
    assert w.log[..|w.log|] == w.log;
  }

  lemma OwnStep(w: World, e: Event)
    requires Enabled(w, e) && OfCycle(e) && w.entry.epoch == Clears(w.log)
    requires CycleInv(w.log, e.cycle, w.cycles[e.cycle])
    ensures CycleInv(w.log + [e], e.cycle, AfterEvent(w.cycles[e.cycle], e, |w.log|))
  {
    OwnStepIsNext(w, e, w.cycles[e.cycle]);
    CycleAdvances(w.log + [e], e, w.cycles[e.cycle], |w.log|);
  }

  lemma EntryStays(log: seq<Event>, entry: CacheEntry, publishedAt: nat, e: Event)
    requires EntryInv(log, entry, publishedAt) && !e.Clear?
    ensures EntryInv(log + [e], entry, publishedAt)
  {
    ClearsStep(log, e);
    if entry.record.Some? && entry.record.value.outcome.Corroborated? {
      PublicationStays(log, e, publishedAt);
    }
  }

  /** A publication that lands had the current epoch, so no clear came since it was captured. */
  lemma LandedIsSound(w: World, e: Event)
    requires Enabled(w, e) && e.Publish? && CycleInv(w.log, e.cycle, w.cycles[e.cycle])
    requires w.entry.epoch == Clears(w.log) && e.landed && e.evidence.Corroborated?
    ensures SoundPublication(w.log + [e], |w.log|)
  {
    TakeOfLonger(w.log, e, |w.log|);
    assert w.log[..|w.log|] == w.log;
    EqualCountsNoClear(w.log, e.trail.epochAt);
  }

  lemma PublishedFields(w: World, e: Event)
    requires Enabled(w, e) && e.Publish?
    ensures Step(w, e).entry
         == if e.landed then w.entry.(record := Some(ConfirmationRecord(e.evidence, e.time, e.generation))) else w.entry
    ensures Step(w, e).publishedAt == if e.landed then |w.log| else w.publishedAt
  {
  }

  lemma EntryLanded(log: seq<Event>, entry: CacheEntry, e: Event)
    requires e.Publish? && entry.epoch == Clears(log)
    requires e.evidence.Corroborated? ==> SoundPublication(log + [e], |log|)
    ensures EntryInv(log + [e], entry.(record := Some(ConfirmationRecord(e.evidence, e.time, e.generation))), |log|)
  {
    ClearsStep(log, e);
  }

  lemma EntryPublished(w: World, e: Event)
    requires Enabled(w, e) && e.Publish? && CycleInv(w.log, e.cycle, w.cycles[e.cycle])
    requires EntryInv(w.log, w.entry, w.publishedAt)
    ensures EntryInv(w.log + [e], Step(w, e).entry, Step(w, e).publishedAt)
  {
    PublishedFields(w, e);
    if e.landed {
      if e.evidence.Corroborated? {
        LandedIsSound(w, e);
      }
      EntryLanded(w.log, w.entry, e);
    } else {
      EntryStays(w.log, w.entry, w.publishedAt, e);
    }
  }

  lemma StepFrame(w: World, e: Event)
    requires Enabled(w, e)
    ensures Step(w, e).log == w.log + [e]
    ensures !e.Publish? && !e.Clear? ==> Step(w, e).entry == w.entry && Step(w, e).publishedAt == w.publishedAt
  {
  }

  lemma CacheReadKeeps(w: World, e: Event)
    requires Enabled(w, e) && e.QueryCache? && EntryInv(w.log, w.entry, w.publishedAt) && QueryInv(w.log, e.query, w.queries[e.query])
    ensures QueryInv(w.log + [e], e.query, AfterCacheRead(w, w.queries[e.query], |w.log|))
  {
    if FreshCorroboration(w.entry, w.queries[e.query].generation, w.now).Some? {
      PublicationStays(w.log, e, w.publishedAt);
    }
  }

  lemma EntryStep(w: World, e: Event)
    requires Enabled(w, e) && Inv(w)
    ensures EntryInv(w.log + [e], Step(w, e).entry, Step(w, e).publishedAt)
  {
    if e.Publish? {
      EntryPublished(w, e);
    } else if e.Clear? {
      ClearsStep(w.log, e);
    } else {
      StepFrame(w, e);
      EntryStays(w.log, w.entry, w.publishedAt, e);
    }
  }

  lemma CycleStep(w: World, e: Event, c: CycleId)
    requires Enabled(w, e) && Inv(w) && c in Step(w, e).cycles
    ensures CycleInv(w.log + [e], c, Step(w, e).cycles[c])
  {
    if e.CaptureGeneration? && e.cycle == c {
      FirstStepInv(w.log, c, e.generation);
    } else if OfCycle(e) && e.cycle == c {
      OwnStep(w, e);
    } else {
      CycleStays(w.log, e, c, w.cycles[c]);
    }
  }

  predicate OfQuery(e: Event) { e.QueryGeneration? || e.QueryCache? || e.QueryLocal? }

  lemma QueriesFrame(w: World, e: Event)
    requires Enabled(w, e)
    ensures !OfQuery(e) ==> Step(w, e).queries == w.queries
    ensures OfQuery(e) ==> e.query in Step(w, e).queries && forall q :: q != e.query && q in Step(w, e).queries ==>
                             q in w.queries && Step(w, e).queries[q] == w.queries[q]
  {
  }

  lemma QueryStep(w: World, e: Event, q: QueryId)
    requires Enabled(w, e) && Inv(w) && q in Step(w, e).queries
    ensures QueryInv(w.log + [e], q, Step(w, e).queries[q])
  {
    QueriesFrame(w, e);
    if OfQuery(e) && e.query == q {
      if e.QueryCache? {
        CacheReadKeeps(w, e);
      }
    } else {
      QueryStays(w.log, e, q, w.queries[q]);
    }
  }

  lemma StepKeepsInv(w: World, e: Event)
    requires Enabled(w, e) && Inv(w)
    ensures Inv(Step(w, e)) && Step(w, e).log == w.log + [e]
  {
    StepFrame(w, e);
    EntryStep(w, e);
    forall c | c in Step(w, e).cycles ensures CycleInv(w.log + [e], c, Step(w, e).cycles[c]) {
      CycleStep(w, e, c);
    }
    forall q | q in Step(w, e).queries ensures QueryInv(w.log + [e], q, Step(w, e).queries[q]) {
      QueryStep(w, e, q);
    }
  }

  lemma InitialInv(w: World)
    requires Initial(w)
    ensures Inv(w)
  {
  }

  lemma StepInRun(ws: seq<World>, es: seq<Event>, k: nat)
    requires Run(ws, es) && k < |es| && Inv(ws[k])
    ensures Inv(ws[k + 1]) && ws[k + 1].log == ws[k].log + [es[k]]
  {
    assert StepAt(ws, es, k);
    StepKeepsInv(ws[k], es[k]);
  }

  lemma {:induction false} RunKeepsInv(ws: seq<World>, es: seq<Event>, n: nat)
    requires Run(ws, es) && n <= |es|
    ensures Inv(ws[n]) && ws[n].log == es[..n]
    decreases n
  {
    if n == 0 {
      InitialInv(ws[0]);
    } else {
      RunKeepsInv(ws, es, n - 1);
      StepInRun(ws, es, n - 1);
      assert es[..n] == es[..n - 1] + [es[n - 1]];
    }
  }

  lemma RunOn(ws: seq<World>, es: seq<Event>, e: Event, next: World)
    requires Run(ws, es) && Enabled(ws[|es|], e) && next == Step(ws[|es|], e)
    ensures Run(ws + [next], es + [e])
  {
    forall i | 0 <= i < |es| + 1 ensures StepAt(ws + [next], es + [e], i) {
      if i < |es| {
        assert StepAt(ws, es, i);
      }
    }
  }
}

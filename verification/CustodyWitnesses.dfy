/** Runs of the custody machine that go against what its comments suggest: each is a
    concrete schedule, for any generation and digest. */
module CustodyWitnesses {
  import opened Bytes
  import opened Custody
  import opened CustodyRuns
  import opened CustodyAnswers

  /** Whatever else is known of the group, as long as nothing is distrusted. */
  ghost predicate EarnsProtected(confirmed: bool)
  {
    forall facts: DurabilityFacts :: !EvidenceDistrusted(facts) && facts.peerConfirmedCustody == confirmed ==>
                                       Classify(facts).Protected?
  }

  /** A world in which only the cache, one cycle and one query matter. */
  function Bare(
    g: nat, digest: Hash, entry: CacheEntry, publishedAt: nat, cycles: map<CycleId, Cycle>, queries: map<QueryId, Query>,
    log: seq<Event>): World
  {
    World(0, g, {}, {}, 0, digest, entry, publishedAt, cycles, queries, log)
  }

  const CLEARED: CacheEntry := CacheEntry(None, 1, None)
  const CLEARED_TRAIL: Trail := NO_TRAIL.(epochAt := 2, localAt := 3)

  function ClearedCycle(g: nat, digest: Hash): Cycle
  {
    FirstStep(g, 0).(stage := Publishing, epochBefore := 1, local := NO_SUMMARY.(currentDigest := digest),
                     evidence := Corroborated(None, digest, true), currentGeneration := g, trail := CLEARED_TRAIL)
  }

  /** A generation capture, a clear, then the epoch capture. */
  lemma ClearBetweenCaptures(g: nat, digest: Hash) returns (ws: seq<World>, es: seq<Event>)
    ensures es == [CaptureGeneration(0, g), Clear, CaptureEpoch(0, 1)] && Run(ws, es)
    ensures ws[3] == Bare(g, digest, CLEARED, 0,
                          map[0 := FirstStep(g, 0).(stage := NeedsLocal, epochBefore := 1, trail := NO_TRAIL.(epochAt := 2))],
                          map[], es)
  {
    var e0, e1, e2 := CaptureGeneration(0, g), Clear, CaptureEpoch(0, 1);
    es := [e0, e1, e2];
    var w0 := Bare(g, digest, EMPTY_ENTRY, 0, map[], map[], []);
    var w1 := Bare(g, digest, EMPTY_ENTRY, 0, map[0 := FirstStep(g, 0)], map[], [e0]);
    var w2 := Bare(g, digest, CLEARED, 0, map[0 := FirstStep(g, 0)], map[], [e0, e1]);
    ws := [w0, w1, w2, Step(w2, e2)];
    assert Step(w0, e0) == w1;
    assert Step(w1, e1) == w2;
  }

  /** The same cycle finds no current files and is about to publish that. */
  lemma ClearInsideCycle(g: nat, digest: Hash) returns (ws: seq<World>, es: seq<Event>)
    ensures |es| == 5 && es[0] == CaptureGeneration(0, g) && es[1] == Clear && Run(ws, es)
    ensures ws[5] == Bare(g, digest, CLEARED, 0, map[0 := ClearedCycle(g, digest)], map[], es)
  {
    ws, es := ClearBetweenCaptures(g, digest);
    var e3, e4 := ReadLocal(0, Some(NO_SUMMARY.(currentDigest := digest))), ReadGeneration(0, g);
    var w4 := Bare(g, digest, CLEARED, 0,
                   map[0 := ClearedCycle(g, digest).(stage := ReadingGeneration, currentGeneration := 0)], map[], es + [e3]);
    assert w4 == Step(ws[3], e3);
    RunOn(ws, es, e3, w4);
    var w5 := Step(w4, e4);
    RunOn(ws + [w4], es + [e3], e4, w5);
    ws, es := ws + [w4] + [w5], es + [e3] + [e4];
  }

  lemma ClearInsidePublishedCycle(g: nat, digest: Hash) returns (ws: seq<World>, es: seq<Event>, cycle: Cycle)
    ensures |es| == 6 && es[0] == CaptureGeneration(0, g) && es[1] == Clear && Run(ws, es)
    ensures es[5].Publish? && es[5].cycle == 0 && es[5].trail == CLEARED_TRAIL
    ensures var record := ConfirmationRecord(Corroborated(None, digest, true), 0, g);
            ws[6] == Bare(g, digest, CLEARED.(record := Some(record)), 5, map[0 := cycle], map[], es)
  {
    ws, es := ClearInsideCycle(g, digest);
    var e5 := Publish(0, Corroborated(None, digest, true), g, 0, true, CLEARED_TRAIL);
    var w6 := Step(ws[5], e5);
    RunOn(ws, es, e5, w6);
    cycle := w6.cycles[0];
    ws, es := ws + [w6], es + [e5];
  }

  /** A query reads the generation and the cache and finds this device's own digest. */
  lemma QueryFinds(ws: seq<World>, es: seq<Event>, g: nat, digest: Hash, entry: CacheEntry, p: nat, cycles: map<CycleId, Cycle>)
    returns (ws': seq<World>, es': seq<Event>)
    requires Run(ws, es) && ws[|es|] == Bare(g, digest, entry, p, cycles, map[], es)
    requires FreshCorroboration(entry, g, 0).Some? && FreshCorroboration(entry, g, 0).value.1 == digest
    ensures es' == es + [QueryGeneration(0, g), QueryCache(0, 0)] && Run(ws', es')
    ensures ws <= ws' && ws'[|es'|] == Bare(g, digest, entry, p, cycles, map[0 := AskedCache(g, |es|, |es| + 1, p, digest)], es')
  {
    var e6, e7 := QueryGeneration(0, g), QueryCache(0, 0);
    var w7 := Bare(g, digest, entry, p, cycles, map[0 := AskedGeneration(g, |es|)], es + [e6]);
    RunOn(ws, es, e6, w7);
    var w8 := Step(w7, e7);
    RunOn(ws + [w7], es + [e6], e7, w8);
    ws', es' := ws + [w7] + [w8], es + [e6] + [e7];
    assert es + [e6] + [e7] == es + [e6, e7];
  }

  /** And then compares it, which confirms. */
  lemma QueryAnswers(ws: seq<World>, es: seq<Event>, digest: Hash) returns (ws': seq<World>, es': seq<Event>)
    requires Run(ws, es) && ws[|es|].digest == digest
    requires 0 in ws[|es|].queries && ws[|es|].queries[0].AskedCache? && ws[|es|].queries[0].digest == digest
    ensures es' == es + [QueryLocal(0, Some(digest), true)] && Run(ws', es') && ws <= ws'
  {
    var e := QueryLocal(0, Some(digest), true);
    var next := Step(ws[|es|], e);
    RunOn(ws, es, e, next);
    ws', es' := ws + [next], es + [e];
  }

  /** The generation is captured before the epoch, so a clear may fall between them: in this run
      a cycle that began before the last clear earns `Protected`. */
  lemma ClearInsideProtectedCycle(g: nat, digest: Hash) returns (ws: seq<World>, es: seq<Event>)
    ensures Run(ws, es) && |es| == 9 && es[0] == CaptureGeneration(0, g) && es[1] == Clear
    ensures es[5].Publish? && es[5].cycle == 0 && es[5].trail.generationAt == 0
    ensures es[8] == QueryLocal(0, Some(digest), true) && EarnsProtected(es[8].confirmed)
  {
    var cycle;
    ws, es, cycle := ClearInsidePublishedCycle(g, digest);
    ws, es := QueryFinds(ws, es, g, digest, ws[6].entry, 5, map[0 := cycle]);
    ws, es := QueryAnswers(ws, es, digest);
  }

  // ----- between the cache read and the answer --------------------------

  const CLEAN_TRAIL: Trail := NO_TRAIL.(epochAt := 1, localAt := 2)

  function VacuousCycle(g: nat, digest: Hash, stage: Stage, currentGeneration: nat): Cycle
  {
    FirstStep(g, 0).(stage := stage, local := NO_SUMMARY.(currentDigest := digest),
                     evidence := Corroborated(None, digest, true), currentGeneration := currentGeneration, trail := CLEAN_TRAIL)
  }

  function BegunCycle(g: nat): Cycle
  {
    FirstStep(g, 0).(stage := NeedsLocal, trail := NO_TRAIL.(epochAt := 1))
  }

  lemma TwoCaptures(g: nat, digest: Hash) returns (ws: seq<World>, es: seq<Event>)
    ensures Run(ws, es) && es == [CaptureGeneration(0, g), CaptureEpoch(0, 0)]
    ensures ws[2] == Bare(g, digest, EMPTY_ENTRY, 0, map[0 := BegunCycle(g)], map[], es)
  {
    var e0, e1 := CaptureGeneration(0, g), CaptureEpoch(0, 0);
    es := [e0, e1];
    var w0 := Bare(g, digest, EMPTY_ENTRY, 0, map[], map[], []);
    var w1 := Bare(g, digest, EMPTY_ENTRY, 0, map[0 := FirstStep(g, 0)], map[], [e0]);
    ws := [w0, w1, Step(w1, e1)];
    assert Step(w0, e0) == w1;
  }

  /** A cycle over no current files, up to its publication, with nothing in between. */
  lemma CleanCycle(g: nat, digest: Hash) returns (ws: seq<World>, es: seq<Event>)
    ensures Run(ws, es) && |es| == 4 && es[0] == CaptureGeneration(0, g) && es[1] == CaptureEpoch(0, 0)
    ensures es[2].ReadLocal? && es[3] == ReadGeneration(0, g)
    ensures ws[4] == Bare(g, digest, EMPTY_ENTRY, 0, map[0 := VacuousCycle(g, digest, Publishing, g)], map[], es)
  {
    ws, es := TwoCaptures(g, digest);
    var e2, e3 := ReadLocal(0, Some(NO_SUMMARY.(currentDigest := digest))), ReadGeneration(0, g);
    var w3 := Bare(g, digest, EMPTY_ENTRY, 0, map[0 := VacuousCycle(g, digest, ReadingGeneration, 0)], map[], es + [e2]);
    RunOn(ws, es, e2, w3);
    ws, es := ws + [w3], es + [e2];
    var w4 := Bare(g, digest, EMPTY_ENTRY, 0, map[0 := VacuousCycle(g, digest, Publishing, g)], map[], es + [e3]);
    RunOn(ws, es, e3, w4);
    ws, es := ws + [w4], es + [e3];
  }

  function Recorded(g: nat, digest: Hash): CacheEntry
  {
    EMPTY_ENTRY.(record := Some(ConfirmationRecord(Corroborated(None, digest, true), 0, g)))
  }

  lemma CleanCycleFound(g: nat, digest: Hash) returns (ws: seq<World>, es: seq<Event>)
    ensures Run(ws, es) && |es| == 7 && es[0] == CaptureGeneration(0, g) && es[1] == CaptureEpoch(0, 0) && NoClearBetween(es, 0, 7)
    ensures es[4].Publish? && es[4].cycle == 0 && es[4].trail == CLEAN_TRAIL && es[4].generation == g
    ensures es[5] == QueryGeneration(0, g) && es[6] == QueryCache(0, 0)
    ensures ws[7].digest == digest && ws[7].generation == g
    ensures ws[7].queries == map[0 := AskedCache(g, 5, 6, 4, digest)]
  {
    ws, es := CleanCycle(g, digest);
    var e4 := Publish(0, Corroborated(None, digest, true), g, 0, true, CLEAN_TRAIL);
    var w5 := Bare(g, digest, Recorded(g, digest), 4, map[0 := VacuousCycle(g, digest, Finished, g)], map[], es + [e4]);
    RunOn(ws, es, e4, w5);
    ws, es := QueryFinds(ws + [w5], es + [e4], g, digest, Recorded(g, digest), 4, w5.cycles);
  }

  /** The cycle has no clear between its captures, but one falls after the query read the cache:
      again it began before the last clear and earns `Protected`. */
  lemma ClearBeforeTheAnswer(g: nat, digest: Hash) returns (ws: seq<World>, es: seq<Event>)
    ensures Run(ws, es) && |es| == 9 && es[0] == CaptureGeneration(0, g) && NoClearBetween(es, 0, 7) && es[7] == Clear
    ensures es[4].Publish? && es[4].cycle == 0 && es[4].trail.generationAt == 0
    ensures es[8] == QueryLocal(0, Some(digest), true) && EarnsProtected(es[8].confirmed)
  {
    ws, es := CleanCycleFound(g, digest);
    var next := Step(ws[7], Clear);
    RunOn(ws, es, Clear, next);
    ws, es := QueryAnswers(ws + [next], es + [Clear], digest);
  }

  /** Likewise the membership can move after the query read it: `Protected` under a generation
      that is no longer the group's. */
  lemma MembershipMovesBeforeTheAnswer(g: nat, digest: Hash) returns (ws: seq<World>, es: seq<Event>)
    ensures Run(ws, es) && |es| == 9 && es[4].Publish? && es[4].generation == g && ws[8].generation == g + 1
    ensures es[8] == QueryLocal(0, Some(digest), true) && EarnsProtected(es[8].confirmed)
  {
    ws, es := CleanCycleFound(g, digest);
    var next := Step(ws[7], BumpGeneration(g + 1));
    RunOn(ws, es, BumpGeneration(g + 1), next);
    ws, es := QueryAnswers(ws + [next], es + [BumpGeneration(g + 1)], digest);
  }

  // ----- an absence that erases -----------------------------------------

  /** A cycle whose local read failed, about to publish that under generation `g`. */
  function UnreadableCycle(g: nat, stage: Stage, currentGeneration: nat): Cycle
  {
    FirstStep(g, 0).(stage := stage, evidence := NotCorroborated(LocalStateUnreadable),
                     currentGeneration := currentGeneration, trail := NO_TRAIL.(epochAt := 1))
  }

  lemma Absence(g: nat, digest: Hash) returns (ws: seq<World>, es: seq<Event>)
    ensures Run(ws, es) && |es| == 4 && NoClearBetween(es, 0, 4)
    ensures ws[4] == Bare(g, digest, EMPTY_ENTRY, 0, map[0 := UnreadableCycle(g, Publishing, g)], map[], es)
  {
    ws, es := TwoCaptures(g, digest);
    var e2, e3 := ReadLocal(0, None), ReadGeneration(0, g);
    var w3 := Bare(g, digest, EMPTY_ENTRY, 0, map[0 := UnreadableCycle(g, ReadingGeneration, 0)], map[], es + [e2]);
    RunOn(ws, es, e2, w3);
    ws, es := ws + [w3], es + [e2];
    var w4 := Bare(g, digest, EMPTY_ENTRY, 0, map[0 := UnreadableCycle(g, Publishing, g)], map[], es + [e3]);
    RunOn(ws, es, e3, w4);
    ws, es := ws + [w4], es + [e3];
  }

  /** The membership moves, and a second cycle takes its two captures after that. */
  lemma SlowAbsence(g: nat, digest: Hash) returns (ws: seq<World>, es: seq<Event>)
    ensures Run(ws, es) && |es| == 6 && NoClearBetween(es, 0, 6)
    ensures ws[6] == Bare(g + 1, digest, EMPTY_ENTRY, 0,
                          map[0 := UnreadableCycle(g, Publishing, g), 1 := FirstStep(g + 1, 5)], map[], es)
  {
    ws, es := Absence(g, digest);
    var slow := UnreadableCycle(g, Publishing, g);
    var e4, e5 := BumpGeneration(g + 1), CaptureGeneration(1, g + 1);
    var w5 := Bare(g + 1, digest, EMPTY_ENTRY, 0, map[0 := slow], map[], es + [e4]);
    RunOn(ws, es, e4, w5);
    ws, es := ws + [w5], es + [e4];
    var w6 := Bare(g + 1, digest, EMPTY_ENTRY, 0, map[0 := slow, 1 := FirstStep(g + 1, 5)], map[], es + [e5]);
    RunOn(ws, es, e5, w6);
    ws, es := ws + [w6], es + [e5];
  }

  /** A later cycle over no current files, as `VacuousCycle`, begun at event `at`. */
  function LaterCycle(g: nat, digest: Hash, at: nat, stage: Stage, currentGeneration: nat): Cycle
  {
    VacuousCycle(g, digest, stage, currentGeneration).(trail := Trail(at, at + 1, at + 2, 0, 0, 0, 0, 0))
  }

  lemma SecondCycleReads(g: nat, digest: Hash) returns (ws: seq<World>, es: seq<Event>)
    ensures Run(ws, es) && |es| == 8 && NoClearBetween(es, 0, 8)
    ensures ws[8] == Bare(g + 1, digest, EMPTY_ENTRY, 0,
                          map[0 := UnreadableCycle(g, Publishing, g), 1 := LaterCycle(g + 1, digest, 5, ReadingGeneration, 0)],
                          map[], es)
  {
    ws, es := SlowAbsence(g, digest);
    var slow := UnreadableCycle(g, Publishing, g);
    var e6, e7 := CaptureEpoch(1, 0), ReadLocal(1, Some(NO_SUMMARY.(currentDigest := digest)));
    var begun := FirstStep(g + 1, 5).(stage := NeedsLocal, trail := NO_TRAIL.(generationAt := 5, epochAt := 6));
    var w7 := Bare(g + 1, digest, EMPTY_ENTRY, 0, map[0 := slow, 1 := begun], map[], es + [e6]);
    RunOn(ws, es, e6, w7);
    ws, es := ws + [w7], es + [e6];
    var w8 := Bare(g + 1, digest, EMPTY_ENTRY, 0,
                   map[0 := slow, 1 := LaterCycle(g + 1, digest, 5, ReadingGeneration, 0)], map[], es + [e7]);
    RunOn(ws, es, e7, w8);
    ws, es := ws + [w8], es + [e7];
  }

  lemma FreshBesideSlowAbsence(g: nat, digest: Hash) returns (ws: seq<World>, es: seq<Event>)
    ensures Run(ws, es) && |es| == 9 && NoClearBetween(es, 0, 9)
    ensures ws[9] == Bare(g + 1, digest, EMPTY_ENTRY, 0,
                          map[0 := UnreadableCycle(g, Publishing, g), 1 := LaterCycle(g + 1, digest, 5, Publishing, g + 1)],
                          map[], es)
  {
    ws, es := SecondCycleReads(g, digest);
    var e8 := ReadGeneration(1, g + 1);
    var w9 := Bare(g + 1, digest, EMPTY_ENTRY, 0,
                   map[0 := UnreadableCycle(g, Publishing, g), 1 := LaterCycle(g + 1, digest, 5, Publishing, g + 1)],
                   map[], es + [e8]);
    RunOn(ws, es, e8, w9);
    ws, es := ws + [w9], es + [e8];
  }

  /** Two cycles of one group: the first reads the generation, the membership moves, the second
      corroborates under the new one, and then the first publishes that it could not
      read its own state. That absence erases a corroboration every reader trusted,
      with no clear and no contradiction. */
  lemma StaleAbsenceErases(g: nat, digest: Hash) returns (ws: seq<World>, es: seq<Event>)
    ensures Run(ws, es) && |es| == 11 && NoClearBetween(es, 0, 11)
    ensures es[10].Publish? && es[10].evidence == NotCorroborated(LocalStateUnreadable)
    ensures Trusted(ws[10]) && TrustedByNobody(ws[11].entry)
  {
    ws, es := FreshBesideSlowAbsence(g, digest);
    var trail := Trail(5, 6, 7, 0, 0, 0, 0, 0);
    var e9 := Publish(1, Corroborated(None, digest, true), g + 1, 0, true, trail);
    var w10 := Bare(g + 1, digest, Recorded(g + 1, digest), 9,
                    map[0 := UnreadableCycle(g, Publishing, g), 1 := LaterCycle(g + 1, digest, 5, Finished, g + 1)], map[], es + [e9]);
    RunOn(ws, es, e9, w10);
    ws, es := ws + [w10], es + [e9];
    var e10 := Publish(0, NotCorroborated(LocalStateUnreadable), g, 0, true, NO_TRAIL.(epochAt := 1));
    var w11 := Step(w10, e10);
    RunOn(ws, es, e10, w11);
    PublishRetractsIff(w10, e10);
    ws, es := ws + [w11], es + [e10];
  }
}

/** What a reader may conclude from the custody cache, in every run: what `Protected`
    stands for at the moment it is answered, and what a published failure takes away. */
module CustodyAnswers {
  import opened Bytes
  import opened Custody
  import opened CustodyRuns

  predicate NoClearBetween(es: seq<Event>, from: nat, to: nat)
    requires to <= |es|
  {
    forall i :: from <= i < to ==> !es[i].Clear?
  }

  predicate NoBumpBetween(es: seq<Event>, from: nat, to: nat)
    requires to <= |es|
  {
    forall i :: from <= i < to ==> !es[i].BumpGeneration?
  }

  // ----- the membership generation over a run ---------------------------

  lemma GenerationStep(w: World, e: Event)
    requires Enabled(w, e)
    ensures w.generation <= Step(w, e).generation && (w.generation == Step(w, e).generation <==> !e.BumpGeneration?)
  {
  }

  /** The generation at two points of a run is the same exactly when it was not moved in between. */
  lemma {:induction false} GenerationMoves(ws: seq<World>, es: seq<Event>, m: nat, n: nat)
    requires Run(ws, es) && m <= n <= |es|
    ensures ws[m].generation <= ws[n].generation
    ensures ws[m].generation == ws[n].generation <==> NoBumpBetween(es, m, n)
    decreases n
  {
    if m < n {
      GenerationMoves(ws, es, m, n - 1);
      assert StepAt(ws, es, n - 1);
      GenerationStep(ws[n - 1], es[n - 1]);
      assert NoBumpBetween(es, m, n) <==> NoBumpBetween(es, m, n - 1) && !es[n - 1].BumpGeneration?;
    }
  }

  /** An event that reads the generation reads the one of its moment. */
  lemma GenerationRead(ws: seq<World>, es: seq<Event>, i: nat)
    requires Run(ws, es) && i < |es|
    ensures es[i].QueryGeneration? || es[i].ReadGeneration? ==> es[i].generation == ws[i].generation
  {
    assert StepAt(ws, es, i);
  }

  // ----- what `Protected` means -----------------------------------------

  /** The evidence behind a confirmation answered at event `n`: a grounded corroboration
      published at `p`, under the membership generation the query read at `asked`,
      at most 270 s before its cache read at `read`, naming `digest`, with no clear
      between the cycle's epoch capture and that read. */
  predicate CustodyShown(es: seq<Event>, n: nat, asked: nat, read: nat, p: nat, digest: Hash)
    requires n < |es| && es[n].QueryLocal?
  {
    && FoundFresh(es[..n], es[n].query, asked, read, p)
    && es[p].evidence.currentDigest == digest
    && NoClearBetween(es, es[p].trail.epochAt, read)
  }

  /** At the answer, the whole cycle lies after the last clear exactly when none fell between its
      two captures nor between the query's cache read and its answer. */
  predicate BeganAfterLastClearIff(es: seq<Event>, n: nat, read: nat, t: Trail)
    requires n <= |es| && t.epochAt <= n
  {
    NoClearBetween(es, t.generationAt, n) <==> NoClearBetween(es, t.generationAt, t.epochAt) && NoClearBetween(es, read, n)
  }

  lemma FoundIsShown(es: seq<Event>, n: nat, asked: nat, read: nat, p: nat)
    requires n < |es| && es[n].QueryLocal? && FoundFresh(es[..n], es[n].query, asked, read, p)
    ensures CustodyShown(es, n, asked, read, p, es[p].evidence.currentDigest)
    ensures es[p].trail.generationAt < es[p].trail.epochAt < p < read < n
  {
    var log := es[..n];
    assert forall i :: 0 <= i < n ==> log[i] == es[i];
    assert BeganProperly(log[..p], es[p].cycle, es[p].trail, es[p].generation);
  }

  lemma ShownSplits(es: seq<Event>, n: nat, read: nat, t: Trail)
    requires t.generationAt < t.epochAt < read < n < |es| && NoClearBetween(es, t.epochAt, read)
    ensures BeganAfterLastClearIff(es, n, read, t)
  {
  }

  lemma ConfirmedIsFound(w: World, q: QueryId, local: Option<Hash>)
    requires Inv(w) && Enabled(w, QueryLocal(q, local, true))
    ensures w.queries[q].AskedCache?
    ensures var query := w.queries[q];
            && FoundFresh(w.log, q, query.generationAt, query.cacheAt, query.publishedAt)
            && w.log[query.publishedAt].evidence.currentDigest == w.digest
  {
    assert QueryInv(w.log, q, w.queries[q]);
  }

  /** In every interleaving, a status query that answers `Protected` has its evidence in
      the log, and that evidence names this device's own digest at the answer. The
      generation it was published under is still the group's at the answer exactly
      when no membership change came since the query read it, and the cycle began
      after the group's last clear exactly when none fell in either of two gaps. */
  lemma ProtectedMeansCustody(ws: seq<World>, es: seq<Event>, n: nat, facts: DurabilityFacts)
    returns (asked: nat, read: nat, p: nat)
    requires Run(ws, es) && n < |es| && es[n].QueryLocal?
    requires facts.peerConfirmedCustody == es[n].confirmed && Classify(facts).Protected?
    ensures CustodyShown(es, n, asked, read, p, ws[n].digest)
    ensures asked < read < n && p < n && es[p].Publish? && es[p].trail.epochAt < n
    ensures es[p].generation == ws[n].generation <==> NoBumpBetween(es, asked, n)
    ensures BeganAfterLastClearIff(es, n, read, es[p].trail)
  {
    RunKeepsInv(ws, es, n);
    assert StepAt(ws, es, n);
    ConfirmedIsFound(ws[n], es[n].query, es[n].local);
    var query := ws[n].queries[es[n].query];
    asked, read, p := query.generationAt, query.cacheAt, query.publishedAt;
    FoundIsShown(es, n, asked, read, p);
    ShownSplits(es, n, read, es[p].trail);
    GenerationRead(ws, es, asked);
    GenerationMoves(ws, es, asked, n);
    assert es[..n][asked] == es[asked] && es[..n][p] == es[p];
  }

  // ----- what a failed check takes away ---------------------------------

  /** Whether a reader that looks now would still trust the cached corroboration. */
  predicate Trusted(w: World)
  {
    FreshCorroboration(w.entry, w.generation, w.now).Some?
  }

  /** A failed check published over a trusted corroboration takes it away exactly when no clear
      came since the cycle took its epoch and it is a contradiction, or the
      membership moved after the cycle read it for this publication. */
  lemma PublishRetractsIff(w: World, e: Event)
    requires Enabled(w, e) && e.Publish? && e.evidence.NotCorroborated? && Trusted(w)
    ensures var cycle, next := w.cycles[e.cycle], Step(w, e);
            if cycle.epochBefore == w.entry.epoch
               && (e.evidence.reason.IsContradiction() || cycle.currentGeneration != w.generation)
            then TrustedByNobody(next.entry)
            else next.entry == w.entry
  {
    var cycle := w.cycles[e.cycle];
    RetractedIff(w.entry, e.evidence, e.generation, cycle.epochBefore, cycle.currentGeneration, w.generation, w.now);
  }

  lemma PublishingStep(w: World, e: Event, c: CycleId)
    requires Enabled(w, e) && At(Step(w, e), c, Publishing)
    ensures e == ReadGeneration(c, Step(w, e).cycles[c].currentGeneration)
            || (At(w, c, Publishing) && w.cycles[c] == Step(w, e).cycles[c])
  {
  }

  /** A cycle about to publish read the generation it holds at some earlier event. */
  lemma {:induction false} GenerationWasRead(ws: seq<World>, es: seq<Event>, n: nat, c: CycleId) returns (r: nat)
    requires Run(ws, es) && n <= |es| && At(ws[n], c, Publishing)
    ensures r < n && es[r] == ReadGeneration(c, ws[n].cycles[c].currentGeneration)
    decreases n
  {
    assert n > 0;
    assert StepAt(ws, es, n - 1);
    PublishingStep(ws[n - 1], es[n - 1], c);
    if es[n - 1] == ReadGeneration(c, ws[n].cycles[c].currentGeneration) {
      r := n - 1;
    } else {
      r := GenerationWasRead(ws, es, n - 1, c);
    }
  }

  lemma PublishFacts(w: World, e: Event)
    requires Enabled(w, e) && e.Publish? && Inv(w)
    ensures At(w, e.cycle, Publishing) && e.trail == w.cycles[e.cycle].trail && e.trail.epochAt < |w.log|
    ensures w.cycles[e.cycle].epochBefore == w.entry.epoch <==> NoClearFrom(w.log, e.trail.epochAt)
  {
    assert CycleInv(w.log, e.cycle, w.cycles[e.cycle]);
    EqualCountsNoClear(w.log, e.trail.epochAt);
    if NoClearFrom(w.log, e.trail.epochAt) {
      NoClearEqualCounts(w.log, e.trail.epochAt);
    }
  }

  lemma {:induction false} NoClearEqualCounts(log: seq<Event>, from: nat)
    requires from <= |log| && NoClearFrom(log, from)
    ensures Clears(log[..from]) == Clears(log)
  {
    if from == |log| {
      assert log[..from] == log;
    } else {
      var n := |log| - 1;
      assert forall i :: from <= i < n ==> log[..n][i] == log[i];
      NoClearEqualCounts(log[..n], from);
      assert log[..n][..from] == log[..from];
    }
  }

  /** In every run: a failed check published at `n` over a corroboration a reader would trust at
      that moment takes it away exactly when no clear fell since its cycle's epoch
      capture and it is a contradiction, or a membership change fell after the
      cycle's last reading of the generation, at `r`, and before the publication.
      Otherwise the cache is untouched. */
  lemma FailedCheckRetractsIff(ws: seq<World>, es: seq<Event>, n: nat) returns (r: nat)
    requires Run(ws, es) && n < |es| && es[n].Publish? && es[n].evidence.NotCorroborated? && Trusted(ws[n])
    ensures r < n && es[r].ReadGeneration? && es[r].cycle == es[n].cycle && es[n].trail.epochAt < n
    ensures if NoClearBetween(es, es[n].trail.epochAt, n)
               && (es[n].evidence.reason.IsContradiction() || !NoBumpBetween(es, r, n))
            then TrustedByNobody(ws[n + 1].entry)
            else ws[n + 1].entry == ws[n].entry
  {
    RunKeepsInv(ws, es, n);
    assert StepAt(ws, es, n);
    PublishFacts(ws[n], es[n]);
    r := GenerationWasRead(ws, es, n, es[n].cycle);
    GenerationRead(ws, es, r);
    GenerationMoves(ws, es, r, n);
    PublishRetractsIff(ws[n], es[n]);
    SameLogSameClears(es, n, es[n].trail.epochAt);
  }

  lemma SameLogSameClears(es: seq<Event>, n: nat, from: nat)
    requires n <= |es|
    ensures NoClearFrom(es[..n], from) <==> NoClearBetween(es, from, n)
  {
    assert forall i :: 0 <= i < n ==> es[..n][i] == es[i];
  }
}

/** Custody evidence: what one background check may publish, how it is cached,
    and the one derivation of `Protected` (durability_service.rs,
    background_custody.rs). */
module Custody {
  import opened Bytes

  type GroupId = string
  type PeerId = string

  datatype NotCorroboratedReason =
    | NoCandidatePeer | NoUsableReply | PeerNotEager | CurrentStateDiffers
    | PeerNotMaterialized | PremisesMoved | LocalStateUnreadable
  {
    predicate IsContradiction() { PeerNotEager? || CurrentStateDiffers? || PeerNotMaterialized? }
  }

  datatype Evidence =
    | Corroborated(peer: Option<PeerId>, currentDigest: Hash, rootsDigestMatched: bool)
    | NotCorroborated(reason: NotCorroboratedReason)

  datatype RootSetSummary = RootSetSummary(generation: nat, currentCount: nat, currentDigest: Hash, rootsDigest: Hash)

  datatype PeerSummary = PeerSummary(eager: bool, currentDigest: Hash, rootsDigest: Hash, fullyMaterialized: bool)

  // ----- the cache ------------------------------------------------------

  /** 270 seconds, in nanoseconds of the monotonic clock. */
  const STALENESS_BOUND: nat := 270_000_000_000

  datatype ConfirmationRecord = ConfirmationRecord(outcome: Evidence, confirmedAt: nat, membershipGeneration: nat)

  datatype CacheEntry = CacheEntry(
    record: Option<ConfirmationRecord>, epoch: nat, lastStrongProof: Option<(nat, Hash)>)

  const EMPTY_ENTRY := CacheEntry(None, 0, None)

  predicate StillFresh(record: ConfirmationRecord, generation: nat, now: nat)
  {
    && record.outcome.Corroborated?
    && now - record.confirmedAt <= STALENESS_BOUND
    && record.membershipGeneration == generation
  }

  /** Whether a result may be written: not across a clear, and an absence of
      evidence not over a corroboration that is still fresh. */
  predicate Lands(entry: CacheEntry, outcome: Evidence, epochBefore: nat, currentGeneration: nat, now: nat)
  {
    && entry.epoch == epochBefore
    && !(outcome.NotCorroborated? && !outcome.reason.IsContradiction()
         && entry.record.Some? && StillFresh(entry.record.value, currentGeneration, now))
  }

  function Published(
    entry: CacheEntry, outcome: Evidence, generation: nat, epochBefore: nat, currentGeneration: nat, now: nat): CacheEntry
  {
    if Lands(entry, outcome, epochBefore, currentGeneration, now)
    then entry.(record := Some(ConfirmationRecord(outcome, now, generation)))
    else entry
  }

  function Cleared(entry: CacheEntry): CacheEntry
  {
    entry.(record := None, epoch := entry.epoch + 1)
  }

  function FreshCorroboration(entry: CacheEntry, generation: nat, now: nat): Option<(Option<PeerId>, Hash)>
  {
    if entry.record.Some? && StillFresh(entry.record.value, generation, now)
    then Some((entry.record.value.outcome.peer, entry.record.value.outcome.currentDigest))
    else None
  }

  /** No reader trusts the entry, whatever generation and time it reads it at. */
  ghost predicate TrustedByNobody(entry: CacheEntry)
  {
    forall g: nat, now: nat :: FreshCorroboration(entry, g, now).None?
  }

  /** Publishing an unsuccessful check over a corroboration that a reader under generation
      `reader` still trusts: it is lost exactly if the check is from the current
      epoch and is a contradiction or comes with another generation than the
      reader's; lost means to every reader, and otherwise the entry is untouched. */
  lemma RetractedIff(
    entry: CacheEntry, outcome: Evidence, generation: nat, epochBefore: nat, currentGeneration: nat, reader: nat, now: nat)
    requires outcome.NotCorroborated? && FreshCorroboration(entry, reader, now).Some?
    ensures var after := Published(entry, outcome, generation, epochBefore, currentGeneration, now);
            if epochBefore == entry.epoch && (outcome.reason.IsContradiction() || currentGeneration != reader)
            then TrustedByNobody(after)
            else after == entry
  {
  }

  // ----- the status -----------------------------------------------------

  datatype GroupDurabilityStatus = Protected | Protecting | Unknown | AtRisk

  datatype MaterializationHealth = FullyLocal | Partial

  datatype DurabilityFacts = DurabilityFacts(
    latchLoadFailed: bool,
    scopeUnknown: bool,
    recoveryBlocked: bool,
    latchedUnknown: bool,
    groupPolicyStale: bool,
    materialization: Result<MaterializationHealth, ()>,
    isLocalFullReplica: bool,
    anyOtherFullReplicaPeerConfigured: bool,
    peerConfirmedCustody: bool,
    everConfirmationSwept: bool,
    knownUnobtainableRequiredContent: bool)

  predicate EvidenceDistrusted(f: DurabilityFacts)
  {
    f.latchLoadFailed || f.scopeUnknown || f.recoveryBlocked || f.latchedUnknown || f.groupPolicyStale
    || f.materialization.Err?
  }

  function Classify(f: DurabilityFacts): GroupDurabilityStatus
  {
    if EvidenceDistrusted(f) then Unknown
    else if f.peerConfirmedCustody then Protected
    else if !f.everConfirmationSwept then Unknown
    else if !f.anyOtherFullReplicaPeerConfigured then AtRisk
    else if f.knownUnobtainableRequiredContent then AtRisk
    else if f.isLocalFullReplica && f.materialization == Ok(Partial) then Protecting
    else Unknown
  }

  /** No local fact earns `Protected`: with the same peer confirmation and no reason
      for distrust, any local storage mode, progress, peer configuration and sweep
      history give it or none does. */
  lemma OnlyConfirmationProtects(f: DurabilityFacts, g: DurabilityFacts)
    requires !EvidenceDistrusted(f) && !EvidenceDistrusted(g) && f.peerConfirmedCustody == g.peerConfirmedCustody
    ensures Classify(f).Protected? <==> Classify(g).Protected?
    ensures Classify(f).Protected? ==> f.peerConfirmedCustody
  {
  }

  predicate FirstCheckPending(f: DurabilityFacts)
  {
    !EvidenceDistrusted(f) && !f.peerConfirmedCustody && !f.everConfirmationSwept
  }

  /** What each status rests on. Risk is never reported on distrusted evidence, over a
      confirmation, or before a first check; a first check that is pending is the
      only thing between trusted, unconfirmed facts and the verdict on them. */
  lemma StatusRestsOn(f: DurabilityFacts)
    ensures Classify(f).Protecting? <==> !EvidenceDistrusted(f) && !f.peerConfirmedCustody && f.everConfirmationSwept
                                         && f.anyOtherFullReplicaPeerConfigured && !f.knownUnobtainableRequiredContent
                                         && f.isLocalFullReplica && f.materialization == Ok(Partial)
    ensures Classify(f).AtRisk? <==> !EvidenceDistrusted(f) && !f.peerConfirmedCustody && f.everConfirmationSwept
                                     && (!f.anyOtherFullReplicaPeerConfigured || f.knownUnobtainableRequiredContent)
    ensures FirstCheckPending(f) <==> Classify(f).Unknown? && !EvidenceDistrusted(f) && !f.everConfirmationSwept
  {
  }

  // ----- the service ----------------------------------------------------

  function EntryOf(cache: map<GroupId, CacheEntry>, group: GroupId): CacheEntry
  {
    if group in cache then cache[group] else EMPTY_ENTRY
  }

  /** The service's maps; each method is one critical section. */
  class DurabilityService {
    var cache: map<GroupId, CacheEntry>
    var latched: set<GroupId>
    const latchLoadFailed: bool
    var scopeUnknown: bool

    constructor (persistedLatches: set<GroupId>, loadFailed: bool, scope: bool)
      ensures cache == map[] && latched == persistedLatches && latchLoadFailed == loadFailed && scopeUnknown == scope
    {
      cache, latched, latchLoadFailed, scopeUnknown := map[], persistedLatches, loadFailed, scope;
    }

    method PublishBackgroundCustody(
      group: GroupId, outcome: Evidence, generation: nat, epochBefore: nat, currentGeneration: nat, now: nat)
      returns (landed: bool)
      modifies this`cache
      ensures landed == Lands(old(EntryOf(cache, group)), outcome, epochBefore, currentGeneration, now)
      ensures EntryOf(cache, group)
           == Published(old(EntryOf(cache, group)), outcome, generation, epochBefore, currentGeneration, now)
      ensures forall other :: other != group ==> EntryOf(cache, other) == old(EntryOf(cache, other))
    {
      var entry := EntryOf(cache, group);
      cache := cache[group := entry];
      if entry.epoch != epochBefore {
        return false;
      }
      if outcome.NotCorroborated? && !outcome.reason.IsContradiction() && entry.record.Some? {
        var existing := entry.record.value;
        if existing.outcome.Corroborated? && now - existing.confirmedAt <= STALENESS_BOUND
           && existing.membershipGeneration == currentGeneration {
          return false;
        }
      }
      cache := cache[group := entry.(record := Some(ConfirmationRecord(outcome, now, generation)))];
      return true;
    }

    method ClearCustodyConfirmation(group: GroupId)
      modifies this`cache
      ensures EntryOf(cache, group) == Cleared(old(EntryOf(cache, group)))
      ensures forall other :: other != group ==> EntryOf(cache, other) == old(EntryOf(cache, other))
    {
      var entry := EntryOf(cache, group);
      cache := cache[group := entry.(record := None, epoch := entry.epoch + 1)];
    }

    method NoteStrongProof(group: GroupId, rootsDigest: Hash, now: nat)
      modifies this`cache
      ensures EntryOf(cache, group) == old(EntryOf(cache, group)).(lastStrongProof := Some((now, rootsDigest)))
      ensures forall other :: other != group ==> EntryOf(cache, other) == old(EntryOf(cache, other))
    {
      cache := cache[group := EntryOf(cache, group).(lastStrongProof := Some((now, rootsDigest)))];
    }

    method ReadFreshCorroboration(group: GroupId, generation: nat, now: nat) returns (found: Option<(Option<PeerId>, Hash)>)
      ensures found == FreshCorroboration(EntryOf(cache, group), generation, now)
    {
      if group !in cache || cache[group].record.None? {
        return None;
      }
      var record := cache[group].record.value;
      if record.outcome.NotCorroborated? {
        return None;
      }
      if now - record.confirmedAt <= STALENESS_BOUND && record.membershipGeneration == generation {
        return Some((record.outcome.peer, record.outcome.currentDigest));
      }
      return None;
    }

    method LatchUnknown(group: GroupId)
      modifies this`latched
      ensures latched == old(latched) + {group}
    {
      latched := latched + {group};
    }

    method ClearUnknown(group: GroupId)
      modifies this`latched
      ensures latched == old(latched) - {group}
    {
      latched := latched - {group};
    }

    /** The latch table, not the caller, decides `latchedUnknown`. */
    method ClassifyGroup(group: GroupId, facts: DurabilityFacts) returns (status: GroupDurabilityStatus)
      ensures group in latched ==> status == Unknown
      ensures group !in latched ==> status == Classify(facts.(latchedUnknown := false))
    {
      status := Classify(facts.(latchedUnknown := group in latched));
    }
  }

  // ----- the fan-out ----------------------------------------------------

  /** Why a peer's answer does not corroborate `local`, if it does not. */
  function Objection(local: RootSetSummary, reply: PeerSummary): Option<NotCorroboratedReason>
  {
    if !reply.eager then Some(PeerNotEager)
    else if reply.currentDigest != local.currentDigest then Some(CurrentStateDiffers)
    else if !reply.fullyMaterialized then Some(PeerNotMaterialized)
    else None
  }

  /** One answered query: who, what it said (nothing if it failed), and whether the
      re-check after the answer found the premises unmoved. */
  datatype Answer = Answer(peer: PeerId, summary: Option<PeerSummary>, stillAuthorized: bool)

  predicate Usable(a: Answer) { a.summary.Some? }

  predicate Agrees(local: RootSetSummary, a: Answer)
  {
    a.summary.Some? && Objection(local, a.summary.value).None?
  }

  /** The answers that arrived before the timeout, in arrival order: the first one
      that agrees from a peer still authorized wins, otherwise the last usable
      one names the reason. */
  method FanOut(local: RootSetSummary, answers: seq<Answer>)
    returns (reason: NotCorroboratedReason, corroborating: Option<(PeerId, bool)>)
    ensures corroborating.Some?
            <==> exists i :: 0 <= i < |answers| && Agrees(local, answers[i]) && answers[i].stillAuthorized
    ensures corroborating.Some?
            ==> exists i :: 0 <= i < |answers| && Agrees(local, answers[i]) && answers[i].stillAuthorized
                  && corroborating.value == (answers[i].peer, answers[i].summary.value.rootsDigest == local.rootsDigest)
                  && forall j :: 0 <= j < i ==> !(Agrees(local, answers[j]) && answers[j].stillAuthorized)
    ensures corroborating.None? ==> reason == ReasonOf(local, answers)
  {
    reason, corroborating := NoUsableReply, None;
    var i := 0;
    while i < |answers|
      invariant 0 <= i <= |answers| && corroborating.None?
      invariant reason == ReasonOf(local, answers[..i])
      invariant forall j :: 0 <= j < i ==> !(Agrees(local, answers[j]) && answers[j].stillAuthorized)
    {
      var a := answers[i];
      assert answers[..i + 1][..i] == answers[..i];
      if a.summary.Some? {
        var summary := a.summary.value;
        if !summary.eager {
          reason := PeerNotEager;
        } else if summary.currentDigest != local.currentDigest {
          reason := CurrentStateDiffers;
        } else if !summary.fullyMaterialized {
          reason := PeerNotMaterialized;
        } else if a.stillAuthorized {
          corroborating := Some((a.peer, summary.rootsDigest == local.rootsDigest));
          return;
        } else {
          reason := PremisesMoved;
        }
      }
      i := i + 1;
    }
    assert answers[..i] == answers;
  }

  /** The reason the last usable answer leaves behind. */
  function ReasonOf(local: RootSetSummary, answers: seq<Answer>): NotCorroboratedReason
  {
    if answers == [] then NoUsableReply
    else
      var last := answers[|answers| - 1];
      if last.summary.None? then ReasonOf(local, answers[..|answers| - 1])
      else match Objection(local, last.summary.value)
           case Some(objection) => objection
           case None => PremisesMoved
  }

  /** The last usable answer alone decides: later failures and everything before it are irrelevant. */
  lemma {:induction false} LastUsableDecides(local: RootSetSummary, answers: seq<Answer>, i: nat)
    requires i < |answers| && Usable(answers[i])
    requires forall j :: i < j < |answers| ==> !Usable(answers[j])
    ensures ReasonOf(local, answers).IsContradiction() <==> !Agrees(local, answers[i])
    ensures Agrees(local, answers[i]) ==> ReasonOf(local, answers) == PremisesMoved
    decreases |answers|
  {
    var n := |answers| - 1;
    if i < n {
      assert !Usable(answers[n]);
      LastUsableDecides(local, answers[..n], i);
    }
  }

  /** With the premises unmoved, a fan-out that corroborates nothing reports a
      contradiction exactly when at least one peer answered, whatever the order. */
  lemma {:induction false} ContradictionIffAnyoneAnswered(local: RootSetSummary, answers: seq<Answer>)
    requires forall i :: 0 <= i < |answers| ==> !Agrees(local, answers[i])
    ensures ReasonOf(local, answers).IsContradiction() <==> exists i :: 0 <= i < |answers| && Usable(answers[i])
    decreases |answers|
  {
    if answers != [] {
      var n := |answers| - 1;
      assert !Agrees(local, answers[n]);
      ContradictionIffAnyoneAnswered(local, answers[..n]);
      if i :| 0 <= i < n && Usable(answers[..n][i]) {
        assert Usable(answers[i]);
      }
    }
  }
}

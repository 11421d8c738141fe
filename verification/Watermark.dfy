/** Chains that share a record hash share their whole history up to it, and the
    rollback watermark built on that (`watermark_verdict`). */
module Watermark {
  import opened Bytes
  import opened PolicyLog
  import opened PolicyChain

  // ----- one hash fixes one history -------------------------------------

  /** Every text of the chain fits its 32-bit length prefix. */
  ghost predicate Short(groupId: Text, chain: seq<VerifiedRecord>)
  {
    forall i :: 0 <= i < |chain| ==> TextsBelow(groupId, chain[i], TWO_32)
  }

  /** `inputs` includes everything hashed for the records of `chain`. */
  ghost predicate HashedIn(groupId: Text, chain: seq<VerifiedRecord>, inputs: set<seq<byte>>)
  {
    forall i :: 0 <= i < |chain| ==> RecordPreimage(groupId, chain[i]) in inputs
  }

  lemma RecordAgrees(
    c: Crypto, inputs: set<seq<byte>>,
    g: Text, k: Hash, x: seq<VerifiedRecord>, i: nat, h: Text, l: Hash, y: seq<VerifiedRecord>, j: nat)
    requires ValidChain(c, g, k, x) && ValidChain(c, h, l, y)
    requires Short(g, x) && Short(h, y) && HashedIn(g, x, inputs) && HashedIn(h, y, inputs) && CollisionFree(c, inputs)
    requires i < |x| && j < |y| && x[i].recordHash == y[j].recordHash
    ensures g == h && i == j && x[i] == y[j]
    ensures HeadOf(x[..i]) == HeadOf(y[..j])
  {
    assert LinkedAt(c, g, k, x, i) && LinkedAt(c, h, l, y, j);
    assert c.digest(RecordPreimage(g, x[i])) == c.digest(RecordPreimage(h, y[j]));
    RecordPreimageInjective(g, x[i], h, y[j]);
  }

  /** Two valid chains with one record hash, at whatever positions, belong to one
      group and agree on every record up to it: action, epoch, signer and signature. */
  lemma {:induction false} SameHashSameHistory(
    c: Crypto, inputs: set<seq<byte>>,
    g: Text, k: Hash, x: seq<VerifiedRecord>, i: nat, h: Text, l: Hash, y: seq<VerifiedRecord>, j: nat)
    requires ValidChain(c, g, k, x) && ValidChain(c, h, l, y)
    requires Short(g, x) && Short(h, y) && HashedIn(g, x, inputs) && HashedIn(h, y, inputs) && CollisionFree(c, inputs)
    requires i < |x| && j < |y| && x[i].recordHash == y[j].recordHash
    ensures g == h && i == j && x[..i + 1] == y[..j + 1]
    decreases i
  {
    RecordAgrees(c, inputs, g, k, x, i, h, l, y, j);
    if i > 0 {
      assert HeadOf(x[..i]) == x[i - 1].recordHash && HeadOf(y[..j]) == y[j - 1].recordHash;
      SameHashSameHistory(c, inputs, g, k, x, i - 1, h, l, y, j - 1);
    }
    assert x[..i + 1] == x[..i] + [x[i]] && y[..j + 1] == y[..j] + [y[j]];
  }

  lemma {:induction false} PrefixRotations(serviceKey: Hash, x: seq<VerifiedRecord>, y: seq<VerifiedRecord>)
    requires x <= y
    ensures Rotations(x) <= Rotations(y)
    ensures Rotations(x) == Rotations(y) ==> KeyAfter(serviceKey, x) == KeyAfter(serviceKey, y)
    decreases |y|
  {
    if |x| < |y| {
      assert x <= y[..|y| - 1];
      PrefixRotations(serviceKey, x, y[..|y| - 1]);
    } else {
      assert x == y;
    }
  }

  // ----- the watermark --------------------------------------------------

  datatype PolicyWatermark = PolicyWatermark(
    highestVerifiedSeq: nat,
    highestVerifiedHead: Hash,
    authorityKeyGeneration: nat,
    authorityKeyFingerprint: Hash)

  datatype RejectReason = SeqRollback | AuthorityRollback | AuthorityFork | HeadFork | DoesNotExtend

  datatype WatermarkVerdict = Accept(watermark: PolicyWatermark) | Reject(reason: RejectReason)

  function AuthorityKeyFingerprint(c: Crypto, s: GroupPolicyState): Hash
  {
    c.digest(s.finalAuthorityKey)
  }

  function ToWatermark(c: Crypto, s: GroupPolicyState): PolicyWatermark
  {
    PolicyWatermark(s.currentSeq, s.policyHead, s.authorityGeneration, AuthorityKeyFingerprint(c, s))
  }

  function RecordHeadAt(s: GroupPolicyState, seqNo: nat): Option<Hash>
  {
    if seqNo in s.records then Some(s.records[seqNo].recordHash) else None
  }

  function Verdict(c: Crypto, s: GroupPolicyState, stored: Option<PolicyWatermark>): WatermarkVerdict
  {
    if stored.None? then Accept(ToWatermark(c, s)) else
    var w := stored.value;
    if s.currentSeq < w.highestVerifiedSeq then Reject(SeqRollback) else
    if s.authorityGeneration < w.authorityKeyGeneration then Reject(AuthorityRollback) else
    if s.authorityGeneration == w.authorityKeyGeneration && w.authorityKeyFingerprint != AuthorityKeyFingerprint(c, s)
    then Reject(AuthorityFork) else
    if s.currentSeq == w.highestVerifiedSeq then
      if s.policyHead != w.highestVerifiedHead then Reject(HeadFork) else Accept(ToWatermark(c, s))
    else if RecordHeadAt(s, w.highestVerifiedSeq) == Some(w.highestVerifiedHead) then Accept(ToWatermark(c, s))
    else Reject(DoesNotExtend)
  }

  /** The chain of `s` has the chain of `w` as a prefix, or equals it. */
  ghost predicate Extends(s: GroupPolicyState, w: GroupPolicyState)
    requires forall k :: 1 <= k <= s.currentSeq ==> k in s.records
    requires forall k :: 1 <= k <= w.currentSeq ==> k in w.records
  {
    ChainOf(w) <= ChainOf(s)
  }

  ghost predicate SafelyHashed(c: Crypto, groupId: Text, serviceKey: Hash, inputs: set<seq<byte>>, s: GroupPolicyState)
  {
    && Verified(c, groupId, serviceKey, s)
    && Short(groupId, ChainOf(s)) && HashedIn(groupId, ChainOf(s), inputs)
  }

  lemma {:induction false} RecordAt(c: Crypto, groupId: Text, serviceKey: Hash, s: GroupPolicyState, k: nat)
    requires Verified(c, groupId, serviceKey, s)
    ensures RecordHeadAt(s, k) == if 1 <= k <= s.currentSeq then Some(ChainOf(s)[k - 1].recordHash) else None
    ensures k in s.records <==> 1 <= k <= s.currentSeq
    ensures s.currentSeq >= 1 ==> s.policyHead == ChainOf(s)[s.currentSeq - 1].recordHash
  {
    RecordsOfAt(ChainOf(s));
  }

  lemma HeadMatchIsExtension(
    c: Crypto, inputs: set<seq<byte>>, groupId: Text, serviceKey: Hash, w: GroupPolicyState, s: GroupPolicyState)
    requires SafelyHashed(c, groupId, serviceKey, inputs, w) && SafelyHashed(c, groupId, serviceKey, inputs, s)
    requires CollisionFree(c, inputs) && w.currentSeq >= 1
    ensures RecordHeadAt(s, w.currentSeq) == Some(w.policyHead) <==> Extends(s, w)
  {
    var x, y, n := ChainOf(s), ChainOf(w), w.currentSeq;
    RecordAt(c, groupId, serviceKey, s, n);
    RecordAt(c, groupId, serviceKey, w, n);
    if RecordHeadAt(s, n) == Some(w.policyHead) {
      SameHashSameHistory(c, inputs, groupId, serviceKey, x, n - 1, groupId, serviceKey, y, n - 1);
      assert y[..n] == y;
    }
    if Extends(s, w) {
      assert x[n - 1] == y[n - 1];
    }
  }

  /** The exact verdict: a snapshot is adopted if and only if its chain extends
      the chain the watermark was taken from, except that a watermark of the
      empty chain accepts only the empty chain again. The generation and
      fingerprint guards never refuse an extension. */
  lemma {:induction false} AcceptsExactlyExtensions(
    c: Crypto, inputs: set<seq<byte>>, groupId: Text, serviceKey: Hash, w: GroupPolicyState, s: GroupPolicyState)
    requires SafelyHashed(c, groupId, serviceKey, inputs, w) && SafelyHashed(c, groupId, serviceKey, inputs, s)
    requires CollisionFree(c, inputs)
    ensures Verdict(c, s, Some(ToWatermark(c, w))).Accept?
            <==> Extends(s, w) && (w.currentSeq == 0 ==> s.currentSeq == 0)
    ensures Verdict(c, s, Some(ToWatermark(c, w))).Accept?
            ==> Verdict(c, s, Some(ToWatermark(c, w))) == Accept(ToWatermark(c, s))
  {
    RecordAt(c, groupId, serviceKey, s, w.currentSeq);
    if w.currentSeq >= 1 {
      HeadMatchIsExtension(c, inputs, groupId, serviceKey, w, s);
    }
    if Extends(s, w) {
      PrefixRotations(serviceKey, ChainOf(w), ChainOf(s));
    }
  }

  /** The excepted case in full: after an empty chain, every longer chain extends it and is refused. */
  lemma EmptyWatermarkRefusesGrowth(c: Crypto, groupId: Text, serviceKey: Hash, w: GroupPolicyState, s: GroupPolicyState)
    requires Verified(c, groupId, serviceKey, w) && Verified(c, groupId, serviceKey, s)
    requires w.currentSeq == 0 && s.currentSeq >= 1
    ensures Extends(s, w) && Verdict(c, s, Some(ToWatermark(c, w))).Reject?
  {
    RecordAt(c, groupId, serviceKey, s, 0);
  }

  /** And it happens: a concrete empty chain and a concrete chain of one revoke. */
  lemma EmptyWatermarkWitness() returns (c: Crypto, w: GroupPolicyState, s: GroupPolicyState)
    ensures Verified(c, [], ZERO_HASH, w) && Verified(c, [], ZERO_HASH, s) && Extends(s, w)
    ensures Verdict(c, w, None).Accept? && Verdict(c, s, Some(ToWatermark(c, w))).Reject?
  {
    c := Crypto(_ => ZERO_HASH, _ => true, (_, _, _) => true);
    var chain := [ZeroRecord(Revoke([])).(seqNo := 1)];
    w, s := StateOf(ZERO_HASH, []), StateOf(ZERO_HASH, chain);
    assert chain[..0] == [];
    assert LinkedAt(c, [], ZERO_HASH, chain, 0);
    ChainOfStateOf(c, [], ZERO_HASH, []);
    ChainOfStateOf(c, [], ZERO_HASH, chain);
    EmptyWatermarkRefusesGrowth(c, [], ZERO_HASH, w, s);
  }

  // ----- every run ------------------------------------------------------

  /** The persisted watermark after judging `snaps` in order, starting from none:
      replaced on acceptance, kept on rejection. */
  function StoredAfter(c: Crypto, snaps: seq<GroupPolicyState>): Option<PolicyWatermark>
  {
    if snaps == [] then None
    else
      var before := StoredAfter(c, snaps[..|snaps| - 1]);
      match Verdict(c, snaps[|snaps| - 1], before)
      case Accept(w) => Some(w)
      case Reject(_) => before
  }

  predicate AcceptedAt(c: Crypto, snaps: seq<GroupPolicyState>, i: nat)
    requires i < |snaps|
  {
    Verdict(c, snaps[i], StoredAfter(c, snaps[..i])).Accept?
  }

  /** The last accepted snapshot, or -1. */
  function LastAccepted(c: Crypto, snaps: seq<GroupPolicyState>): (last: int)
    ensures -1 <= last < |snaps|
  {
    if snaps == [] then -1
    else if AcceptedAt(c, snaps, |snaps| - 1) then |snaps| - 1
    else LastAccepted(c, snaps[..|snaps| - 1])
  }

  ghost predicate AllSafelyHashed(
    c: Crypto, groupId: Text, serviceKey: Hash, inputs: set<seq<byte>>, snaps: seq<GroupPolicyState>)
  {
    forall i :: 0 <= i < |snaps| ==> SafelyHashed(c, groupId, serviceKey, inputs, snaps[i])
  }

  lemma AcceptedInPrefix(c: Crypto, snaps: seq<GroupPolicyState>, n: nat, i: nat)
    requires i < n <= |snaps|
    ensures AcceptedAt(c, snaps[..n], i) <==> AcceptedAt(c, snaps, i)
  {
    assert snaps[..n][..i] == snaps[..i];
  }

  /** The store holds the coordinates of the last accepted snapshot. */
  lemma {:induction false} StoreFollowsLastAccepted(c: Crypto, snaps: seq<GroupPolicyState>)
    ensures var last := LastAccepted(c, snaps);
            StoredAfter(c, snaps) == if last < 0 then None else Some(ToWatermark(c, snaps[last]))
    decreases |snaps|
  {
    if snaps != [] {
      StoreFollowsLastAccepted(c, snaps[..|snaps| - 1]);
    }
  }

  lemma {:induction false} LastAcceptedIsLast(c: Crypto, snaps: seq<GroupPolicyState>, i: nat)
    requires i < |snaps| && AcceptedAt(c, snaps, i)
    ensures i <= LastAccepted(c, snaps)
    decreases |snaps|
  {
    var n := |snaps| - 1;
    if !AcceptedAt(c, snaps, n) {
      AcceptedInPrefix(c, snaps, n, i);
      LastAcceptedIsLast(c, snaps[..n], i);
    }
  }

  lemma {:induction false} LastAcceptedIsAccepted(c: Crypto, snaps: seq<GroupPolicyState>)
    requires LastAccepted(c, snaps) >= 0
    ensures AcceptedAt(c, snaps, LastAccepted(c, snaps))
    decreases |snaps|
  {
    var n := |snaps| - 1;
    if !AcceptedAt(c, snaps, n) {
      LastAcceptedIsAccepted(c, snaps[..n]);
      AcceptedInPrefix(c, snaps, n, LastAccepted(c, snaps));
    }
  }

  lemma {:induction false} AcceptedExtendsLast(
    c: Crypto, inputs: set<seq<byte>>, groupId: Text, serviceKey: Hash, snaps: seq<GroupPolicyState>, j: nat)
    requires AllSafelyHashed(c, groupId, serviceKey, inputs, snaps) && CollisionFree(c, inputs)
    requires j < |snaps| && AcceptedAt(c, snaps, j) && LastAccepted(c, snaps[..j]) >= 0
    ensures Extends(snaps[j], snaps[LastAccepted(c, snaps[..j])])
  {
    var last := LastAccepted(c, snaps[..j]);
    StoreFollowsLastAccepted(c, snaps[..j]);
    assert SafelyHashed(c, groupId, serviceKey, inputs, snaps[last]) && SafelyHashed(c, groupId, serviceKey, inputs, snaps[j]);
    AcceptsExactlyExtensions(c, inputs, groupId, serviceKey, snaps[last], snaps[j]);
  }

  /** Over every run, each accepted chain has every chain accepted before it as an exact prefix. */
  lemma {:induction false} AcceptedChainsOnlyGrow(
    c: Crypto, inputs: set<seq<byte>>, groupId: Text, serviceKey: Hash, snaps: seq<GroupPolicyState>, i: nat, j: nat)
    requires AllSafelyHashed(c, groupId, serviceKey, inputs, snaps) && CollisionFree(c, inputs)
    requires i <= j < |snaps| && AcceptedAt(c, snaps, i) && AcceptedAt(c, snaps, j)
    ensures Extends(snaps[j], snaps[i])
    decreases j
  {
    if i < j {
      AcceptedInPrefix(c, snaps, j, i);
      LastAcceptedIsLast(c, snaps[..j], i);
      LastAcceptedIsAccepted(c, snaps[..j]);
      var last := LastAccepted(c, snaps[..j]);
      AcceptedInPrefix(c, snaps, j, last);
      AcceptedExtendsLast(c, inputs, groupId, serviceKey, snaps, j);
      AcceptedChainsOnlyGrow(c, inputs, groupId, serviceKey, snaps, i, last);
    }
  }

  /** Over every run, the stored sequence and authority generation never decrease. */
  lemma {:induction false} StoreNeverMovesBack(
    c: Crypto, inputs: set<seq<byte>>, groupId: Text, serviceKey: Hash, snaps: seq<GroupPolicyState>, i: nat)
    requires AllSafelyHashed(c, groupId, serviceKey, inputs, snaps) && CollisionFree(c, inputs)
    requires i <= |snaps| && StoredAfter(c, snaps[..i]).Some?
    ensures var early, late := StoredAfter(c, snaps[..i]), StoredAfter(c, snaps);
            && late.Some?
            && early.value.highestVerifiedSeq <= late.value.highestVerifiedSeq
            && early.value.authorityKeyGeneration <= late.value.authorityKeyGeneration
  {
    StoreFollowsLastAccepted(c, snaps[..i]);
    StoreFollowsLastAccepted(c, snaps);
    var early, late := LastAccepted(c, snaps[..i]), LastAccepted(c, snaps);
    LastAcceptedIsAccepted(c, snaps[..i]);
    AcceptedInPrefix(c, snaps, i, early);
    LastAcceptedIsLast(c, snaps, early);
    LastAcceptedIsAccepted(c, snaps);
    AcceptedChainsOnlyGrow(c, inputs, groupId, serviceKey, snaps, early, late);
    PrefixRotations(serviceKey, ChainOf(snaps[early]), ChainOf(snaps[late]));
  }
}

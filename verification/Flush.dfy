/** Publication of a device's own deltas (native_checkpoint_flush.rs): one checkpoint
    for the oldest unpublished deltas, checked against every one of them before
    evidence is attached to any. */
module Flush {
  import opened Bytes
  import opened Merkle
  import opened RequestId

  const MAX_BATCH_LEAVES := 0x10_0000
  const VERIFY_CHUNK_LEAVES := 4096

  datatype Checkpoint = Checkpoint(
    groupId: Text, deviceId: Text, keyFingerprint: Hash, commitment: Commitment, checkpointSeq: nat, signerKeyId: Hash,
    policyHead: Hash)

  /** The group's authority as this device sees it: which key a key id names at a policy head,
      whether a key signed a checkpoint, and the fingerprint of a signing key. */
  datatype Authority = Authority(
    resolve: (Hash, Hash) -> Option<Hash>, signed: (Hash, Checkpoint, Signature) -> bool, fingerprint: Hash -> Hash)

  datatype AuthorizationError =
    UnknownOrInvalidSignerKey | BadCheckpointSignature | GroupMismatch | DeviceMismatch | SigningKeyFingerprintMismatch

  /** Who is flushing. */
  datatype Device = Device(group: Text, device: Text, signingKey: Hash)

  function VerifyAuthorization(a: Authority, d: Device, checkpoint: Checkpoint, signature: Signature)
    : Result<(), AuthorizationError>
  {
    match a.resolve(checkpoint.signerKeyId, checkpoint.policyHead)
    case None => Err(UnknownOrInvalidSignerKey)
    case Some(key) =>
      if !a.signed(key, checkpoint, signature) then Err(BadCheckpointSignature)
      else if checkpoint.groupId != d.group then Err(GroupMismatch)
      else if checkpoint.deviceId != d.device then Err(DeviceMismatch)
      else if checkpoint.keyFingerprint != a.fingerprint(d.signingKey) then Err(SigningKeyFingerprintMismatch)
      else Ok(())
  }

  /** The authority in force at the checkpoint's policy head signed it, for this group, this device
      and this device's signing key. */
  predicate SignedFor(a: Authority, d: Device, checkpoint: Checkpoint, signature: Signature)
  {
    && a.resolve(checkpoint.signerKeyId, checkpoint.policyHead).Some?
    && a.signed(a.resolve(checkpoint.signerKeyId, checkpoint.policyHead).value, checkpoint, signature)
    && checkpoint.groupId == d.group && checkpoint.deviceId == d.device
    && checkpoint.keyFingerprint == a.fingerprint(d.signingKey)
  }

  lemma AuthorizedIffSignedFor(a: Authority, d: Device, checkpoint: Checkpoint, signature: Signature)
    ensures VerifyAuthorization(a, d, checkpoint, signature).Ok? <==> SignedFor(a, d, checkpoint, signature)
  {
  }

  datatype Request = Request(group: Text, device: Text, requestId: string, commitment: Commitment)

  datatype Evidence = Evidence(checkpoint: Checkpoint, signature: Signature, signingKey: Hash, proof: MerkleProof)

  datatype FlushOutcome = NothingPending | Flushed(batchSize: nat, checkpointSeq: nat) | Refused | Interrupted

  datatype FlushError =
    | NotAuthorized(error: AuthorizationError)
    | NotIncluded(changeIndex: nat, reason: InclusionError)
    | Storage

  // ----- the pending deltas ---------------------------------------------

  predicate Distinct(log: seq<Hash>)
  {
    forall i, j :: 0 <= i < j < |log| ==> log[i] != log[j]
  }

  /** The deltas of the log without evidence, in order. */
  function Pending(log: seq<Hash>, published: set<Hash>): seq<Hash>
  {
    if log == [] then []
    else if log[0] in published then Pending(log[1..], published)
    else [log[0]] + Pending(log[1..], published)
  }

  function Least(a: nat, b: nat): nat
  {
    if a <= b then a else b
  }

  function Batch(pending: seq<Hash>): seq<Hash>
  {
    pending[..Least(|pending|, MAX_BATCH_LEAVES)]
  }

  function Elements(xs: seq<Hash>): set<Hash>
  {
    set x | x in xs
  }

  lemma {:induction false} PendingInLog(log: seq<Hash>, published: set<Hash>)
    ensures forall x :: x in Pending(log, published) <==> x in log && x !in published
  {
    if log != [] {
      PendingInLog(log[1..], published);
      assert log == [log[0]] + log[1..];
    }
  }

  /** Evidence for the first `k` pending deltas leaves exactly the rest pending, in order. */
  lemma {:induction false} PublishingDrains(log: seq<Hash>, published: set<Hash>, k: nat)
    requires Distinct(log) && k <= |Pending(log, published)|
    ensures Pending(log, published + Elements(Pending(log, published)[..k])) == Pending(log, published)[k..]
    decreases |log|
  {
    if log != [] {
      if log[0] in published {
        PublishingDrains(log[1..], published, k);
      } else if k == 0 {
        assert published + Elements(Pending(log, published)[..0]) == published;
      } else {
        PublishingDrains(log[1..], published, k - 1);
        HeadDrains(log, published, k);
      }
    }
  }

  lemma HeadDrains(log: seq<Hash>, published: set<Hash>, k: nat)
    requires Distinct(log) && log != [] && log[0] !in published && 0 < k <= |Pending(log, published)|
    ensures var below := Pending(log[1..], published);
            Pending(log, published + Elements(Pending(log, published)[..k]))
            == Pending(log[1..], published + Elements(below[..k - 1]))
  {
    var below := Pending(log[1..], published);
    assert Pending(log, published)[..k] == [log[0]] + below[..k - 1];
    assert published + Elements(Pending(log, published)[..k]) == published + Elements(below[..k - 1]) + {log[0]};
    PendingIgnores(log[1..], published + Elements(below[..k - 1]), log[0]);
  }

  lemma {:induction false} PendingIgnores(log: seq<Hash>, published: set<Hash>, x: Hash)
    requires x !in log
    ensures Pending(log, published + {x}) == Pending(log, published)
  {
    if log != [] {
      PendingIgnores(log[1..], published, x);
    }
  }

  // ----- checking every leaf --------------------------------------------

  datatype LeafCheck = AllIncluded | Stopped | Failed(index: nat, error: InclusionError)

  function Indices(n: nat): seq<nat>
  {
    if n == 0 then [] else Indices(n - 1) + [n - 1]
  }

  function Chunks(n: nat): nat
  {
    (n + VERIFY_CHUNK_LEAVES - 1) / VERIFY_CHUNK_LEAVES
  }

  /** The first `n` looks at the stop signal found it unset. */
  predicate Quiet(stop: nat -> bool, n: nat)
  {
    forall k :: 0 <= k < n ==> !stop(k)
  }

  /** The verdict on each leaf of a batch. */
  type Checks = nat -> Result<(), InclusionError>

  predicate Passes(check: Checks, n: nat)
  {
    forall i :: 0 <= i < n ==> check(i).Ok?
  }

  /** All `n` leaves, chunk by chunk, with a look at the stop signal before each chunk and
      after the last. It says all are included exactly when all are and no stop was
      seen, and then each index was checked once, in order; otherwise it fails at
      the first leaf that is not, or stops. */
  method VerifyLeaves(n: nat, check: Checks, stop: nat -> bool) returns (r: LeafCheck, checked: seq<nat>)
    ensures r == AllIncluded <==> Passes(check, n) && Quiet(stop, Chunks(n) + 1)
    ensures r == AllIncluded ==> checked == Indices(n)
    ensures r.Failed? ==> r.index < n && Passes(check, r.index) && check(r.index) == Err(r.error)
    ensures r.Failed? ==> checked == Indices(r.index + 1) && Quiet(stop, Chunks(r.index + 1))
    ensures r.Stopped? ==> !Quiet(stop, Chunks(n) + 1)
  {
    var first, looks := 0, 0;
    checked := [];
    while first < n
      invariant first == Least(looks * VERIFY_CHUNK_LEAVES, n) && looks <= Chunks(n)
      invariant checked == Indices(first) && Passes(check, first) && Quiet(stop, looks)
      decreases n - first
    {
      if stop(looks) {
        return Stopped, checked;
      }
      var end := Least(first + VERIFY_CHUNK_LEAVES, n);
      var index := first;
      while index < end
        invariant first <= index <= end && checked == Indices(index) && Passes(check, index)
      {
        checked := checked + [index];
        if check(index).Err? {
          return Failed(index, check(index).error), checked;
        }
        index := index + 1;
      }
      first, looks := end, looks + 1;
    }
    if stop(looks) {
      return Stopped, checked;
    }
    r := AllIncluded;
  }

  // ----- the flush ------------------------------------------------------

  /** What a checkpoint must commit to so that the whole batch is included. */
  function Expected(c: Crypto, batch: seq<Hash>): Commitment
    requires batch != []
  {
    Commitment(MerkleRoot(c, batch), |batch|)
  }

  /** The verdicts on a batch with its own proofs. */
  function ChecksOf(c: Crypto, batch: seq<Hash>, commitment: Commitment): Checks
  {
    (i: nat) => if i < |batch| then VerifyInclusion(c, batch[i], ProofOf(c, batch, i), commitment) else Ok(())
  }

  /** The whole batch is included or not even its first delta is. */
  lemma AllOrFirst(c: Crypto, batch: seq<Hash>, commitment: Commitment)
    requires batch != []
    ensures Passes(ChecksOf(c, batch, commitment), |batch|) <==> commitment == Expected(c, batch)
    ensures ChecksOf(c, batch, commitment)(0).Ok? <==> commitment == Expected(c, batch)
  {
    forall i | 0 <= i < |batch|
      ensures ChecksOf(c, batch, commitment)(i).Ok? <==> commitment == Expected(c, batch)
    {
      BuiltProofVerifiesIff(c, batch, i, commitment);
    }
    var check := ChecksOf(c, batch, commitment);
    assert check(0).Ok? <==> commitment == Expected(c, batch);
  }

  /** The one request a flush of `batch` makes. */
  function RequestFor(c: Crypto, d: Device, batch: seq<Hash>): Request
    requires batch != []
  {
    Request(d.group, d.device, RequestIdOf(c, d.group, d.device, batch), Expected(c, batch))
  }

  /** Evidence for the whole of `batch` joined to what there was, each delta's with its own proof. */
  predicate Attached(
    c: Crypto, before: map<Hash, Evidence>, after: map<Hash, Evidence>, batch: seq<Hash>, checkpoint: Checkpoint,
    signature: Signature, signingKey: Hash)
  {
    && after.Keys == before.Keys + Elements(batch)
    && (forall h :: h in before ==> h in after && after[h] == before[h])
    && forall i :: 0 <= i < |batch| ==>
         batch[i] in after && after[batch[i]] == Evidence(checkpoint, signature, signingKey, ProofOf(c, batch, i))
  }

  type Source = Request -> Option<(Checkpoint, Signature)>

  /** What came back for the batch is signed for this device and covers exactly this batch. */
  predicate Grants(c: Crypto, a: Authority, d: Device, batch: seq<Hash>, reply: Option<(Checkpoint, Signature)>)
    requires batch != []
  {
    && reply.Some? && SignedFor(a, d, reply.value.0, reply.value.1)
    && reply.value.0.commitment == Expected(c, batch)
  }

  /** The checks between the reply and the write: nothing to report exactly when the checkpoint is
      signed for this device and covers exactly this batch, and no stop was seen. */
  method CheckReply(
    c: Crypto, a: Authority, d: Device, batch: seq<Hash>, checkpoint: Checkpoint, signature: Signature, stop: nat -> bool)
    returns (verdict: Option<Result<FlushOutcome, FlushError>>)
    requires batch != []
    ensures verdict.None?
            <==> SignedFor(a, d, checkpoint, signature) && checkpoint.commitment == Expected(c, batch)
                 && Quiet(stop, Chunks(|batch|) + 1)
    ensures verdict.Some? ==> verdict.value == Ok(Interrupted) || verdict.value.Err?
    ensures verdict.Some? && verdict.value.Err? && verdict.value.error.NotIncluded? ==>
              verdict.value.error.changeIndex == 0 && checkpoint.commitment != Expected(c, batch)
  {
    AuthorizedIffSignedFor(a, d, checkpoint, signature);
    var authorized := VerifyAuthorization(a, d, checkpoint, signature);
    if authorized.Err? {
      return Some(Err(NotAuthorized(authorized.error)));
    }
    AllOrFirst(c, batch, checkpoint.commitment);
    var leaves, _ := VerifyLeaves(|batch|, ChecksOf(c, batch, checkpoint.commitment), stop);
    match leaves
    case Stopped => return Some(Ok(Interrupted));
    case Failed(index, error) => return Some(Err(NotIncluded(index, error)));
    case AllIncluded => return None;
  }

  /** A device's delta log and the evidence attached to its entries. */
  class NativeStore {
    const log: seq<Hash>
    var evidence: map<Hash, Evidence>

    predicate Valid()
      reads this
    {
      Distinct(log)
    }

    function PendingDeltas(): seq<Hash>
      reads this
    {
      Pending(log, evidence.Keys)
    }

    constructor (deltas: seq<Hash>)
      requires Distinct(deltas)
      ensures Valid() && log == deltas && PendingDeltas() == deltas
    {
      log, evidence := deltas, map[];
      new;
      assert evidence.Keys == {};
      NonePublished(deltas);
    }

    /** One transaction: evidence for every entry. */
    method AttachAuthorizationEvidence(
      c: Crypto, batch: seq<Hash>, proofs: seq<MerkleProof>, checkpoint: Checkpoint, signature: Signature, signingKey: Hash)
      requires Distinct(batch) && forall h :: h in batch ==> h !in evidence
      requires |proofs| == |batch| && forall i :: 0 <= i < |batch| ==> proofs[i] == ProofOf(c, batch, i)
      modifies this`evidence
      ensures Attached(c, old(evidence), evidence, batch, checkpoint, signature, signingKey)
    {
      var i := 0;
      while i < |batch|
        invariant 0 <= i <= |batch|
        invariant evidence.Keys == old(evidence).Keys + Elements(batch[..i])
        invariant forall h :: h in old(evidence) ==> h in evidence && evidence[h] == old(evidence)[h]
        invariant forall j :: 0 <= j < i ==>
                    batch[j] in evidence
                    && evidence[batch[j]] == Evidence(checkpoint, signature, signingKey, ProofOf(c, batch, j))
      {
        assert Elements(batch[..i + 1]) == Elements(batch[..i]) + {batch[i]};
        evidence := evidence[batch[i] := Evidence(checkpoint, signature, signingKey, proofs[i])];
        i := i + 1;
      }
      assert batch[..i] == batch;
    }

    /** Attaches evidence for the whole capped batch, exactly when the source's checkpoint is
        authorized and covers exactly that batch, no stop was seen and the write
        succeeds; otherwise for nothing. What was attached leaves the backlog from
        the front. `stored` says whether the evidence transaction commits. */
    method FlushPending(c: Crypto, a: Authority, d: Device, source: Source, stop: nat -> bool, stored: bool)
      returns (r: Result<FlushOutcome, FlushError>, published: seq<Hash>)
      requires Valid()
      modifies this`evidence
      ensures var batch := Batch(old(PendingDeltas()));
              if batch == [] then r == Ok(NothingPending) && published == [] && evidence == old(evidence)
              else
                var reply := source(RequestFor(c, d, batch));
                if Grants(c, a, d, batch, reply) && Quiet(stop, Chunks(|batch|) + 1) && stored
                then && r == Ok(Flushed(|batch|, reply.value.0.checkpointSeq)) && published == batch
                     && Attached(c, old(evidence), evidence, batch, reply.value.0, reply.value.1, d.signingKey)
                     && PendingDeltas() == old(PendingDeltas())[|batch|..]
                else && !(r.Ok? && r.value.Flushed?) && published == [] && evidence == old(evidence)
                     && (r == Ok(Refused) <==> reply.None?)
                     && (r.Err? && r.error.NotIncluded? ==>
                           r.error.changeIndex == 0 && reply.value.0.commitment != Expected(c, batch))
    {
      var pending := PendingDeltas();
      var batch := Batch(pending);
      if batch == [] {
        return Ok(NothingPending), [];
      }
      var requestId := PendingBatchRequestId(c, d.group, d.device, batch);
      var root := ComputeMerkleRoot(c, batch);
      var reply := source(Request(d.group, d.device, requestId, Commitment(root, |batch|)));
      if reply.None? {
        return Ok(Refused), [];
      }
      var (checkpoint, signature) := reply.value;
      var verdict := CheckReply(c, a, d, batch, checkpoint, signature, stop);
      if verdict.Some? {
        return verdict.value, [];
      }
      if !stored {
        return Err(Storage), [];
      }
      var proofs := BuildMerkleProofs(c, batch);
      BatchIsUnpublished(log, evidence.Keys);
      AttachAuthorizationEvidence(c, batch, proofs, checkpoint, signature, d.signingKey);
      PublishingDrains(log, old(evidence).Keys, |batch|);
      return Ok(Flushed(|batch|, checkpoint.checkpointSeq)), batch;
    }
  }

  lemma {:induction false} NonePublished(log: seq<Hash>)
    ensures Pending(log, {}) == log
  {
    if log != [] {
      NonePublished(log[1..]);
    }
  }

  lemma {:induction false} PendingDistinct(log: seq<Hash>, published: set<Hash>)
    requires Distinct(log)
    ensures Distinct(Pending(log, published))
  {
    if log != [] {
      PendingDistinct(log[1..], published);
      PendingInLog(log[1..], published);
    }
  }

  lemma BatchIsUnpublished(log: seq<Hash>, published: set<Hash>)
    requires Distinct(log)
    ensures Distinct(Batch(Pending(log, published)))
    ensures forall h :: h in Batch(Pending(log, published)) ==> h !in published
  {
    PendingDistinct(log, published);
    PendingInLog(log, published);
  }
}

/** Questions asked of a verified chain about the past: who could write, and
    which authority key was in force (`writers_at`, `members_at`,
    `writer_at_policy_point`, `resolve_authority_key`). */
module PolicyQueries {
  import opened Bytes
  import opened PolicyLog
  import opened PolicyChain
  import opened Watermark

  datatype HeldGrant = HeldGrant(fingerprint: Hash, role: WriterRole)

  datatype GroupMember = GroupMember(deviceId: Text, role: WriterRole, signingKeyFingerprint: Hash)

  datatype AuthorizedWriter = AuthorizedWriter(deviceId: Text, signingKeyFingerprint: Hash)

  datatype SnapshotError = FutureSequence(requested: nat, current: nat) | MissingSequence(requested: nat)

  // ----- the grant fold -------------------------------------------------

  function Replay(grants: map<Text, HeldGrant>, action: PolicyAction): map<Text, HeldGrant>
  {
    match action
    case Grant(device, fingerprint, role) => grants[device := HeldGrant(fingerprint, role)]
    case Revoke(device) => grants - {device}
    case RotateAuthority(_) => grants
  }

  function GrantsUpTo(records: map<nat, VerifiedRecord>, n: nat): map<Text, HeldGrant>
  {
    var before := if n == 0 then map[] else GrantsUpTo(records, n - 1);
    if n in records then Replay(before, records[n].action) else before
  }

  method ReplayGrants(records: map<nat, VerifiedRecord>, authSeq: nat) returns (grants: map<Text, HeldGrant>)
    ensures grants == GrantsUpTo(records, authSeq)
  {
    grants := map[];
    var n := 0;
    while n <= authSeq
      invariant n <= authSeq + 1
      invariant grants == if n == 0 then map[] else GrantsUpTo(records, n - 1)
    {
      if n in records {
        match records[n].action
        case Grant(device, fingerprint, role) =>
          grants := grants[device := HeldGrant(fingerprint, role)];
        case Revoke(device) =>
          grants := grants - {device};
        case RotateAuthority(_) =>
      }
      n := n + 1;
    }
  }

  predicate Concerns(action: PolicyAction, device: Text)
  {
    (action.Grant? || action.Revoke?) && action.deviceId == device
  }

  /** The latest grant or revoke of `device` at or before `n` is this grant, at `k`. */
  predicate GrantedAt(records: map<nat, VerifiedRecord>, n: nat, device: Text, grant: HeldGrant, k: nat)
  {
    && k <= n && k in records
    && records[k].action == Grant(device, grant.fingerprint, grant.role)
    && forall j :: k < j <= n && j in records ==> !Concerns(records[j].action, device)
  }

  ghost predicate Granted(records: map<nat, VerifiedRecord>, n: nat, device: Text, grant: HeldGrant)
  {
    exists k :: GrantedAt(records, n, device, grant, k)
  }

  lemma GrantedStep(records: map<nat, VerifiedRecord>, n: nat, device: Text, grant: HeldGrant)
    requires n > 0
    ensures n in records && Concerns(records[n].action, device)
            ==> (Granted(records, n, device, grant)
                 <==> records[n].action == Grant(device, grant.fingerprint, grant.role))
    ensures !(n in records && Concerns(records[n].action, device))
            ==> (Granted(records, n, device, grant) <==> Granted(records, n - 1, device, grant))
  {
    if n in records && Concerns(records[n].action, device) {
      if records[n].action == Grant(device, grant.fingerprint, grant.role) {
        assert GrantedAt(records, n, device, grant, n);
      }
    } else {
      assert forall k :: GrantedAt(records, n, device, grant, k) ==> GrantedAt(records, n - 1, device, grant, k);
      var before := n - 1;
      assert forall k :: GrantedAt(records, before, device, grant, k) ==> GrantedAt(records, n, device, grant, k);
    }
  }

  /** The fold keeps, for each device, exactly its latest grant not followed by a revoke. */
  lemma {:induction false} FoldKeepsLatest(records: map<nat, VerifiedRecord>, n: nat, device: Text, grant: HeldGrant)
    ensures device in GrantsUpTo(records, n) && GrantsUpTo(records, n)[device] == grant
            <==> Granted(records, n, device, grant)
  {
    if n == 0 {
      if 0 in records && records[0].action == Grant(device, grant.fingerprint, grant.role) {
        assert GrantedAt(records, 0, device, grant, 0);
      }
    } else {
      FoldKeepsLatest(records, n - 1, device, grant);
      GrantedStep(records, n, device, grant);
    }
  }

  // ----- listing in device order ----------------------------------------

  /** Byte-wise lexicographic order. */
  predicate TextBefore(a: Text, b: Text)
  {
    b != [] && (a == [] || a[0] < b[0] || (a[0] == b[0] && TextBefore(a[1..], b[1..])))
  }

  lemma TextBeforeTotal(a: Text, b: Text)
    ensures a == b || TextBefore(a, b) || TextBefore(b, a)
    ensures !(TextBefore(a, b) && (a == b || TextBefore(b, a)))
  {
    if a != [] && b != [] && a[0] == b[0] {
      TextBeforeTotal(a[1..], b[1..]);
      assert a == [a[0]] + a[1..] && b == [b[0]] + b[1..];
    }
  }

  lemma {:induction false} TextBeforeTransitive(a: Text, b: Text, c: Text)
    requires TextBefore(a, b) && TextBefore(b, c)
    ensures TextBefore(a, c)
    decreases |a|
  {
    if a != [] && a[0] == b[0] == c[0] {
      TextBeforeTransitive(a[1..], b[1..], c[1..]);
    }
  }

  predicate IsFirst(keys: set<Text>, k: Text)
  {
    k in keys && forall j :: j in keys && j != k ==> TextBefore(k, j)
  }

  lemma FirstExists(keys: set<Text>)
    requires keys != {}
    ensures exists k :: IsFirst(keys, k)
  {
    var k :| k in keys;
    var rest := keys - {k};
    if rest == {} {
      assert keys == {k};
      assert IsFirst(keys, k);
    } else {
      FirstExists(rest);
      var j :| IsFirst(rest, j);
      TextBeforeTotal(j, k);
      if TextBefore(j, k) {
        assert IsFirst(keys, j);
      } else {
        forall i | i in keys && i != k
          ensures TextBefore(k, i)
        {
          if i != j {
            TextBeforeTransitive(k, j, i);
          }
        }
        assert IsFirst(keys, k);
      }
    }
  }

  function FirstKey(keys: set<Text>): (k: Text)
    requires keys != {}
    ensures IsFirst(keys, k)
  {
    FirstExists(keys);
    assert forall i, j :: IsFirst(keys, i) && IsFirst(keys, j) ==> i == j by {
      forall i, j | IsFirst(keys, i) && IsFirst(keys, j)
        ensures i == j
      {
        TextBeforeTotal(i, j);
      }
    }
    var k :| IsFirst(keys, k);
    k
  }

  /** The keys of an ordered map in its iteration order. */
  function InOrder(keys: set<Text>): (ks: seq<Text>)
    ensures forall k :: k in ks <==> k in keys
    ensures forall i, j :: 0 <= i < j < |ks| ==> TextBefore(ks[i], ks[j])
    decreases |keys|
  {
    if keys == {} then [] else
    var first := FirstKey(keys);
    [first] + InOrder(keys - {first})
  }

  function Members(grants: map<Text, HeldGrant>, ks: seq<Text>): (ms: seq<GroupMember>)
    requires forall k :: k in ks ==> k in grants
    ensures |ms| == |ks|
    ensures forall i :: 0 <= i < |ks| ==> ms[i] == GroupMember(ks[i], grants[ks[i]].role, grants[ks[i]].fingerprint)
  {
    if ks == [] then []
    else [GroupMember(ks[0], grants[ks[0]].role, grants[ks[0]].fingerprint)] + Members(grants, ks[1..])
  }

  function MembersUpTo(s: GroupPolicyState, authSeq: nat): seq<GroupMember>
  {
    var grants := GrantsUpTo(s.records, authSeq);
    Members(grants, InOrder(grants.Keys))
  }

  function Writers(ms: seq<GroupMember>): seq<AuthorizedWriter>
  {
    if ms == [] then []
    else (if ms[0].role.IsWriter() then [AuthorizedWriter(ms[0].deviceId, ms[0].signingKeyFingerprint)] else [])
         + Writers(ms[1..])
  }

  function SnapshotRefusal(s: GroupPolicyState, authSeq: nat): Option<SnapshotError>
  {
    if authSeq > s.currentSeq then Some(FutureSequence(authSeq, s.currentSeq))
    else if authSeq >= 1 && authSeq !in s.records then Some(MissingSequence(authSeq))
    else None
  }

  function MembersAt(s: GroupPolicyState, authSeq: nat): Result<seq<GroupMember>, SnapshotError>
  {
    match SnapshotRefusal(s, authSeq)
    case Some(error) => Err(error)
    case None => Ok(MembersUpTo(s, authSeq))
  }

  function WritersAt(s: GroupPolicyState, authSeq: nat): Result<seq<AuthorizedWriter>, SnapshotError>
  {
    match SnapshotRefusal(s, authSeq)
    case Some(error) => Err(error)
    case None => Ok(Writers(MembersUpTo(s, authSeq)))
  }

  lemma MembersUpToIff(s: GroupPolicyState, n: nat, m: GroupMember)
    ensures m in MembersUpTo(s, n) <==> Granted(s.records, n, m.deviceId, HeldGrant(m.signingKeyFingerprint, m.role))
  {
    var grants := GrantsUpTo(s.records, n);
    var ks := InOrder(grants.Keys);
    var grant := HeldGrant(m.signingKeyFingerprint, m.role);
    FoldKeepsLatest(s.records, n, m.deviceId, grant);
    if Granted(s.records, n, m.deviceId, grant) {
      assert m.deviceId in ks;
      var i :| 0 <= i < |ks| && ks[i] == m.deviceId;
      assert MembersUpTo(s, n)[i] == m;
    }
  }

  lemma {:induction false} WritersIff(ms: seq<GroupMember>, w: AuthorizedWriter)
    ensures w in Writers(ms) <==> exists m :: m in ms && m.role.IsWriter() && w == AuthorizedWriter(m.deviceId, m.signingKeyFingerprint)
  {
    if ms != [] {
      WritersIff(ms[1..], w);
      assert ms == [ms[0]] + ms[1..];
    }
  }

  /** A device is listed as a writer exactly when its latest grant or revoke at or before `n`
      grants it Editor or Owner; on a verified chain every past point answers. */
  lemma {:induction false} WritersAtIff(
    c: Crypto, groupId: Text, serviceKey: Hash, s: GroupPolicyState, n: nat, w: AuthorizedWriter)
    requires Verified(c, groupId, serviceKey, s)
    ensures WritersAt(s, n).Ok? <==> n <= s.currentSeq
    ensures n <= s.currentSeq
            ==> (w in WritersAt(s, n).value
                 <==> exists role: WriterRole :: role.IsWriter() && Granted(s.records, n, w.deviceId, HeldGrant(w.signingKeyFingerprint, role)))
  {
    RecordAt(c, groupId, serviceKey, s, n);
    if n <= s.currentSeq {
      var ms := MembersUpTo(s, n);
      WritersIff(ms, w);
      forall role: WriterRole
        ensures GroupMember(w.deviceId, role, w.signingKeyFingerprint) in ms
                <==> Granted(s.records, n, w.deviceId, HeldGrant(w.signingKeyFingerprint, role))
      {
        MembersUpToIff(s, n, GroupMember(w.deviceId, role, w.signingKeyFingerprint));
      }
      if w in Writers(ms) {
        var m :| m in ms && m.role.IsWriter() && w == AuthorizedWriter(m.deviceId, m.signingKeyFingerprint);
        assert m == GroupMember(w.deviceId, m.role, w.signingKeyFingerprint);
      }
    }
  }

  /** The list is in strictly increasing device order, so it names each device once
      and any two replays of one chain give the same list. */
  lemma MembersInOrder(s: GroupPolicyState, n: nat, i: nat, j: nat)
    requires i < j < |MembersUpTo(s, n)|
    ensures TextBefore(MembersUpTo(s, n)[i].deviceId, MembersUpTo(s, n)[j].deviceId)
  {
  }

  // ----- the pinned policy point ----------------------------------------

  predicate WriterAtPolicyPoint(s: GroupPolicyState, device: Text, fingerprint: Hash, seqNo: nat, head: Hash)
  {
    if seqNo == 0 then head == ZERO_HASH && s.authorityGeneration == 0
    else if RecordHeadAt(s, seqNo) != Some(head) then false
    else
      var members := MembersAt(s, seqNo);
      members.Ok? &&
      exists m :: m in members.value && m.deviceId == device && m.signingKeyFingerprint == fingerprint && m.role.IsWriter()
  }

  /** True exactly when the chain holds `head` at `seqNo` and the device was a writer under that key there. */
  lemma {:induction false} PolicyPointIff(
    c: Crypto, groupId: Text, serviceKey: Hash, s: GroupPolicyState, device: Text, fingerprint: Hash, seqNo: nat, head: Hash)
    requires Verified(c, groupId, serviceKey, s) && seqNo >= 1
    ensures WriterAtPolicyPoint(s, device, fingerprint, seqNo, head)
            <==> seqNo <= s.currentSeq && ChainOf(s)[seqNo - 1].recordHash == head
                 && exists role: WriterRole :: role.IsWriter() && Granted(s.records, seqNo, device, HeldGrant(fingerprint, role))
  {
    RecordAt(c, groupId, serviceKey, s, seqNo);
    if seqNo <= s.currentSeq {
      forall m: GroupMember
        ensures m in MembersUpTo(s, seqNo)
                <==> Granted(s.records, seqNo, m.deviceId, HeldGrant(m.signingKeyFingerprint, m.role))
      {
        MembersUpToIff(s, seqNo, m);
      }
      if role: WriterRole :| role.IsWriter() && Granted(s.records, seqNo, device, HeldGrant(fingerprint, role)) {
        assert GroupMember(device, role, fingerprint) in MembersUpTo(s, seqNo);
      }
    }
  }

  predicate AgreeUpTo(x: map<nat, VerifiedRecord>, y: map<nat, VerifiedRecord>, n: nat)
  {
    forall k: nat :: k <= n ==> (k in x <==> k in y) && (k in x ==> x[k] == y[k])
  }

  lemma {:induction false} SharedRecords(
    c: Crypto, groupId: Text, serviceKey: Hash, s: GroupPolicyState, later: GroupPolicyState, n: nat)
    requires Verified(c, groupId, serviceKey, s) && Verified(c, groupId, serviceKey, later) && Extends(later, s)
    requires n <= s.currentSeq
    ensures AgreeUpTo(s.records, later.records, n)
  {
    forall k: nat | k <= n
      ensures k in s.records <==> k in later.records
      ensures k in s.records ==> s.records[k] == later.records[k]
    {
      RecordAt(c, groupId, serviceKey, s, k);
      RecordAt(c, groupId, serviceKey, later, k);
      if k in s.records {
        assert ChainOf(s)[k - 1] == ChainOf(later)[k - 1];
      }
    }
  }

  lemma {:induction false} SharedGrants(x: map<nat, VerifiedRecord>, y: map<nat, VerifiedRecord>, n: nat)
    requires AgreeUpTo(x, y, n)
    ensures GrantsUpTo(x, n) == GrantsUpTo(y, n)
  {
    if n > 0 {
      SharedGrants(x, y, n - 1);
    }
  }

  /** Whatever the chain said about a point it covers, every extension of it says
      too; in particular a writer at a pinned point stays one after a later revoke. */
  lemma {:induction false} PolicyPointIsStable(
    c: Crypto, groupId: Text, serviceKey: Hash, s: GroupPolicyState, later: GroupPolicyState,
    device: Text, fingerprint: Hash, seqNo: nat, head: Hash)
    requires Verified(c, groupId, serviceKey, s) && Verified(c, groupId, serviceKey, later) && Extends(later, s)
    requires 1 <= seqNo <= s.currentSeq
    ensures WriterAtPolicyPoint(later, device, fingerprint, seqNo, head) == WriterAtPolicyPoint(s, device, fingerprint, seqNo, head)
    ensures WritersAt(later, seqNo) == WritersAt(s, seqNo)
  {
    SharedRecords(c, groupId, serviceKey, s, later, seqNo);
    SharedGrants(s.records, later.records, seqNo);
    RecordAt(c, groupId, serviceKey, s, seqNo);
    RecordAt(c, groupId, serviceKey, later, seqNo);
  }

  /** The empty point is vouched for exactly until the first rotation. */
  lemma {:induction false} EmptyPointEndsAtFirstRotation(
    c: Crypto, groupId: Text, serviceKey: Hash, s: GroupPolicyState, later: GroupPolicyState, device: Text, fingerprint: Hash)
    requires Verified(c, groupId, serviceKey, s) && Verified(c, groupId, serviceKey, later) && Extends(later, s)
    ensures WriterAtPolicyPoint(later, device, fingerprint, 0, ZERO_HASH) ==> WriterAtPolicyPoint(s, device, fingerprint, 0, ZERO_HASH)
    ensures WriterAtPolicyPoint(s, device, fingerprint, 0, ZERO_HASH)
            <==> forall i :: 0 <= i < s.currentSeq ==> !ChainOf(s)[i].action.RotateAuthority?
  {
    PrefixRotations(serviceKey, ChainOf(s), ChainOf(later));
    NoRotationsIff(ChainOf(s));
  }

  lemma {:induction false} NoRotationsIff(chain: seq<VerifiedRecord>)
    ensures Rotations(chain) == 0 <==> forall i :: 0 <= i < |chain| ==> !chain[i].action.RotateAuthority?
  {
    if chain != [] {
      NoRotationsIff(chain[..|chain| - 1]);
    }
  }

  // ----- which key signed at a point ------------------------------------

  function ResolveAuthorityKey(c: Crypto, s: GroupPolicyState, signerKeyId: Hash, head: Hash): Option<Hash>
  {
    if head == ZERO_HASH && s.authorityGeneration > 0 then None
    else if head !in s.authorityKeyHistory then None
    else
      var key := s.authorityKeyHistory[head];
      if c.digest(key) != signerKeyId || !c.validKey(key) then None else Some(key)
  }

  lemma {:induction false} HistoryAt(
    c: Crypto, inputs: set<seq<byte>>, groupId: Text, serviceKey: Hash, chain: seq<VerifiedRecord>, i: nat)
    requires ValidChain(c, groupId, serviceKey, chain) && Short(groupId, chain) && HashedIn(groupId, chain, inputs)
    requires CollisionFree(c, inputs) && i < |chain|
    ensures chain[i].recordHash in HistoryOf(serviceKey, chain)
    ensures HistoryOf(serviceKey, chain)[chain[i].recordHash] == KeyAfter(serviceKey, chain[..i])
    decreases |chain|
  {
    var n := |chain| - 1;
    if i < n {
      if chain[i].recordHash == chain[n].recordHash {
        RecordAgrees(c, inputs, groupId, serviceKey, chain, i, groupId, serviceKey, chain, n);
      }
      ValidPrefix(c, groupId, serviceKey, chain, n);
      HistoryAt(c, inputs, groupId, serviceKey, chain[..n], i);
      assert chain[..n][..i] == chain[..i];
    }
  }

  /** At the head of any record, with that record's signer id, the key returned is
      the one that verified the record, however often the authority rotated
      since. The one exception is a head that is the all-zero hash. */
  lemma ResolvesTheSigningKey(
    c: Crypto, inputs: set<seq<byte>>, groupId: Text, serviceKey: Hash, s: GroupPolicyState, k: nat)
    requires SafelyHashed(c, groupId, serviceKey, inputs, s) && CollisionFree(c, inputs)
    requires 1 <= k <= s.currentSeq
    ensures var v := ChainOf(s)[k - 1];
            && var key := KeyAfter(serviceKey, ChainOf(s)[..k - 1]);
            && c.signed(key, SigningBytes(groupId, v), v.signature)
            && (ResolveAuthorityKey(c, s, v.signerKeyId, v.recordHash) == Some(key)
                <==> v.recordHash != ZERO_HASH || s.authorityGeneration == 0)
  {
    HistoryAt(c, inputs, groupId, serviceKey, ChainOf(s), k - 1);
    assert LinkedAt(c, groupId, serviceKey, ChainOf(s), k - 1);
  }

  /** No key is ever returned for a head that is not a point of the chain, nor one
      whose fingerprint is not the signer id asked for. */
  lemma {:induction false} ResolvesOnlyChainPoints(
    c: Crypto, groupId: Text, serviceKey: Hash, s: GroupPolicyState, signerKeyId: Hash, head: Hash)
    requires Verified(c, groupId, serviceKey, s)
    requires ResolveAuthorityKey(c, s, signerKeyId, head).Some?
    ensures c.digest(ResolveAuthorityKey(c, s, signerKeyId, head).value) == signerKeyId
    ensures head == ZERO_HASH || exists i :: 0 <= i < s.currentSeq && ChainOf(s)[i].recordHash == head
  {
    HistoryKeys(serviceKey, ChainOf(s), head);
  }

  lemma {:induction false} HistoryKeys(serviceKey: Hash, chain: seq<VerifiedRecord>, head: Hash)
    requires head in HistoryOf(serviceKey, chain)
    ensures head == ZERO_HASH || exists i :: 0 <= i < |chain| && chain[i].recordHash == head
  {
    if chain != [] && chain[|chain| - 1].recordHash != head {
      HistoryKeys(serviceKey, chain[..|chain| - 1], head);
    }
  }
}

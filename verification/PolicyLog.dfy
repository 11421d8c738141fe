/** The signed group policy log: its wire records, the canonical signing bytes,
    and the check of one record (change_policy.rs). */
module PolicyLog {
  import opened Bytes

  datatype GroupPolicyLog = GroupPolicyLog(
    groupId: Text,
    currentSeq: u64,
    currentEpoch: u64,
    policyHead: seq<byte>,
    records: seq<PolicyRecord>)

  datatype PolicyRecord = PolicyRecord(
    groupId: Text,
    seqNo: u64,
    prevRecordHash: seq<byte>,
    recordHash: seq<byte>,
    epoch: u64,
    actionType: u32,
    deviceId: Text,
    signingKeyFingerprint: seq<byte>,
    role: u32,
    newAuthorityKey: seq<byte>,
    signerKeyId: seq<byte>,
    signature: seq<byte>)

  datatype WriterRole = Viewer | Editor | Owner
  {
    predicate IsWriter() { Editor? || Owner? }

    function ToWire(): byte
    {
      match this
      case Viewer => 0
      case Editor => 1
      case Owner => 2
    }
  }

  datatype PolicyAction =
    | Grant(deviceId: Text, signingKeyFingerprint: Hash, role: WriterRole)
    | Revoke(deviceId: Text)
    | RotateAuthority(newAuthorityKey: Hash)

  datatype VerifiedRecord = VerifiedRecord(
    seqNo: u64,
    prevRecordHash: Hash,
    recordHash: Hash,
    epoch: u64,
    signerKeyId: Hash,
    action: PolicyAction,
    signature: Signature)

  datatype Field =
    | ServicePublicKey | PolicyHead | PrevRecordHash | RecordHash | SignerKeyId
    | SignatureField | SigningKeyFingerprint | NewAuthorityKey

  datatype VerifyError =
    | WrongLength(field: Field)
    | NoRecordsBeyondPrefix
    | GroupMismatch
    | SequenceGap(at: u64)
    | BrokenPrevHash(at: u64)
    | SignerKeyIdMismatch(at: u64)
    | InvalidWriterRole(role: u32)
    | InvalidActionType(at: u64)
    | InvalidServiceKey
    | SignatureFailed(at: u64)
    | HashMismatch(at: u64)
    | CurrentSeqMismatch
    | CurrentEpochMismatch
    | HeadMismatch

  const DOMAIN_TAG: seq<byte> := [121, 108, 112, 111, 108, 105, 99, 49]  // "ylpolic1"
  const ACTION_REVOKE: byte := 1
  const ACTION_ROTATE_AUTHORITY: byte := 2
  const ACTION_GRANT_WITH_ROLE: byte := 3

  // ----- canonical bytes ------------------------------------------------

  /** A length truncated to 32 bits, then the bytes. */
  function PutText(t: Text): seq<byte>
  {
    BigEndian(|t|, 4) + t
  }

  function ActionBytes(action: PolicyAction): seq<byte>
  {
    match action
    case Grant(deviceId, fingerprint, role) =>
      [ACTION_GRANT_WITH_ROLE] + (PutText(deviceId) + (fingerprint + [role.ToWire()]))
    case Revoke(deviceId) => [ACTION_REVOKE] + PutText(deviceId)
    case RotateAuthority(key) => [ACTION_ROTATE_AUTHORITY] + key
  }

  /** Everything after the group id: sequence, previous hash, epoch, signer, action. */
  function BodyBytes(v: VerifiedRecord): seq<byte>
  {
    BigEndian(v.seqNo, 8) + (v.prevRecordHash + (BigEndian(v.epoch, 8) + (v.signerKeyId + ActionBytes(v.action))))
  }

  function SigningBytes(groupId: Text, v: VerifiedRecord): seq<byte>
  {
    DOMAIN_TAG + (PutText(groupId) + BodyBytes(v))
  }

  /** What a record's hash is taken over. */
  function RecordPreimage(groupId: Text, v: VerifiedRecord): seq<byte>
  {
    SigningBytes(groupId, v) + v.signature
  }

  predicate TextsBelow(groupId: Text, v: VerifiedRecord, bound: nat)
  {
    && |groupId| < bound
    && (v.action.Grant? || v.action.Revoke? ==> |v.action.deviceId| < bound)
  }

  /** The record fields a signature covers. */
  predicate SameSignedFields(v: VerifiedRecord, w: VerifiedRecord)
  {
    && v.seqNo == w.seqNo && v.prevRecordHash == w.prevRecordHash && v.epoch == w.epoch
    && v.signerKeyId == w.signerKeyId && v.action == w.action
  }

  lemma PutTextSplits(s: Text, x: seq<byte>, t: Text, y: seq<byte>)
    requires |s| < TWO_32 && |t| < TWO_32
    requires PutText(s) + x == PutText(t) + y
    ensures s == t && x == y
  {
    Pow256Widths();
    var a, b := BigEndian(|s|, 4), BigEndian(|t|, 4);
    assert PutText(s) + x == a + (s + x) && PutText(t) + y == b + (t + y);
    SplitConcat(a, s + x, b, t + y);
    BigEndianInjective(|s|, |t|, 4);
    SplitConcat(s, x, t, y);
  }

  lemma ActionBytesInjective(a: PolicyAction, b: PolicyAction)
    requires a.Grant? || a.Revoke? ==> |a.deviceId| < TWO_32
    requires b.Grant? || b.Revoke? ==> |b.deviceId| < TWO_32
    requires ActionBytes(a) == ActionBytes(b)
    ensures a == b
  {
    assert ActionBytes(a)[0] == ActionBytes(b)[0];
    match a
    case Grant(d, f, r) =>
      SplitConcat([ACTION_GRANT_WITH_ROLE], ActionBytes(a)[1..], [ACTION_GRANT_WITH_ROLE], ActionBytes(b)[1..]);
      var g := b.signingKeyFingerprint + [b.role.ToWire()];
      PutTextSplits(d, f + [r.ToWire()], b.deviceId, g);
      SplitConcat(f, [r.ToWire()], b.signingKeyFingerprint, [b.role.ToWire()]);
    case Revoke(d) =>
      SplitConcat([ACTION_REVOKE], PutText(d), [ACTION_REVOKE], PutText(b.deviceId));
      assert PutText(d) + [] == PutText(d) && PutText(b.deviceId) + [] == PutText(b.deviceId);
      PutTextSplits(d, [], b.deviceId, []);
    case RotateAuthority(k) =>
      SplitConcat([ACTION_ROTATE_AUTHORITY], k, [ACTION_ROTATE_AUTHORITY], b.newAuthorityKey);
  }

  lemma BodyBytesInjective(v: VerifiedRecord, w: VerifiedRecord)
    requires v.action.Grant? || v.action.Revoke? ==> |v.action.deviceId| < TWO_32
    requires w.action.Grant? || w.action.Revoke? ==> |w.action.deviceId| < TWO_32
    requires BodyBytes(v) == BodyBytes(w)
    ensures SameSignedFields(v, w)
  {
    Pow256Widths();
    var v3, w3 := v.signerKeyId + ActionBytes(v.action), w.signerKeyId + ActionBytes(w.action);
    var v2, w2 := BigEndian(v.epoch, 8) + v3, BigEndian(w.epoch, 8) + w3;
    SplitConcat(BigEndian(v.seqNo, 8), v.prevRecordHash + v2, BigEndian(w.seqNo, 8), w.prevRecordHash + w2);
    BigEndianInjective(v.seqNo, w.seqNo, 8);
    SplitConcat(v.prevRecordHash, v2, w.prevRecordHash, w2);
    SplitConcat(BigEndian(v.epoch, 8), v3, BigEndian(w.epoch, 8), w3);
    BigEndianInjective(v.epoch, w.epoch, 8);
    SplitConcat(v.signerKeyId, ActionBytes(v.action), w.signerKeyId, ActionBytes(w.action));
    ActionBytesInjective(v.action, w.action);
  }

  /** The signing bytes determine the group and every signed field, as long as
      no text reaches 2^32 bytes. */
  lemma SigningBytesInjective(g: Text, v: VerifiedRecord, h: Text, w: VerifiedRecord)
    requires TextsBelow(g, v, TWO_32) && TextsBelow(h, w, TWO_32)
    requires SigningBytes(g, v) == SigningBytes(h, w)
    ensures g == h && SameSignedFields(v, w)
  {
    SplitConcat(DOMAIN_TAG, PutText(g) + BodyBytes(v), DOMAIN_TAG, PutText(h) + BodyBytes(w));
    PutTextSplits(g, BodyBytes(v), h, BodyBytes(w));
    BodyBytesInjective(v, w);
  }

  /** The hashed bytes determine the group, every signed field and the signature. */
  lemma RecordPreimageInjective(g: Text, v: VerifiedRecord, h: Text, w: VerifiedRecord)
    requires TextsBelow(g, v, TWO_32) && TextsBelow(h, w, TWO_32)
    requires RecordPreimage(g, v) == RecordPreimage(h, w)
    ensures g == h && SameSignedFields(v, w) && v.signature == w.signature
  {
    var a, b := SigningBytes(g, v), SigningBytes(h, w);
    assert |a| + SIGNATURE_LEN == |RecordPreimage(g, v)| == |RecordPreimage(h, w)| == |b| + SIGNATURE_LEN;
    SplitConcat(a, v.signature, b, w.signature);
    SigningBytesInjective(g, v, h, w);
  }

  /** Whether the signing bytes tell apart all records whose texts are shorter than `bound`. */
  ghost predicate InjectiveBelow(bound: nat)
  {
    forall g, v, h, w ::
      TextsBelow(g, v, bound) && TextsBelow(h, w, bound) && SigningBytes(g, v) == SigningBytes(h, w)
      ==> g == h && SameSignedFields(v, w)
  }

  function Zeros(n: nat): (z: seq<byte>)
    ensures |z| == n
  {
    seq(n, _ => 0)
  }

  function ZeroRecord(action: PolicyAction): VerifiedRecord
  {
    VerifiedRecord(0, ZERO_HASH, ZERO_HASH, 0, ZERO_HASH, action, Zeros(SIGNATURE_LEN))
  }

  lemma BigEndianOfMultiple(k: nat, width: nat)
    ensures BigEndian(k * Pow256(width), width) == Zeros(width)
  {
    if width > 0 {
      var n := k * Pow256(width);
      assert n == 256 * (k * Pow256(width - 1));
      BigEndianOfMultiple(k, width - 1);
    }
  }

  lemma GlueZeros(m: nat, n: nat, rest: seq<byte>)
    ensures Zeros(m) + (Zeros(n) + rest) == Zeros(m + n) + rest
  {
  }

  lemma ZeroHashIsZeros()
    ensures ZERO_HASH == Zeros(32)
  {
  }

  lemma ZeroBody(action: PolicyAction)
    ensures BodyBytes(ZeroRecord(action)) == Zeros(80) + ActionBytes(action)
  {
    var a := ActionBytes(action);
    BigEndianOfMultiple(0, 8);
    ZeroHashIsZeros();
    GlueZeros(8, 32, a);
    GlueZeros(32, 40, a);
    GlueZeros(8, 72, a);
  }

  /** `x` zeros, the revoke tag, `y` zeros, the tag again, four zeros. */
  function TwoTags(x: nat, y: nat): seq<byte>
  {
    Zeros(x) + [ACTION_REVOKE] + Zeros(y) + [ACTION_REVOKE] + Zeros(4)
  }

  /** One byte string read as an empty text and a body, or as a long text and a body. */
  lemma TwoReadings(n: nat)
    requires n >= 81
    ensures Zeros(4) + (Zeros(80) + ([ACTION_REVOKE] + (Zeros(4) + (Zeros(n - 5) + [ACTION_REVOKE] + Zeros(4)))))
            == TwoTags(84, n - 1)
    ensures (Zeros(4) + (Zeros(80) + [ACTION_REVOKE] + Zeros(n - 81))) + (Zeros(80) + ([ACTION_REVOKE] + Zeros(4)))
            == TwoTags(84, n - 1)
  {
  }

  /** Two different records with one encoding: a group id of 2^32 bytes has the
      length prefix of an empty one, so the bytes of one record's group can be
      read as the other record's fields and device id. */
  lemma HugeTextsCollide() returns (g: Text, v: VerifiedRecord, h: Text, w: VerifiedRecord)
    ensures TextsBelow(g, v, TWO_32 + 1) && TextsBelow(h, w, TWO_32 + 1)
    ensures SigningBytes(g, v) == SigningBytes(h, w) && g != h
  {
    var device := Zeros(TWO_32 - 5) + [ACTION_REVOKE] + Zeros(4);
    g, v := [], ZeroRecord(Revoke(device));
    h, w := Zeros(80) + [ACTION_REVOKE] + Zeros(TWO_32 - 81), ZeroRecord(Revoke([]));
    Pow256Widths();
    BigEndianOfMultiple(0, 4);
    BigEndianOfMultiple(1, 4);
    ZeroBody(v.action);
    ZeroBody(w.action);
    TwoReadings(TWO_32);
    assert |h| == TWO_32 && |device| == TWO_32;
    assert PutText(g) == Zeros(4) && PutText([]) == Zeros(4);
  }

  /** The encoding is injective exactly on texts that fit the 32-bit length prefix. */
  lemma InjectiveExactlyBelowTwo32(bound: nat)
    ensures InjectiveBelow(bound) <==> bound <= TWO_32
  {
    if bound <= TWO_32 {
      forall g, v, h, w | TextsBelow(g, v, bound) && TextsBelow(h, w, bound) && SigningBytes(g, v) == SigningBytes(h, w)
        ensures g == h && SameSignedFields(v, w)
      {
        SigningBytesInjective(g, v, h, w);
      }
    } else {
      var g, v, h, w := HugeTextsCollide();
      assert TextsBelow(g, v, bound) && TextsBelow(h, w, bound);
    }
  }

  // ----- one record -----------------------------------------------------

  function FixedHash(b: seq<byte>, field: Field): Result<Hash, VerifyError>
  {
    if |b| == HASH_LEN then Ok(b) else Err(WrongLength(field))
  }

  function FixedSignature(b: seq<byte>, field: Field): Result<Signature, VerifyError>
  {
    if |b| == SIGNATURE_LEN then Ok(b) else Err(WrongLength(field))
  }

  function RoleFromWire(value: u32): Result<WriterRole, VerifyError>
  {
    match value
    case 0 => Ok(Viewer)
    case 1 => Ok(Editor)
    case 2 => Ok(Owner)
    case _ => Err(InvalidWriterRole(value))
  }

  function ParseAction(r: PolicyRecord): Result<PolicyAction, VerifyError>
  {
    if r.actionType == ACTION_GRANT_WITH_ROLE then
      var fingerprint := FixedHash(r.signingKeyFingerprint, SigningKeyFingerprint);
      if fingerprint.Err? then Err(fingerprint.error) else
      var role := RoleFromWire(r.role);
      if role.Err? then Err(role.error) else
      Ok(Grant(r.deviceId, fingerprint.value, role.value))
    else if r.actionType == ACTION_REVOKE then
      Ok(Revoke(r.deviceId))
    else if r.actionType == ACTION_ROTATE_AUTHORITY then
      var key := FixedHash(r.newAuthorityKey, NewAuthorityKey);
      if key.Err? then Err(key.error) else Ok(RotateAuthority(key.value))
    else
      Err(InvalidActionType(r.seqNo))
  }

  /** The record `r` spells, before any hash or signature is looked at. */
  function ParseRecord(r: PolicyRecord): Option<VerifiedRecord>
  {
    var action := ParseAction(r);
    if |r.prevRecordHash| == HASH_LEN && |r.recordHash| == HASH_LEN && |r.signerKeyId| == HASH_LEN
       && |r.signature| == SIGNATURE_LEN && action.Ok?
    then
      Some(VerifiedRecord(r.seqNo, r.prevRecordHash, r.recordHash, r.epoch, r.signerKeyId, action.value, r.signature))
    else
      None
  }

  function VerifyRecord(c: Crypto, r: PolicyRecord, authorityKey: Hash, expectedPrev: Hash)
    : Result<VerifiedRecord, VerifyError>
  {
    var prev := FixedHash(r.prevRecordHash, PrevRecordHash);
    if prev.Err? then Err(prev.error) else
    if prev.value != expectedPrev then Err(BrokenPrevHash(r.seqNo)) else
    var recordHash := FixedHash(r.recordHash, RecordHash);
    if recordHash.Err? then Err(recordHash.error) else
    var signer := FixedHash(r.signerKeyId, SignerKeyId);
    if signer.Err? then Err(signer.error) else
    if signer.value != c.digest(authorityKey) then Err(SignerKeyIdMismatch(r.seqNo)) else
    var signature := FixedSignature(r.signature, SignatureField);
    if signature.Err? then Err(signature.error) else
    var action := ParseAction(r);
    if action.Err? then Err(action.error) else
    var v := VerifiedRecord(r.seqNo, prev.value, recordHash.value, r.epoch, signer.value, action.value, signature.value);
    if !c.validKey(authorityKey) then Err(InvalidServiceKey) else
    if !c.signed(authorityKey, SigningBytes(r.groupId, v), v.signature) then Err(SignatureFailed(r.seqNo)) else
    if c.digest(RecordPreimage(r.groupId, v)) != v.recordHash then Err(HashMismatch(r.seqNo)) else
    Ok(v)
  }

  /** What makes `v` the record after head `prev` under authority `key`. */
  predicate LinksTo(c: Crypto, groupId: Text, key: Hash, prev: Hash, v: VerifiedRecord)
  {
    && v.prevRecordHash == prev
    && v.signerKeyId == c.digest(key)
    && c.validKey(key)
    && c.signed(key, SigningBytes(groupId, v), v.signature)
    && c.digest(RecordPreimage(groupId, v)) == v.recordHash
  }

  /** The checks accept exactly the well-formed records that link. */
  lemma VerifyRecordIff(c: Crypto, r: PolicyRecord, key: Hash, prev: Hash, v: VerifiedRecord)
    ensures VerifyRecord(c, r, key, prev) == Ok(v)
            <==> ParseRecord(r) == Some(v) && LinksTo(c, r.groupId, key, prev, v)
  {
  }
}

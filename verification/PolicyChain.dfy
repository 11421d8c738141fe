/** Verification of a whole policy log, from scratch or on a retained prefix
    (`verify_group_policy_log_with_base`), against a declarative description of
    the chains it accepts and of the state it builds from them. */
module PolicyChain {
  import opened Bytes
  import opened PolicyLog
  import opened Sorting

  datatype GroupPolicyState = GroupPolicyState(
    currentSeq: nat,
    currentEpoch: nat,
    policyHead: Hash,
    finalAuthorityKey: Hash,
    authorityGeneration: nat,
    records: map<nat, VerifiedRecord>,
    authorityKeyHistory: map<Hash, Hash>)

  // ----- the verifier ---------------------------------------------------

  /** The stable sort by sequence number. */
  function SortBySeq(rs: seq<PolicyRecord>): seq<PolicyRecord>
  {
    SortBy(rs, (r: PolicyRecord) => r.seqNo)
  }

  lemma GreatestExists(keys: set<nat>)
    requires keys != {}
    ensures exists k :: k in keys && forall j :: j in keys ==> j <= k
  {
    var k :| k in keys;
    if keys != {k} {
      var rest := keys - {k};
      assert rest != {} by {
        assert exists j :: j in keys && j != k;
      }
      GreatestExists(rest);
      var j :| j in rest && forall i :: i in rest ==> i <= j;
      var top := if j < k then k else j;
      assert forall i :: i in keys ==> i == k || i in rest;
      assert top in keys && forall i :: i in keys ==> i <= top;
    }
  }

  /** The greatest key of an ordered map. */
  function LastKey<V>(m: map<nat, V>): (k: nat)
    requires m != map[]
    ensures k in m && forall j :: j in m ==> j <= k
  {
    assert m.Keys != {};
    GreatestExists(m.Keys);
    var k :| k in m && forall j :: j in m ==> j <= k;
    k
  }

  /** The local variables of the verification loop. */
  datatype Cursor = Cursor(
    authorityKey: Hash,
    expectedPrev: Hash,
    expectedSeq: nat,
    generation: nat,
    records: map<nat, VerifiedRecord>,
    history: map<Hash, Hash>)

  function Advance(c: Crypto, groupId: Text, cur: Cursor, r: PolicyRecord): Result<Cursor, VerifyError>
  {
    if r.groupId != groupId then Err(GroupMismatch) else
    if r.seqNo != cur.expectedSeq then Err(SequenceGap(r.seqNo)) else
    var verified := VerifyRecord(c, r, cur.authorityKey, cur.expectedPrev);
    if verified.Err? then Err(verified.error) else
    var v := verified.value;
    var rotates := v.action.RotateAuthority?;
    Ok(Cursor(
         if rotates then v.action.newAuthorityKey else cur.authorityKey,
         v.recordHash,
         cur.expectedSeq + 1,
         if rotates then cur.generation + 1 else cur.generation,
         cur.records[v.seqNo := v],
         cur.history[v.recordHash := cur.authorityKey]))
  }

  function AdvanceAll(c: Crypto, groupId: Text, cur: Cursor, rs: seq<PolicyRecord>): Result<Cursor, VerifyError>
    decreases |rs|
  {
    if rs == [] then Ok(cur) else
    var next := Advance(c, groupId, cur, rs[0]);
    if next.Err? then next else AdvanceAll(c, groupId, next.value, rs[1..])
  }

  function SaturatingSuccessor(n: nat): nat
  {
    if n >= U64_MAX then U64_MAX else n + 1
  }

  function StartCursor(serviceKey: Hash, base: Option<GroupPolicyState>): Cursor
  {
    match base
    case None => Cursor(serviceKey, ZERO_HASH, 1, 0, map[], map[ZERO_HASH := serviceKey])
    case Some(b) =>
      var history := if ZERO_HASH in b.authorityKeyHistory then b.authorityKeyHistory
                     else b.authorityKeyHistory[ZERO_HASH := b.finalAuthorityKey];
      Cursor(b.finalAuthorityKey, b.policyHead, SaturatingSuccessor(b.currentSeq),
             b.authorityGeneration, b.records, history)
  }

  function Finish(log: GroupPolicyLog, head: Hash, cur: Cursor): Result<GroupPolicyState, VerifyError>
  {
    var seqNo := if cur.records == map[] then 0 else LastKey(cur.records);
    var epoch := if cur.records == map[] then 0 else cur.records[LastKey(cur.records)].epoch;
    var derivedHead := if cur.records == map[] then ZERO_HASH else cur.records[LastKey(cur.records)].recordHash;
    if log.currentSeq != seqNo then Err(CurrentSeqMismatch) else
    if log.currentEpoch != epoch then Err(CurrentEpochMismatch) else
    if head != derivedHead then Err(HeadMismatch) else
    Ok(GroupPolicyState(seqNo, epoch, derivedHead, cur.authorityKey, cur.generation, cur.records, cur.history))
  }

  function VerifyLog(c: Crypto, servicePublicKey: seq<byte>, base: Option<GroupPolicyState>, log: GroupPolicyLog)
    : Result<GroupPolicyState, VerifyError>
  {
    var serviceKey := FixedHash(servicePublicKey, ServicePublicKey);
    if serviceKey.Err? then Err(serviceKey.error) else
    var head := FixedHash(log.policyHead, PolicyHead);
    if head.Err? then Err(head.error) else
    if base.Some? && log.records == [] then
      if log.currentSeq == base.value.currentSeq && log.currentEpoch == base.value.currentEpoch
         && head.value == base.value.policyHead
      then Ok(base.value)
      else Err(NoRecordsBeyondPrefix)
    else
      var end := AdvanceAll(c, log.groupId, StartCursor(serviceKey.value, base), SortBySeq(log.records));
      if end.Err? then Err(end.error) else Finish(log, head.value, end.value)
  }

  /** One turn of the loop, updating the five running values as the program does. */
  method VerifyNext(c: Crypto, groupId: Text, before: Cursor, record: PolicyRecord)
    returns (next: Result<Cursor, VerifyError>)
    ensures next == Advance(c, groupId, before, record)
  {
    if record.groupId != groupId {
      return Err(GroupMismatch);
    }
    if record.seqNo != before.expectedSeq {
      return Err(SequenceGap(record.seqNo));
    }
    var keyBefore := before.authorityKey;
    var verified := VerifyRecord(c, record, keyBefore, before.expectedPrev);
    if verified.Err? {
      return Err(verified.error);
    }
    var v := verified.value;
    var cur := before.(expectedPrev := v.recordHash, history := before.history[v.recordHash := keyBefore]);
    if v.action.RotateAuthority? {
      cur := cur.(authorityKey := v.action.newAuthorityKey, generation := cur.generation + 1);
    }
    cur := cur.(records := cur.records[v.seqNo := v], expectedSeq := cur.expectedSeq + 1);
    next := Ok(cur);
  }

  /** The loop over the ordered records. */
  method VerifyOrdered(c: Crypto, groupId: Text, start: Cursor, ordered: seq<PolicyRecord>)
    returns (end: Result<Cursor, VerifyError>)
    ensures end == AdvanceAll(c, groupId, start, ordered)
  {
    end := Ok(start);
    var i := 0;
    while i < |ordered|
      invariant 0 <= i <= |ordered| && end.Ok?
      invariant AdvanceAll(c, groupId, start, ordered) == AdvanceAll(c, groupId, end.value, ordered[i..])
    {
      assert ordered[i..][0] == ordered[i] && ordered[i..][1..] == ordered[i + 1..];
      end := VerifyNext(c, groupId, end.value, ordered[i]);
      if end.Err? {
        return;
      }
      i := i + 1;
    }
  }

  method VerifyGroupPolicyLogWithBase(
    c: Crypto, servicePublicKey: seq<byte>, base: Option<GroupPolicyState>, log: GroupPolicyLog)
    returns (result: Result<GroupPolicyState, VerifyError>)
    ensures result == VerifyLog(c, servicePublicKey, base, log)
  {
    if |servicePublicKey| != HASH_LEN {
      return Err(WrongLength(ServicePublicKey));
    }
    if |log.policyHead| != HASH_LEN {
      return Err(WrongLength(PolicyHead));
    }
    if base.Some? && log.records == [] {
      if log.currentSeq == base.value.currentSeq && log.currentEpoch == base.value.currentEpoch
         && log.policyHead == base.value.policyHead {
        return Ok(base.value);
      }
      return Err(NoRecordsBeyondPrefix);
    }
    var end := VerifyOrdered(c, log.groupId, StartCursor(servicePublicKey, base), SortBySeq(log.records));
    if end.Err? {
      return Err(end.error);
    }
    result := Finish(log, log.policyHead, end.value);
  }

  // ----- what a verified chain is ---------------------------------------

  /** The authority key in force after `chain`: the last rotation's key, else the service key. */
  function KeyAfter(serviceKey: Hash, chain: seq<VerifiedRecord>): Hash
  {
    if chain == [] then serviceKey
    else if chain[|chain| - 1].action.RotateAuthority? then chain[|chain| - 1].action.newAuthorityKey
    else KeyAfter(serviceKey, chain[..|chain| - 1])
  }

  function Rotations(chain: seq<VerifiedRecord>): nat
  {
    if chain == [] then 0
    else Rotations(chain[..|chain| - 1]) + if chain[|chain| - 1].action.RotateAuthority? then 1 else 0
  }

  function HeadOf(chain: seq<VerifiedRecord>): Hash
  {
    if chain == [] then ZERO_HASH else chain[|chain| - 1].recordHash
  }

  function EpochOf(chain: seq<VerifiedRecord>): u64
  {
    if chain == [] then 0 else chain[|chain| - 1].epoch
  }

  function RecordsOf(chain: seq<VerifiedRecord>): map<nat, VerifiedRecord>
  {
    if chain == [] then map[]
    else RecordsOf(chain[..|chain| - 1])[|chain| := chain[|chain| - 1]]
  }

  lemma {:induction false} RecordsOfAt(chain: seq<VerifiedRecord>)
    ensures forall k :: k in RecordsOf(chain) <==> 1 <= k <= |chain|
    ensures forall k :: 1 <= k <= |chain| ==> RecordsOf(chain)[k] == chain[k - 1]
  {
    if chain != [] {
      RecordsOfAt(chain[..|chain| - 1]);
    }
  }

  /** Each record hash, to the key that signed that record; the empty chain, to the service key. */
  function HistoryOf(serviceKey: Hash, chain: seq<VerifiedRecord>): map<Hash, Hash>
  {
    if chain == [] then map[ZERO_HASH := serviceKey]
    else
      var before := chain[..|chain| - 1];
      HistoryOf(serviceKey, before)[chain[|chain| - 1].recordHash := KeyAfter(serviceKey, before)]
  }

  function StateOf(serviceKey: Hash, chain: seq<VerifiedRecord>): GroupPolicyState
  {
    GroupPolicyState(|chain|, EpochOf(chain), HeadOf(chain), KeyAfter(serviceKey, chain), Rotations(chain),
                     RecordsOf(chain), HistoryOf(serviceKey, chain))
  }

  /** Record `i` carries number `i + 1`, points at the record before it, and is
      signed by the key the rotations before it leave in force. */
  predicate LinkedAt(c: Crypto, groupId: Text, serviceKey: Hash, chain: seq<VerifiedRecord>, i: nat)
    requires i < |chain|
  {
    && chain[i].seqNo == i + 1
    && LinksTo(c, groupId, KeyAfter(serviceKey, chain[..i]), HeadOf(chain[..i]), chain[i])
  }

  ghost predicate ValidChain(c: Crypto, groupId: Text, serviceKey: Hash, chain: seq<VerifiedRecord>)
  {
    forall i :: 0 <= i < |chain| ==> LinkedAt(c, groupId, serviceKey, chain, i)
  }

  /** The records of a state, in order. */
  ghost function ChainOf(s: GroupPolicyState): (chain: seq<VerifiedRecord>)
    requires forall k :: 1 <= k <= s.currentSeq ==> k in s.records
    ensures |chain| == s.currentSeq
  {
    seq(s.currentSeq, i requires 0 <= i < s.currentSeq => s.records[i + 1])
  }

  /** `s` is the state of a valid chain: what every call of the verifier hands out. */
  ghost predicate Verified(c: Crypto, groupId: Text, serviceKey: Hash, s: GroupPolicyState)
  {
    && (forall k :: 1 <= k <= s.currentSeq ==> k in s.records)
    && ValidChain(c, groupId, serviceKey, ChainOf(s))
    && s == StateOf(serviceKey, ChainOf(s))
  }

  lemma ChainOfStateOf(c: Crypto, groupId: Text, serviceKey: Hash, chain: seq<VerifiedRecord>)
    requires ValidChain(c, groupId, serviceKey, chain)
    ensures Verified(c, groupId, serviceKey, StateOf(serviceKey, chain))
    ensures ChainOf(StateOf(serviceKey, chain)) == chain
  {
    RecordsOfAt(chain);
    assert ChainOf(StateOf(serviceKey, chain)) == chain;
  }

  lemma ValidPrefix(c: Crypto, groupId: Text, serviceKey: Hash, chain: seq<VerifiedRecord>, n: nat)
    requires n <= |chain| && ValidChain(c, groupId, serviceKey, chain)
    ensures ValidChain(c, groupId, serviceKey, chain[..n])
  {
    forall i | 0 <= i < n
      ensures LinkedAt(c, groupId, serviceKey, chain[..n], i)
    {
      assert chain[..n][..i] == chain[..i];
      assert LinkedAt(c, groupId, serviceKey, chain, i);
    }
  }

  lemma ValidFirstPart(c: Crypto, groupId: Text, serviceKey: Hash, a: seq<VerifiedRecord>, b: seq<VerifiedRecord>)
    requires ValidChain(c, groupId, serviceKey, a + b)
    ensures ValidChain(c, groupId, serviceKey, a)
  {
    ValidPrefix(c, groupId, serviceKey, a + b, |a|);
    assert (a + b)[..|a|] == a;
  }

  lemma ValidExtension(c: Crypto, groupId: Text, serviceKey: Hash, chain: seq<VerifiedRecord>, v: VerifiedRecord)
    requires ValidChain(c, groupId, serviceKey, chain)
    ensures ValidChain(c, groupId, serviceKey, chain + [v])
            <==> v.seqNo == |chain| + 1 && LinksTo(c, groupId, KeyAfter(serviceKey, chain), HeadOf(chain), v)
  {
    var longer := chain + [v];
    assert longer[..|chain|] == chain;
    forall i | 0 <= i < |chain|
      ensures LinkedAt(c, groupId, serviceKey, longer, i)
    {
      assert longer[..i] == chain[..i];
      assert LinkedAt(c, groupId, serviceKey, chain, i);
    }
    assert LinkedAt(c, groupId, serviceKey, longer, |chain|)
        <==> v.seqNo == |chain| + 1 && LinksTo(c, groupId, KeyAfter(serviceKey, chain), HeadOf(chain), v);
  }

  // ----- the verifier accepts exactly these -----------------------------

  function CursorOf(serviceKey: Hash, chain: seq<VerifiedRecord>): Cursor
  {
    Cursor(KeyAfter(serviceKey, chain), HeadOf(chain), |chain| + 1, Rotations(chain),
           RecordsOf(chain), HistoryOf(serviceKey, chain))
  }

  predicate SpellsOne(groupId: Text, r: PolicyRecord, n: nat)
  {
    r.groupId == groupId && r.seqNo == n && ParseRecord(r).Some?
  }

  /** `rs` spells records `from + 1`, `from + 2`, ... of group `groupId`. */
  predicate Spells(groupId: Text, rs: seq<PolicyRecord>, from: nat)
  {
    forall i :: 0 <= i < |rs| ==> SpellsOne(groupId, rs[i], from + i + 1)
  }

  function Spelled(rs: seq<PolicyRecord>): (chain: seq<VerifiedRecord>)
    requires forall i :: 0 <= i < |rs| ==> ParseRecord(rs[i]).Some?
    ensures |chain| == |rs|
    ensures forall i :: 0 <= i < |rs| ==> chain[i] == ParseRecord(rs[i]).value
  {
    if rs == [] then [] else [ParseRecord(rs[0]).value] + Spelled(rs[1..])
  }

  lemma {:induction false} AdvanceIff(c: Crypto, groupId: Text, serviceKey: Hash, chain: seq<VerifiedRecord>, r: PolicyRecord)
    requires ValidChain(c, groupId, serviceKey, chain)
    ensures var next := Advance(c, groupId, CursorOf(serviceKey, chain), r);
            if SpellsOne(groupId, r, |chain| + 1) && ValidChain(c, groupId, serviceKey, chain + [ParseRecord(r).value])
            then next == Ok(CursorOf(serviceKey, chain + [ParseRecord(r).value]))
            else next.Err?
  {
    var cur := CursorOf(serviceKey, chain);
    var verified := VerifyRecord(c, r, cur.authorityKey, cur.expectedPrev);
    if ParseRecord(r).Some? {
      var v := ParseRecord(r).value;
      ValidExtension(c, groupId, serviceKey, chain, v);
      VerifyRecordIff(c, r, cur.authorityKey, cur.expectedPrev, v);
      var longer := chain + [v];
      assert longer[..|longer| - 1] == chain;
    }
    if verified.Ok? {
      VerifyRecordIff(c, r, cur.authorityKey, cur.expectedPrev, verified.value);
    }
  }

  lemma {:induction false} SpellsStep(groupId: Text, rs: seq<PolicyRecord>, from: nat)
    requires rs != []
    ensures Spells(groupId, rs, from) <==> SpellsOne(groupId, rs[0], from + 1) && Spells(groupId, rs[1..], from + 1)
  {
    if SpellsOne(groupId, rs[0], from + 1) && Spells(groupId, rs[1..], from + 1) {
      forall i | 0 <= i < |rs|
        ensures SpellsOne(groupId, rs[i], from + i + 1)
      {
        if i > 0 {
          assert rs[i] == rs[1..][i - 1];
        }
      }
    }
    if Spells(groupId, rs, from) {
      forall i | 0 <= i < |rs| - 1
        ensures SpellsOne(groupId, rs[1..][i], from + 1 + i + 1)
      {
        assert rs[1..][i] == rs[i + 1];
      }
    }
  }

  lemma {:induction false} SpelledStep(chain: seq<VerifiedRecord>, rs: seq<PolicyRecord>)
    requires rs != [] && forall i :: 0 <= i < |rs| ==> ParseRecord(rs[i]).Some?
    ensures forall i :: 0 <= i < |rs| - 1 ==> ParseRecord(rs[1..][i]).Some?
    ensures chain + Spelled(rs) == chain + [ParseRecord(rs[0]).value] + Spelled(rs[1..])
  {
  }

  /** `rs` spells a valid continuation of `chain`. */
  ghost predicate Continues(
    c: Crypto, groupId: Text, serviceKey: Hash, chain: seq<VerifiedRecord>, rs: seq<PolicyRecord>)
  {
    Spells(groupId, rs, |chain|) && ValidChain(c, groupId, serviceKey, chain + Spelled(rs))
  }

  lemma {:induction false} ContinuesStep(
    c: Crypto, groupId: Text, serviceKey: Hash, chain: seq<VerifiedRecord>, rs: seq<PolicyRecord>)
    requires rs != []
    ensures Continues(c, groupId, serviceKey, chain, rs)
            <==> SpellsOne(groupId, rs[0], |chain| + 1)
                 && var longer := chain + [ParseRecord(rs[0]).value];
                    ValidChain(c, groupId, serviceKey, longer) && Continues(c, groupId, serviceKey, longer, rs[1..])
  {
    SpellsStep(groupId, rs, |chain|);
    if Spells(groupId, rs, |chain|) {
      SpelledStep(chain, rs);
      var longer, rest := chain + [ParseRecord(rs[0]).value], Spelled(rs[1..]);
      if ValidChain(c, groupId, serviceKey, longer + rest) {
        ValidFirstPart(c, groupId, serviceKey, longer, rest);
      }
    }
  }

  /** The loop accepts exactly the records that spell a valid continuation, and
      ends on the cursor of the whole chain. */
  lemma {:induction false} AdvanceAllIff(
    c: Crypto, groupId: Text, serviceKey: Hash, chain: seq<VerifiedRecord>, rs: seq<PolicyRecord>)
    requires ValidChain(c, groupId, serviceKey, chain)
    ensures AdvanceAll(c, groupId, CursorOf(serviceKey, chain), rs).Ok? <==> Continues(c, groupId, serviceKey, chain, rs)
    ensures Continues(c, groupId, serviceKey, chain, rs)
            ==> AdvanceAll(c, groupId, CursorOf(serviceKey, chain), rs) == Ok(CursorOf(serviceKey, chain + Spelled(rs)))
    decreases |rs|
  {
    if rs == [] {
      assert chain + Spelled(rs) == chain;
    } else {
      AdvanceIff(c, groupId, serviceKey, chain, rs[0]);
      ContinuesStep(c, groupId, serviceKey, chain, rs);
      if Spells(groupId, rs, |chain|) {
        SpelledStep(chain, rs);
      }
      if Advance(c, groupId, CursorOf(serviceKey, chain), rs[0]).Ok? {
        AdvanceAllIff(c, groupId, serviceKey, chain + [ParseRecord(rs[0]).value], rs[1..]);
      }
    }
  }

  /** The base the verifier was given stands for `chain`. */
  predicate BaseOf(serviceKey: Hash, base: Option<GroupPolicyState>, chain: seq<VerifiedRecord>)
  {
    match base
    case None => chain == []
    case Some(b) => b == StateOf(serviceKey, chain)
  }

  lemma HistoryHasGenesis(serviceKey: Hash, chain: seq<VerifiedRecord>)
    ensures ZERO_HASH in HistoryOf(serviceKey, chain)
  {
  }

  lemma StartIsCursorOf(serviceKey: Hash, base: Option<GroupPolicyState>, chain: seq<VerifiedRecord>)
    requires BaseOf(serviceKey, base, chain) && |chain| < U64_MAX
    ensures StartCursor(serviceKey, base) == CursorOf(serviceKey, chain)
  {
    HistoryHasGenesis(serviceKey, chain);
  }

  /** `log`, taken on top of `chain`, delivers the chain behind `s`. */
  ghost predicate Delivers(
    c: Crypto, serviceKey: Hash, chain: seq<VerifiedRecord>, log: GroupPolicyLog, s: GroupPolicyState)
  {
    var rs := SortBySeq(log.records);
    && Continues(c, log.groupId, serviceKey, chain, rs)
    && var whole := chain + Spelled(rs);
    && log.currentSeq == |whole| && log.currentEpoch == EpochOf(whole) && log.policyHead == HeadOf(whole)
    && s == StateOf(serviceKey, whole)
  }

  lemma FinishOfChain(log: GroupPolicyLog, head: Hash, serviceKey: Hash, chain: seq<VerifiedRecord>)
    ensures Finish(log, head, CursorOf(serviceKey, chain))
         == if log.currentSeq != |chain| then Err(CurrentSeqMismatch)
            else if log.currentEpoch != EpochOf(chain) then Err(CurrentEpochMismatch)
            else if head != HeadOf(chain) then Err(HeadMismatch)
            else Ok(StateOf(serviceKey, chain))
  {
    RecordsOfAt(chain);
    if chain != [] {
      assert |chain| in RecordsOf(chain);
    }
  }

  /** A log without records beyond the base: the base itself, if the summary fields repeat it. */
  lemma VerifyNothingNewIff(
    c: Crypto, serviceKey: Hash, base: Option<GroupPolicyState>, chain: seq<VerifiedRecord>,
    log: GroupPolicyLog, s: GroupPolicyState)
    requires BaseOf(serviceKey, base, chain) && ValidChain(c, log.groupId, serviceKey, chain)
    requires base.Some? && log.records == []
    ensures VerifyLog(c, serviceKey, base, log) == Ok(s) <==> Delivers(c, serviceKey, chain, log, s)
  {
    assert SortBySeq(log.records) == [];
    assert chain + Spelled([]) == chain;
  }

  lemma VerifyNewIff(
    c: Crypto, serviceKey: Hash, base: Option<GroupPolicyState>, chain: seq<VerifiedRecord>,
    log: GroupPolicyLog, s: GroupPolicyState)
    requires BaseOf(serviceKey, base, chain) && |chain| < U64_MAX && ValidChain(c, log.groupId, serviceKey, chain)
    requires base.None? || log.records != []
    ensures VerifyLog(c, serviceKey, base, log) == Ok(s) <==> Delivers(c, serviceKey, chain, log, s)
  {
    var rs := SortBySeq(log.records);
    StartIsCursorOf(serviceKey, base, chain);
    AdvanceAllIff(c, log.groupId, serviceKey, chain, rs);
    if Continues(c, log.groupId, serviceKey, chain, rs) && |log.policyHead| == HASH_LEN {
      FinishOfChain(log, log.policyHead, serviceKey, chain + Spelled(rs));
    }
  }

  /** Acceptance, in both directions: on a base that stands for `chain`, the
      verifier hands out `s` exactly when the sorted records spell a valid
      continuation of `chain`, the log's summary fields match its tip, and `s`
      is the state of that chain. */
  lemma VerifyLogIff(
    c: Crypto, serviceKey: Hash, base: Option<GroupPolicyState>, chain: seq<VerifiedRecord>,
    log: GroupPolicyLog, s: GroupPolicyState)
    requires BaseOf(serviceKey, base, chain) && |chain| < U64_MAX
    requires ValidChain(c, log.groupId, serviceKey, chain)
    ensures VerifyLog(c, serviceKey, base, log) == Ok(s) <==> Delivers(c, serviceKey, chain, log, s)
  {
    if base.Some? && log.records == [] {
      VerifyNothingNewIff(c, serviceKey, base, chain, log, s);
    } else {
      VerifyNewIff(c, serviceKey, base, chain, log, s);
    }
  }

  /** Every state the verifier hands out is that of a valid chain continuing its base:
      records 1 to `currentSeq`, each signed by the key the rotations before it leave
      in force, and a generation that counts the rotations. */
  lemma {:induction false} AnswersAreVerified(
    c: Crypto, serviceKey: Hash, base: Option<GroupPolicyState>, chain: seq<VerifiedRecord>,
    log: GroupPolicyLog, s: GroupPolicyState)
    requires BaseOf(serviceKey, base, chain) && |chain| < U64_MAX
    requires ValidChain(c, log.groupId, serviceKey, chain)
    requires VerifyLog(c, serviceKey, base, log) == Ok(s)
    ensures Verified(c, log.groupId, serviceKey, s)
    ensures chain <= ChainOf(s) && s.authorityGeneration == Rotations(ChainOf(s))
    ensures forall k: nat :: k in s.records <==> 1 <= k <= s.currentSeq
  {
    VerifyLogIff(c, serviceKey, base, chain, log, s);
    var whole := chain + Spelled(SortBySeq(log.records));
    ChainOfStateOf(c, log.groupId, serviceKey, whole);
    RecordsOfAt(whole);
  }
}

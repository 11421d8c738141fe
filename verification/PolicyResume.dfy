/** Neither the order in which records arrive nor a stop at a retained prefix
    changes what the verifier answers. */
module PolicyResume {
  import opened Bytes
  import opened PolicyLog
  import opened PolicyChain
  import opened Sorting

  predicate Ascending(rs: seq<PolicyRecord>)
  {
    Sorted(rs, (r: PolicyRecord) => r.seqNo)
  }

  predicate Consecutive(rs: seq<PolicyRecord>, from: nat)
  {
    forall i :: 0 <= i < |rs| ==> rs[i].seqNo == from + i
  }

  lemma SortSpec(rs: seq<PolicyRecord>)
    ensures Ascending(SortBySeq(rs)) && multiset(SortBySeq(rs)) == multiset(rs)
    ensures |SortBySeq(rs)| == |rs|
  {
    SortSorts(rs, (r: PolicyRecord) => r.seqNo);
  }

  /** Records numbered without gaps have one sorted order. */
  lemma ConsecutiveUnique(x: seq<PolicyRecord>, y: seq<PolicyRecord>, from: nat)
    requires Consecutive(x, from) && Ascending(y) && multiset(x) == multiset(y)
    ensures x == y
  {
    var key := (r: PolicyRecord) => r.seqNo;
    forall p, q | p in x && q in x && key(p) == key(q)
      ensures p == q
    {
      var i :| 0 <= i < |x| && x[i] == p;
      var j :| 0 <= j < |x| && x[j] == q;
      assert i == j;
    }
    SortedUnique(x, y, key);
  }

  /** Accepted records are numbered consecutively. */
  lemma {:induction false} AcceptedAreConsecutive(c: Crypto, groupId: Text, cur: Cursor, rs: seq<PolicyRecord>)
    requires AdvanceAll(c, groupId, cur, rs).Ok?
    ensures Consecutive(rs, cur.expectedSeq)
    decreases |rs|
  {
    if rs != [] {
      AcceptedAreConsecutive(c, groupId, Advance(c, groupId, cur, rs[0]).value, rs[1..]);
      forall i | 0 < i < |rs|
        ensures rs[i].seqNo == cur.expectedSeq + i
      {
        assert rs[i] == rs[1..][i - 1];
      }
    }
  }

  lemma AcceptedSortsAlike(c: Crypto, groupId: Text, cur: Cursor, a: seq<PolicyRecord>, b: seq<PolicyRecord>)
    requires multiset(a) == multiset(b)
    requires AdvanceAll(c, groupId, cur, SortBySeq(a)).Ok?
    ensures SortBySeq(a) == SortBySeq(b)
  {
    AcceptedAreConsecutive(c, groupId, cur, SortBySeq(a));
    SortSpec(a);
    SortSpec(b);
    ConsecutiveUnique(SortBySeq(a), SortBySeq(b), cur.expectedSeq);
  }

  /** Reordering the records of a log changes neither acceptance nor the state, on any base. */
  lemma OrderIrrelevant(
    c: Crypto, servicePublicKey: seq<byte>, base: Option<GroupPolicyState>,
    log: GroupPolicyLog, shuffled: seq<PolicyRecord>, s: GroupPolicyState)
    requires multiset(shuffled) == multiset(log.records)
    ensures VerifyLog(c, servicePublicKey, base, log) == Ok(s)
            <==> VerifyLog(c, servicePublicKey, base, log.(records := shuffled)) == Ok(s)
  {
    SameLength(shuffled, log.records);
    if |servicePublicKey| == HASH_LEN {
      var start := StartCursor(servicePublicKey, base);
      if AdvanceAll(c, log.groupId, start, SortBySeq(log.records)).Ok? {
        AcceptedSortsAlike(c, log.groupId, start, log.records, shuffled);
      } else if AdvanceAll(c, log.groupId, start, SortBySeq(shuffled)).Ok? {
        AcceptedSortsAlike(c, log.groupId, start, shuffled, log.records);
      }
    }
  }

  lemma SpellsIsConsecutive(groupId: Text, rs: seq<PolicyRecord>, from: nat)
    requires Spells(groupId, rs, from)
    ensures Consecutive(rs, from + 1)
  {
    assert forall i :: 0 <= i < |rs| ==> SpellsOne(groupId, rs[i], from + i + 1);
  }

  lemma {:induction false} SpellsConcat(groupId: Text, a: seq<PolicyRecord>, b: seq<PolicyRecord>, from: nat)
    requires Spells(groupId, a, from)
    ensures Spells(groupId, a + b, from) <==> Spells(groupId, b, from + |a|)
    ensures Spells(groupId, a + b, from) ==> Spelled(a + b) == Spelled(a) + Spelled(b)
  {
    if Spells(groupId, a + b, from) {
      forall i | 0 <= i < |b|
        ensures SpellsOne(groupId, b[i], from + |a| + i + 1)
      {
        assert b[i] == (a + b)[|a| + i];
        assert SpellsOne(groupId, (a + b)[|a| + i], from + (|a| + i) + 1);
      }
    }
  }

  /** If the sorted whole is numbered without gaps from where `first` starts,
      it is `first` followed by the sorted rest. */
  lemma WholeIsFirstThenRest(whole: seq<PolicyRecord>, first: seq<PolicyRecord>, rest: seq<PolicyRecord>, from: nat)
    requires Consecutive(first, from) && Ascending(rest) && Ascending(whole)
    requires multiset(whole) == multiset(first) + multiset(rest)
    requires Consecutive(whole, from) || Consecutive(rest, from + |first|)
    ensures whole == first + rest
  {
    assert multiset(first + rest) == multiset(whole);
    if Consecutive(rest, from + |first|) {
      ConsecutiveUnique(first + rest, whole, from);
    } else {
      SameLength(whole, first + rest);
      FirstPartAgrees(whole, first, from);
      var tail := whole[|first|..];
      RestMultiset(whole, first, tail, rest);
      ConsecutiveUnique(tail, rest, from + |first|);
    }
  }

  lemma RestMultiset(whole: seq<PolicyRecord>, first: seq<PolicyRecord>, tail: seq<PolicyRecord>, rest: seq<PolicyRecord>)
    requires |first| <= |whole| && whole[..|first|] == first && tail == whole[|first|..]
    requires multiset(whole) == multiset(first) + multiset(rest)
    ensures multiset(tail) == multiset(rest) && whole == first + tail
  {
    assert whole == first + tail;
    assert multiset(whole) == multiset(first) + multiset(tail);
    assert multiset(tail) == multiset(whole) - multiset(first);
    assert multiset(rest) == multiset(whole) - multiset(first);
  }

  lemma FirstPartAgrees(whole: seq<PolicyRecord>, first: seq<PolicyRecord>, from: nat)
    requires Consecutive(first, from) && Consecutive(whole, from) && |first| <= |whole|
    requires multiset(first) <= multiset(whole)
    ensures whole[..|first|] == first
  {
    forall i | 0 <= i < |first|
      ensures whole[i] == first[i]
    {
      assert first[i] in multiset(first);
      assert first[i] in multiset(whole);
      var j :| 0 <= j < |whole| && whole[j] == first[i];
    }
  }

  /** Sorting both logs at once spells a continuation exactly when the second
      continues the first, and then spells the two one after the other. */
  lemma WholeSpells(groupId: Text, whole: seq<PolicyRecord>, first: seq<PolicyRecord>, rest: seq<PolicyRecord>, from: nat)
    requires Spells(groupId, first, from) && Ascending(rest) && Ascending(whole)
    requires multiset(whole) == multiset(first) + multiset(rest)
    ensures Spells(groupId, whole, from) <==> Spells(groupId, rest, from + |first|)
    ensures Spells(groupId, whole, from) ==> Spelled(whole) == Spelled(first) + Spelled(rest)
  {
    SpellsIsConsecutive(groupId, first, from);
    if Spells(groupId, whole, from) {
      SpellsIsConsecutive(groupId, whole, from);
      WholeIsFirstThenRest(whole, first, rest, from + 1);
      SpellsConcat(groupId, first, rest, from);
    } else if Spells(groupId, rest, from + |first|) {
      SpellsIsConsecutive(groupId, rest, from + |first|);
      WholeIsFirstThenRest(whole, first, rest, from + 1);
      SpellsConcat(groupId, first, rest, from);
    }
  }

  lemma SpelledInTwoParts(
    chain: seq<VerifiedRecord>, groupId: Text, whole: seq<PolicyRecord>, first: seq<PolicyRecord>, rest: seq<PolicyRecord>)
    requires Spells(groupId, first, |chain|) && Ascending(rest) && Ascending(whole)
    requires multiset(whole) == multiset(first) + multiset(rest)
    requires Spells(groupId, whole, |chain|) && Spells(groupId, rest, |chain| + |first|)
    ensures chain + Spelled(whole) == chain + Spelled(first) + Spelled(rest)
  {
    WholeSpells(groupId, whole, first, rest, |chain|);
  }

  lemma {:induction false} DeliversInTwoParts(
    c: Crypto, serviceKey: Hash, chain: seq<VerifiedRecord>,
    first: GroupPolicyLog, rest: GroupPolicyLog, whole: GroupPolicyLog, s: GroupPolicyState)
    requires Spells(first.groupId, SortBySeq(first.records), |chain|)
    requires whole == rest.(records := whole.records) && first.groupId == rest.groupId
    requires multiset(whole.records) == multiset(first.records) + multiset(rest.records)
    ensures Delivers(c, serviceKey, chain + Spelled(SortBySeq(first.records)), rest, s)
            <==> Delivers(c, serviceKey, chain, whole, s)
  {
    var a, b, w := SortBySeq(first.records), SortBySeq(rest.records), SortBySeq(whole.records);
    SortSpec(first.records);
    SortSpec(rest.records);
    SortSpec(whole.records);
    WholeSpells(first.groupId, w, a, b, |chain|);
    if Spells(first.groupId, w, |chain|) {
      SpelledInTwoParts(chain, first.groupId, w, a, b);
    }
  }

  /** Resuming is the same as starting over: verifying `first`, then `rest` on
      the state it gave, answers exactly what verifying both at once answers. */
  lemma {:induction false} ResumeIsStartingOver(
    c: Crypto, serviceKey: Hash, base: Option<GroupPolicyState>, chain: seq<VerifiedRecord>,
    first: GroupPolicyLog, rest: GroupPolicyLog, whole: GroupPolicyLog, middle: GroupPolicyState, s: GroupPolicyState)
    requires BaseOf(serviceKey, base, chain) && |chain| < U64_MAX
    requires ValidChain(c, first.groupId, serviceKey, chain)
    requires whole == rest.(records := whole.records) && first.groupId == rest.groupId
    requires multiset(whole.records) == multiset(first.records) + multiset(rest.records)
    requires VerifyLog(c, serviceKey, base, first) == Ok(middle) && middle.currentSeq < U64_MAX
    ensures VerifyLog(c, serviceKey, Some(middle), rest) == Ok(s) <==> VerifyLog(c, serviceKey, base, whole) == Ok(s)
  {
    VerifyLogIff(c, serviceKey, base, chain, first, middle);
    VerifyLogIff(c, serviceKey, base, chain, whole, s);
    VerifyLogIff(c, serviceKey, Some(middle), chain + Spelled(SortBySeq(first.records)), rest, s);
    DeliversInTwoParts(c, serviceKey, chain, first, rest, whole, s);
  }
}

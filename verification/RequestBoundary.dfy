/** Where the hashed bytes of a request id (checkpoint_source.rs) can be read as another
    request: the two zero bytes that end the group and the device are found again
    only by counting back whole hashes from the end. */
module RequestBoundary {
  import opened Bytes
  import opened Sorting
  import opened RequestId

  /** No other group, device or batch of at least `least` hashes is hashed as the same bytes. */
  ghost predicate Unmistakable(group: Text, device: Text, hashes: seq<Hash>, least: nat)
  {
    forall g, d, others :: Preimage(g, d, others) == Preimage(group, device, hashes) && |others| >= least ==>
                             g == group && d == device && multiset(others) == multiset(hashes)
  }

  /** In sorted order, no hash but the last `least` ends in a zero byte. */
  predicate NoZeroEnd(hashes: seq<Hash>, least: nat)
  {
    var sorted := SortedHashes(hashes);
    forall j :: 0 <= j < |sorted| - least ==> sorted[j][HASH_LEN - 1] != 0
  }

  // ----- two readings of one byte string --------------------------------

  lemma SortedSize(hashes: seq<Hash>)
    ensures |SortedHashes(hashes)| == |hashes|
  {
    SortSorts(hashes, HashOrder);
  }

  lemma PreimageSize(group: Text, device: Text, hashes: seq<Hash>)
    ensures |Preimage(group, device, hashes)| == |Prefix(group, device)| + HASH_LEN * |hashes|
  {
    SortedSize(hashes);
  }

  /** The bytes of hash `j` within the concatenation. */
  lemma {:induction false} FlatAt(hashes: seq<Hash>, j: nat)
    requires j < |hashes|
    ensures Flat(hashes)[HASH_LEN * j + HASH_LEN - 1] == hashes[j][HASH_LEN - 1]
    decreases |hashes|
  {
    var n := |hashes| - 1;
    if j < n {
      FlatAt(hashes[..n], j);
    }
  }

  /** A reading with fewer hashes takes the last byte of a hash for the device's end. */
  lemma FewerNeedsZeroEnd(group: Text, device: Text, hashes: seq<Hash>, g: Text, d: Text, others: seq<Hash>)
    requires Preimage(g, d, others) == Preimage(group, device, hashes) && |others| < |hashes|
    ensures |SortedHashes(hashes)| == |hashes|
    ensures SortedHashes(hashes)[|hashes| - |others| - 1][HASH_LEN - 1] == 0
  {
    PreimageSize(g, d, others);
    PreimageSize(group, device, hashes);
    SortedSize(hashes);
    var p, j := Preimage(group, device, hashes), |hashes| - |others| - 1;
    var start := |Prefix(group, device)|;
    assert |Prefix(g, d)| - 1 == start + HASH_LEN * j + HASH_LEN - 1;
    assert Preimage(g, d, others)[|Prefix(g, d)| - 1] == 0;
    FlatAt(SortedHashes(hashes), j);
    assert p[start + (HASH_LEN * j + HASH_LEN - 1)] == Flat(SortedHashes(hashes))[HASH_LEN * j + HASH_LEN - 1];
  }

  /** A zero before the device's end, and not the one that ends the group, is inside one of them. */
  lemma InnerZero(group: Text, device: Text, i: nat)
    requires i < |group| + 1 + |device| && i != |group| && Prefix(group, device)[i] == 0
    ensures !ZeroFree(group) || !ZeroFree(device)
  {
    if i < |group| {
      assert Prefix(group, device)[i] == group[i];
    } else {
      assert Prefix(group, device)[i] == device[i - |group| - 1];
    }
  }

  /** A reading with more hashes finds two zeros before the device's end. */
  lemma MoreNeedsZeroByte(group: Text, device: Text, hashes: seq<Hash>, g: Text, d: Text, others: seq<Hash>)
    requires Preimage(g, d, others) == Preimage(group, device, hashes) && |others| > |hashes|
    ensures !ZeroFree(group) || !ZeroFree(device)
  {
    PreimageSize(g, d, others);
    PreimageSize(group, device, hashes);
    var p, end := Preimage(g, d, others), |Prefix(g, d)| - 1;
    assert p[|g|] == 0 && p[end] == 0 && |g| < end < |group| + 1 + |device|;
    assert p[|g|] == Prefix(group, device)[|g|] && p[end] == Prefix(group, device)[end];
    InnerZero(group, device, if |g| == |group| then end else |g|);
  }

  /** The zeros of a zero-free group and device's prefix are the two separators. */
  lemma ZerosOfPrefix(group: Text, device: Text)
    requires ZeroFree(group) && ZeroFree(device)
    ensures forall i :: 0 <= i < |group| + 1 + |device| && i != |group| ==> Prefix(group, device)[i] != 0
  {
    var p := Prefix(group, device);
    forall i | 0 <= i < |group| + 1 + |device| && i != |group| ensures p[i] != 0 {
      assert p[i] == if i < |group| then group[i] else device[i - |group| - 1];
    }
  }

  /** With as many hashes, only a zero byte inside the group or the device can move its end. */
  lemma ZeroFreePrefix(group: Text, device: Text, g: Text, d: Text)
    requires ZeroFree(group) && ZeroFree(device) && Prefix(g, d) == Prefix(group, device)
    ensures g == group && d == device
  {
    assert Prefix(g, d)[|g|] == 0 && |Prefix(g, d)| == |g| + |d| + 2;
    ZerosOfPrefix(group, device);
    assert Prefix(g, d) == (g + [0]) + (d + [0]) && Prefix(group, device) == (group + [0]) + (device + [0]);
    SplitConcat(g + [0], d + [0], group + [0], device + [0]);
    SplitConcat(g, [0], group, [0]);
    SplitConcat(d, [0], device, [0]);
  }

  lemma SameSizeSameRequest(group: Text, device: Text, hashes: seq<Hash>, g: Text, d: Text, others: seq<Hash>)
    requires ZeroFree(group) && ZeroFree(device) && |others| == |hashes|
    requires Preimage(g, d, others) == Preimage(group, device, hashes)
    ensures g == group && d == device && multiset(others) == multiset(hashes)
  {
    PreimageSize(g, d, others);
    PreimageSize(group, device, hashes);
    SplitConcat(Prefix(g, d), Flat(SortedHashes(others)), Prefix(group, device), Flat(SortedHashes(hashes)));
    ZeroFreePrefix(group, device, g, d);
    FlatInjective(SortedHashes(others), SortedHashes(hashes));
    SortedHashesUnique(others, hashes);
  }

  // ----- how a boundary moves -------------------------------------------

  /** With a zero byte inside, the boundary between group and device can move unseen. */
  lemma ZeroByteMovesTheBoundary(x: Text, y: Text, z: Text, hashes: seq<Hash>)
    ensures Preimage(x + [0] + y, z, hashes) == Preimage(x, y + [0] + z, hashes)
    ensures x + [0] + y != x && y + [0] + z != z
  {
    assert Prefix(x + [0] + y, z) == Prefix(x, y + [0] + z);
    assert |x + [0] + y| > |x| && |y + [0] + z| > |z|;
  }

  lemma {:induction false} FlatSplit(hashes: seq<Hash>, j: nat)
    requires j <= |hashes|
    ensures Flat(hashes) == Flat(hashes[..j]) + Flat(hashes[j..])
    decreases |hashes|
  {
    var n := |hashes| - 1;
    if j == |hashes| {
      assert hashes[..j] == hashes;
    } else {
      FlatSplit(hashes[..n], j);
      assert hashes[..n][..j] == hashes[..j] && hashes[..n][j..] == hashes[j..][..n - j];
      assert hashes[j..][n - j] == hashes[n];
    }
  }

  lemma FlatAround(hashes: seq<Hash>, j: nat)
    requires j < |hashes|
    ensures Flat(hashes) == Flat(hashes[..j]) + hashes[j] + Flat(hashes[j + 1..])
  {
    FlatSplit(hashes, j + 1);
    var low := hashes[..j + 1];
    assert low[..j] == hashes[..j] && low[j] == hashes[j];
  }

  /** The bytes are one string, read with the device ending at either zero. */
  lemma TwoReadings(group: Text, device: Text, low: seq<byte>, x: seq<byte>, high: seq<byte>)
    ensures Prefix(group, device) + (low + (x + [0]) + high) == Prefix(group, device + [0] + low + x) + high
  {
    var start := group + [0] + device + [0];
    assert start + (low + (x + [0]) + high) == start + low + x + [0] + high;
    assert group + [0] + (device + [0] + low + x) + [0] == start + low + x + [0];
  }

  /** What is sorted already stays as it is, and so does the end of it. */
  lemma SortedTail(hashes: seq<Hash>, j: nat)
    requires j <= |SortedHashes(hashes)|
    ensures SortedHashes(SortedHashes(hashes)[j..]) == SortedHashes(hashes)[j..]
  {
    SortSorts(hashes, HashOrder);
    var tail := SortedHashes(hashes)[j..];
    SortSorts(tail, HashOrder);
    OneHashPerPlace(SortedHashes(tail));
    SortedUnique(SortedHashes(tail), tail, HashOrder);
  }

  /** The device that swallows the sorted hashes up to one that ends in a zero byte. */
  function Swallowed(device: Text, sorted: seq<Hash>, j: nat): Text
    requires j < |sorted|
  {
    device + [0] + Flat(sorted[..j]) + sorted[j][..HASH_LEN - 1]
  }

  /** A hash that ends in a zero byte can end the device instead, zero-free or not. */
  lemma ZeroEndMovesTheBoundary(group: Text, device: Text, hashes: seq<Hash>, j: nat)
    requires j < |SortedHashes(hashes)| && SortedHashes(hashes)[j][HASH_LEN - 1] == 0
    ensures var sorted := SortedHashes(hashes);
            && Preimage(group, Swallowed(device, sorted, j), sorted[j + 1..]) == Preimage(group, device, hashes)
            && Swallowed(device, sorted, j) != device
  {
    var sorted := SortedHashes(hashes);
    SortedTail(hashes, j + 1);
    FlatAround(sorted, j);
    var low, x, high := Flat(sorted[..j]), sorted[j], Flat(sorted[j + 1..]);
    assert x == x[..HASH_LEN - 1] + [0];
    TwoReadings(group, device, low, x[..HASH_LEN - 1], high);
    assert |Swallowed(device, sorted, j)| > |device|;
  }

  // ----- the exact condition --------------------------------------------

  lemma UnmistakableIf(group: Text, device: Text, hashes: seq<Hash>, least: nat)
    requires ZeroFree(group) && ZeroFree(device) && NoZeroEnd(hashes, least)
    ensures Unmistakable(group, device, hashes, least)
  {
    forall g, d, others | Preimage(g, d, others) == Preimage(group, device, hashes) && |others| >= least
      ensures g == group && d == device && multiset(others) == multiset(hashes)
    {
      if |others| < |hashes| {
        FewerNeedsZeroEnd(group, device, hashes, g, d, others);
      } else if |others| > |hashes| {
        MoreNeedsZeroByte(group, device, hashes, g, d, others);
      } else {
        SameSizeSameRequest(group, device, hashes, g, d, others);
      }
    }
  }

  lemma OtherReading(group: Text, device: Text, hashes: seq<Hash>, least: nat, g: Text, d: Text, others: seq<Hash>)
    requires Preimage(g, d, others) == Preimage(group, device, hashes) && |others| >= least
    requires g != group || d != device
    ensures !Unmistakable(group, device, hashes, least)
  {
  }

  lemma ZeroByteIsMistakable(group: Text, device: Text, hashes: seq<Hash>, least: nat)
    requires least <= |hashes| && (!ZeroFree(group) || !ZeroFree(device))
    ensures !Unmistakable(group, device, hashes, least)
  {
    if !ZeroFree(group) {
      var i :| 0 <= i < |group| && group[i] == 0;
      var x, y := group[..i], group[i + 1..];
      assert group == x + [0] + y;
      ZeroByteMovesTheBoundary(x, y, device, hashes);
      OtherReading(group, device, hashes, least, x, y + [0] + device, hashes);
    } else {
      var i :| 0 <= i < |device| && device[i] == 0;
      var y, z := device[..i], device[i + 1..];
      assert device == y + [0] + z;
      ZeroByteMovesTheBoundary(group, y, z, hashes);
      OtherReading(group, device, hashes, least, group + [0] + y, z, hashes);
    }
  }

  lemma ZeroEndIsMistakable(group: Text, device: Text, hashes: seq<Hash>, least: nat)
    requires !NoZeroEnd(hashes, least)
    ensures !Unmistakable(group, device, hashes, least)
  {
    var sorted := SortedHashes(hashes);
    var j :| 0 <= j < |sorted| - least && sorted[j][HASH_LEN - 1] == 0;
    ZeroEndMovesTheBoundary(group, device, hashes, j);
    OtherReading(group, device, hashes, least, group, Swallowed(device, sorted, j), sorted[j + 1..]);
  }

  /** A request is hashed unlike every other, among batches of at least `least` hashes, exactly
      when its group and device hold no zero byte and none of its sorted hashes but
      the last `least` ends in one. */
  lemma UnmistakableIff(group: Text, device: Text, hashes: seq<Hash>, least: nat)
    requires least <= |hashes|
    ensures Unmistakable(group, device, hashes, least)
            <==> ZeroFree(group) && ZeroFree(device) && NoZeroEnd(hashes, least)
  {
    if !ZeroFree(group) || !ZeroFree(device) {
      ZeroByteIsMistakable(group, device, hashes, least);
    } else if !NoZeroEnd(hashes, least) {
      ZeroEndIsMistakable(group, device, hashes, least);
    } else {
      UnmistakableIf(group, device, hashes, least);
    }
  }

  /** Such a request shares its id with no other request at all, whatever bytes that one holds
      (unless SHA-256 collides on the two). */
  lemma UnmistakableId(
    c: Crypto, group: Text, device: Text, hashes: seq<Hash>, g: Text, d: Text, others: seq<Hash>)
    requires ZeroFree(group) && ZeroFree(device) && NoZeroEnd(hashes, 0)
    requires CollisionFree(c, {Preimage(group, device, hashes), Preimage(g, d, others)})
    ensures RequestIdOf(c, group, device, hashes) == RequestIdOf(c, g, d, others)
            <==> g == group && d == device && multiset(others) == multiset(hashes)
  {
    UnmistakableIf(group, device, hashes, 0);
    if RequestIdOf(c, group, device, hashes) == RequestIdOf(c, g, d, others) {
      SameIdSamePreimage(c, Preimage(group, device, hashes), Preimage(g, d, others));
    }
    if g == group && d == device && multiset(others) == multiset(hashes) {
      IdIgnoresOrder(c, group, device, hashes, others);
    }
  }

  /** A zero-free group and device are not enough: two hashes, the lower of which ends in a zero
      byte, and the same group with a longer device and one hash have one id. */
  lemma ZeroFreePairSharesItsId(c: Crypto, group: Text, device: Text, x: Hash, y: Hash)
    requires x[HASH_LEN - 1] == 0 && HashOrder(x) <= HashOrder(y)
    ensures RequestIdOf(c, group, device, [x, y]) == RequestIdOf(c, group, device + [0] + x[..HASH_LEN - 1], [y])
    ensures device + [0] + x[..HASH_LEN - 1] != device
  {
    PairSorted(x, y);
    ZeroEndMovesTheBoundary(group, device, [x, y], 0);
    assert Swallowed(device, [x, y], 0) == device + [0] + x[..HASH_LEN - 1];
  }

  lemma PairSorted(x: Hash, y: Hash)
    requires HashOrder(x) <= HashOrder(y)
    ensures SortedHashes([x, y]) == [x, y]
  {
    SortSorts([x, y], HashOrder);
    OneHashPerPlace(SortedHashes([x, y]));
    SortedUnique(SortedHashes([x, y]), [x, y], HashOrder);
  }
}

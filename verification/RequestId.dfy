/** The request id of a pending batch (checkpoint_source.rs): SHA-256 over the group,
    the device and the sorted change hashes, in hexadecimal. */
module RequestId {
  import opened Bytes
  import opened Sorting

  function Flat(hashes: seq<Hash>): (b: seq<byte>)
    ensures |b| == HASH_LEN * |hashes|
  {
    if hashes == [] then [] else Flat(hashes[..|hashes| - 1]) + hashes[|hashes| - 1]
  }

  /** Byte-string order on hashes is the order of their big-endian values. */
  function HashOrder(h: Hash): int
  {
    FromBigEndian(h)
  }

  function SortedHashes(hashes: seq<Hash>): seq<Hash>
  {
    SortBy(hashes, HashOrder)
  }

  function Prefix(group: Text, device: Text): seq<byte>
  {
    group + [0] + device + [0]
  }

  function Preimage(group: Text, device: Text, hashes: seq<Hash>): seq<byte>
  {
    Prefix(group, device) + Flat(SortedHashes(hashes))
  }

  function HexDigit(n: nat): char
    requires n < 16
  {
    "0123456789abcdef"[n]
  }

  function Hex(b: seq<byte>): string
  {
    if b == [] then "" else [HexDigit(b[0] / 16), HexDigit(b[0] % 16)] + Hex(b[1..])
  }

  function RequestIdOf(c: Crypto, group: Text, device: Text, hashes: seq<Hash>): string
  {
    Hex(c.digest(Preimage(group, device, hashes)))
  }

  /** Sorts, then feeds the hasher piece by piece. */
  method PendingBatchRequestId(c: Crypto, group: Text, device: Text, hashes: seq<Hash>) returns (id: string)
    ensures id == RequestIdOf(c, group, device, hashes)
  {
    var sorted := SortedHashes(hashes);
    var fed := group + [0] + device + [0];
    var i := 0;
    while i < |sorted|
      invariant 0 <= i <= |sorted| && fed == Prefix(group, device) + Flat(sorted[..i])
    {
      assert sorted[..i + 1][..i] == sorted[..i];
      fed := fed + sorted[i];
      i := i + 1;
    }
    assert sorted[..i] == sorted;
    id := Hex(c.digest(fed));
  }

  // ----- what it depends on ---------------------------------------------

  lemma SortedHashesUnique(a: seq<Hash>, b: seq<Hash>)
    ensures multiset(a) == multiset(b) <==> SortedHashes(a) == SortedHashes(b)
  {
    SortSorts(a, HashOrder);
    SortSorts(b, HashOrder);
    if multiset(a) == multiset(b) {
      OneHashPerPlace(SortedHashes(a));
      SortedUnique(SortedHashes(a), SortedHashes(b), HashOrder);
    }
  }

  lemma OneHashPerPlace(hashes: seq<Hash>)
    ensures forall p, q :: p in hashes && q in hashes && HashOrder(p) == HashOrder(q) ==> p == q
  {
    forall p, q | p in hashes && q in hashes && HashOrder(p) == HashOrder(q) ensures p == q {
      FromBigEndianInjective(p, q);
    }
  }

  lemma {:induction false} FlatInjective(a: seq<Hash>, b: seq<Hash>)
    requires Flat(a) == Flat(b)
    ensures a == b
    decreases |a|
  {
    assert |a| == |b|;
    if a != [] {
      var n := |a| - 1;
      SplitConcat(Flat(a[..n]), a[n], Flat(b[..n]), b[n]);
      FlatInjective(a[..n], b[..n]);
      assert a == a[..n] + [a[n]] && b == b[..n] + [b[n]];
    }
  }

  lemma HexDigitInjective(m: nat, n: nat)
    requires m < 16 && n < 16 && HexDigit(m) == HexDigit(n)
    ensures m == n
  {
  }

  lemma {:induction false} HexInjective(a: seq<byte>, b: seq<byte>)
    requires |a| == |b| && Hex(a) == Hex(b)
    ensures a == b
    decreases |a|
  {
    if a != [] {
      var x, y := [HexDigit(a[0] / 16), HexDigit(a[0] % 16)], [HexDigit(b[0] / 16), HexDigit(b[0] % 16)];
      SplitConcat(x, Hex(a[1..]), y, Hex(b[1..]));
      assert x[0] == y[0] && x[1] == y[1];
      HexDigitInjective(a[0] / 16, b[0] / 16);
      HexDigitInjective(a[0] % 16, b[0] % 16);
      HexInjective(a[1..], b[1..]);
      assert a == [a[0]] + a[1..] && b == [b[0]] + b[1..];
    }
  }

  lemma SameIdSamePreimage(c: Crypto, p: seq<byte>, q: seq<byte>)
    requires CollisionFree(c, {p, q}) && Hex(c.digest(p)) == Hex(c.digest(q))
    ensures p == q
  {
    HexInjective(c.digest(p), c.digest(q));
  }

  /** For one group and device the id is the same exactly for the same hashes in any order, so a
      retry of an unchanged batch repeats its id and a changed batch gets another
      (unless SHA-256 collides on the two). */
  lemma SameIdIffSameBatch(c: Crypto, group: Text, device: Text, a: seq<Hash>, b: seq<Hash>)
    requires CollisionFree(c, {Preimage(group, device, a), Preimage(group, device, b)})
    ensures RequestIdOf(c, group, device, a) == RequestIdOf(c, group, device, b) <==> multiset(a) == multiset(b)
  {
    SortedHashesUnique(a, b);
    if RequestIdOf(c, group, device, a) == RequestIdOf(c, group, device, b) {
      SameIdSamePreimage(c, Preimage(group, device, a), Preimage(group, device, b));
      SplitConcat(Prefix(group, device), Flat(SortedHashes(a)), Prefix(group, device), Flat(SortedHashes(b)));
      FlatInjective(SortedHashes(a), SortedHashes(b));
    }
  }

  /** Order never matters, whatever the digest does. */
  lemma IdIgnoresOrder(c: Crypto, group: Text, device: Text, a: seq<Hash>, b: seq<Hash>)
    requires multiset(a) == multiset(b)
    ensures RequestIdOf(c, group, device, a) == RequestIdOf(c, group, device, b)
  {
    SortedHashesUnique(a, b);
  }

  // ----- across groups and devices --------------------------------------

  predicate ZeroFree(t: Text)
  {
    0 !in t
  }

  lemma FirstZero(a: Text, rest: seq<byte>)
    requires ZeroFree(a)
    ensures (a + [0] + rest)[|a|] == 0 && forall i :: 0 <= i < |a| ==> (a + [0] + rest)[i] != 0
  {
    forall i | 0 <= i < |a| ensures (a + [0] + rest)[i] != 0 {
      assert (a + [0] + rest)[i] == a[i];
    }
  }

  /** Text without zero bytes before a zero byte can be split off. */
  lemma SplitAtZero(a: Text, rest: seq<byte>, b: Text, other: seq<byte>)
    requires ZeroFree(a) && ZeroFree(b) && a + [0] + rest == b + [0] + other
    ensures a == b && rest == other
  {
    FirstZero(a, rest);
    FirstZero(b, other);
    assert |a| == |b|;
    SplitConcat(a + [0], rest, b + [0], other);
    SplitConcat(a, [0], b, [0]);
  }

  /** Between requests that both have a zero-free group and device, the id tells everything apart. */
  lemma SameIdIffSameRequest(
    c: Crypto, g1: Text, d1: Text, a: seq<Hash>, g2: Text, d2: Text, b: seq<Hash>)
    requires ZeroFree(g1) && ZeroFree(d1) && ZeroFree(g2) && ZeroFree(d2)
    requires CollisionFree(c, {Preimage(g1, d1, a), Preimage(g2, d2, b)})
    ensures RequestIdOf(c, g1, d1, a) == RequestIdOf(c, g2, d2, b)
            <==> g1 == g2 && d1 == d2 && multiset(a) == multiset(b)
  {
    if RequestIdOf(c, g1, d1, a) == RequestIdOf(c, g2, d2, b) {
      SameIdSamePreimage(c, Preimage(g1, d1, a), Preimage(g2, d2, b));
      var f1, f2 := Flat(SortedHashes(a)), Flat(SortedHashes(b));
      assert Preimage(g1, d1, a) == g1 + [0] + (d1 + [0] + f1);
      assert Preimage(g2, d2, b) == g2 + [0] + (d2 + [0] + f2);
      SplitAtZero(g1, d1 + [0] + f1, g2, d2 + [0] + f2);
      SplitAtZero(d1, f1, d2, f2);
    }
    if g1 == g2 && d1 == d2 {
      SameIdIffSameBatch(c, g1, d1, a, b);
    }
  }
}

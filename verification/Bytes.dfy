/** Byte strings, fixed-width big-endian integers and the two fixed lengths the
    policy log uses. UTF-8 text is modelled by its bytes: the source compares,
    orders and hashes text by its bytes only. */
module Bytes {

  type byte = x: int | 0 <= x < 256
  type u32 = x: int | 0 <= x < TWO_32
  type u64 = x: int | 0 <= x < TWO_64

  const TWO_32: int := 0x1_0000_0000
  const TWO_64: int := 0x1_0000_0000_0000_0000
  const U64_MAX: u64 := TWO_64 - 1

  const HASH_LEN := 32
  const SIGNATURE_LEN := 64

  type Hash = b: seq<byte> | |b| == HASH_LEN witness seq(HASH_LEN, _ => 0)
  type Signature = b: seq<byte> | |b| == SIGNATURE_LEN witness seq(SIGNATURE_LEN, _ => 0)

  /** The bytes of a UTF-8 string. */
  type Text = seq<byte>

  const ZERO_HASH: Hash := [0, 0, 0, 0, 0, 0, 0, 0, 0, 0, 0, 0, 0, 0, 0, 0, 0, 0, 0, 0, 0, 0, 0, 0, 0, 0, 0, 0, 0, 0, 0, 0]

  datatype Option<+T> = None | Some(value: T)

  datatype Result<+T, +E> = Ok(value: T) | Err(error: E)

  function Pow256(width: nat): (p: nat)
    ensures p > 0
  {
    if width == 0 then 1 else 256 * Pow256(width - 1)
  }

  /** The low `width` bytes of `n`, most significant first; a larger `n` is truncated. */
  function BigEndian(n: nat, width: nat): (b: seq<byte>)
    ensures |b| == width
  {
    if width == 0 then [] else BigEndian(n / 256, width - 1) + [n % 256]
  }

  function FromBigEndian(b: seq<byte>): nat
  {
    if b == [] then 0 else 256 * FromBigEndian(b[..|b| - 1]) + b[|b| - 1]
  }

  /** `BigEndian` loses nothing below `256^width`. */
  lemma {:induction false} BigEndianRoundTrip(n: nat, width: nat)
    requires n < Pow256(width)
    ensures FromBigEndian(BigEndian(n, width)) == n
  {
    if width > 0 {
      BigEndianRoundTrip(n / 256, width - 1);
      var b := BigEndian(n, width);
      assert b[..|b| - 1] == BigEndian(n / 256, width - 1);
    }
  }

  lemma Pow256Widths()
    ensures Pow256(4) == TWO_32 && Pow256(8) == TWO_64
  {
    assert Pow256(1) == 256;
    assert Pow256(2) == 256 * 256;
    assert Pow256(3) == 256 * 256 * 256;
    assert Pow256(4) == TWO_32;
    assert Pow256(5) == 256 * TWO_32;
    assert Pow256(6) == 256 * 256 * TWO_32;
    assert Pow256(7) == 256 * 256 * 256 * TWO_32;
  }

  lemma BigEndianInjective(m: nat, n: nat, width: nat)
    requires m < Pow256(width) && n < Pow256(width)
    requires BigEndian(m, width) == BigEndian(n, width)
    ensures m == n
  {
    BigEndianRoundTrip(m, width);
    BigEndianRoundTrip(n, width);
  }

  /** Byte strings of one length are ordered by their big-endian value: equal value, equal bytes. */
  lemma {:induction false} FromBigEndianInjective(a: seq<byte>, b: seq<byte>)
    requires |a| == |b| && FromBigEndian(a) == FromBigEndian(b)
    ensures a == b
    decreases |a|
  {
    if a != [] {
      var n := |a| - 1;
      var high, other := FromBigEndian(a[..n]), FromBigEndian(b[..n]);
      assert 256 * high + a[n] == 256 * other + b[n];
      assert a[n] == b[n];
      FromBigEndianInjective(a[..n], b[..n]);
      assert a == a[..n] + [a[n]] && b == b[..n] + [b[n]];
    }
  }

  /** Equal concatenations whose first halves have one length split alike. */
  lemma SplitConcat<T>(a: seq<T>, b: seq<T>, c: seq<T>, d: seq<T>)
    requires a + b == c + d && |a| == |c|
    ensures a == c && b == d
  {
    assert a == (a + b)[..|a|] == (c + d)[..|c|] == c;
    assert b == (a + b)[|a|..] == (c + d)[|c|..] == d;
  }

  /** The cryptography the program calls and this model leaves abstract:
      SHA-256 (section 6.2 of FIPS 180-4), which byte strings are Ed25519 public
      keys, and strict signature verification (section 5.1.7 of RFC 8032).
      Nothing is assumed about these functions; lemmas that need SHA-256 not to
      collide take that as a hypothesis about the inputs they name. */
  datatype Crypto = Crypto(
    digest: seq<byte> -> Hash,
    validKey: Hash -> bool,
    signed: (Hash, seq<byte>, Signature) -> bool)

  /** No two of `inputs` have one digest. */
  ghost predicate CollisionFree(c: Crypto, inputs: set<seq<byte>>)
  {
    forall x, y :: x in inputs && y in inputs && c.digest(x) == c.digest(y) ==> x == y
  }
}

/** The `<db>.instance` file: a magic, a version, the database nonce and the
    incarnation (author_sidecar.rs). */
module Sidecar {
  import opened Bytes

  const ID_LEN := 16

  type Id = b: seq<byte> | |b| == ID_LEN witness seq(ID_LEN, _ => 0)

  datatype InstanceSidecar = InstanceSidecar(nonce: Id, incarnation: Id)

  /** "YLIS". */
  const MAGIC: seq<byte> := [0x59, 0x4C, 0x49, 0x53]
  const FORMAT_VERSION: byte := 1
  const LEN := 37

  /** Bytes 0..4, byte 4, bytes 5..21 and bytes 21..37 of a sidecar file. */
  predicate LaidOut(bytes: seq<byte>, sidecar: InstanceSidecar)
  {
    && |bytes| == LEN && bytes[..4] == MAGIC && bytes[4] == FORMAT_VERSION
    && bytes[5..21] == sidecar.nonce && bytes[21..] == sidecar.incarnation
  }

  method Encode(sidecar: InstanceSidecar) returns (bytes: array<byte>)
    ensures fresh(bytes) && LaidOut(bytes[..], sidecar)
  {
    bytes := new byte[LEN](_ => 0);
    CopyInto(bytes, 0, MAGIC);
    bytes[4] := FORMAT_VERSION;
    CopyInto(bytes, 5, sidecar.nonce);
    CopyInto(bytes, 21, sidecar.incarnation);
    assert bytes[..][..4] == MAGIC;
    assert bytes[..][5..21] == sidecar.nonce;
    assert bytes[..][21..] == sidecar.incarnation;
  }

  method CopyInto(bytes: array<byte>, at: nat, source: seq<byte>)
    requires at + |source| <= bytes.Length
    modifies bytes
    ensures forall k :: 0 <= k < bytes.Length ==>
              bytes[k] == if at <= k < at + |source| then source[k - at] else old(bytes[k])
  {
    var i := 0;
    while i < |source|
      invariant 0 <= i <= |source|
      invariant forall k :: 0 <= k < bytes.Length ==>
                  bytes[k] == if at <= k < at + i then source[k - at] else old(bytes[k])
    {
      bytes[at + i] := source[i];
      i := i + 1;
    }
  }

  function Decode(bytes: seq<byte>): (r: Option<InstanceSidecar>)
    ensures forall s :: r == Some(s) <==> LaidOut(bytes, s)
  {
    if |bytes| != LEN || bytes[..4] != MAGIC || bytes[4] != FORMAT_VERSION then None
    else Some(InstanceSidecar(bytes[5..21], bytes[21..]))
  }

  /** A file is the encoding of one sidecar only, and one file only encodes it: what is
      decoded is what was encoded, and nothing else decodes to it. */
  lemma LayoutIsOneToOne(b1: seq<byte>, s1: InstanceSidecar, b2: seq<byte>, s2: InstanceSidecar)
    requires LaidOut(b1, s1) && LaidOut(b2, s2)
    ensures b1 == b2 <==> s1 == s2
  {
    if s1 == s2 {
      assert b1 == b1[..4] + [b1[4]] + b1[5..21] + b1[21..];
      assert b2 == b2[..4] + [b2[4]] + b2[5..21] + b2[21..];
    }
  }

  /** Of a whole sidecar file, no shorter part and no longer continuation is one: a write cut off
      anywhere, or with anything after it, reads as no sidecar. */
  lemma TornIsAbsent(bytes: seq<byte>, sidecar: InstanceSidecar, n: nat, extra: seq<byte>)
    requires LaidOut(bytes, sidecar) && n < LEN && extra != []
    ensures Decode(bytes[..n]).None? && Decode(bytes + extra).None?
  {
    assert |bytes[..n]| == n && |bytes + extra| > LEN;
  }
}

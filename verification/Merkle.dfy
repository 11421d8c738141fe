/** The Merkle tree of a checkpoint's batch (authorization_checkpoint.rs): an odd
    level is completed by repeating its last node. */
module Merkle {
  import opened Bytes

  const LEAF_PREFIX: byte := 0x00
  const NODE_PREFIX: byte := 0x01

  function NodeInput(left: Hash, right: Hash): seq<byte>
  {
    [NODE_PREFIX] + left + right
  }

  function LeafInput(change: Hash): seq<byte>
  {
    [LEAF_PREFIX] + change
  }

  function NodeHash(c: Crypto, left: Hash, right: Hash): Hash
  {
    c.digest(NodeInput(left, right))
  }

  function LeafHash(c: Crypto, change: Hash): Hash
  {
    c.digest(LeafInput(change))
  }

  // ----- the tree -------------------------------------------------------

  function Padded(level: seq<Hash>): (p: seq<Hash>)
    ensures |p| % 2 == 0 && level <= p && |p| == 2 * ((|level| + 1) / 2)
  {
    if |level| % 2 == 1 then level + [level[|level| - 1]] else level
  }

  /** The first `n` nodes above a padded level. */
  function Parents(c: Crypto, p: seq<Hash>, n: nat): (up: seq<Hash>)
    requires 2 * n <= |p|
    ensures |up| == n && forall j :: 0 <= j < n ==> up[j] == NodeHash(c, p[2 * j], p[2 * j + 1])
  {
    if n == 0 then [] else Parents(c, p, n - 1) + [NodeHash(c, p[2 * n - 2], p[2 * n - 1])]
  }

  /** The level above. */
  function Up(c: Crypto, level: seq<Hash>): (up: seq<Hash>)
    ensures |up| == (|level| + 1) / 2
  {
    Parents(c, Padded(level), (|level| + 1) / 2)
  }

  function Root(c: Crypto, level: seq<Hash>): Hash
    requires level != []
    decreases |level|
  {
    if |level| == 1 then level[0] else Root(c, Up(c, level))
  }

  function Depth(n: nat): nat
  {
    if n <= 1 then 0 else 1 + Depth((n + 1) / 2)
  }

  function SiblingIndex(i: nat): nat
  {
    if i % 2 == 0 then i + 1 else i - 1
  }

  /** The audit path of node `i` of a level, lowest sibling first. */
  function Siblings(c: Crypto, level: seq<Hash>, i: nat): seq<Hash>
    requires i < |level|
    decreases |level|
  {
    if |level| == 1 then []
    else [Padded(level)[SiblingIndex(i)]] + Siblings(c, Up(c, level), i / 2)
  }

  function Leaves(c: Crypto, changes: seq<Hash>): (leaves: seq<Hash>)
    ensures |leaves| == |changes| && forall i :: 0 <= i < |changes| ==> leaves[i] == LeafHash(c, changes[i])
  {
    seq(|changes|, i requires 0 <= i < |changes| => LeafHash(c, changes[i]))
  }

  function MerkleRoot(c: Crypto, changes: seq<Hash>): Hash
    requires changes != []
  {
    Root(c, Leaves(c, changes))
  }

  // ----- the check ------------------------------------------------------

  function Join(c: Crypto, hash: Hash, sibling: Hash, index: nat): Hash
  {
    if index % 2 == 0 then NodeHash(c, hash, sibling) else NodeHash(c, sibling, hash)
  }

  /** The root a path leads to. */
  function Climb(c: Crypto, hash: Hash, index: nat, path: seq<Hash>): Hash
    decreases |path|
  {
    if path == [] then hash else Climb(c, Join(c, hash, path[0], index), index / 2, path[1..])
  }

  datatype MerkleProof = MerkleProof(leafIndex: nat, leafCount: nat, siblings: seq<Hash>)

  datatype InclusionError = LeafCountMismatch | LeafIndexOutOfRange | ProofDepthMismatch | MerkleProofDoesNotMatch

  /** What a checkpoint commits to about its batch. */
  datatype Commitment = Commitment(merkleRoot: Hash, leafCount: nat)

  function VerifyInclusion(c: Crypto, change: Hash, proof: MerkleProof, commitment: Commitment): Result<(), InclusionError>
  {
    if commitment.leafCount != proof.leafCount then Err(LeafCountMismatch)
    else if proof.leafIndex >= proof.leafCount then Err(LeafIndexOutOfRange)
    else if |proof.siblings| != Depth(proof.leafCount) then Err(ProofDepthMismatch)
    else if Climb(c, LeafHash(c, change), proof.leafIndex, proof.siblings) != commitment.merkleRoot
    then Err(MerkleProofDoesNotMatch)
    else Ok(())
  }

  function ProofOf(c: Crypto, changes: seq<Hash>, i: nat): MerkleProof
    requires i < |changes|
  {
    MerkleProof(i, |changes|, Siblings(c, Leaves(c, changes), i))
  }

  // ----- completeness ---------------------------------------------------

  /** A node and its sibling join to their parent. */
  lemma JoinsToParent(c: Crypto, level: seq<Hash>, i: nat)
    requires i < |level| && |level| > 1
    ensures i / 2 < |Up(c, level)|
    ensures Join(c, level[i], Padded(level)[SiblingIndex(i)], i) == Up(c, level)[i / 2]
  {
    assert i == 2 * (i / 2) + i % 2;
  }

  lemma FirstSibling(c: Crypto, level: seq<Hash>, i: nat)
    requires i < |level| && |level| > 1
    ensures Siblings(c, level, i) != [] && Siblings(c, level, i)[0] == Padded(level)[SiblingIndex(i)]
    ensures Siblings(c, level, i)[1..] == Siblings(c, Up(c, level), i / 2)
  {
  }

  lemma {:induction false} PathLeadsToRoot(c: Crypto, level: seq<Hash>, i: nat)
    requires i < |level|
    ensures |Siblings(c, level, i)| == Depth(|level|)
    ensures Climb(c, level[i], i, Siblings(c, level, i)) == Root(c, level)
    decreases |level|
  {
    if |level| > 1 {
      JoinsToParent(c, level, i);
      FirstSibling(c, level, i);
      PathLeadsToRoot(c, Up(c, level), i / 2);
    }
  }

  /** The path built for a change passes exactly against a checkpoint that commits to this
      batch's root and size, whichever change of the batch it is. */
  lemma BuiltProofVerifiesIff(c: Crypto, changes: seq<Hash>, i: nat, commitment: Commitment)
    requires i < |changes|
    ensures VerifyInclusion(c, changes[i], ProofOf(c, changes, i), commitment).Ok?
            <==> commitment == Commitment(MerkleRoot(c, changes), |changes|)
  {
    PathLeadsToRoot(c, Leaves(c, changes), i);
  }

  // ----- soundness ------------------------------------------------------

  /** The byte strings hashed on the way from node `i` of a level to the root. */
  function PathInputs(c: Crypto, level: seq<Hash>, i: nat): set<seq<byte>>
    requires i < |level|
    decreases |level|
  {
    if |level| == 1 then {}
    else {NodeInput(Padded(level)[2 * (i / 2)], Padded(level)[2 * (i / 2) + 1])} + PathInputs(c, Up(c, level), i / 2)
  }

  function JoinInput(hash: Hash, sibling: Hash, index: nat): seq<byte>
  {
    if index % 2 == 0 then NodeInput(hash, sibling) else NodeInput(sibling, hash)
  }

  /** The byte strings hashed to check a path. */
  function ClimbInputs(c: Crypto, hash: Hash, index: nat, path: seq<Hash>): set<seq<byte>>
    decreases |path|
  {
    if path == [] then {}
    else {JoinInput(hash, path[0], index)} + ClimbInputs(c, Join(c, hash, path[0], index), index / 2, path[1..])
  }

  lemma NodeInputInjective(a: Hash, b: Hash, x: Hash, y: Hash)
    requires NodeInput(a, b) == NodeInput(x, y)
    ensures a == x && b == y
  {
    SplitConcat([NODE_PREFIX] + a, b, [NODE_PREFIX] + x, y);
    SplitConcat([NODE_PREFIX], a, [NODE_PREFIX], x);
  }

  /** A joined pair that hashes to a parent is that parent's pair. */
  lemma OnlyOwnPairJoins(c: Crypto, level: seq<Hash>, i: nat, hash: Hash, sibling: Hash, inputs: set<seq<byte>>)
    requires i < |level| && |level| > 1 && Join(c, hash, sibling, i) == Up(c, level)[i / 2]
    requires CollisionFree(c, inputs) && JoinInput(hash, sibling, i) in inputs
    requires NodeInput(Padded(level)[2 * (i / 2)], Padded(level)[2 * (i / 2) + 1]) in inputs
    ensures hash == level[i] && sibling == Padded(level)[SiblingIndex(i)]
  {
    var p := Padded(level);
    assert c.digest(JoinInput(hash, sibling, i)) == c.digest(NodeInput(p[2 * (i / 2)], p[2 * (i / 2) + 1]));
    if i % 2 == 0 {
      NodeInputInjective(hash, sibling, p[2 * (i / 2)], p[2 * (i / 2) + 1]);
    } else {
      NodeInputInjective(sibling, hash, p[2 * (i / 2)], p[2 * (i / 2) + 1]);
    }
  }

  /** A path of the right length that leads to the root starts at the node it claims. */
  lemma {:induction false} OnlyOwnPathLeadsToRoot(
    c: Crypto, level: seq<Hash>, i: nat, hash: Hash, path: seq<Hash>, inputs: set<seq<byte>>)
    requires i < |level| && |path| == Depth(|level|) && Climb(c, hash, i, path) == Root(c, level)
    requires CollisionFree(c, inputs) && PathInputs(c, level, i) <= inputs && ClimbInputs(c, hash, i, path) <= inputs
    ensures hash == level[i] && path == Siblings(c, level, i)
    decreases |level|
  {
    if |level| > 1 {
      FirstSibling(c, level, i);
      JoinsToParent(c, level, i);
      OnlyOwnPathLeadsToRoot(c, Up(c, level), i / 2, Join(c, hash, path[0], i), path[1..], inputs);
      OnlyOwnPairJoins(c, level, i, hash, path[0], inputs);
      assert path == [path[0]] + path[1..];
    }
  }

  /** Soundness: against the root and size of a batch, a change passes at a position only if it
      is the change there and the proof is the one built for it, unless SHA-256
      collides on the strings hashed in the two. */
  lemma VerifiedChangeIsInBatch(c: Crypto, changes: seq<Hash>, change: Hash, proof: MerkleProof, inputs: set<seq<byte>>)
    requires changes != []
    requires VerifyInclusion(c, change, proof, Commitment(MerkleRoot(c, changes), |changes|)).Ok?
    requires CollisionFree(c, inputs) && PathInputs(c, Leaves(c, changes), proof.leafIndex) <= inputs
    requires ClimbInputs(c, LeafHash(c, change), proof.leafIndex, proof.siblings) <= inputs
    requires LeafInput(change) in inputs && LeafInput(changes[proof.leafIndex]) in inputs
    ensures change == changes[proof.leafIndex] && proof == ProofOf(c, changes, proof.leafIndex)
  {
    OnlyOwnPathLeadsToRoot(c, Leaves(c, changes), proof.leafIndex, LeafHash(c, change), proof.siblings, inputs);
    SplitConcat([LEAF_PREFIX], change, [LEAF_PREFIX], changes[proof.leafIndex]);
  }

  /** Why the size is committed to as well: repeating the last change of an odd batch changes the
      batch but not its root. */
  lemma RepeatedLastChangeHasTheSameRoot(c: Crypto, changes: seq<Hash>)
    requires |changes| % 2 == 1 && |changes| > 1
    ensures MerkleRoot(c, changes + [changes[|changes| - 1]]) == MerkleRoot(c, changes)
  {
    var longer := changes + [changes[|changes| - 1]];
    assert Padded(Leaves(c, longer)) == Padded(Leaves(c, changes));
    assert Up(c, Leaves(c, longer)) == Up(c, Leaves(c, changes));
  }

  // ----- the loops ------------------------------------------------------

  method PadAndPair(c: Crypto, level: seq<Hash>) returns (padded: seq<Hash>, up: seq<Hash>)
    requires level != []
    ensures padded == Padded(level) && up == Up(c, level)
  {
    padded := level;
    if |level| % 2 == 1 {
      padded := level + [level[|level| - 1]];
    }
    up := [];
    while 2 * |up| < |padded|
      invariant 2 * |up| <= |padded| && up == Parents(c, padded, |up|)
    {
      up := up + [NodeHash(c, padded[2 * |up|], padded[2 * |up| + 1])];
    }
  }

  method ComputeMerkleRoot(c: Crypto, changes: seq<Hash>) returns (root: Hash)
    requires changes != []
    ensures root == MerkleRoot(c, changes)
  {
    var level := Leaves(c, changes);
    while |level| > 1
      invariant level != [] && Root(c, level) == MerkleRoot(c, changes)
      decreases |level|
    {
      var _, up := PadAndPair(c, level);
      level := up;
    }
    root := level[0];
  }

  method ExpectedProofDepth(leafCount: nat) returns (depth: nat)
    ensures depth == Depth(leafCount)
  {
    var length := leafCount;
    depth := 0;
    while length > 1
      invariant depth + Depth(length) == Depth(leafCount)
    {
      if length % 2 == 1 {
        length := length + 1;
      }
      length := length / 2;
      depth := depth + 1;
    }
  }

  method RecomputeRootFromProof(c: Crypto, change: Hash, proof: MerkleProof) returns (hash: Hash)
    ensures hash == Climb(c, LeafHash(c, change), proof.leafIndex, proof.siblings)
  {
    hash := LeafHash(c, change);
    var index, k := proof.leafIndex, 0;
    while k < |proof.siblings|
      invariant 0 <= k <= |proof.siblings|
      invariant Climb(c, hash, index, proof.siblings[k..])
             == Climb(c, LeafHash(c, change), proof.leafIndex, proof.siblings)
    {
      var sibling := proof.siblings[k];
      assert proof.siblings[k..] == [sibling] + proof.siblings[k + 1..];
      hash := if index % 2 == 0 then NodeHash(c, hash, sibling) else NodeHash(c, sibling, hash);
      index, k := index / 2, k + 1;
    }
  }

  /** `i >> depth`. */
  function Shifted(i: nat, depth: nat): nat
  {
    if depth == 0 then i else Shifted(i, depth - 1) / 2
  }

  /** The path gathered so far, then the rest of it from node `index` of the level reached. */
  predicate Gathered(c: Crypto, whole: seq<Hash>, level: seq<Hash>, index: nat, siblings: seq<Hash>)
  {
    index < |level| && siblings + Siblings(c, level, index) == whole
  }

  lemma Regroup(a: seq<Hash>, p: seq<Hash>)
    requires p != []
    ensures (a + [p[0]]) + p[1..] == a + p
  {
    assert p == [p[0]] + p[1..];
  }

  lemma GatherStep(c: Crypto, whole: seq<Hash>, level: seq<Hash>, index: nat, siblings: seq<Hash>)
    requires |level| > 1 && Gathered(c, whole, level, index, siblings)
    ensures Gathered(c, whole, Up(c, level), index / 2, siblings + [Padded(level)[SiblingIndex(index)]])
  {
    FirstSibling(c, level, index);
    Regroup(siblings, Siblings(c, level, index));
  }

  lemma GatherDone(c: Crypto, whole: seq<Hash>, level: seq<Hash>, index: nat, siblings: seq<Hash>)
    requires |level| == 1 && Gathered(c, whole, level, index, siblings)
    ensures siblings == whole
  {
    assert Siblings(c, level, index) == [];
  }

  predicate AllGathered(c: Crypto, leaves: seq<Hash>, level: seq<Hash>, depth: nat, paths: seq<seq<Hash>>)
  {
    && |paths| == |leaves|
    && forall i :: 0 <= i < |leaves| ==> Gathered(c, Siblings(c, leaves, i), level, Shifted(i, depth), paths[i])
  }

  /** Every path is one sibling longer. */
  predicate OneMore(level: seq<Hash>, depth: nat, paths: seq<seq<Hash>>, more: seq<seq<Hash>>, n: nat)
    requires n <= |paths| && n <= |more|
  {
    forall i :: 0 <= i < n ==>
      SiblingIndex(Shifted(i, depth)) < |Padded(level)|
      && more[i] == paths[i] + [Padded(level)[SiblingIndex(Shifted(i, depth))]]
  }

  lemma LevelGathered(
    c: Crypto, leaves: seq<Hash>, level: seq<Hash>, depth: nat, paths: seq<seq<Hash>>, more: seq<seq<Hash>>)
    requires |level| > 1 && AllGathered(c, leaves, level, depth, paths)
    requires |more| == |paths| && OneMore(level, depth, paths, more, |paths|)
    ensures AllGathered(c, leaves, Up(c, level), depth + 1, more)
  {
    forall i | 0 <= i < |leaves|
      ensures Gathered(c, Siblings(c, leaves, i), Up(c, level), Shifted(i, depth + 1), more[i])
    {
      GatherStep(c, Siblings(c, leaves, i), level, Shifted(i, depth), paths[i]);
    }
  }

  /** One sibling for every proof from one padded level. */
  method GatherLevel(padded: seq<Hash>, level: seq<Hash>, depth: nat, paths: seq<seq<Hash>>)
    returns (more: seq<seq<Hash>>)
    requires padded == Padded(level) && IndicesInLevel(|paths|, depth, level)
    ensures |more| == |paths| && OneMore(level, depth, paths, more, |paths|)
  {
    more := [];
    while |more| < |paths|
      invariant |more| <= |paths| && OneMore(level, depth, paths, more, |more|)
    {
      var index := Shifted(|more|, depth);
      var sibling := if index % 2 == 0 then index + 1 else index - 1;
      more := more + [paths[|more|] + [padded[sibling]]];
    }
  }

  lemma NothingGathered(c: Crypto, leaves: seq<Hash>, paths: seq<seq<Hash>>)
    requires |paths| == |leaves| && forall i :: 0 <= i < |paths| ==> paths[i] == []
    ensures AllGathered(c, leaves, leaves, 0, paths)
  {
  }

  predicate IndicesInLevel(n: nat, depth: nat, level: seq<Hash>)
  {
    forall i :: 0 <= i < n ==> Shifted(i, depth) < |level|
  }

  lemma GatheredInLevel(c: Crypto, leaves: seq<Hash>, level: seq<Hash>, depth: nat, paths: seq<seq<Hash>>)
    requires AllGathered(c, leaves, level, depth, paths)
    ensures IndicesInLevel(|paths|, depth, level)
  {
    forall i | 0 <= i < |paths| ensures Shifted(i, depth) < |level| {
      assert Gathered(c, Siblings(c, leaves, i), level, Shifted(i, depth), paths[i]);
    }
  }

  predicate AllPaths(c: Crypto, leaves: seq<Hash>, paths: seq<seq<Hash>>)
  {
    |paths| == |leaves| && forall i :: 0 <= i < |leaves| ==> paths[i] == Siblings(c, leaves, i)
  }

  lemma EverythingGathered(c: Crypto, leaves: seq<Hash>, level: seq<Hash>, depth: nat, paths: seq<seq<Hash>>)
    requires |level| == 1 && AllGathered(c, leaves, level, depth, paths)
    ensures AllPaths(c, leaves, paths)
  {
    forall i | 0 <= i < |leaves| ensures paths[i] == Siblings(c, leaves, i) {
      GatherDone(c, Siblings(c, leaves, i), level, Shifted(i, depth), paths[i]);
    }
  }

  method GatherPaths(c: Crypto, leaves: seq<Hash>) returns (paths: seq<seq<Hash>>)
    requires leaves != []
    ensures AllPaths(c, leaves, paths)
  {
    var level, depth := leaves, 0;
    paths := seq(|leaves|, _ => []);
    NothingGathered(c, leaves, paths);
    while |level| > 1
      invariant level != [] && AllGathered(c, leaves, level, depth, paths)
      decreases |level|
    {
      GatheredInLevel(c, leaves, level, depth, paths);
      var padded, up := PadAndPair(c, level);
      var more := GatherLevel(padded, level, depth, paths);
      LevelGathered(c, leaves, level, depth, paths, more);
      paths, level, depth := more, up, depth + 1;
    }
    EverythingGathered(c, leaves, level, depth, paths);
  }

  /** Each level is hashed once for the whole batch, and still every proof is the one a
      separate climb for its change would give. */
  method BuildMerkleProofs(c: Crypto, changes: seq<Hash>) returns (proofs: seq<MerkleProof>)
    requires changes != []
    ensures |proofs| == |changes| && forall i :: 0 <= i < |changes| ==> proofs[i] == ProofOf(c, changes, i)
  {
    var paths := GatherPaths(c, Leaves(c, changes));
    proofs := [];
    while |proofs| < |changes|
      invariant |proofs| <= |changes|
      invariant forall i :: 0 <= i < |proofs| ==> proofs[i] == ProofOf(c, changes, i)
    {
      var i := |proofs|;
      proofs := proofs + [MerkleProof(i, |changes|, paths[i])];
    }
  }
}

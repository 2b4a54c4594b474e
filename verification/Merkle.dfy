/**
 * Merkle roots two ways: the full tree (MerkleRoot, pkg/coinbase/builder.go) and the branch list sent
 * to miners (computeStratumMerkleBranches, pkg/engine/jobmanager.go), folded over the coinbase hash.
 */
module Merkle {
  import opened Common

  /** Go's copy into a fresh 32-byte buffer: longer input is cut, shorter input is zero-padded. */
  function Fit32(h: Bytes): Bytes32 {
    if |h| >= 32 then h[..32] else h + Zeros(32 - |h|)
  }

  function Pair(h: Sha256d, left: Bytes, right: Bytes): Bytes32 {
    h(Fit32(left) + Fit32(right))
  }

  /** One level up, the last node paired with itself when the level is odd. */
  function Up(h: Sha256d, level: seq<Bytes>): (next: seq<Bytes>)
    ensures |next| == (|level| + 1) / 2
  {
    seq((|level| + 1) / 2, i requires 0 <= i < (|level| + 1) / 2 =>
      if 2 * i + 1 < |level| then Pair(h, level[2 * i], level[2 * i + 1]) else Pair(h, level[2 * i], level[2 * i]))
  }

  /** The full tree over the hashes, coinbase first. */
  function Root(h: Sha256d, hashes: seq<Bytes>): Bytes
    decreases |hashes|
  {
    if |hashes| == 0 then Zeros(32)
    else if |hashes| == 1 then Fit32(hashes[0])
    else RootOfLevel(h, hashes)
  }

  function RootOfLevel(h: Sha256d, level: seq<Bytes>): Bytes
    requires |level| >= 1
    decreases |level|
  {
    if |level| == 1 then level[0] else RootOfLevel(h, Up(h, level))
  }

  /** The level above when nodes are joined without cutting them to 32 bytes. */
  function UpJoined(h: Sha256d, level: seq<Bytes>): (next: seq<Bytes>)
    ensures |next| == (|level| + 1) / 2
  {
    seq((|level| + 1) / 2, i requires 0 <= i < (|level| + 1) / 2 =>
      if 2 * i + 1 < |level| then h(level[2 * i] + level[2 * i + 1]) else h(level[2 * i] + level[2 * i]))
  }

  /** The sibling of the leftmost node at every level. */
  function Siblings(h: Sha256d, level: seq<Bytes>): seq<Bytes>
    requires |level| >= 1
    decreases |level|
  {
    if |level| == 1 then [] else [level[1]] + Siblings(h, UpJoined(h, level))
  }

  /** The branch list: the tree is built with zeros where the coinbase hash will be. */
  function Branches(h: Sha256d, txHashes: seq<Bytes>): seq<Bytes> {
    if txHashes == [] then [] else Siblings(h, [Zeros(32)] + txHashes)
  }

  /** What a miner computes from the coinbase hash and the branches. */
  function Fold(h: Sha256d, acc: Bytes, branches: seq<Bytes>): Bytes
    decreases |branches|
  {
    if branches == [] then acc else Fold(h, Pair(h, acc, branches[0]), branches[1..])
  }

  predicate AllHashes(level: seq<Bytes>) {
    forall i :: 0 <= i < |level| ==> |level[i]| == 32
  }

  lemma {:induction false} UpAgrees(h: Sha256d, level: seq<Bytes>)
    requires AllHashes(level)
    ensures UpJoined(h, level) == Up(h, level)
    ensures AllHashes(Up(h, level))
  {
    forall i | 0 <= i < |level| ensures Fit32(level[i]) == level[i] {
    }
  }

  lemma {:induction false} SameAbove(h: Sha256d, s: seq<Bytes>, t: seq<Bytes>, i: nat)
    requires |s| == |t| && i < |Up(h, s)|
    requires s[2 * i] == t[2 * i] && (2 * i + 1 < |s| ==> s[2 * i + 1] == t[2 * i + 1])
    ensures Up(h, s)[i] == Up(h, t)[i]
  {
  }

  /** Replacing the leftmost node changes no other node of the level above. */
  lemma {:induction false} UpOfPlaceholder(h: Sha256d, a: Bytes, b: Bytes, rest: seq<Bytes>)
    requires rest != []
    ensures Up(h, [a] + rest) == [Pair(h, a, rest[0])] + Up(h, [b] + rest)[1..]
  {
    var s, t := [a] + rest, [b] + rest;
    forall i | 1 <= i < |Up(h, s)| ensures Up(h, s)[i] == Up(h, t)[i] {
      SameAbove(h, s, t, i);
    }
    assert s[1] == rest[0];
  }

  /**
   * Folding the siblings collected from a tree with any placeholder at the left gives the root of the
   * tree with the real hash there.
   */
  lemma {:induction false} FoldIsRoot(h: Sha256d, placeholder: Bytes, hash: Bytes, rest: seq<Bytes>)
    requires AllHashes(rest) && |placeholder| == |hash| == 32
    ensures Fold(h, hash, Siblings(h, [placeholder] + rest)) == RootOfLevel(h, [hash] + rest)
    decreases |rest|
  {
    var level := [placeholder] + rest;
    if rest != [] {
      UpAgrees(h, level);
      var above := Up(h, level);
      UpOfPlaceholder(h, hash, placeholder, rest);
      FoldIsRoot(h, above[0], Pair(h, hash, rest[0]), above[1..]);
      assert above == [above[0]] + above[1..];
    }
  }

  /** The branches sent to miners stand for the full tree, for any coinbase hash and transaction hashes. */
  lemma {:induction false} BranchesGiveRoot(h: Sha256d, coinbaseHash: Bytes32, txHashes: seq<Bytes>)
    requires AllHashes(txHashes)
    ensures Fold(h, coinbaseHash, Branches(h, txHashes)) == Root(h, [coinbaseHash] + txHashes)
  {
    if txHashes != [] {
      FoldIsRoot(h, Zeros(32), coinbaseHash, txHashes);
    }
  }

  /** MerkleRoot. */
  method MerkleRoot(h: Sha256d, input: seq<Bytes>) returns (root: Bytes)
    ensures root == Root(h, input)
  {
    var hashes := input;
    if |hashes| == 0 {
      return Zeros(32);
    }
    if |hashes| == 1 {
      return Fit32(hashes[0]);
    }
    while |hashes| > 1
      invariant |hashes| >= 1
      invariant RootOfLevel(h, hashes) == RootOfLevel(h, input)
      decreases |hashes|
    {
      hashes := PairLevel(h, hashes);
    }
    return hashes[0];
  }

  lemma {:induction false} PairAt(h: Sha256d, level: seq<Bytes>, hashes: seq<Bytes>, k: nat)
    requires hashes == (if |level| % 2 != 0 then level + [level[|level| - 1]] else level) && 2 * k + 1 < |hashes|
    ensures Up(h, level)[..k] + [Pair(h, hashes[2 * k], hashes[2 * k + 1])] == Up(h, level)[..k + 1]
  {
    assert Up(h, level)[k] == Pair(h, hashes[2 * k], hashes[2 * k + 1]);
  }

  /** The loop body of MerkleRoot: duplicate an odd last node, then pair. */
  method PairLevel(h: Sha256d, level: seq<Bytes>) returns (next: seq<Bytes>)
    ensures next == Up(h, level)
  {
    var hashes := level;
    if |hashes| % 2 != 0 {
      hashes := hashes + [hashes[|hashes| - 1]];
    }
    next := [];
    var i := 0;
    while i < |hashes|
      invariant 0 <= i <= |hashes| && i == 2 * |next|
      invariant next == Up(h, level)[..|next|]
    {
      PairAt(h, level, hashes, |next|);
      next := next + [Pair(h, hashes[i], hashes[i + 1])];
      i := i + 2;
    }
  }

  /** computeStratumMerkleBranches. */
  method ComputeBranches(h: Sha256d, txHashes: seq<Bytes>) returns (result: seq<Bytes>)
    ensures result == Branches(h, txHashes)
  {
    if |txHashes| == 0 {
      return [];
    }
    var currentLevel: seq<Bytes> := [Zeros(32)] + txHashes;
    result := [];
    while |currentLevel| > 1
      invariant |currentLevel| >= 1
      invariant result + Siblings(h, currentLevel) == Branches(h, txHashes)
      decreases |currentLevel|
    {
      ghost var before := result;
      result := result + [currentLevel[1]];
      ghost var above := Siblings(h, UpJoined(h, currentLevel));
      assert before + ([currentLevel[1]] + above) == result + above;
      currentLevel := JoinLevel(h, currentLevel);
    }
    assert result + [] == result;
  }

  /** The inner loop of computeStratumMerkleBranches. */
  method JoinLevel(h: Sha256d, currentLevel: seq<Bytes>) returns (nextLevel: seq<Bytes>)
    ensures nextLevel == UpJoined(h, currentLevel)
  {
    var nextLen := (|currentLevel| + 1) / 2;
    nextLevel := [];
    var i := 0;
    while i < nextLen
      invariant 0 <= i <= nextLen && |nextLevel| == i
      invariant forall k :: 0 <= k < i ==> nextLevel[k] == UpJoined(h, currentLevel)[k]
    {
      var leftIdx, rightIdx := i * 2, i * 2 + 1;
      var combined;
      if rightIdx < |currentLevel| {
        combined := currentLevel[leftIdx] + currentLevel[rightIdx];
      } else {
        combined := currentLevel[leftIdx] + currentLevel[leftIdx];
      }
      nextLevel := nextLevel + [h(combined)];
      i := i + 1;
    }
  }

  /** ComputeMerkleRootFromBranches, and the same loop inside ValidateShare. */
  method FoldBranches(h: Sha256d, coinbaseHash: Bytes, branches: seq<Bytes>) returns (result: Bytes)
    ensures result == Fold(h, Fit32(coinbaseHash), branches)
  {
    result := Fit32(coinbaseHash);
    var i := 0;
    while i < |branches|
      invariant 0 <= i <= |branches|
      invariant Fold(h, result, branches[i..]) == Fold(h, Fit32(coinbaseHash), branches)
    {
      result := Pair(h, result, branches[i]);
      i := i + 1;
    }
  }
}

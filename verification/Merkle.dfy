/** The Merkle tree of a block and its branches. */
module Merkle {
  type Hash = nat

  /** The hash of two hashes is left uninterpreted. */
  type Combine = (Hash, Hash) -> Hash

  function Min(a: nat, b: nat): (m: nat)
    ensures m <= a && m <= b && (m == a || m == b)
  {
    if a < b then a else b
  }

  /** The level above: pairs, the last one paired with itself when the number is odd. */
  function Up(h: Combine, level: seq<Hash>): (r: seq<Hash>)
    ensures |r| == (|level| + 1) / 2
  {
    seq((|level| + 1) / 2, i requires 0 <= i < (|level| + 1) / 2 => h(level[2 * i], level[Min(2 * i + 1, |level| - 1)]))
  }

  /** All levels, one behind the other. */
  function Tree(h: Combine, level: seq<Hash>): (t: seq<Hash>)
    decreases |level|
  {
    if |level| <= 1 then level else level + Tree(h, Up(h, level))
  }

  function Root(h: Combine, level: seq<Hash>): Hash
    decreases |level|
  {
    if level == [] then 0 else if |level| == 1 then level[0] else Root(h, Up(h, level))
  }

  /** The other child of the same parent, or the last of the level. */
  function Sibling(nIndex: nat, nSize: nat): nat
    requires nSize > 0
  {
    Min(if nIndex % 2 == 1 then nIndex - 1 else nIndex + 1, nSize - 1)
  }

  /** For a position behind the last, the siblings are the last ones of their levels. */
  function Branch(h: Combine, level: seq<Hash>, nIndex: nat): seq<Hash>
    decreases |level|
  {
    if |level| <= 1 then [] else [level[Sibling(nIndex, |level|)]] + Branch(h, Up(h, level), nIndex / 2)
  }

  /** The root that a hash, a branch and a position lead to; a negative position is halved downwards. */
  function Climb(h: Combine, hash: Hash, branch: seq<Hash>, nIndex: int): Hash
    decreases |branch|
  {
    if branch == [] then hash
    else Climb(h, if nIndex % 2 == 1 then h(branch[0], hash) else h(hash, branch[0]), branch[1..], nIndex / 2)
  }

  /** Every transaction's branch leads to the root of the tree, whatever the number of transactions. */
  lemma {:induction false} BranchLeadsToRoot(h: Combine, level: seq<Hash>, nIndex: nat)
    requires nIndex < |level|
    ensures Climb(h, level[nIndex], Branch(h, level, nIndex), nIndex) == Root(h, level)
    decreases |level|
  {
    if |level| > 1 {
      hide Up, Sibling;
      var other, rest := level[Sibling(nIndex, |level|)], Branch(h, Up(h, level), nIndex / 2);
      assert ([other] + rest)[1..] == rest;
      Parent(h, level, nIndex);
      BranchLeadsToRoot(h, Up(h, level), nIndex / 2);
    }
  }

  lemma Parent(h: Combine, level: seq<Hash>, nIndex: nat)
    requires nIndex < |level| && |level| > 1
    ensures var other := level[Sibling(nIndex, |level|)];
            Up(h, level)[nIndex / 2] == if nIndex % 2 == 1 then h(other, level[nIndex]) else h(level[nIndex], other)
  {
  }

  lemma NextLevel(h: Combine, front: seq<Hash>, level: seq<Hash>)
    requires |level| > 1
    ensures (front + level) + Tree(h, Up(h, level)) == front + Tree(h, level) && Root(h, Up(h, level)) == Root(h, level)
  {
  }

  ghost predicate CollisionFree(h: Combine) {
    forall u: Hash, v: Hash, x: Hash, y: Hash :: h(u, v) == h(x, y) ==> u == x && v == y
  }

  /** If hashing never collides, a root binds the hash at a position and the whole branch. */
  lemma {:induction false} ClimbBinds(h: Combine, a: Hash, b: Hash, p: seq<Hash>, q: seq<Hash>, nIndex: int)
    requires CollisionFree(h)
    requires |p| == |q| && Climb(h, a, p, nIndex) == Climb(h, b, q, nIndex)
    ensures a == b && p == q
    decreases |p|
  {
    if p != [] {
      if nIndex % 2 == 1 {
        ClimbBinds(h, h(p[0], a), h(q[0], b), p[1..], q[1..], nIndex / 2);
      } else {
        ClimbBinds(h, h(a, p[0]), h(b, q[0]), p[1..], q[1..], nIndex / 2);
      }
      assert p == [p[0]] + p[1..] && q == [q[0]] + q[1..];
    }
  }

  /** And it binds all transactions together: lists of one length with the same root are the same. */
  lemma {:induction false} RootBinds(h: Combine, a: seq<Hash>, b: seq<Hash>)
    requires CollisionFree(h) && |a| == |b| && Root(h, a) == Root(h, b)
    ensures a == b
    decreases |a|
  {
    hide CollisionFree, Up;
    if |a| > 1 {
      RootBinds(h, Up(h, a), Up(h, b));
      forall i | 0 <= i < |a| ensures a[i] == b[i] {
        PairBinds(h, a, b, i);
      }
    }
  }

  lemma PairBinds(h: Combine, a: seq<Hash>, b: seq<Hash>, i: nat)
    requires CollisionFree(h) && |a| == |b| && Up(h, a) == Up(h, b) && i < |a|
    ensures a[i] == b[i]
  {
    var k := i / 2;
    assert Up(h, a)[k] == h(a[2 * k], a[Min(2 * k + 1, |a| - 1)]);
    assert Up(h, b)[k] == h(b[2 * k], b[Min(2 * k + 1, |b| - 1)]);
    assert i == 2 * k || i == Min(2 * k + 1, |a| - 1);
  }

  lemma CutBehind(a: seq<Hash>, b: seq<Hash>)
    ensures (a + b)[..|a|] == a && (a + b)[|a|..] == b
  {
  }

  class Block {
    const h: Combine
    /** The hashes of the transactions. */
    var vtx: seq<Hash>
    /** The tree when it has been built. */
    var vMerkleTree: seq<Hash>

    /** A tree that is there is the tree of these transactions. */
    ghost predicate Fresh()
      reads this
    {
      vMerkleTree == [] || vMerkleTree == Tree(h, vtx)
    }

    constructor (h: Combine, vtx: seq<Hash>)
      ensures Fresh() && this.h == h && this.vtx == vtx
    {
      this.h, this.vtx := h, vtx;
      vMerkleTree := [];
    }

    method BuildMerkleTree() returns (root: Hash)
      modifies this`vMerkleTree
      ensures vMerkleTree == Tree(h, vtx) && root == Root(h, vtx)
    {
      hide Tree, Root, Up;
      vMerkleTree := vtx;
      var j: nat := 0;
      var nSize: nat := |vtx|;
      assert vMerkleTree[..0] + Tree(h, vMerkleTree[0..]) == Tree(h, vtx) && vMerkleTree[0..] == vtx;
      while nSize > 1
        invariant j + nSize == |vMerkleTree|
        invariant vMerkleTree[..j] + Tree(h, vMerkleTree[j..]) == Tree(h, vtx)
        invariant Root(h, vMerkleTree[j..]) == Root(h, vtx) && (nSize == 0 ==> vMerkleTree == [])
        decreases nSize
      {
        ghost var level, front := vMerkleTree[j..], vMerkleTree[..j];
        assert front + level == vMerkleTree;
        NextLevel(h, front, level);
        AppendLevel(j, nSize);
        j := j + nSize;
        nSize := (nSize + 1) / 2;
        CutBehind(front + level, Up(h, level));
      }
      LastLevel(h, vMerkleTree[j..]);
      assert vMerkleTree[..j] + vMerkleTree[j..] == vMerkleTree;
      EmptyRoot(h, vtx);
      root := if vMerkleTree == [] then 0 else vMerkleTree[|vMerkleTree| - 1];
    }

    /** Hash the level at position `j` in pairs. */
    method AppendLevel(j: nat, nSize: nat)
      requires j + nSize == |vMerkleTree| && nSize > 1
      modifies this`vMerkleTree
      ensures vMerkleTree == old(vMerkleTree) + Up(h, old(vMerkleTree)[j..])
    {
      ghost var before, level := vMerkleTree, vMerkleTree[j..];
      var i: nat := 0;
      while i < nSize
        invariant i % 2 == 0 && i <= nSize + 1 && nSize == |level|
        invariant vMerkleTree == before + Up(h, level)[..(i + 1) / 2]
      {
        var i2 := Min(i + 1, nSize - 1);
        assert vMerkleTree[j + i] == before[j + i] == level[i] && vMerkleTree[j + i2] == before[j + i2] == level[i2];
        ghost var up := Up(h, level);
        assert up[..i / 2 + 1] == up[..i / 2] + [up[i / 2]] && up[i / 2] == h(level[i], level[i2]);
        vMerkleTree := vMerkleTree + [h(vMerkleTree[j + i], vMerkleTree[j + i2])];
        i := i + 2;
      }
      assert Up(h, level)[..(i + 1) / 2] == Up(h, level);
    }

    method GetMerkleBranch(nIndex: nat) returns (vMerkleBranch: seq<Hash>)
      requires Fresh()
      modifies this`vMerkleTree
      ensures Fresh() && vMerkleBranch == Branch(h, vtx, nIndex)
    {
      hide Tree, Up, Branch;
      if vMerkleTree == [] {
        var root := BuildMerkleTree();
      }
      vMerkleBranch := [];
      var j: nat := 0;
      var n: nat := nIndex;
      var nSize: nat := |vtx|;
      ghost var level := vtx;
      assert vMerkleTree[0..] == vMerkleTree && [] + Branch(h, level, n) == Branch(h, level, n);
      while nSize > 1
        invariant vMerkleTree == Tree(h, vtx) && nSize == |level| && j <= |vMerkleTree| && vMerkleTree[j..] == Tree(h, level)
        invariant vMerkleBranch + Branch(h, level, n) == Branch(h, vtx, nIndex)
        decreases nSize
      {
        var i := Sibling(n, nSize);
        BranchStep(h, vMerkleTree, level, j, n);
        assert (vMerkleBranch + [level[i]]) + Branch(h, Up(h, level), n / 2) == vMerkleBranch + ([level[i]] + Branch(h, Up(h, level), n / 2));
        vMerkleBranch := vMerkleBranch + [vMerkleTree[j + i]];
        n := n / 2;
        j := j + nSize;
        level := Up(h, level);
        nSize := (nSize + 1) / 2;
      }
      BranchEnd(h, level, n);
    }
  }

  lemma LastLevel(h: Combine, level: seq<Hash>)
    requires |level| <= 1
    ensures Tree(h, level) == level && Root(h, level) == if level == [] then 0 else level[0]
  {
  }

  lemma EmptyRoot(h: Combine, vtx: seq<Hash>)
    ensures vtx == [] ==> Root(h, vtx) == 0
    ensures vtx != [] ==> |Tree(h, vtx)| > 0
  {
  }

  lemma BranchEnd(h: Combine, level: seq<Hash>, n: nat)
    requires |level| <= 1
    ensures Branch(h, level, n) == []
  {
  }

  lemma BranchStep(h: Combine, tree: seq<Hash>, level: seq<Hash>, j: nat, n: nat)
    requires |level| > 1 && j <= |tree| && tree[j..] == Tree(h, level)
    ensures Branch(h, level, n) == [level[Sibling(n, |level|)]] + Branch(h, Up(h, level), n / 2)
    ensures j + |level| <= |tree| && tree[j + |level|..] == Tree(h, Up(h, level))
    ensures j + Sibling(n, |level|) < |tree| && tree[j + Sibling(n, |level|)] == level[Sibling(n, |level|)]
  {
    hide Up;
    var up := Tree(h, Up(h, level));
    assert tree[j..] == level + up;
    assert tree[j..][|level|..] == tree[j + |level|..];
    assert tree[j..][Sibling(n, |level|)] == tree[j + Sibling(n, |level|)];
  }

  method CheckMerkleBranch(h: Combine, hash: Hash, vMerkleBranch: seq<Hash>, nIndex: int) returns (r: Hash)
    ensures r == if nIndex == -1 then 0 else Climb(h, hash, vMerkleBranch, nIndex)
  {
    if nIndex == -1 {
      return 0;
    }
    r := hash;
    var n := nIndex;
    var k: nat := 0;
    while k < |vMerkleBranch|
      invariant k <= |vMerkleBranch| && Climb(h, r, vMerkleBranch[k..], n) == Climb(h, hash, vMerkleBranch, nIndex)
    {
      assert vMerkleBranch[k..][1..] == vMerkleBranch[k + 1..];
      var otherside := vMerkleBranch[k];
      if n % 2 == 1 {
        r := h(otherside, r);
      } else {
        r := h(r, otherside);
      }
      n := n / 2;
      k := k + 1;
    }
  }
}

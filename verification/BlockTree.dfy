/** Block index objects: the tree linked by `pprev`, with `pnext` marking the main chain. */
module BlockTree {
  import opened Ledger

  /** A target in compact form, 32 bits wide. */
  type Bits = n: nat | n < 0x1_0000_0000

  /** A block with the header fields the chain code reads; `hash` is the value of GetHash. */
  datatype Block = Block(hash: Hash, hashPrevBlock: Hash, nTime: nat, nBits: Bits, vtx: seq<Tx>) {
    predicate IsProofOfStake() { |vtx| > 1 && vtx[1].IsCoinStake() }
  }

  /** What AddToBlockIndex computes for a new block before it enters the index. */
  datatype Derived = Derived(nPOWHeight: nat, bnChainTrust: nat, nEntropyBit: nat,
                             fGeneratedStakeModifier: bool, nStakeModifier: nat, hashProofOfStake: Hash)

  class BlockIndex {
    const hash: Hash
    const pprev: BlockIndex?
    const nHeight: nat
    const nFile: nat
    const nBlockPos: nat
    const block: Block     // what ReadFromDisk returns for this position
    const derived: Derived
    ghost const ancestors: seq<BlockIndex>   // from the genesis block to the parent

    var pnext: BlockIndex?
    var nMint: int
    var nMoneySupply: int

    constructor (block: Block, pprev: BlockIndex?, nFile: nat, nBlockPos: nat, derived: Derived)
      requires pprev != null ==> pprev.Wf()
      ensures this.block == block && hash == block.hash && this.pprev == pprev
      ensures this.nFile == nFile && this.nBlockPos == nBlockPos && this.derived == derived
      ensures Wf() && pnext == null && nMint == 0 && nMoneySupply == 0
      ensures ancestors == if pprev == null then [] else pprev.Path()
    {
      this.block := block;
      this.hash := block.hash;
      this.pprev := pprev;
      this.nHeight := if pprev == null then 0 else pprev.nHeight + 1;
      this.nFile := nFile;
      this.nBlockPos := nBlockPos;
      this.derived := derived;
      this.ancestors := if pprev == null then [] else pprev.Path();
      pnext := null;
      nMint, nMoneySupply := 0, 0;
    }

    /** From the genesis block to this one. */
    ghost function Path(): (p: seq<BlockIndex>)
      ensures |p| == |ancestors| + 1 && p[|ancestors|] == this
    {
      ancestors + [this]
    }

    ghost predicate Wf()
      decreases nHeight
    {
      && |ancestors| == nHeight
      && (pprev == null <==> nHeight == 0)
      && (pprev != null ==> nHeight == pprev.nHeight + 1 && ancestors == pprev.Path() && pprev.Wf())
    }

    predicate IsProofOfStake() { block.IsProofOfStake() }
  }

  ghost predicate IsAncestor(a: BlockIndex, b: BlockIndex)
  {
    a.nHeight < |b.Path()| && b.Path()[a.nHeight] == a
  }

  lemma {:induction false} PathWf(b: BlockIndex, i: nat)
    requires b.Wf() && i <= b.nHeight
    ensures b.Path()[i].Wf() && b.Path()[i].nHeight == i
    ensures b.Path()[i].Path() == b.Path()[..i + 1]
    ensures IsAncestor(b.Path()[i], b)
    decreases b.nHeight
  {
    if i < b.nHeight {
      PathWf(b.pprev, i);
      assert b.Path()[i] == b.pprev.Path()[i];
      assert b.Path()[..i + 1] == b.pprev.Path()[..i + 1];
    } else {
      assert b.Path()[..i + 1] == b.Path();
    }
  }

  lemma WfLength(b: BlockIndex)
    requires b.Wf()
    ensures |b.ancestors| == b.nHeight
  {
  }

  lemma ParentWf(b: BlockIndex)
    requires b.Wf() && b.pprev != null
    ensures b.pprev.Wf() && b.pprev.nHeight + 1 == b.nHeight && b.ancestors == b.pprev.Path()
    ensures IsAncestor(b.pprev, b)
  {
  }

  lemma AncestorTransitive(a: BlockIndex, b: BlockIndex, c: BlockIndex)
    requires a.Wf() && b.Wf() && c.Wf() && IsAncestor(a, b) && IsAncestor(b, c)
    ensures IsAncestor(a, c)
  {
    PathWf(c, b.nHeight);
  }

  lemma AncestorOfChild(a: BlockIndex, b: BlockIndex)
    requires b.Wf() && b.pprev != null && IsAncestor(a, b.pprev)
    ensures IsAncestor(a, b)
  {
    ParentWf(b);
  }

  /** Ancestors of one block are ancestors of each other, the lower of the higher. */
  lemma AncestorsLinear(a: BlockIndex, b: BlockIndex, c: BlockIndex)
    requires a.Wf() && b.Wf() && c.Wf() && IsAncestor(a, c) && IsAncestor(b, c) && a.nHeight <= b.nHeight
    ensures IsAncestor(a, b)
  {
    PathWf(c, b.nHeight);
  }

  /** `f` is the lowest common ancestor of `a` and `b`: below it the paths agree, above it they never do. */
  ghost predicate IsFork(f: BlockIndex, a: BlockIndex, b: BlockIndex) {
    && IsAncestor(f, a) && IsAncestor(f, b)
    && forall i | f.nHeight < i < |a.Path()| && i < |b.Path()| :: a.Path()[i] != b.Path()[i]
  }

  /** How far two paths go together. */
  ghost function Shared(p: seq<BlockIndex>, q: seq<BlockIndex>): (k: nat)
    ensures k <= |p| && k <= |q| && p[..k] == q[..k]
    ensures k < |p| && k < |q| ==> p[k] != q[k]
  {
    if p != [] && q != [] && p[0] == q[0] then 1 + Shared(p[1..], q[1..]) else 0
  }

  lemma {:induction false} SharedIs(p: seq<BlockIndex>, q: seq<BlockIndex>, n: nat)
    requires n <= |p| && n <= |q| && p[..n] == q[..n]
    requires n < |p| && n < |q| ==> p[n] != q[n]
    ensures Shared(p, q) == n
  {
    if n > 0 {
      assert p[0] == p[..n][0] == q[..n][0] == q[0];
      assert p[1..][..n - 1] == p[..n][1..] == q[..n][1..] == q[1..][..n - 1];
      SharedIs(p[1..], q[1..], n - 1);
    }
  }

  /** That is up to the fork. */
  lemma ForkIsShared(f: BlockIndex, a: BlockIndex, b: BlockIndex)
    requires a.Wf() && b.Wf() && IsFork(f, a, b)
    ensures Shared(a.Path(), b.Path()) == f.nHeight + 1
  {
    hide BlockIndex.Wf;
    WfLength(a);
    WfLength(b);
    PathWf(a, f.nHeight);
    PathWf(b, f.nHeight);
    SharedIs(a.Path(), b.Path(), f.nHeight + 1);
  }

  /** Where the walk down from `b` ends that looks for the first block with more trust than `best`. */
  ghost function Intermediate(best: nat, b: BlockIndex): BlockIndex
    requires b.Wf()
    decreases b.nHeight
  {
    if b.pprev != null && b.pprev.derived.bnChainTrust > best then Intermediate(best, b.pprev) else b
  }

  lemma {:induction false} IntermediateIs(best: nat, b: BlockIndex)
    requires b.Wf()
    ensures var r := Intermediate(best, b);
            && r.Wf() && IsAncestor(r, b)
            && (r == b || r.derived.bnChainTrust > best)
            && (r.pprev == null || r.pprev.derived.bnChainTrust <= best)
    decreases b.nHeight
  {
    if b.pprev != null && b.pprev.derived.bnChainTrust > best {
      ParentWf(b);
      IntermediateIs(best, b.pprev);
      AncestorOfChild(Intermediate(best, b.pprev), b);
    }
  }

  /** Where the two-pointer search stands: no common block lies above either pointer. */
  ghost predicate Searching(pfork: BlockIndex, plonger: BlockIndex, a: BlockIndex, b: BlockIndex) {
    && pfork.Wf() && plonger.Wf() && IsAncestor(pfork, a) && IsAncestor(plonger, b)
    && forall i | 0 <= i < |a.Path()| && i < |b.Path()| && (i > pfork.nHeight || i > plonger.nHeight) ::
         a.Path()[i] != b.Path()[i]
  }

  /** The pointer that is higher can step down. */
  lemma LongerSteps(pfork: BlockIndex, plonger: BlockIndex, a: BlockIndex, b: BlockIndex)
    requires a.Wf() && b.Wf() && Searching(pfork, plonger, a, b) && plonger.nHeight > pfork.nHeight
    ensures plonger.pprev != null && plonger.pprev.nHeight < plonger.nHeight
    ensures Searching(pfork, plonger.pprev, a, b)
  {
    ParentWf(plonger);
    AncestorTransitive(plonger.pprev, plonger, b);
  }

  lemma ForkSteps(pfork: BlockIndex, plonger: BlockIndex, a: BlockIndex, b: BlockIndex)
    requires a.Wf() && b.Wf() && a.Path()[0] == b.Path()[0]
    requires Searching(pfork, plonger, a, b) && plonger.nHeight <= pfork.nHeight && pfork != plonger
    ensures pfork.pprev != null && pfork.pprev.nHeight < pfork.nHeight
    ensures Searching(pfork.pprev, plonger, a, b)
  {
    assert pfork.nHeight != 0;
    ParentWf(pfork);
    AncestorTransitive(pfork.pprev, pfork, a);
  }

  /** The two-pointer search for the fork; it never runs off the genesis block. */
  method FindFork(pindexBest: BlockIndex, pindexNew: BlockIndex) returns (pfork: BlockIndex)
    requires pindexBest.Wf() && pindexNew.Wf()
    requires pindexBest.Path()[0] == pindexNew.Path()[0]
    ensures IsFork(pfork, pindexBest, pindexNew) && pfork.Wf()
  {
    hide BlockIndex.Wf;
    WfLength(pindexBest);
    WfLength(pindexNew);
    pfork := pindexBest;
    var plonger: BlockIndex := pindexNew;
    while pfork != plonger
      invariant Searching(pfork, plonger, pindexBest, pindexNew)
      decreases pfork.nHeight + plonger.nHeight
    {
      while plonger.nHeight > pfork.nHeight
        invariant Searching(pfork, plonger, pindexBest, pindexNew)
        decreases plonger.nHeight
      {
        LongerSteps(pfork, plonger, pindexBest, pindexNew);
        plonger := plonger.pprev;
      }
      if pfork == plonger {
        break;
      }
      ForkSteps(pfork, plonger, pindexBest, pindexNew);
      pfork := pfork.pprev;
    }
  }

  /** The blocks above `pfork` on the way to `pindex`, lowest first. */
  ghost function Above(pfork: BlockIndex, pindex: BlockIndex): seq<BlockIndex>
    requires pfork.nHeight < |pindex.Path()|
  {
    pindex.Path()[pfork.nHeight + 1..]
  }

  function Reversed(s: seq<BlockIndex>): (r: seq<BlockIndex>)
    ensures |r| == |s| && forall i | 0 <= i < |s| :: r[i] == s[|s| - 1 - i]
  {
    seq(|s|, i requires 0 <= i < |s| => s[|s| - 1 - i])
  }

  lemma CollectStep(p: BlockIndex, pfork: BlockIndex, pindex: BlockIndex)
    requires p.Wf() && pfork.Wf() && pindex.Wf() && IsAncestor(p, pindex) && IsAncestor(pfork, p) && p != pfork
    ensures p.pprev != null && p.pprev.Wf() && p.pprev.nHeight + 1 == p.nHeight
    ensures IsAncestor(p.pprev, pindex) && IsAncestor(pfork, p.pprev)
    ensures p.pprev == pindex.Path()[p.nHeight - 1]
  {
    ParentWf(p);
    AncestorTransitive(p.pprev, p, pindex);
  }

  /** Collect the blocks from `pindex` down to, but not including, `pfork`: highest first. */
  method CollectDown(pindex: BlockIndex, pfork: BlockIndex) returns (v: seq<BlockIndex>)
    requires pindex.Wf() && pfork.Wf() && IsAncestor(pfork, pindex)
    ensures v == Reversed(Above(pfork, pindex))
  {
    hide BlockIndex.Wf;
    WfLength(pindex);
    v := [];
    var p: BlockIndex := pindex;
    ghost var path := pindex.Path();
    while p != pfork
      invariant p.Wf() && IsAncestor(p, pindex) && IsAncestor(pfork, p)
      invariant v == Reversed(path[p.nHeight + 1..])
      decreases p.nHeight
    {
      CollectStep(p, pfork, pindex);
      assert path[p.nHeight] == p;
      assert path[p.nHeight..] == [p] + path[p.nHeight + 1..];
      ReversedCons(p, path[p.nHeight + 1..]);
      v := v + [p];
      p := p.pprev;
    }
  }

  lemma ReversedCons(b: BlockIndex, s: seq<BlockIndex>)
    ensures Reversed([b] + s) == Reversed(s) + [b]
  {
  }
}

/** Synchronized checkpoints on the main network: a broadcast block that the best chain must never leave. */
module Checkpoints {
  import opened Wrappers
  import opened Ledger
  import opened BlockTree
  import opened BlockContext
  import opened ChainReplay
  import opened ChainState
  import Issuance

  class SyncCheckpoints {
    const chain: Chain
    var hashSyncCheckpoint: Hash
    var hashPendingCheckpoint: Hash    // 0 when nothing is pending
    var hashInvalidCheckpoint: Hash
    ghost var stored: seq<BlockIndex>  // every checkpoint stored so far, oldest first

    ghost predicate Indexed(h: Hash)
      reads this, chain`mapBlockIndex
    {
      h in chain.mapBlockIndex
    }

    /** The checkpoints stored so far are blocks of the tree, each a strict descendant of the one before. */
    ghost predicate StoredAdvance()
      reads `stored, chain`mapBlockIndex
    {
      && (forall i | 0 <= i < |stored| :: chain.InTree(stored[i]))
      && forall i | 0 <= i < |stored| - 1 ::
           IsAncestor(stored[i], stored[i + 1]) && stored[i].nHeight < stored[i + 1].nHeight
    }

    /** The current checkpoint is the best block or one of its ancestors, and the last one stored; and every block of the tree
    passed the checks against its parent and has the values that follow from it. */
    ghost predicate Safe()
      reads this, chain, chain.txdb
    {
      && chain.TreeOk() && chain.InTree(chain.pindexBest)
      && chain.DerivedTree() && chain.FittingTree()
      && hashSyncCheckpoint in chain.mapBlockIndex
      && chain.txdb.hashSyncCheckpoint == hashSyncCheckpoint
      && IsAncestor(chain.mapBlockIndex[hashSyncCheckpoint], chain.pindexBest)
      && |stored| > 0 && stored[|stored| - 1] == chain.mapBlockIndex[hashSyncCheckpoint]
      && StoredAdvance()
    }

    /** Every block of the best chain above the genesis block was accepted in its place. */
    ghost predicate Earned()
      reads chain`pindexBest, chain`disk
    {
      Issuance.Earned(chain.rules, chain.pindexBest.Path(), chain.disk)
    }

    /** A block of the tree that strictly descends from the current checkpoint. */
    ghost predicate Newer(h: Hash)
      requires chain.TreeOk() && hashSyncCheckpoint in chain.mapBlockIndex
      reads this, chain
    {
      && h in chain.mapBlockIndex && h != hashSyncCheckpoint
      && IsAncestor(chain.mapBlockIndex[hashSyncCheckpoint], chain.mapBlockIndex[h])
    }

    /** A block of the tree on neither side of the current checkpoint. */
    ghost predicate Beside(h: Hash)
      requires chain.TreeOk() && hashSyncCheckpoint in chain.mapBlockIndex
      reads this, chain
    {
      && h in chain.mapBlockIndex
      && !IsAncestor(chain.mapBlockIndex[hashSyncCheckpoint], chain.mapBlockIndex[h])
      && !IsAncestor(chain.mapBlockIndex[h], chain.mapBlockIndex[hashSyncCheckpoint])
    }

    /** The best chain has the block already, or switches to it. */
    ghost predicate Movable(h: Hash)
      requires chain.TreeOk() && h in chain.mapBlockIndex
      reads chain
    {
      var b := chain.mapBlockIndex[h];
      IsAncestor(b, chain.pindexBest) || Switches(chain.rules, chain.pindexBest, b, chain.disk, chain.SkipSignatures())
    }

    /** And the state is consistent afterwards. */
    ghost predicate Intact(h: Hash)
      requires chain.TreeOk() && h in chain.mapBlockIndex
      reads chain
    {
      var b := chain.mapBlockIndex[h];
      IsAncestor(b, chain.pindexBest) || ChainReplay.Intact(chain.rules, chain.pindexBest, b, chain.disk, chain.SkipSignatures())
    }

    /** Where the best chain is once the block has been moved to. */
    ghost function Destination(h: Hash): BlockIndex
      requires h in chain.mapBlockIndex
      reads chain
    {
      var b := chain.mapBlockIndex[h];
      if IsAncestor(b, chain.pindexBest) then chain.pindexBest else b
    }

    /** What CheckSync lets through. */
    ghost predicate InSync(hashBlock: Hash, pindexPrev: BlockIndex)
      requires hashSyncCheckpoint in chain.mapBlockIndex
      reads this, chain
    {
      var pindexSync := chain.mapBlockIndex[hashSyncCheckpoint];
      if pindexPrev.nHeight >= pindexSync.nHeight then IsAncestor(pindexSync, pindexPrev)
      else if pindexPrev.nHeight + 1 == pindexSync.nHeight then hashBlock == hashSyncCheckpoint
      else hashBlock in chain.mapBlockIndex
    }

    /** The chain holds the genesis block only, which becomes the first checkpoint. */
    constructor (chain: Chain)
      requires chain.Valid() && chain.pindexBest == chain.pindexGenesisBlock && chain.DerivedTree() && chain.FittingTree()
      modifies chain.txdb
      ensures Safe() && chain.Valid() && this.chain == chain
      ensures hashSyncCheckpoint == chain.pindexGenesisBlock.hash && hashPendingCheckpoint == 0 && stored == [chain.pindexGenesisBlock]
      ensures Earned()
    {
      hide Chain.DerivedTree, Chain.FittingTree, TreeIn, Chain.OnTip, SyncCheckpoints.Safe, Issuance.Earned;
      this.chain := chain;
      hashSyncCheckpoint := chain.pindexGenesisBlock.hash;
      hashPendingCheckpoint, hashInvalidCheckpoint := 0, 0;
      stored := [chain.pindexGenesisBlock];
      new;
      chain.WriteSync(hashSyncCheckpoint, chain.pindexBest);
      FirstCheckpoint();
      GenesisEarned();
    }

    lemma GenesisEarned()
      requires chain.TreeOk() && chain.pindexBest == chain.pindexGenesisBlock
      ensures Earned()
    {
      var g := chain.pindexGenesisBlock;
      chain.HashOf(g.hash);
      assert chain.NodeOk(g);
      PathWf(g, 0);
    }

    lemma StoredPath(tip: BlockIndex)
      requires chain.TreeOk() && chain.InTree(tip)
      ensures AllStored(tip.Path(), chain.disk) && DistinctHashes(ChainTxs(tip.Path()))
    {
      assert chain.NodeOk(tip);
    }

    /** The best chain stays earned as long as no postponed block is refused. */
    lemma StaysEarned(tip: BlockIndex, disk0: Disk, skip: bool)
      requires chain.TreeOk() && chain.InTree(chain.pindexBest)
      requires Issuance.Earned(chain.rules, tip.Path(), disk0) && AllStored(tip.Path(), disk0) && DistinctHashes(ChainTxs(tip.Path()))
      requires Larger(disk0, chain.disk) && (chain.pindexBest == tip || BranchOk(chain.rules, tip, chain.pindexBest, chain.disk, skip))
      ensures Earned()
    {
      hide Issuance.Earned, AllStored, ChainTxs, DistinctHashes, BranchOk, TreeIn, Larger;
      StoredPath(chain.pindexBest);
      Issuance.EarnedAfter(chain.rules, tip, chain.pindexBest, disk0, chain.disk, skip);
    }

    lemma SwitchEarned(tip: BlockIndex, skip: bool)
      requires chain.TreeOk() && chain.InTree(chain.pindexBest) && chain.InTree(tip) && Issuance.Earned(chain.rules, tip.Path(), chain.disk)
      requires chain.pindexBest == tip || BranchOk(chain.rules, tip, chain.pindexBest, chain.disk, skip)
      ensures Earned()
    {
      hide Issuance.Earned, AllStored, ChainTxs, DistinctHashes, BranchOk, TreeIn;
      StoredPath(tip);
      StaysEarned(tip, chain.disk, skip);
    }

    lemma WrittenIsLarger(b: BlockIndex, disk0: Disk)
      requires forall p | p in disk0 :: !(p.DiskTxPos? && p.nFile == b.nFile && p.nBlockPos == b.nBlockPos)
      requires chain.disk == disk0 + WrittenBlock(b, |b.block.vtx|)
      ensures Larger(disk0, chain.disk)
    {
      hide WrittenBlock;
      WrittenPlace(b, |b.block.vtx|);
    }

    lemma FirstCheckpoint()
      requires chain.TreeOk() && chain.pindexBest == chain.pindexGenesisBlock && chain.DerivedTree() && chain.FittingTree()
      requires hashSyncCheckpoint == chain.pindexGenesisBlock.hash == chain.txdb.hashSyncCheckpoint
      requires stored == [chain.pindexGenesisBlock]
      ensures Safe()
    {
      chain.SelfAncestor(chain.pindexBest);
    }

    /** Walk down from `b` to height `h`. */
    method TraceBack(b: BlockIndex, h: nat) returns (pindex: BlockIndex)
      requires b.Wf() && h <= b.nHeight
      ensures pindex == b.Path()[h] && pindex.nHeight == h && pindex.Wf()
    {
      pindex := b;
      while pindex.nHeight > h
        invariant pindex.Wf() && h <= pindex.nHeight && pindex.nHeight < |b.Path()| && b.Path()[pindex.nHeight] == pindex
        decreases pindex.nHeight
      {
        ParentWf(pindex);
        AncestorTransitive(pindex.pprev, pindex, b);
        pindex := pindex.pprev;
      }
    }

    /** Only a strict descendant of the current checkpoint passes; a block on neither side of it is remembered as invalid. */
    method ValidateSyncCheckpoint(hashCheckpoint: Hash) returns (ok: bool)
      requires Safe()
      modifies `hashInvalidCheckpoint
      ensures ok <==> Newer(hashCheckpoint)
      ensures ok ==> chain.mapBlockIndex[hashSyncCheckpoint].nHeight < chain.mapBlockIndex[hashCheckpoint].nHeight
      ensures hashInvalidCheckpoint == if Beside(hashCheckpoint) then hashCheckpoint else old(hashInvalidCheckpoint)
    {
      hide Chain.DerivedTree, Chain.FittingTree, TreeIn, BlockIndex.Wf, StoredAdvance;
      if hashSyncCheckpoint !in chain.mapBlockIndex || hashCheckpoint !in chain.mapBlockIndex {
        return false;
      }
      var pindexSync := chain.mapBlockIndex[hashSyncCheckpoint];
      var pindexRecv := chain.mapBlockIndex[hashCheckpoint];
      chain.HashOf(hashSyncCheckpoint);
      chain.HashOf(hashCheckpoint);
      chain.InTreeWf(pindexSync);
      chain.InTreeWf(pindexRecv);
      if pindexRecv.nHeight <= pindexSync.nHeight {
        var pindex := TraceBack(pindexSync, pindexRecv.nHeight);
        chain.OnPathInTree(pindexSync, pindexRecv.nHeight);
        if pindex.hash != hashCheckpoint {
          hashInvalidCheckpoint := hashCheckpoint;
          return false;
        }
        return false;
      }
      var pindex := TraceBack(pindexRecv, pindexSync.nHeight);
      chain.OnPathInTree(pindexRecv, pindexSync.nHeight);
      if pindex.hash != hashSyncCheckpoint {
        hashInvalidCheckpoint := hashCheckpoint;
        return false;
      }
      return true;
    }

    method WriteSyncCheckpoint(hashCheckpoint: Hash, ghost tip: BlockIndex)
      requires chain.OnTip(tip) && hashCheckpoint in chain.mapBlockIndex
      modifies `hashSyncCheckpoint, `stored, chain.txdb
      ensures chain.OnTip(tip) && chain.txdb.hashSyncCheckpoint == hashSyncCheckpoint == hashCheckpoint
      ensures stored == old(stored) + [chain.mapBlockIndex[hashCheckpoint]]
    {
      chain.WriteSync(hashCheckpoint, tip);
      hashSyncCheckpoint := hashCheckpoint;
      stored := stored + [chain.mapBlockIndex[hashCheckpoint]];
    }

    /** Switch the best chain to a block that is not on it. */
    method SwitchFor(hashCheckpoint: Hash) returns (ok: bool, ghost reached: BlockIndex)
      requires Safe() && chain.Valid() && hashCheckpoint in chain.mapBlockIndex
      modifies chain`pindexBest, chain`hashBestChain, chain`nBestHeight, chain`bnBestChainTrust, chain.txdb, chain.mapBlockIndex.Values
      ensures chain.TreeOk() && chain.OnTip(reached) && chain.txdb.hashSyncCheckpoint == old(chain.txdb.hashSyncCheckpoint)
      ensures chain.InTree(chain.pindexBest) && (old(Earned()) && chain.Valid() ==> Earned())
      ensures ok <==> old(Movable(hashCheckpoint))
      ensures chain.Valid() <==> old(Intact(hashCheckpoint))
      ensures chain.pindexBest == if ok then old(Destination(hashCheckpoint)) else old(chain.pindexBest)
      ensures ok ==> IsAncestor(chain.mapBlockIndex[hashCheckpoint], chain.pindexBest)
    {
      hide Chain.DerivedTree, Chain.FittingTree, TreeIn, BlockIndex.Wf, Chain.Linked, Chain.MoneyOk, Replay, BranchOk, Intermediate, StopsAt,
           Issuance.Earned, AllStored, ChainTxs, DistinctHashes, Larger, StoredAdvance;
      var pindexCheckpoint := chain.mapBlockIndex[hashCheckpoint];
      chain.HashOf(hashCheckpoint);
      reached := chain.pindexBest;
      ghost var tip, skip, earned := chain.pindexBest, chain.SkipSignatures(), Earned();
      chain.MainChainExact(pindexCheckpoint);
      ok := true;
      if !chain.IsInMainChain(pindexCheckpoint) {
        ok, reached := chain.SetBestChain(pindexCheckpoint);
        chain.SelfAncestor(pindexCheckpoint);
      }
      if earned && chain.Valid() {
        SwitchEarned(tip, skip);
      }
    }

    /** Make a validated block the checkpoint, switching the best chain to it first when it is not on it. */
    method MoveCheckpoint(hashCheckpoint: Hash) returns (ok: bool, ghost reached: BlockIndex)
      requires Safe() && chain.Valid() && Newer(hashCheckpoint)
      requires chain.mapBlockIndex[hashSyncCheckpoint].nHeight < chain.mapBlockIndex[hashCheckpoint].nHeight
      modifies `hashSyncCheckpoint, `hashInvalidCheckpoint, `stored
      modifies chain`pindexBest, chain`hashBestChain, chain`nBestHeight, chain`bnBestChainTrust, chain.txdb, chain.mapBlockIndex.Values
      ensures Safe() && chain.OnTip(reached)
      ensures old(Earned()) && chain.Valid() ==> Earned()
      ensures ok <==> old(Movable(hashCheckpoint))
      ensures chain.Valid() <==> old(Intact(hashCheckpoint))
      ensures ok ==> hashSyncCheckpoint == hashCheckpoint && stored == old(stored) + [chain.mapBlockIndex[hashCheckpoint]]
      ensures ok ==> chain.pindexBest == old(Destination(hashCheckpoint)) && hashInvalidCheckpoint == old(hashInvalidCheckpoint)
      ensures !ok ==> hashSyncCheckpoint == old(hashSyncCheckpoint) && stored == old(stored)
                      && chain.pindexBest == old(chain.pindexBest) && hashInvalidCheckpoint == hashCheckpoint
    {
      hide Chain.DerivedTree, Chain.FittingTree, TreeIn, BlockIndex.Wf, Chain.Linked, Chain.MoneyOk, Replay, Issuance.Earned,
           SyncCheckpoints.Movable, SyncCheckpoints.Intact, SyncCheckpoints.Destination;
      chain.HashOf(hashCheckpoint);
      ok, reached := SwitchFor(hashCheckpoint);
      if !ok {
        hashInvalidCheckpoint := hashCheckpoint;
        return;
      }
      chain.TipByHash(reached, chain.pindexBest);
      WriteSyncCheckpoint(hashCheckpoint, reached);
      chain.TipByHash(reached, chain.pindexBest);
    }

    /** A checkpoint message arrives; `signatureOk` says whether the master key signed it. */
    method ProcessSyncCheckpoint(hashCheckpoint: Hash, signatureOk: bool) returns (ok: bool, ghost reached: BlockIndex)
      requires Safe() && chain.Valid()
      modifies `hashSyncCheckpoint, `hashPendingCheckpoint, `hashInvalidCheckpoint, `stored
      modifies chain`pindexBest, chain`hashBestChain, chain`nBestHeight, chain`bnBestChainTrust, chain.txdb, chain.mapBlockIndex.Values
      ensures Safe() && chain.OnTip(reached)
      ensures old(Earned()) && chain.Valid() ==> Earned()
      ensures ok <==> signatureOk && old(Newer(hashCheckpoint) && Movable(hashCheckpoint))
      ensures chain.Valid() <==> (signatureOk ==> old(Newer(hashCheckpoint) ==> Intact(hashCheckpoint)))
      ensures ok ==> hashSyncCheckpoint == hashCheckpoint && stored == old(stored) + [chain.mapBlockIndex[hashCheckpoint]]
                     && hashPendingCheckpoint == 0 && chain.pindexBest == old(Destination(hashCheckpoint))
      ensures !ok ==> hashSyncCheckpoint == old(hashSyncCheckpoint) && stored == old(stored) && chain.pindexBest == old(chain.pindexBest)
      ensures !ok ==> hashPendingCheckpoint == if signatureOk && hashCheckpoint !in chain.mapBlockIndex then hashCheckpoint else old(hashPendingCheckpoint)
      ensures hashInvalidCheckpoint == if signatureOk && old(Beside(hashCheckpoint) || (Newer(hashCheckpoint) && !Movable(hashCheckpoint)))
                                       then hashCheckpoint else old(hashInvalidCheckpoint)
    {
      hide Chain.DerivedTree, Chain.FittingTree, TreeIn, BlockIndex.Wf, StoredAdvance, Chain.Linked, Chain.MoneyOk, Replay, BranchOk, Intermediate, Issuance.Earned;
      reached := chain.pindexBest;
      if !signatureOk {
        return false, reached;
      }
      if hashCheckpoint !in chain.mapBlockIndex {
        hashPendingCheckpoint := hashCheckpoint;
        return false, reached;
      }
      var valid := ValidateSyncCheckpoint(hashCheckpoint);
      if !valid {
        return false, reached;
      }
      ok, reached := MoveCheckpoint(hashCheckpoint);
      if ok {
        hashPendingCheckpoint := 0;
      }
    }

    /** Try the pending checkpoint again after a block has been accepted. */
    method AcceptPendingSyncCheckpoint() returns (ok: bool, ghost reached: BlockIndex)
      requires Safe() && chain.Valid()
      modifies `hashSyncCheckpoint, `hashPendingCheckpoint, `hashInvalidCheckpoint, `stored
      modifies chain`pindexBest, chain`hashBestChain, chain`nBestHeight, chain`bnBestChainTrust, chain.txdb, chain.mapBlockIndex.Values
      ensures Safe() && chain.OnTip(reached)
      ensures old(Earned()) && chain.Valid() ==> Earned()
      ensures ok <==> old(Newer(hashPendingCheckpoint) && Movable(hashPendingCheckpoint))
      ensures chain.Valid() <==> old(Newer(hashPendingCheckpoint) ==> Intact(hashPendingCheckpoint))
      ensures ok ==> hashSyncCheckpoint == old(hashPendingCheckpoint) && stored == old(stored) + [chain.mapBlockIndex[old(hashPendingCheckpoint)]]
                     && chain.pindexBest == old(Destination(hashPendingCheckpoint))
      ensures !ok ==> hashSyncCheckpoint == old(hashSyncCheckpoint) && stored == old(stored) && chain.pindexBest == old(chain.pindexBest)
      ensures hashPendingCheckpoint == if ok || old(hashPendingCheckpoint in chain.mapBlockIndex && !Newer(hashPendingCheckpoint))
                                       then 0 else old(hashPendingCheckpoint)
    {
      hide Chain.DerivedTree, Chain.FittingTree, TreeIn, BlockIndex.Wf, StoredAdvance, Chain.Linked, Chain.MoneyOk, Replay, BranchOk, Intermediate, Issuance.Earned;
      reached := chain.pindexBest;
      NoBlockZero();
      if hashPendingCheckpoint == 0 || hashPendingCheckpoint !in chain.mapBlockIndex {
        return false, reached;
      }
      var valid := ValidateSyncCheckpoint(hashPendingCheckpoint);
      if !valid {
        hashPendingCheckpoint := 0;
        return false, reached;
      }
      ok, reached := MoveCheckpoint(hashPendingCheckpoint);
      if ok {
        hashPendingCheckpoint := 0;
      }
    }

    lemma NoBlockZero()
      requires chain.TreeOk()
      ensures 0 !in chain.mapBlockIndex
    {
    }

    /** May a block with this hash on top of `pindexPrev` be accepted? */
    method CheckSync(hashBlock: Hash, pindexPrev: BlockIndex) returns (ok: bool)
      requires Safe() && chain.InTree(pindexPrev)
      ensures ok <==> InSync(hashBlock, pindexPrev)
    {
      var pindexSync := chain.mapBlockIndex[hashSyncCheckpoint];
      chain.HashOf(hashSyncCheckpoint);
      chain.InTreeWf(pindexSync);
      chain.InTreeWf(pindexPrev);
      hide Chain.DerivedTree, Chain.FittingTree, TreeIn, BlockIndex.Wf, StoredAdvance;
      var nHeight := pindexPrev.nHeight + 1;
      if nHeight > pindexSync.nHeight {
        var pindex := TraceBack(pindexPrev, pindexSync.nHeight);
        chain.OnPathInTree(pindexPrev, pindexSync.nHeight);
        if pindex.nHeight < pindexSync.nHeight || pindex.hash != hashSyncCheckpoint {
          return false;
        }
      }
      if nHeight == pindexSync.nHeight && hashBlock != hashSyncCheckpoint {
        return false;
      }
      if nHeight < pindexSync.nHeight && hashBlock !in chain.mapBlockIndex {
        return false;
      }
      return true;
    }

    /** A new block on a known one that fits it, whose values can be derived, and that CheckSync and the other checks let through. */
    ghost predicate Admits(block: Block, proof: Option<Hash>, modifierOk: bool, othersOk: bool)
      requires hashSyncCheckpoint in chain.mapBlockIndex
      reads this, chain
    {
      && othersOk && block.hashPrevBlock in chain.mapBlockIndex && chain.Derivable(block, proof, modifierOk)
      && FitsParent(block, chain.mapBlockIndex[block.hashPrevBlock])
      && InSync(block.hash, chain.mapBlockIndex[block.hashPrevBlock])
    }

    /** Accept a block written at `nFile`, `nBlockPos`. `proof` and `modifierOk` are as for AddToBlockIndex; `othersOk` stands for the
    checks for final transactions, hardened checkpoints and the version. The best chain never leaves the current checkpoint. */
    method AcceptBlock(block: Block, nFile: nat, nBlockPos: nat, proof: Option<Hash>, modifierOk: bool, othersOk: bool)
      returns (ok: bool, ghost reached: BlockIndex)
      requires Safe() && chain.Valid() && block.hash != 0
      requires block.hashPrevBlock in chain.mapBlockIndex ==> NewTxids(ChainTxs(chain.mapBlockIndex[block.hashPrevBlock].Path()), block.vtx)
      requires forall k | 0 <= k < |block.vtx| :: block.vtx[k].nBytes > 0
      requires forall p | p in chain.disk :: !(p.DiskTxPos? && p.nFile == nFile && p.nBlockPos == nBlockPos)
      modifies chain, chain.txdb, chain.mapBlockIndex.Values
      ensures Safe() && chain.OnTip(reached) && hashSyncCheckpoint == old(hashSyncCheckpoint)
      ensures old(Earned()) && chain.Valid() ==> Earned()
      ensures !old(Admits(block, proof, modifierOk, othersOk)) ==> !ok && chain.Valid() && unchanged(chain) && unchanged(chain.txdb)
      ensures old(Admits(block, proof, modifierOk, othersOk)) ==>
                && chain.Entered(old(chain.mapBlockIndex), old(chain.disk), block, nFile, nBlockPos) && fresh(chain.mapBlockIndex[block.hash])
                && (block.IsProofOfStake() ==> chain.mapBlockIndex[block.hash].derived.hashProofOfStake == proof.value)
      ensures old(Admits(block, proof, modifierOk, othersOk)) && chain.mapBlockIndex[block.hash].derived.bnChainTrust <= old(chain.bnBestChainTrust) ==>
                ok && chain.Valid() && chain.pindexBest == old(chain.pindexBest)
      ensures old(Admits(block, proof, modifierOk, othersOk)) && chain.mapBlockIndex[block.hash].derived.bnChainTrust > old(chain.bnBestChainTrust) ==>
                var b := chain.mapBlockIndex[block.hash];
                && (ok <==> Switches(chain.rules, old(chain.pindexBest), b, chain.disk, old(chain.SkipSignatures())))
                && (chain.Valid() <==> ChainReplay.Intact(chain.rules, old(chain.pindexBest), b, chain.disk, old(chain.SkipSignatures())))
                && chain.pindexBest == (if ok then b else old(chain.pindexBest))
                && (!ok ==> reached == chain.pindexBest)
                && (ok ==> StopsAt(chain.rules, Intermediate(old(chain.bnBestChainTrust), b), b, reached, chain.disk, old(chain.SkipSignatures())))
      ensures chain.pindexBest != old(chain.pindexBest) ==> IsAncestor(chain.mapBlockIndex[hashSyncCheckpoint], chain.pindexBest)
    {
      hide Chain.DerivedTree, FittingIn, TreeIn, BlockIndex.Wf, Chain.Linked, Chain.MoneyOk, Replay, NewTxids, ChainTxs, BranchOk, Intermediate, StopsAt, WrittenBlock,
           FitsParent, DerivedFrom, FirstDerived, Issuance.Earned, AllStored, DistinctHashes, Larger;
      reached := chain.pindexBest;
      if block.hash in chain.mapBlockIndex || block.hashPrevBlock !in chain.mapBlockIndex || !othersOk {
        return false, reached;
      }
      var pindexPrev := chain.mapBlockIndex[block.hashPrevBlock];
      chain.HashOf(block.hashPrevBlock);
      chain.InTreeWf(pindexPrev);
      var fits := CheckParent(block, pindexPrev);
      if !fits {
        return false, reached;
      }
      var sync := CheckSync(block.hash, pindexPrev);
      if !sync {
        return false, reached;
      }
      ghost var known, before := chain.Derivable(block, proof, modifierOk), chain.mapBlockIndex;
      ghost var tip, skip, earned, disk0 := chain.pindexBest, chain.SkipSignatures(), Earned(), chain.disk;
      StoredPath(tip);
      ok, reached := chain.AddToBlockIndex(block, nFile, nBlockPos, proof, modifierOk);
      if known {
        ghost var pindexNew := chain.mapBlockIndex[block.hash];
        FittingGrows(before, pindexNew);
        chain.HashOf(block.hash);
        chain.InTreeWf(pindexNew);
        AncestorOfChild(chain.mapBlockIndex[hashSyncCheckpoint], pindexNew);
        if earned && chain.Valid() {
          WrittenIsLarger(pindexNew, disk0);
          StaysEarned(tip, disk0, skip);
        }
      }
    }
  }
}

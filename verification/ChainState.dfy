/** The best chain: connecting and disconnecting blocks, and switching between branches. */
module ChainState {
  import opened Wrappers
  import opened Ledger
  import opened BlockTree
  import opened TxConnect
  import opened ChainReplay
  import opened BlockContext
  import MedianTime
  import StakeModifier

  /** The transaction database: what reads see now, and the state a transaction abort returns to. */
  class TxDB {
    var index: TxMap
    var hashBestChain: Hash
    var hashSyncCheckpoint: Hash
    var inTxn: bool
    var savedIndex: TxMap
    var savedBest: Hash
    var savedSync: Hash

    constructor ()
      ensures index == map[] && hashBestChain == 0 && hashSyncCheckpoint == 0 && !inTxn
    {
      index, savedIndex := map[], map[];
      hashBestChain, savedBest := 0, 0;
      hashSyncCheckpoint, savedSync := 0, 0;
      inTxn := false;
    }

    /** An open transaction that started from `index0` and `best0`. */
    ghost predicate Began(index0: TxMap, best0: Hash, sync0: Hash)
      reads this
    {
      inTxn && savedIndex == index0 && savedBest == best0 && savedSync == sync0
    }

    method TxnBegin() returns (ok: bool)
      modifies this
      ensures ok <==> !old(inTxn)
      ensures inTxn && index == old(index) && hashBestChain == old(hashBestChain) && hashSyncCheckpoint == old(hashSyncCheckpoint)
      ensures ok ==> Began(index, hashBestChain, hashSyncCheckpoint)
      ensures !ok ==> unchanged(this)
    {
      if inTxn {
        return false;
      }
      savedIndex, savedBest, savedSync := index, hashBestChain, hashSyncCheckpoint;
      inTxn := true;
      return true;
    }

    method TxnCommit() returns (ok: bool)
      modifies this
      ensures ok <==> old(inTxn)
      ensures !inTxn && index == old(index) && hashBestChain == old(hashBestChain) && hashSyncCheckpoint == old(hashSyncCheckpoint)
    {
      ok := inTxn;
      inTxn := false;
    }

    method TxnAbort() returns (ok: bool)
      modifies this
      ensures ok <==> old(inTxn)
      ensures !inTxn
      ensures ok ==> index == old(savedIndex) && hashBestChain == old(savedBest) && hashSyncCheckpoint == old(savedSync)
      ensures !ok ==> index == old(index) && hashBestChain == old(hashBestChain) && hashSyncCheckpoint == old(hashSyncCheckpoint)
    {
      ok := inTxn;
      if inTxn {
        index, hashBestChain, hashSyncCheckpoint := savedIndex, savedBest, savedSync;
      }
      inTxn := false;
    }

    method UpdateTxIndex(h: Hash, txindex: TxIndex)
      modifies this`index
      ensures index == old(index)[h := txindex]
    {
      index := index[h := txindex];
    }

    method EraseTxIndex(h: Hash)
      modifies this`index
      ensures index == old(index) - {h}
    {
      index := index - {h};
    }
  }

  /** The successor of `b` on `path`, if it has one. */
  ghost function NextOn(path: seq<BlockIndex>, b: BlockIndex): BlockIndex? {
    if b.nHeight + 1 < |path| && path[b.nHeight] == b then path[b.nHeight + 1] else null
  }

  ghost predicate InMap(m: map<Hash, BlockIndex>, b: BlockIndex) {
    b.hash in m && m[b.hash] == b
  }

  /** A block index whose whole path is indexed and stored, with transaction ids distinct along it. */
  ghost predicate NodeIn(m: map<Hash, BlockIndex>, disk: Disk, genesis: BlockIndex, b: BlockIndex) {
    && b.Wf() && b.Path()[0] == genesis
    && b.block.hashPrevBlock == (if b.pprev == null then 0 else b.pprev.hash)
    && (b.pprev != null ==> b.pprev.derived.bnChainTrust <= b.derived.bnChainTrust)
    && (forall i | 0 <= i < |b.Path()| :: InMap(m, b.Path()[i]))
    && AllStored(b.Path(), disk)
    && DistinctHashes(ChainTxs(b.Path()))
  }

  ghost predicate TreeIn(m: map<Hash, BlockIndex>, disk: Disk, genesis: BlockIndex) {
    && MEMPOOL_POS !in disk && 0 !in m
    && InMap(m, genesis)
    && (forall h | h in m :: m[h].hash == h && NodeIn(m, disk, genesis, m[h]))
  }

  lemma TreeOnLargerDisk(m: map<Hash, BlockIndex>, disk: Disk, disk': Disk, genesis: BlockIndex)
    requires TreeIn(m, disk, genesis) && Larger(disk, disk') && MEMPOOL_POS !in disk'
    ensures TreeIn(m, disk', genesis)
  {
    hide BlockIndex.Wf, ChainTxs, DistinctHashes, AllStored;
    forall h | h in m ensures NodeIn(m, disk', genesis, m[h]) {
      assert NodeIn(m, disk, genesis, m[h]);
      StoredOnLargerDisk(m[h].Path(), disk, disk');
    }
  }

  lemma TreeWithChild(m: map<Hash, BlockIndex>, disk: Disk, genesis: BlockIndex, b: BlockIndex)
    requires TreeIn(m, disk, genesis) && b.Wf() && b.pprev != null && InMap(m, b.pprev)
    requires b.hash !in m && b.hash == b.block.hash != 0 && b.block.hashPrevBlock == b.pprev.hash
    requires b.pprev.derived.bnChainTrust <= b.derived.bnChainTrust
    requires NewTxids(ChainTxs(b.pprev.Path()), b.block.vtx) && Stored(PlacedBlock(b), disk)
    ensures TreeIn(m[b.hash := b], disk, genesis)
  {
    hide BlockIndex.Wf, ChainTxs, DistinctHashes, NewTxids, Stored;
    var m' := m[b.hash := b];
    forall h | h in m ensures NodeIn(m', disk, genesis, m[h]) {
      var c := m[h];
      assert NodeIn(m, disk, genesis, c);
      assert forall i | 0 <= i < |c.Path()| :: InMap(m, c.Path()[i]) && InMap(m', c.Path()[i]);
    }
    ParentWf(b);
    assert b.Path() == b.pprev.Path() + [b];
    DistinctExtends(b.pprev.Path(), b);
    assert NodeIn(m', disk, genesis, b.pprev);
    assert NodeIn(m', disk, genesis, b);
  }

  ghost predicate FittingIn(m: map<Hash, BlockIndex>) {
    forall h | h in m && m[h].pprev != null :: FitsParent(m[h].block, m[h].pprev)
  }

  lemma FittingGrows(m: map<Hash, BlockIndex>, b: BlockIndex)
    requires FittingIn(m) && b.pprev != null && FitsParent(b.block, b.pprev)
    ensures FittingIn(m[b.hash := b])
  {
  }

  class Chain {
    const rules: Rules
    const txdb: TxDB
    const pindexGenesisBlock: BlockIndex
    var mapBlockIndex: map<Hash, BlockIndex>
    var disk: Disk                  // the block files: transactions by position
    var mempool: map<Hash, Tx>
    var pindexBest: BlockIndex
    var hashBestChain: Hash
    var nBestHeight: nat
    var bnBestChainTrust: nat

    // -------------------------------------------------------------- invariants

    ghost predicate InTree(b: BlockIndex)
      reads `mapBlockIndex
    {
      InMap(mapBlockIndex, b)
    }

    ghost predicate NodeOk(b: BlockIndex)
      reads `mapBlockIndex, `disk
    {
      NodeIn(mapBlockIndex, disk, pindexGenesisBlock, b)
    }

    ghost predicate TreeOk()
      reads `mapBlockIndex, `disk
    {
      TreeIn(mapBlockIndex, disk, pindexGenesisBlock)
    }

    /** `pnext` links exactly the consecutive blocks of `path` and is null everywhere else. */
    ghost predicate Linked(path: seq<BlockIndex>)
      reads `mapBlockIndex, mapBlockIndex.Values`pnext
    {
      forall h | h in mapBlockIndex :: mapBlockIndex[h].pnext == NextOn(path, mapBlockIndex[h])
    }

    /** The money supply recorded for block `i` of `path` is the unspent total of the index at that block. */
    ghost predicate MoneyAt(path: seq<BlockIndex>, i: nat)
      requires i < |path|
      reads `disk, path`nMoneySupply
    {
      Replay(path[..i + 1]).Some? && path[i].nMoneySupply == Unspent(Replay(path[..i + 1]).value, disk)
    }

    ghost predicate MoneyOk(path: seq<BlockIndex>, k: nat)
      requires k <= |path|
      reads `disk, path`nMoneySupply
    {
      forall i | 0 <= i < k :: MoneyAt(path, i)
    }

    /** The database index is the replay of the path to `tip`, and money is right along it. */
    ghost predicate IndexAt(tip: BlockIndex)
      reads `mapBlockIndex, `disk, txdb`index, tip.Path()`nMoneySupply
    {
      && InTree(tip)
      && Replay(tip.Path()) == Some(txdb.index)
      && MoneyOk(tip.Path(), |tip.Path()|)
    }

    /** Everything on disk and in memory describes the chain that ends in `tip`. */
    ghost predicate OnTip(tip: BlockIndex)
      reads `mapBlockIndex, `disk, txdb, mapBlockIndex.Values`pnext, tip.Path()`nMoneySupply
    {
      && IndexAt(tip) && Linked(tip.Path())
      && !txdb.inTxn && txdb.hashBestChain == tip.hash
    }

    ghost predicate Valid()
      reads this, txdb, mapBlockIndex.Values, pindexBest.Path()
    {
      && TreeOk() && OnTip(pindexBest) && BestIs(pindexBest)
    }

    ghost predicate BestIs(tip: BlockIndex)
      reads this
    {
      pindexBest == tip && hashBestChain == tip.hash && nBestHeight == tip.nHeight && bnBestChainTrust == tip.derived.bnChainTrust
    }

    /** The derived values of every block follow from those of its parent. */
    ghost predicate DerivedTree()
      reads `mapBlockIndex
    {
      forall h | h in mapBlockIndex :: DerivedOk(rules.stakeHash, mapBlockIndex[h])
    }

    /** Every block above the genesis block agrees with the blocks before it. */
    ghost predicate FittingTree()
      reads `mapBlockIndex
    {
      FittingIn(mapBlockIndex)
    }

    function SkipSignatures(): bool
      reads this
    {
      nBestHeight < TOTAL_BLOCKS_ESTIMATE
    }

    // -------------------------------------------------------------- the genesis block

    /** A chain that holds only the genesis block; its transactions are not indexed. */
    constructor (rules: Rules, block: Block, nFile: nat, nBlockPos: nat)
      requires forall k | 0 <= k < |block.vtx| :: block.vtx[k].nBytes > 0
      requires block.hash != 0 && block.hashPrevBlock == 0
      ensures Valid() && fresh(txdb) && fresh(pindexGenesisBlock) && this.rules == rules
      ensures pindexBest == pindexGenesisBlock && pindexBest.block == block && mapBlockIndex == map[block.hash := pindexBest]
      ensures pindexBest.nFile == nFile && pindexBest.nBlockPos == nBlockPos && pindexBest.derived == FirstDerived(block)
      ensures txdb.index == map[] && disk == WrittenBlock(pindexBest, |block.vtx|)
      ensures DerivedTree() && FittingTree()
    {
      hide FirstDerived, Chain.DerivedTree, Chain.FittingTree, Chain.OnTip, TreeIn, BlockIndex.Wf, Replay, ChainTxs, DistinctHashes, AllStored, Unspent, WrittenBlock;
      var derived := FirstDerived(block);
      var genesis := new BlockIndex(block, null, nFile, nBlockPos, derived);
      var db := new TxDB();
      this.rules := rules;
      txdb := db;
      pindexGenesisBlock := genesis;
      mapBlockIndex := map[block.hash := genesis];
      disk := WrittenBlock(genesis, |block.vtx|);
      mempool := map[];
      pindexBest := genesis;
      hashBestChain, nBestHeight, bnBestChainTrust := block.hash, 0, derived.bnChainTrust;
      new;
      GenesisAlone(pindexGenesisBlock, disk);
      var _ := db.TxnBegin();
      db.hashBestChain := block.hash;
      var _ := db.TxnCommit();
      GenesisTree();
      GenesisTip();
      GenesisFits();
    }

    lemma GenesisFits()
      requires mapBlockIndex == map[pindexGenesisBlock.hash := pindexGenesisBlock] && pindexGenesisBlock.pprev == null
      requires pindexGenesisBlock.derived == FirstDerived(pindexGenesisBlock.block)
      ensures DerivedTree() && FittingTree()
    {
    }

    lemma GenesisTree()
      requires pindexGenesisBlock.Path() == [pindexGenesisBlock] && pindexGenesisBlock.Wf()
      requires mapBlockIndex == map[pindexGenesisBlock.hash := pindexGenesisBlock] && MEMPOOL_POS !in disk
      requires pindexGenesisBlock.hash != 0 && pindexGenesisBlock.block.hashPrevBlock == 0 && pindexGenesisBlock.pprev == null
      requires AllStored(pindexGenesisBlock.Path(), disk) && DistinctHashes(ChainTxs(pindexGenesisBlock.Path()))
      ensures TreeOk()
    {
      assert NodeOk(pindexGenesisBlock);
    }

    lemma GenesisTip()
      requires pindexGenesisBlock.Path() == [pindexGenesisBlock]
      requires mapBlockIndex == map[pindexGenesisBlock.hash := pindexGenesisBlock] && pindexBest == pindexGenesisBlock
      requires Replay(pindexGenesisBlock.Path()) == Replay(pindexGenesisBlock.Path()[..1]) == Some(txdb.index)
      requires Unspent(txdb.index, disk) == pindexGenesisBlock.nMoneySupply && pindexGenesisBlock.pnext == null
      requires !txdb.inTxn && txdb.hashBestChain == pindexGenesisBlock.hash
      ensures OnTip(pindexBest)
    {
    }

    // -------------------------------------------------------------- one transaction

    method ConnectTransaction(tx: Tx, pos: DiskTxPos, queue: TxMap, pindex: BlockIndex, nSigOps0: nat)
      returns (ok: bool, pool: TxMap, nSigOps: nat, nTxValueIn: int)
      requires pindex.Wf() && !pos.NoPos? && MEMPOOL_POS !in disk
      requires Backed(txdb.index + queue, disk)
      ensures ok <==> TxAccepted(rules, txdb.index, txdb.index + queue, disk, Placed(tx, pos), pindex, SkipSignatures())
                      && nSigOps0 + TxSigOps(rules, txdb.index + queue, disk, tx) <= MAX_BLOCK_SIGOPS
      ensures ok ==> ConnectTx(txdb.index + queue, Placed(tx, pos)) == Some(txdb.index + pool)
      ensures ok ==> nSigOps == nSigOps0 + TxSigOps(rules, txdb.index + queue, disk, tx)
      ensures ok ==> nTxValueIn == ValueIn(txdb.index + queue, disk, tx)
    {
      pool, nSigOps, nTxValueIn := queue, nSigOps0, 0;
      if tx.hash in txdb.index && !FullySpent(txdb.index[tx.hash]) {
        return false, pool, nSigOps, nTxValueIn;
      }
      nSigOps := nSigOps + rules.legacySigOps(tx);
      if nSigOps > MAX_BLOCK_SIGOPS {
        return false, pool, nSigOps, nTxValueIn;
      }
      if !tx.IsCoinBase() {
        var connected;
        connected, pool, nSigOps, nTxValueIn := ConnectFetched(tx, pos, queue, pindex, nSigOps);
        if !connected {
          return false, pool, nSigOps, nTxValueIn;
        }
      }
      OverlayAdd(txdb.index, pool, tx.hash, Fresh(pos, |tx.vout|));
      pool := pool[tx.hash := Fresh(pos, |tx.vout|)];
      return true, pool, nSigOps, nTxValueIn;
    }

    /** The part of ConnectTransaction for a transaction with inputs: fetch them, count, connect. */
    method ConnectFetched(tx: Tx, pos: DiskTxPos, queue: TxMap, pindex: BlockIndex, nSigOps0: nat)
      returns (ok: bool, pool: TxMap, nSigOps: nat, nTxValueIn: int)
      requires pindex.Wf() && !pos.NoPos? && MEMPOOL_POS !in disk && !tx.IsCoinBase()
      requires Backed(txdb.index + queue, disk)
      ensures var inputs := InputsFrom(txdb.index + queue, disk, tx.vin);
              && (ok <==> Connectable(rules, tx, inputs, txdb.index, pos, pindex, SkipSignatures())
                          && nSigOps0 + rules.p2shSigOps(tx, Prevs(inputs)) <= MAX_BLOCK_SIGOPS)
              && (ok ==> SpendFirst(txdb.index + queue, tx.vin, |tx.vin|, pos) == Some(txdb.index + pool)
                         && nSigOps == nSigOps0 + rules.p2shSigOps(tx, Prevs(inputs))
                         && nTxValueIn == ValueIn(txdb.index + queue, disk, tx))
    {
      pool, nSigOps, nTxValueIn := queue, nSigOps0, 0;
      var fetched, inputs := FetchForBlock(tx, queue, pindex);
      if !fetched {
        return false, pool, nSigOps, nTxValueIn;
      }
      nSigOps := nSigOps + rules.p2shSigOps(tx, Prevs(inputs));
      if nSigOps > MAX_BLOCK_SIGOPS {
        return false, pool, nSigOps, nTxValueIn;
      }
      nTxValueIn := FetchedIn(inputs, tx.vin, |tx.vin|);
      FetchedInIsSumIn(txdb.index + queue, disk, tx.vin, |tx.vin|);
      ok, pool := ConnectInputs(rules, tx, inputs, txdb.index, queue, pos, pindex, nBestHeight, true, false);
      if ok {
        SpendFetched(txdb.index, queue, disk, tx.vin, pos);
      }
    }

    /** FetchInputs in block mode: it finds the view's own entries and fails only on inputs that cannot connect. */
    method FetchForBlock(tx: Tx, queue: TxMap, pindex: BlockIndex) returns (ok: bool, inputs: Inputs)
      requires MEMPOOL_POS !in disk && !tx.IsCoinBase() && Backed(txdb.index + queue, disk)
      ensures ok ==> inputs == InputsFrom(txdb.index + queue, disk, tx.vin) && inputs.Keys == PrevHashes(tx.vin, |tx.vin|)
      ensures !ok ==> exists i | 0 <= i < |tx.vin| :: !InputSane(tx, InputsFrom(txdb.index + queue, disk, tx.vin), i, pindex)
    {
      var fInvalid;
      ok, inputs, fInvalid := FetchInputs(tx, txdb.index, queue, disk, mempool, true, false);
      ghost var view := txdb.index + queue;
      ghost var hs := PrevHashes(tx.vin, |tx.vin|);
      if h :| h in hs && h !in view {
        assert Lookup(txdb.index, queue, disk, mempool, true, h).None?;
        ghost var i :| 0 <= i < |tx.vin| && tx.vin[i].prevout.hash == h;
        assert !InputSane(tx, InputsFrom(view, disk, tx.vin), i, pindex);
      } else {
        forall h | h in hs ensures Lookup(txdb.index, queue, disk, mempool, true, h) == Some((view[h], disk[view[h].pos])) {
          LookupBacked(txdb.index, queue, disk, mempool, h);
        }
        assert inputs == InputsFrom(view, disk, tx.vin);
        if !ok {
          ghost var i :| 0 <= i < |tx.vin| && !OutputInRange(inputs, tx.vin[i].prevout);
          assert !InputSane(tx, inputs, i, pindex);
        }
      }
    }

    // -------------------------------------------------------------- one block

    /** The transaction loop of ConnectBlock: queue the index changes and tally the values. */
    method ConnectTransactions(pindex: BlockIndex) returns (ok: bool, queue: TxMap, nFees: int, nValueIn: int, nValueOut: int)
      requires pindex.Wf() && MEMPOOL_POS !in disk && DistinctHashes(PlacedBlock(pindex))
      requires Backed(txdb.index, disk) && Stored(PlacedBlock(pindex), disk)
      ensures ok <==> AcceptedUpTo(rules, txdb.index, disk, PlacedBlock(pindex), |PlacedBlock(pindex)|, pindex, SkipSignatures())
      ensures ok ==> ConnectAll(txdb.index, PlacedBlock(pindex)) == Some(txdb.index + queue)
      ensures ok ==> nValueOut - nValueIn == NetValue(txdb.index, disk, PlacedBlock(pindex), |PlacedBlock(pindex)|)
      ensures ok ==> nFees == FeesUpTo(txdb.index, disk, PlacedBlock(pindex), |PlacedBlock(pindex)|)
    {
      hide Tallied, TxAccepted, AcceptedUpTo, SigOpsUpTo, TxSigOps, NetValue, FeesUpTo, ConnectFirst, ConnectAll, ConnectTx, Backed, Stored, DistinctHashes;
      var vtx := pindex.block.vtx;
      ghost var ps := PlacedBlock(pindex);
      var nTxPos := pindex.nBlockPos + EMPTY_BLOCK_SIZE - 2 * CompactSizeLen(0) + CompactSizeLen(|vtx|);
      var nSigOps := 0;
      queue, nFees, nValueIn, nValueOut := map[], 0, 0, 0;
      TallyStart(pindex);
      for i := 0 to |vtx|
        invariant nTxPos == FirstTxPos(pindex) + SizeBefore(vtx, i)
        invariant Tallied(pindex, i, queue, nSigOps, nFees, nValueOut - nValueIn)
      {
        var tx := vtx[i];
        var posThisTx := DiskTxPos(pindex.nFile, pindex.nBlockPos, nTxPos);
        nTxPos := nTxPos + tx.nBytes;
        assert ps[i] == Placed(tx, posThisTx);
        StillBacked(pindex, i, queue, nSigOps, nFees, nValueOut - nValueIn);
        ghost var before, sigOpsBefore := queue, nSigOps;
        var connected, nTxValueIn;
        connected, queue, nSigOps, nTxValueIn := ConnectTransaction(tx, posThisTx, queue, pindex, nSigOps);
        TallyStep(pindex, i, before, sigOpsBefore, nFees, nValueOut - nValueIn, connected, queue, nSigOps);
        if !connected {
          return false, queue, nFees, nValueIn, nValueOut;
        }
        nValueOut := nValueOut + ValueOut(tx);
        if !tx.IsCoinBase() {
          nValueIn := nValueIn + nTxValueIn;
          if !tx.IsCoinStake() {
            nFees := nFees + nTxValueIn - ValueOut(tx);
          }
        }
      }
      TallyEnd(pindex, queue, nSigOps, nFees, nValueOut - nValueIn);
      return true, queue, nFees, nValueIn, nValueOut;
    }

    /** Where the transaction loop stands after `i` transactions. */
    ghost predicate Tallied(pindex: BlockIndex, i: nat, queue: TxMap, nSigOps: int, nFees: int, net: int)
      requires i <= |PlacedBlock(pindex)|
      reads this, txdb
    {
      var ps := PlacedBlock(pindex);
      && AcceptedUpTo(rules, txdb.index, disk, ps, i, pindex, SkipSignatures())
      && nSigOps == SigOpsUpTo(rules, txdb.index, disk, ps, i)
      && ConnectFirst(txdb.index, ps, i) == Some(txdb.index + queue)
      && net == NetValue(txdb.index, disk, ps, i)
      && nFees == FeesUpTo(txdb.index, disk, ps, i)
    }

    lemma TallyStart(pindex: BlockIndex)
      ensures Tallied(pindex, 0, map[], 0, 0, 0)
    {
      assert txdb.index + map[] == txdb.index;
    }

    /** One transaction more: it connects and is tallied, or the block is not acceptable. */
    lemma TallyStep(pindex: BlockIndex, i: nat, queue: TxMap, nSigOps: nat, nFees: int, net: int, ok: bool, queue': TxMap, nSigOps': nat)
      requires i < |PlacedBlock(pindex)| && Tallied(pindex, i, queue, nSigOps, nFees, net)
      requires var p, view := PlacedBlock(pindex)[i], txdb.index + queue;
               && (ok <==> TxAccepted(rules, txdb.index, view, disk, p, pindex, SkipSignatures())
                           && nSigOps + TxSigOps(rules, view, disk, p.tx) <= MAX_BLOCK_SIGOPS)
               && (ok ==> ConnectTx(view, p) == Some(txdb.index + queue'))
               && (ok ==> nSigOps' == nSigOps + TxSigOps(rules, view, disk, p.tx))
      ensures ok ==> var tx, nIn := PlacedBlock(pindex)[i].tx, ValueIn(txdb.index + queue, disk, PlacedBlock(pindex)[i].tx);
                Tallied(pindex, i + 1, queue', nSigOps',
                        nFees + (if tx.IsCoinBase() || tx.IsCoinStake() then 0 else nIn - ValueOut(tx)),
                        net + ValueOut(tx) - nIn)
      ensures !ok ==> !AcceptedUpTo(rules, txdb.index, disk, PlacedBlock(pindex), |PlacedBlock(pindex)|, pindex, SkipSignatures())
    {
      var ps := PlacedBlock(pindex);
      assert ViewAt(txdb.index, ps, i) == txdb.index + queue;
      if !ok {
        NotAccepted(pindex, i);
      }
    }

    lemma TallyEnd(pindex: BlockIndex, queue: TxMap, nSigOps: int, nFees: int, net: int)
      requires Tallied(pindex, |PlacedBlock(pindex)|, queue, nSigOps, nFees, net)
      ensures AcceptedUpTo(rules, txdb.index, disk, PlacedBlock(pindex), |PlacedBlock(pindex)|, pindex, SkipSignatures())
      ensures ConnectAll(txdb.index, PlacedBlock(pindex)) == Some(txdb.index + queue)
      ensures net == NetValue(txdb.index, disk, PlacedBlock(pindex), |PlacedBlock(pindex)|)
      ensures nFees == FeesUpTo(txdb.index, disk, PlacedBlock(pindex), |PlacedBlock(pindex)|)
    {
    }

    lemma StillBacked(pindex: BlockIndex, i: nat, queue: TxMap, nSigOps: int, nFees: int, net: int)
      requires i <= |PlacedBlock(pindex)| && Tallied(pindex, i, queue, nSigOps, nFees, net)
      requires DistinctHashes(PlacedBlock(pindex))
      requires Backed(txdb.index, disk) && Stored(PlacedBlock(pindex), disk)
      ensures Backed(txdb.index + queue, disk)
    {
      var ps := PlacedBlock(pindex);
      forall j | 0 <= j < i ensures Overwritable(txdb.index, ps[j].tx.hash) {
        EarlierOverwritable(rules, txdb.index, disk, ps, j, i, pindex, SkipSignatures());
      }
      ConnectValue(txdb.index, disk, ps, i);
    }

    lemma NotAccepted(pindex: BlockIndex, i: nat)
      requires i < |PlacedBlock(pindex)|
      requires !AcceptedUpTo(rules, txdb.index, disk, PlacedBlock(pindex), i + 1, pindex, SkipSignatures())
      ensures !AcceptedUpTo(rules, txdb.index, disk, PlacedBlock(pindex), |PlacedBlock(pindex)|, pindex, SkipSignatures())
    {
      if AcceptedUpTo(rules, txdb.index, disk, PlacedBlock(pindex), |PlacedBlock(pindex)|, pindex, SkipSignatures()) {
        AcceptedPrefix(rules, txdb.index, disk, PlacedBlock(pindex), i + 1, |PlacedBlock(pindex)|, pindex, SkipSignatures());
      }
    }

    /** Write the queued index changes, one record at a time. */
    method WriteQueue(queue: TxMap)
      modifies txdb`index
      ensures txdb.index == old(txdb.index) + queue
    {
      var todo := queue.Keys;
      PartEnds(queue);
      while todo != {}
        invariant todo <= queue.Keys
        invariant txdb.index == old(txdb.index) + Part(queue, todo)
        decreases |todo|
      {
        var h :| h in todo;
        PartGrows(old(txdb.index), queue, todo, h);
        txdb.UpdateTxIndex(h, queue[h]);
        todo := todo - {h};
      }
    }

    /** Connect a block above the genesis block to the index. */
    method ConnectBlock(pindex: BlockIndex) returns (ok: bool)
      requires pindex.Wf() && pindex.pprev != null && pindex != pindexGenesisBlock && MEMPOOL_POS !in disk
      requires Backed(txdb.index, disk) && Stored(PlacedBlock(pindex), disk)
      modifies txdb`index, pindex`nMint, pindex`nMoneySupply
      ensures ok <==> BlockAccepted(rules, old(txdb.index), disk, pindex, SkipSignatures())
      ensures nBestHeight >= 18_000 ==> (ok <==> BlockAccepted(rules, old(txdb.index), disk, pindex, false))
      ensures nBestHeight < 18_000 ==> (ok <==> BlockAccepted(rules, old(txdb.index), disk, pindex, true))
      ensures ok ==> ConnectAll(old(txdb.index), PlacedBlock(pindex)) == Some(txdb.index)
      ensures ok ==> pindex.nMoneySupply == pindex.pprev.nMoneySupply +
                       NetValue(old(txdb.index), disk, PlacedBlock(pindex), |PlacedBlock(pindex)|)
      ensures ok ==> pindex.nMint == NetValue(old(txdb.index), disk, PlacedBlock(pindex), |PlacedBlock(pindex)|) +
                       FeesUpTo(old(txdb.index), disk, PlacedBlock(pindex), |PlacedBlock(pindex)|)
    {
      if !CheckBlock(rules, pindex.block) {
        return false;
      }
      var connected, queue, nFees, nValueIn, nValueOut := ConnectTransactions(pindex);
      if !connected {
        return false;
      }
      pindex.nMint := nValueOut - nValueIn + nFees;
      pindex.nMoneySupply := pindex.pprev.nMoneySupply + nValueOut - nValueIn;
      WriteQueue(queue);
      if pindex != pindexGenesisBlock && ValueOut(pindex.block.vtx[0]) > rules.powReward(pindex.derived.nPOWHeight, nFees) {
        return false;
      }
      return true;
    }

    /** Take a transaction out of the index: relinquish what it spends, then erase it. */
    method DisconnectInputs(tx: Tx) returns (ok: bool)
      modifies txdb`index
      ensures ok <==> DisconnectTx(old(txdb.index), tx).Some?
      ensures ok ==> DisconnectTx(old(txdb.index), tx) == Some(txdb.index)
    {
      if !tx.IsCoinBase() {
        for i := 0 to |tx.vin|
          invariant UnspendFirst(old(txdb.index), tx.vin, i) == Some(txdb.index)
        {
          var prevout := tx.vin[i].prevout;
          if prevout.hash !in txdb.index || prevout.n >= |txdb.index[prevout.hash].vSpent| {
            UnspendStops(old(txdb.index), tx.vin, i);
            return false;
          }
          var txindex := txdb.index[prevout.hash];
          txindex := txindex.(vSpent := txindex.vSpent[prevout.n := NoPos]);
          txdb.UpdateTxIndex(prevout.hash, txindex);
        }
      }
      txdb.EraseTxIndex(tx.hash);
      return true;
    }

    /** Disconnect a block, last transaction first. */
    method DisconnectBlock(pindex: BlockIndex) returns (ok: bool)
      modifies txdb`index
      ensures ok <==> DisconnectAll(old(txdb.index), PlacedBlock(pindex)).Some?
      ensures ok ==> DisconnectAll(old(txdb.index), PlacedBlock(pindex)) == Some(txdb.index)
    {
      var i := |pindex.block.vtx|;
      ghost var ps := PlacedBlock(pindex);
      while i > 0
        invariant 0 <= i <= |ps|
        invariant DisconnectFrom(old(txdb.index), ps, i) == Some(txdb.index)
      {
        i := i - 1;
        var disconnected := DisconnectInputs(pindex.block.vtx[i]);
        if !disconnected {
          DisconnectStops(old(txdb.index), ps, i);
          return false;
        }
      }
      return true;
    }

    // -------------------------------------------------------------- switching branches

    /** Disconnect the blocks of the current branch above `pfork`, highest first. It cannot fail. */
    method DisconnectBranch(vDisconnect: seq<BlockIndex>, ghost tip: BlockIndex, ghost pfork: BlockIndex) returns (ok: bool)
      requires tip.Wf() && pfork.Wf() && IsAncestor(pfork, tip) && vDisconnect == Reversed(Above(pfork, tip))
      requires Replay(tip.Path()) == Some(txdb.index) && DistinctHashes(ChainTxs(tip.Path()))
      modifies txdb`index
      ensures ok && Replay(pfork.Path()) == Some(txdb.index)
    {
      hide Replay, ChainTxs, DistinctHashes, DisconnectAll, PlacedBlock;
      ghost var path := tip.Path();
      assert path[..|path|] == path;
      for i := 0 to |vDisconnect|
        invariant Replay(path[..|path| - i]) == Some(txdb.index)
      {
        var pindex := vDisconnect[i];
        assert pindex == path[|path| - 1 - i];
        UndoAt(path, |path| - 1 - i);
        var disconnected := DisconnectBlock(pindex);
        if !disconnected {
          return false;
        }
      }
      PathWf(tip, pfork.nHeight);
      return true;
    }

    /** Connect the blocks of the new branch above `pfork`, lowest first. */
    method ConnectBranch(vConnect: seq<BlockIndex>, ghost pfork: BlockIndex, pindexNew: BlockIndex) returns (ok: bool)
      requires NodeOk(pindexNew) && pfork.Wf() && IsAncestor(pfork, pindexNew) && MEMPOOL_POS !in disk
      requires vConnect == Above(pfork, pindexNew) && Replay(pfork.Path()) == Some(txdb.index)
      requires MoneyOk(pindexNew.Path(), pfork.nHeight + 1)
      modifies txdb`index, vConnect`nMint, vConnect`nMoneySupply
      ensures ok <==> BranchAccepted(rules, pindexNew.Path(), pfork.nHeight + 1, disk, SkipSignatures())
      ensures ok ==> Replay(pindexNew.Path()) == Some(txdb.index)
      ensures ok ==> MoneyOk(pindexNew.Path(), |pindexNew.Path()|)
    {
      hide Replay, Extends, BlockAccepted, NodeIn, Backed, Stored, NetValue, FeesUpTo, ConnectAll, PlacedBlock, Unspent, BlockIndex.Wf;
      ghost var path, f := pindexNew.Path(), pfork.nHeight + 1;
      NodeWf(pindexNew);
      PathWf(pindexNew, pfork.nHeight);
      for i := 0 to |vConnect|
        invariant Replay(path[..f + i]) == Some(txdb.index)
        invariant MoneyOk(path, f + i)
        invariant forall j {:trigger path[..j + 1]} | f <= j < f + i :: Extends(rules, path[..j + 1], disk, SkipSignatures())
      {
        var pindex := vConnect[i];
        BranchStep(pindexNew, f + i);
        ghost var before := txdb.index;
        ExtendsAt(rules, path, f + i, disk, SkipSignatures());
        label Before:
        var connected := ConnectBlock(pindex);
        if !connected {
          return false;
        }
        forall j | 0 <= j < f + i ensures MoneyAt(path, j) {
          assert old@Before(MoneyAt(path, j)) && path[j] != pindex;
        }
        MoneyStep(pindexNew, f + i, before);
      }
      assert path[..|path|] == path;
      return true;
    }

    /** What ConnectBlock needs to connect block `k` of a path whose first `k` blocks are replayed. */
    lemma BranchStep(tip: BlockIndex, k: nat)
      requires NodeOk(tip) && 1 <= k < |tip.Path()| && Replay(tip.Path()[..k]).Some?
      ensures tip.Path()[k].Wf() && tip.Path()[k].pprev != null && tip.Path()[k].pprev == tip.Path()[k - 1]
      ensures tip.Path()[k] != pindexGenesisBlock && tip.Path()[k].nHeight == k
      ensures Backed(Replay(tip.Path()[..k]).value, disk) && Stored(PlacedBlock(tip.Path()[k]), disk)
      ensures forall i | 0 <= i < k :: tip.Path()[i] != tip.Path()[k]
    {
      PathWf(tip, k);
      PathWf(tip, 0);
      ParentWf(tip.Path()[k]);
      assert tip.Path()[..k + 1][k - 1] == tip.Path()[k - 1];
      PrefixFacts(tip.Path(), k, disk);
      ReplayBacked(tip.Path()[..k], disk);
      forall i | 0 <= i < k ensures tip.Path()[i] != tip.Path()[k] {
        PathWf(tip, i);
      }
    }

    lemma InTreeWf(b: BlockIndex)
      requires TreeOk() && InTree(b)
      ensures NodeOk(b) && b.Wf() && b in mapBlockIndex.Values && |b.ancestors| == b.nHeight && MEMPOOL_POS !in disk
      ensures b.Path()[0] == pindexGenesisBlock && DistinctHashes(ChainTxs(b.Path()))
    {
    }

    lemma OnPathInTree(b: BlockIndex, h: nat)
      requires TreeOk() && InTree(b) && h < |b.Path()|
      ensures InTree(b.Path()[h]) && b.Path()[h].nHeight == h && IsAncestor(b.Path()[h], b)
    {
      hide ChainTxs, DistinctHashes, AllStored;
      assert NodeOk(b);
      PathWf(b, h);
    }

    lemma SelfAncestor(b: BlockIndex)
      requires TreeOk() && InTree(b)
      ensures IsAncestor(b, b)
    {
      InTreeWf(b);
    }

    lemma NodeWf(b: BlockIndex)
      requires NodeOk(b)
      ensures b.Wf() && |b.ancestors| == b.nHeight
    {
    }

    /** The money supply recorded for block `k` is the unspent total after it. */
    lemma MoneyStep(tip: BlockIndex, k: nat, before: TxMap)
      requires NodeOk(tip) && 1 <= k < |tip.Path()| && MoneyOk(tip.Path(), k)
      requires Replay(tip.Path()[..k]) == Some(before)
      requires ConnectAll(before, PlacedBlock(tip.Path()[k])).Some?
      requires tip.Path()[k].nMoneySupply == tip.Path()[k - 1].nMoneySupply +
                 NetValue(before, disk, PlacedBlock(tip.Path()[k]), |PlacedBlock(tip.Path()[k])|)
      ensures MoneyOk(tip.Path(), k + 1)
      ensures Replay(tip.Path()[..k + 1]) == ConnectAll(before, PlacedBlock(tip.Path()[k]))
    {
      hide Replay, ConnectAll, NetValue, PlacedBlock, ChainTxs, AllStored, DistinctHashes;
      ReplayStep(tip.Path(), k);
      PrefixFacts(tip.Path(), k + 1, disk);
      ReplayMoney(tip.Path()[..k + 1], disk);
      assert MoneyAt(tip.Path(), k - 1);
    }

    /** Give block `k - 1` of a path its successor, or clear it. */
    method SetNext(pindex: BlockIndex, next: BlockIndex?, ghost tip: BlockIndex, ghost k: nat)
      requires TreeOk() && InTree(tip) && 1 <= k < |tip.Path()| && pindex == tip.Path()[k - 1]
      requires if next == null then Linked(tip.Path()[..k + 1]) else Linked(tip.Path()[..k]) && next == tip.Path()[k]
      requires pindex in mapBlockIndex.Values
      modifies pindex`pnext
      ensures Linked(if next == null then tip.Path()[..k] else tip.Path()[..k + 1])
    {
      hide TreeIn, NodeIn, BlockIndex.Wf;
      LinkStep(tip, k);
      pindex.pnext := next;
    }

    /** Clear the links of the old branch, down to the fork. */
    method UnlinkBranch(vDisconnect: seq<BlockIndex>, ghost pfork: BlockIndex, ghost tip: BlockIndex)
      requires TreeOk() && InTree(tip) && IsAncestor(pfork, tip)
      requires vDisconnect == Reversed(Above(pfork, tip)) && Linked(tip.Path())
      modifies mapBlockIndex.Values`pnext
      ensures Linked(tip.Path()[..pfork.nHeight + 1])
    {
      hide TreeIn, NodeIn, BlockIndex.Wf, Linked, NextOn;
      InTreeWf(tip);
      ghost var path := tip.Path();
      assert path[..|path|] == path;
      for i := 0 to |vDisconnect|
        invariant Linked(path[..|path| - i])
      {
        var pindex := vDisconnect[i];
        ghost var k := |path| - 1 - i;
        assert pindex == path[k];
        LinkStep(tip, k);
        if pindex.pprev != null {
          SetNext(pindex.pprev, null, tip, k);
        }
      }
    }

    /** Set the links of the new branch, from the fork up. */
    method LinkBranch(vConnect: seq<BlockIndex>, ghost pfork: BlockIndex, ghost tip: BlockIndex)
      requires TreeOk() && InTree(tip) && IsAncestor(pfork, tip)
      requires vConnect == Above(pfork, tip) && Linked(tip.Path()[..pfork.nHeight + 1])
      modifies mapBlockIndex.Values`pnext
      ensures Linked(tip.Path())
    {
      hide TreeIn, NodeIn, BlockIndex.Wf, Linked, NextOn;
      InTreeWf(tip);
      ghost var path, f := tip.Path(), pfork.nHeight + 1;
      for i := 0 to |vConnect|
        invariant Linked(path[..f + i])
      {
        var pindex := vConnect[i];
        LinkStep(tip, f + i);
        if pindex.pprev != null {
          SetNext(pindex.pprev, pindex, tip, f + i);
        }
      }
      assert path[..|path|] == path;
    }

    /** Lengthening a path by block `k` changes one successor: that of block `k - 1`. */
    lemma LinkStep(tip: BlockIndex, k: nat)
      requires TreeOk() && InTree(tip) && 1 <= k < |tip.Path()|
      ensures tip.Path()[k].pprev == tip.Path()[k - 1] && tip.Path()[k - 1] in mapBlockIndex.Values && tip.Path()[k - 1].nHeight == k - 1
      ensures forall b: BlockIndex {:trigger NextOn(tip.Path()[..k], b)} {:trigger NextOn(tip.Path()[..k + 1], b)} | b in mapBlockIndex.Values ::
                if b == tip.Path()[k - 1] then NextOn(tip.Path()[..k], b) == null && NextOn(tip.Path()[..k + 1], b) == tip.Path()[k]
                else NextOn(tip.Path()[..k], b) == NextOn(tip.Path()[..k + 1], b)
    {
      hide TreeIn, NodeIn, BlockIndex.Wf, NextOn;
      Postponed(tip, k);
      OnPathInTree(tip, k - 1);
      var path := tip.Path();
      forall b: BlockIndex {:trigger NextOn(path[..k], b)} {:trigger NextOn(path[..k + 1], b)} | b in mapBlockIndex.Values
        ensures if b == path[k - 1] then NextOn(path[..k], b) == null && NextOn(path[..k + 1], b) == path[k]
                else NextOn(path[..k], b) == NextOn(path[..k + 1], b)
      {
        NextDiffers(path, k, b);
      }
    }

    lemma NextDiffers(path: seq<BlockIndex>, k: nat, b: BlockIndex)
      requires 1 <= k < |path| && path[k - 1].nHeight == k - 1
      ensures if b == path[k - 1] then NextOn(path[..k], b) == null && NextOn(path[..k + 1], b) == path[k]
              else NextOn(path[..k], b) == NextOn(path[..k + 1], b)
    {
    }

    /** The fork's path is common, and no block of the new branch is on the old one. */
    lemma ForkShares(pfork: BlockIndex, tip: BlockIndex, pindexNew: BlockIndex)
      requires tip.Wf() && pindexNew.Wf() && pfork.Wf() && IsFork(pfork, tip, pindexNew)
      requires MoneyOk(tip.Path(), |tip.Path()|)
      ensures tip.Path()[..pfork.nHeight + 1] == pindexNew.Path()[..pfork.nHeight + 1]
      ensures MoneyOk(pindexNew.Path(), pfork.nHeight + 1)
      ensures forall i, j | 0 <= i < |tip.Path()| && 0 <= j < |Above(pfork, pindexNew)| ::
                tip.Path()[i] != Above(pfork, pindexNew)[j]
    {
      hide BlockIndex.Wf, Replay, Unspent;
      WfLength(tip);
      WfLength(pindexNew);
      PathWf(tip, pfork.nHeight);
      PathWf(pindexNew, pfork.nHeight);
      var p, q, f := tip.Path(), pindexNew.Path(), pfork.nHeight + 1;
      assert p[..f] == q[..f];
      forall i | 0 <= i < f ensures MoneyAt(q, i) {
        assert MoneyAt(p, i);
        assert p[..i + 1] == p[..f][..i + 1] && q[..i + 1] == q[..f][..i + 1] && p[i] == p[..f][i] && q[i] == q[..f][i];
      }
      forall i, j | 0 <= i < |p| && 0 <= j < |Above(pfork, pindexNew)| ensures p[i] != Above(pfork, pindexNew)[j] {
        PathWf(pindexNew, f + j);
        PathWf(tip, i);
        assert Above(pfork, pindexNew)[j] == q[f + j];
      }
    }

    lemma AboveInTree(pfork: BlockIndex, b: BlockIndex)
      requires NodeOk(b) && pfork.nHeight < |b.Path()|
      ensures forall c | c in Above(pfork, b) :: c in mapBlockIndex.Values
    {
    }

    /** What to disconnect, highest first, and what to connect, lowest first. */
    method PlanSwitch(pindexNew: BlockIndex) returns (pfork: BlockIndex, vDisconnect: seq<BlockIndex>, vConnect: seq<BlockIndex>)
      requires TreeOk() && InTree(pindexBest) && InTree(pindexNew)
      ensures IsFork(pfork, pindexBest, pindexNew) && pfork.Wf()
      ensures vDisconnect == Reversed(Above(pfork, pindexBest)) && vConnect == Above(pfork, pindexNew)
      ensures forall b | b in vConnect :: b in mapBlockIndex.Values
    {
      hide TreeIn, NodeIn, BlockIndex.Wf, ChainTxs, DistinctHashes;
      InTreeWf(pindexBest);
      InTreeWf(pindexNew);
      pfork := FindFork(pindexBest, pindexNew);
      vDisconnect := CollectDown(pindexBest, pfork);
      vConnect := CollectDown(pindexNew, pfork);
      vConnect := Reversed(vConnect);
      assert vConnect == Above(pfork, pindexNew);
      AboveInTree(pfork, pindexNew);
    }

    /** The index part of a switch: disconnect down to the fork, then connect up to the new tip. */
    method SwitchIndex(vDisconnect: seq<BlockIndex>, vConnect: seq<BlockIndex>, ghost pfork: BlockIndex, pindexNew: BlockIndex) returns (ok: bool)
      requires TreeOk() && InTree(pindexNew) && IndexAt(pindexBest)
      requires IsFork(pfork, pindexBest, pindexNew) && pfork.Wf()
      requires vDisconnect == Reversed(Above(pfork, pindexBest)) && vConnect == Above(pfork, pindexNew)
      modifies txdb`index, vConnect`nMint, vConnect`nMoneySupply
      ensures ok <==> BranchAccepted(rules, pindexNew.Path(), pfork.nHeight + 1, disk, SkipSignatures())
      ensures ok ==> IndexAt(pindexNew)
      ensures MoneyOk(pindexBest.Path(), |pindexBest.Path()|)
    {
      hide TreeIn, NodeIn, BlockIndex.Wf, Replay, BranchAccepted, MoneyOk, DistinctHashes, AllStored, ChainTxs;
      InTreeWf(pindexBest);
      InTreeWf(pindexNew);
      ForkShares(pfork, pindexBest, pindexNew);
      hide IsFork;
      var disconnected := DisconnectBranch(vDisconnect, pindexBest, pfork);
      if !disconnected {
        return false;
      }
      ok := ConnectBranch(vConnect, pfork, pindexNew);
    }

    /** Switch from the current branch to the one that ends in `pindexNew`, inside an open transaction.
    It succeeds exactly when every block of the new branch is accepted in its place. */
    method Reorganize(pindexNew: BlockIndex) returns (ok: bool, ghost fork: BlockIndex)
      requires TreeOk() && InTree(pindexNew) && IndexAt(pindexBest) && Linked(pindexBest.Path())
      requires txdb.Began(txdb.index, txdb.hashBestChain, txdb.hashSyncCheckpoint)
      modifies txdb, mapBlockIndex.Values
      ensures IsFork(fork, pindexBest, pindexNew)
      ensures ok <==> BranchAccepted(rules, pindexNew.Path(), fork.nHeight + 1, disk, SkipSignatures())
      ensures ok ==> OnTip(pindexNew) && txdb.hashSyncCheckpoint == old(txdb.hashSyncCheckpoint)
      ensures !ok ==> txdb.Began(old(txdb.index), old(txdb.hashBestChain), old(txdb.hashSyncCheckpoint))
      ensures !ok ==> MoneyOk(pindexBest.Path(), |pindexBest.Path()|) && Linked(pindexBest.Path())
    {
      hide TreeIn, Replay, BranchAccepted, MoneyOk, Linked, IsFork, Above, Reversed;
      var pfork, vDisconnect, vConnect := PlanSwitch(pindexNew);
      fork := pfork;
      ForkIsAncestor(pfork, pindexBest, pindexNew);
      ok := SwitchIndex(vDisconnect, vConnect, pfork, pindexNew);
      if !ok {
        return false, fork;
      }
      txdb.hashBestChain := pindexNew.hash;
      var committed := txdb.TxnCommit();
      UnlinkBranch(vDisconnect, pfork, pindexBest);
      LinkBranch(vConnect, pfork, pindexNew);
      return true, fork;
    }

    lemma ForkIsAncestor(pfork: BlockIndex, tip: BlockIndex, pindexNew: BlockIndex)
      requires TreeOk() && InTree(tip) && InTree(pindexNew) && pfork.Wf() && IsFork(pfork, tip, pindexNew)
      ensures IsAncestor(pfork, tip) && IsAncestor(pfork, pindexNew)
      ensures tip.Path()[..pfork.nHeight + 1] == pindexNew.Path()[..pfork.nHeight + 1]
    {
      hide TreeIn, NodeIn, BlockIndex.Wf;
      InTreeWf(tip);
      InTreeWf(pindexNew);
      PathWf(tip, pfork.nHeight);
      PathWf(pindexNew, pfork.nHeight);
    }

    /** Extend the chain that ends in the parent of `pindexNew`, inside an open transaction; abort on failure. */
    method SetBestChainInner(pindexNew: BlockIndex) returns (ok: bool)
      requires TreeOk() && InTree(pindexNew) && pindexNew.pprev != null
      requires InTree(pindexNew.pprev) && IndexAt(pindexNew.pprev) && Linked(pindexNew.pprev.Path())
      requires txdb.hashBestChain == pindexNew.pprev.hash
      requires txdb.Began(txdb.index, txdb.hashBestChain, txdb.hashSyncCheckpoint)
      modifies txdb, mapBlockIndex.Values
      ensures ok <==> Extends(rules, pindexNew.Path(), disk, SkipSignatures())
      ensures ok ==> OnTip(pindexNew)
      ensures !ok ==> OnTip(pindexNew.pprev)
      ensures txdb.hashSyncCheckpoint == old(txdb.hashSyncCheckpoint)
    {
      hide TreeIn, NodeIn, Replay, BlockAccepted, MoneyOk, Linked, DistinctHashes, AllStored, Stored, Backed, NetValue, ConnectAll, FeesUpTo, PlacedBlock;
      InTreeWf(pindexNew);
      ParentWf(pindexNew);
      ghost var path, k, before := pindexNew.Path(), pindexNew.nHeight, txdb.index;
      assert path[..k] == pindexNew.pprev.Path() && path[..k + 1] == path && path[k] == pindexNew;
      BranchStep(pindexNew, k);
      assert pindexNew !in pindexNew.pprev.Path();
      ExtendsAt(rules, path, k, disk, SkipSignatures());
      ok := ConnectBlock(pindexNew);
      if !ok {
        var aborted := txdb.TxnAbort();
        return false;
      }
      MoneyOfParent(pindexNew);
      MoneyStep(pindexNew, k, before);
      txdb.hashBestChain := pindexNew.hash;
      var committed := txdb.TxnCommit();
      LinkChild(pindexNew);
      return true;
    }

    lemma MoneyOfParent(b: BlockIndex)
      requires b.Wf() && b.pprev != null && MoneyOk(b.pprev.Path(), |b.pprev.Path()|)
      ensures MoneyOk(b.Path(), b.nHeight)
    {
      ParentWf(b);
      forall i | 0 <= i < b.nHeight ensures MoneyAt(b.Path(), i) {
        assert MoneyAt(b.pprev.Path(), i);
        assert b.pprev.Path()[..i + 1] == b.Path()[..i + 1];
      }
    }

    /** Link a block to its parent, the end of the linked chain. */
    method LinkChild(pindexNew: BlockIndex)
      requires TreeOk() && InTree(pindexNew) && pindexNew.pprev != null && InTree(pindexNew.pprev)
      requires Linked(pindexNew.pprev.Path())
      modifies mapBlockIndex.Values`pnext
      ensures Linked(pindexNew.Path())
    {
      hide TreeIn, NodeIn, BlockIndex.Wf, Linked, NextOn;
      InTreeWf(pindexNew);
      ParentWf(pindexNew);
      LinkStep(pindexNew, pindexNew.nHeight);
      ghost var path := pindexNew.Path();
      assert path[..pindexNew.nHeight] == pindexNew.pprev.Path() && path[..pindexNew.nHeight + 1] == path;
      SetNext(pindexNew.pprev, pindexNew, pindexNew, pindexNew.nHeight);
    }

    // -------------------------------------------------------------- choosing the best chain

    lemma {:induction false} TrustGrows(a: BlockIndex, b: BlockIndex)
      requires TreeOk() && InTree(b) && IsAncestor(a, b)
      ensures a.derived.bnChainTrust <= b.derived.bnChainTrust && InTree(a)
      decreases b.nHeight
    {
      hide TreeIn, DistinctHashes, AllStored, BlockIndex.Wf;
      InTreeWf(b);
      assert b.Path()[a.nHeight] == a;
      if a != b {
        ParentWf(b);
        assert InTree(b.Path()[b.nHeight - 1]);
        TrustGrows(a, b.pprev);
      }
    }

    /** The fork with an intermediate block that already has more trust is the fork with the final tip. */
    lemma ForkOfIntermediate(pfork: BlockIndex, tip: BlockIndex, inter: BlockIndex, pindexNew: BlockIndex)
      requires TreeOk() && InTree(tip) && InTree(inter) && InTree(pindexNew)
      requires IsFork(pfork, tip, inter) && IsAncestor(inter, pindexNew)
      requires inter == pindexNew || inter.derived.bnChainTrust > tip.derived.bnChainTrust
      ensures IsFork(pfork, tip, pindexNew)
    {
      hide TreeIn, NodeIn, BlockIndex.Wf;
      InTreeWf(tip);
      InTreeWf(inter);
      InTreeWf(pindexNew);
      PathWf(pindexNew, inter.nHeight);
      forall i | pfork.nHeight < i < |tip.Path()| && i < |pindexNew.Path()|
        ensures tip.Path()[i] != pindexNew.Path()[i]
      {
        if i <= inter.nHeight {
          assert pindexNew.Path()[i] == inter.Path()[i];
        } else if tip.Path()[i] == pindexNew.Path()[i] {
          PathWf(tip, i);
          PathWf(pindexNew, i);
          assert pindexNew.Path()[..i + 1][inter.nHeight] == tip.Path()[..i + 1][inter.nHeight];
          assert IsAncestor(inter, tip);
          TrustGrows(inter, tip);
        }
      }
    }

    /** The first block on the way to `pindexNew` that gives more trust than the best chain, and those after it, highest first. */
    method FindIntermediate(pindexNew: BlockIndex) returns (pindexIntermediate: BlockIndex, vpindexSecondary: seq<BlockIndex>)
      requires TreeOk() && InTree(pindexNew)
      ensures IsAncestor(pindexIntermediate, pindexNew) && InTree(pindexIntermediate)
      ensures pindexNew.Wf() && pindexIntermediate == Intermediate(pindexBest.derived.bnChainTrust, pindexNew)
      ensures pindexIntermediate == pindexNew || pindexIntermediate.derived.bnChainTrust > pindexBest.derived.bnChainTrust
      ensures pindexIntermediate.pprev == null || pindexIntermediate.pprev.derived.bnChainTrust <= pindexBest.derived.bnChainTrust
      ensures vpindexSecondary == Reversed(Above(pindexIntermediate, pindexNew))
    {
      hide TreeIn, NodeIn, BlockIndex.Wf;
      InTreeWf(pindexNew);
      pindexIntermediate := pindexNew;
      vpindexSecondary := [];
      ghost var path := pindexNew.Path();
      while pindexIntermediate.pprev != null && pindexIntermediate.pprev.derived.bnChainTrust > pindexBest.derived.bnChainTrust
        invariant IsAncestor(pindexIntermediate, pindexNew) && InTree(pindexIntermediate) && pindexIntermediate.Wf()
        invariant Intermediate(pindexBest.derived.bnChainTrust, pindexIntermediate) == Intermediate(pindexBest.derived.bnChainTrust, pindexNew)
        invariant pindexIntermediate == pindexNew || pindexIntermediate.derived.bnChainTrust > pindexBest.derived.bnChainTrust
        invariant vpindexSecondary == Reversed(path[pindexIntermediate.nHeight + 1..])
        decreases pindexIntermediate.nHeight
      {
        InTreeWf(pindexIntermediate);
        StepDown(pindexNew, pindexIntermediate);
        TrustGrows(pindexIntermediate.pprev, pindexNew);
        assert path[pindexIntermediate.nHeight..] == [pindexIntermediate] + path[pindexIntermediate.nHeight + 1..];
        ReversedCons(pindexIntermediate, path[pindexIntermediate.nHeight + 1..]);
        vpindexSecondary := vpindexSecondary + [pindexIntermediate];
        pindexIntermediate := pindexIntermediate.pprev;
      }
    }

    /** Connect the postponed blocks one by one, stopping at the first that is refused. */
    method ConnectPostponed(vpindexSecondary: seq<BlockIndex>, inter: BlockIndex, ghost pindexNew: BlockIndex) returns (ghost reached: BlockIndex)
      requires TreeOk() && InTree(pindexNew) && IsAncestor(inter, pindexNew) && OnTip(inter)
      requires vpindexSecondary == Reversed(Above(inter, pindexNew))
      modifies txdb, mapBlockIndex.Values
      ensures OnTip(reached) && StopsAt(rules, inter, pindexNew, reached, disk, SkipSignatures())
      ensures reached == pindexNew <==> BranchAccepted(rules, pindexNew.Path(), inter.nHeight + 1, disk, SkipSignatures())
      ensures txdb.hashSyncCheckpoint == old(txdb.hashSyncCheckpoint)
    {
      hide TreeIn, NodeIn, BlockIndex.Wf, Extends, IndexAt, Linked;
      InTreeWf(pindexNew);
      reached := inter;
      ghost var path := pindexNew.Path();
      var i := |vpindexSecondary|;
      while i > 0
        invariant 0 <= i <= |vpindexSecondary|
        invariant reached == path[|path| - 1 - i] && OnTip(reached)
        invariant forall j {:trigger path[..j + 1]} | inter.nHeight < j < |path| - i :: Extends(rules, path[..j + 1], disk, SkipSignatures())
        invariant txdb.hashSyncCheckpoint == old(txdb.hashSyncCheckpoint)
      {
        i := i - 1;
        var pindex := vpindexSecondary[i];
        assert pindex == path[|path| - 1 - i];
        Postponed(pindexNew, |path| - 1 - i);
        var begun := txdb.TxnBegin();
        var connected := SetBestChainInner(pindex);
        if !connected {
          assert !Extends(rules, path[..|path| - 1 - i + 1], disk, SkipSignatures());
          PathWf(pindexNew, |path| - 2 - i);
          break;
        }
        reached := pindex;
      }
      PathWf(pindexNew, reached.nHeight);
    }

    lemma Postponed(tip: BlockIndex, k: nat)
      requires TreeOk() && InTree(tip) && 1 <= k < |tip.Path()|
      ensures tip.Path()[k].pprev == tip.Path()[k - 1] && InTree(tip.Path()[k]) && InTree(tip.Path()[k - 1])
      ensures tip.Path()[k].Path() == tip.Path()[..k + 1] && tip.Path()[k].nHeight == k
    {
      PathWf(tip, k);
      ParentWf(tip.Path()[k]);
      assert tip.Path()[..k + 1][k - 1] == tip.Path()[k - 1];
    }

    /** Make `pindexNew` the best block. This fails, and changes nothing, exactly when a block up to the first one
    with more trust than the best chain is refused.

    `reached` is the block the index and the links end at. When a postponed block is refused that is the
    one below it, but the code still moves the best-block pointer all the way, and the chain state is no
    longer consistent: it stays so exactly when every block above the fork is accepted in its place. */
    method SetBestChain(pindexNew: BlockIndex) returns (ok: bool, ghost reached: BlockIndex)
      requires Valid() && InTree(pindexNew)
      modifies this`pindexBest, this`hashBestChain, this`nBestHeight, this`bnBestChainTrust, txdb, mapBlockIndex.Values
      ensures TreeOk() && pindexNew.Wf()
      ensures ok <==> Switches(rules, old(pindexBest), pindexNew, disk, old(SkipSignatures()))
      ensures Valid() <==> Intact(rules, old(pindexBest), pindexNew, disk, old(SkipSignatures()))
      ensures !ok ==> Valid() && reached == pindexBest == old(pindexBest)
      ensures ok ==> BestIs(pindexNew) && OnTip(reached) && StopsAt(rules, Intermediate(old(pindexBest.derived.bnChainTrust), pindexNew), pindexNew, reached, disk, old(SkipSignatures()))
      ensures txdb.hashSyncCheckpoint == old(txdb.hashSyncCheckpoint)
    {
      hide TreeIn, BlockIndex.Wf, OnTip, BranchOk, StopsAt, Intermediate;
      ok, reached := MoveTip(pindexNew);
      if !ok {
        return;
      }
      hashBestChain := pindexNew.hash;
      pindexBest := pindexNew;
      nBestHeight := pindexNew.nHeight;
      bnBestChainTrust := pindexNew.derived.bnChainTrust;
      TipByHash(reached, pindexNew);
    }

    /** The database and link part of SetBestChain: extend the best block or switch branches. */
    method MoveTip(pindexNew: BlockIndex) returns (ok: bool, ghost reached: BlockIndex)
      requires Valid() && InTree(pindexNew)
      modifies txdb, mapBlockIndex.Values
      ensures pindexNew.Wf()
      ensures ok <==> Switches(rules, pindexBest, pindexNew, disk, SkipSignatures())
      ensures ok && reached == pindexNew <==> ok && BranchOk(rules, pindexBest, pindexNew, disk, SkipSignatures())
      ensures ok ==> OnTip(reached) && StopsAt(rules, Intermediate(pindexBest.derived.bnChainTrust, pindexNew), pindexNew, reached, disk, SkipSignatures())
      ensures !ok ==> OnTip(pindexBest) && reached == pindexBest
      ensures txdb.hashSyncCheckpoint == old(txdb.hashSyncCheckpoint)
    {
      hide TreeIn, BlockIndex.Wf, BranchOk, MoneyOk, Replay, Linked, StopsAt, Intermediate;
      var begun := txdb.TxnBegin();
      if pindexNew.block.hashPrevBlock == hashBestChain {
        ok := ExtendBest(pindexNew);
        reached := if ok then pindexNew else pindexBest;
      } else {
        ok, reached := SwitchBest(pindexNew);
      }
    }

    /** The branch of SetBestChain for a child of the best block. */
    method ExtendBest(pindexNew: BlockIndex) returns (ok: bool)
      requires TreeOk() && InTree(pindexNew) && InTree(pindexBest) && BestIs(pindexBest) && IndexAt(pindexBest) && Linked(pindexBest.Path())
      requires pindexNew.block.hashPrevBlock == hashBestChain && txdb.hashBestChain == hashBestChain
      requires txdb.Began(txdb.index, txdb.hashBestChain, txdb.hashSyncCheckpoint)
      modifies txdb, mapBlockIndex.Values
      ensures pindexNew.Wf() && Intermediate(pindexBest.derived.bnChainTrust, pindexNew) == pindexNew
      ensures ok <==> BranchOk(rules, pindexBest, pindexNew, disk, SkipSignatures())
      ensures ok ==> OnTip(pindexNew) && StopsAt(rules, pindexNew, pindexNew, pindexNew, disk, SkipSignatures())
      ensures !ok ==> OnTip(pindexBest)
      ensures txdb.hashSyncCheckpoint == old(txdb.hashSyncCheckpoint)
    {
      hide TreeIn, BlockIndex.Wf, Extends, IndexAt, Linked;
      ChildOfBest(pindexNew);
      InTreeWf(pindexNew);
      InTreeWf(pindexBest);
      ForkIsShared(pindexBest, pindexBest, pindexNew);
      ok := SetBestChainInner(pindexNew);
      ghost var path := pindexNew.Path();
      assert path[..pindexNew.nHeight + 1] == path;
    }

    lemma ChildOfBest(b: BlockIndex)
      requires TreeOk() && InTree(b) && InTree(pindexBest) && b.block.hashPrevBlock == pindexBest.hash
      ensures b.pprev == pindexBest && b.nHeight == pindexBest.nHeight + 1
      ensures IsFork(pindexBest, pindexBest, b) && |b.Path()| == b.nHeight + 1
    {
      InTreeWf(b);
      InTreeWf(pindexBest);
      assert pindexBest.hash != 0;
      ParentWf(b);
      assert InTree(b.Path()[b.nHeight - 1]);
    }

    /** The branch of SetBestChain for any other block: reorganize to an intermediate block, then connect the postponed ones. */
    method SwitchBest(pindexNew: BlockIndex) returns (ok: bool, ghost reached: BlockIndex)
      requires TreeOk() && InTree(pindexNew) && IndexAt(pindexBest) && Linked(pindexBest.Path()) && txdb.hashBestChain == pindexBest.hash
      requires txdb.Began(txdb.index, txdb.hashBestChain, txdb.hashSyncCheckpoint)
      modifies txdb, mapBlockIndex.Values
      ensures pindexNew.Wf()
      ensures ok <==> Switches(rules, pindexBest, pindexNew, disk, SkipSignatures())
      ensures ok && reached == pindexNew <==> ok && BranchOk(rules, pindexBest, pindexNew, disk, SkipSignatures())
      ensures ok ==> OnTip(reached) && StopsAt(rules, Intermediate(pindexBest.derived.bnChainTrust, pindexNew), pindexNew, reached, disk, SkipSignatures())
      ensures !ok ==> OnTip(pindexBest) && reached == pindexBest
      ensures txdb.hashSyncCheckpoint == old(txdb.hashSyncCheckpoint)
    {
      hide TreeIn, NodeIn, BlockIndex.Wf, Extends, BranchAccepted, MoneyOk, Linked, Replay, IsFork, StopsAt, Intermediate;
      reached := pindexBest;
      var pindexIntermediate, vpindexSecondary := FindIntermediate(pindexNew);
      ghost var fork;
      ok, fork := Reorganize(pindexIntermediate);
      ForkOfIntermediate(fork, pindexBest, pindexIntermediate, pindexNew);
      BranchSplits(pindexIntermediate, pindexNew, fork);
      SharedWith(fork, pindexIntermediate);
      SharedWith(fork, pindexNew);
      if !ok {
        var aborted := txdb.TxnAbort();
        return;
      }
      reached := ConnectPostponed(vpindexSecondary, pindexIntermediate, pindexNew);
    }

    lemma SharedWith(fork: BlockIndex, b: BlockIndex)
      requires TreeOk() && InTree(pindexBest) && InTree(b) && IsFork(fork, pindexBest, b)
      ensures Shared(pindexBest.Path(), b.Path()) == fork.nHeight + 1
    {
      hide TreeIn, NodeIn, BlockIndex.Wf;
      InTreeWf(pindexBest);
      InTreeWf(b);
      ForkIsShared(fork, pindexBest, b);
    }

    /** Accepting the branch up to an intermediate block and then the rest is accepting the whole branch. */
    lemma BranchSplits(inter: BlockIndex, pindexNew: BlockIndex, fork: BlockIndex)
      requires TreeOk() && InTree(inter) && InTree(pindexNew) && IsAncestor(inter, pindexNew) && IsFork(fork, pindexBest, inter)
      ensures BranchAccepted(rules, pindexNew.Path(), fork.nHeight + 1, disk, SkipSignatures()) <==>
              BranchAccepted(rules, inter.Path(), fork.nHeight + 1, disk, SkipSignatures()) &&
              BranchAccepted(rules, pindexNew.Path(), inter.nHeight + 1, disk, SkipSignatures())
    {
      hide TreeIn, NodeIn, BlockIndex.Wf, Extends;
      InTreeWf(inter);
      InTreeWf(pindexNew);
      PathWf(pindexNew, inter.nHeight);
      var path, prefix := pindexNew.Path(), inter.Path();
      assert forall i {:trigger prefix[..i + 1]} {:trigger path[..i + 1]} | 0 <= i < |prefix| :: prefix[..i + 1] == path[..i + 1];
      if BranchAccepted(rules, pindexNew.Path(), fork.nHeight + 1, disk, SkipSignatures()) {
        forall i {:trigger prefix[..i + 1]} | fork.nHeight + 1 <= i < |prefix| ensures Extends(rules, prefix[..i + 1], disk, SkipSignatures()) {
          assert Extends(rules, path[..i + 1], disk, SkipSignatures());
        }
      }
      if BranchAccepted(rules, prefix, fork.nHeight + 1, disk, SkipSignatures()) && BranchAccepted(rules, path, inter.nHeight + 1, disk, SkipSignatures()) {
        forall i {:trigger path[..i + 1]} | fork.nHeight + 1 <= i < |path| ensures Extends(rules, path[..i + 1], disk, SkipSignatures()) {
          if i < |prefix| {
            assert Extends(rules, prefix[..i + 1], disk, SkipSignatures());
          }
        }
      }
    }

    /** The database names its tip by hash, so the state can be at one tip only. */
    lemma TipByHash(a: BlockIndex, b: BlockIndex)
      requires TreeOk() && OnTip(a) && InTree(b)
      ensures OnTip(b) <==> a == b
    {
    }

    // -------------------------------------------------------------- new blocks

    /** Write the transactions of a block to its place in the block files. */
    method WriteToDisk(b: BlockIndex)
      requires Valid()
      requires forall k | 0 <= k < |b.block.vtx| :: b.block.vtx[k].nBytes > 0
      requires forall p | p in disk :: !InBlockFile(b, p)
      modifies `disk
      ensures disk == old(disk) + WrittenBlock(b, |b.block.vtx|) && Stored(PlacedBlock(b), disk)
      ensures Valid()
    {
      hide TreeIn, NodeIn, BlockIndex.Wf, Replay, ChainTxs, DistinctHashes, AllStored, Unspent, InBlockFile, WrittenBlock, Larger;
      ghost var tip := pindexBest;
      InTreeWf(tip);
      NodeFacts(tip);
      disk := disk + WrittenBlock(b, |b.block.vtx|);
      DiskGrows(b, old(disk));
      TreeOnLargerDisk(mapBlockIndex, old(disk), disk, pindexGenesisBlock);
      InTreeWf(tip);
      MoneyAlongLargerDisk(tip.Path(), old(disk), disk);
      forall i | 0 <= i < |tip.Path()| ensures MoneyAt(tip.Path(), i) {
        assert old(MoneyAt(tip.Path(), i)) && SameMoney(tip.Path(), i, old(disk), disk);
      }
      BlockStored(b, old(disk));
    }

    /** Enter a new block index, whose block has been written to its file, into the tree. */
    method Insert(b: BlockIndex)
      requires Valid() && b.Wf() && b.pprev != null && InTree(b.pprev)
      requires b.hash !in mapBlockIndex && b.hash == b.block.hash != 0 && b.block.hashPrevBlock == b.pprev.hash
      requires b.pnext == null && b.pprev.derived.bnChainTrust <= b.derived.bnChainTrust
      requires NewTxids(ChainTxs(b.pprev.Path()), b.block.vtx) && Stored(PlacedBlock(b), disk)
      modifies `mapBlockIndex
      ensures mapBlockIndex == old(mapBlockIndex)[b.hash := b]
      ensures Valid()
    {
      hide TreeIn, NodeIn, BlockIndex.Wf, Replay, ChainTxs, DistinctHashes, AllStored, NewTxids, Stored, MoneyAt;
      ghost var tip := pindexBest;
      InTreeWf(tip);
      NodeFacts(tip);
      TreeWithChild(mapBlockIndex, disk, pindexGenesisBlock, b);
      mapBlockIndex := mapBlockIndex[b.hash := b];
      NotOnPath(b, tip);
      assert Linked(tip.Path());
    }

    lemma NodeFacts(b: BlockIndex)
      requires NodeOk(b)
      ensures AllStored(b.Path(), disk) && (forall i | 0 <= i < |b.Path()| :: InTree(b.Path()[i]))
    {
    }

    lemma DiskGrows(b: BlockIndex, before: Disk)
      requires forall p | p in before :: !InBlockFile(b, p)
      requires disk == before + WrittenBlock(b, |b.block.vtx|) && MEMPOOL_POS !in before
      ensures Larger(before, disk) && MEMPOOL_POS !in disk
    {
      WrittenPlace(b, |b.block.vtx|);
    }

    lemma NotOnPath(b: BlockIndex, tip: BlockIndex)
      requires forall i | 0 <= i < |tip.Path()| :: tip.Path()[i] != b
      ensures NextOn(tip.Path(), b) == null
    {
    }

    lemma BlockStored(b: BlockIndex, before: Disk)
      requires forall k | 0 <= k < |b.block.vtx| :: b.block.vtx[k].nBytes > 0
      requires disk == before + WrittenBlock(b, |b.block.vtx|)
      ensures Stored(PlacedBlock(b), disk)
    {
      forall j | 0 <= j < |b.block.vtx| ensures PosOf(b, j) in disk && disk[PosOf(b, j)] == b.block.vtx[j] {
        WrittenIsStored(b, |b.block.vtx|, j);
      }
    }

    /** Enter a block with the values derived for it into the tree; make it the best one if its chain has more trust.

    The state stays consistent unless a postponed connect fails on the way, see SetBestChain. */
    method Enter(block: Block, nFile: nat, nBlockPos: nat, derived: Derived) returns (ok: bool, ghost reached: BlockIndex)
      requires Valid() && block.hash !in mapBlockIndex && block.hash != 0 && block.hashPrevBlock in mapBlockIndex
      requires derived.bnChainTrust >= mapBlockIndex[block.hashPrevBlock].derived.bnChainTrust
      requires NewTxids(ChainTxs(mapBlockIndex[block.hashPrevBlock].Path()), block.vtx)
      requires forall k | 0 <= k < |block.vtx| :: block.vtx[k].nBytes > 0
      requires forall p | p in disk :: !(p.DiskTxPos? && p.nFile == nFile && p.nBlockPos == nBlockPos)
      modifies this, txdb, mapBlockIndex.Values
      ensures TreeOk() && OnTip(reached)
      ensures Entered(old(mapBlockIndex), old(disk), block, nFile, nBlockPos) && fresh(mapBlockIndex[block.hash])
      ensures mapBlockIndex[block.hash].derived == derived
      ensures derived.bnChainTrust <= old(bnBestChainTrust) ==>
                ok && Valid() && pindexBest == old(pindexBest) && txdb.index == old(txdb.index)
      ensures derived.bnChainTrust > old(bnBestChainTrust) ==>
                var b := mapBlockIndex[block.hash];
                && (ok <==> Switches(rules, old(pindexBest), b, disk, old(SkipSignatures())))
                && (Valid() <==> Intact(rules, old(pindexBest), b, disk, old(SkipSignatures())))
                && pindexBest == (if ok then b else old(pindexBest))
                && (!ok ==> reached == pindexBest)
                && (ok ==> StopsAt(rules, Intermediate(old(bnBestChainTrust), b), b, reached, disk, old(SkipSignatures())))
      ensures txdb.hashSyncCheckpoint == old(txdb.hashSyncCheckpoint)
    {
      hide TreeIn, BlockIndex.Wf, MoneyOk, Linked, NewTxids, ChainTxs, Replay, BranchOk, StopsAt, Intermediate, WrittenBlock;
      reached := pindexBest;
      var pprev := mapBlockIndex[block.hashPrevBlock];
      HashOf(block.hashPrevBlock);
      InTreeWf(pprev);
      var pindexNew := new BlockIndex(block, pprev, nFile, nBlockPos, derived);
      WriteToDisk(pindexNew);
      Insert(pindexNew);
      if derived.bnChainTrust > bnBestChainTrust {
        ok, reached := SetBestChain(pindexNew);
      } else {
        ok := true;
        reached := pindexBest;
      }
    }

    /** The block has been entered into the tree `m` and written to the disk, and that is all that is new in them. */
    ghost predicate Entered(m: map<Hash, BlockIndex>, disk0: Disk, block: Block, nFile: nat, nBlockPos: nat)
      requires block.hashPrevBlock in m
      reads `mapBlockIndex, `disk
    {
      && block.hash in mapBlockIndex
      && var b := mapBlockIndex[block.hash];
         && mapBlockIndex == m[block.hash := b] && b.block == block && disk == disk0 + WrittenBlock(b, |block.vtx|)
         && b.hash == block.hash && b.nFile == nFile && b.nBlockPos == nBlockPos
         && b.pprev == m[block.hashPrevBlock] && b.Wf()
    }

    /** A new block with its proof hash, if it needs one, whose modifier agrees with the known ones. */
    predicate Derivable(block: Block, proof: Option<Hash>, modifierOk: bool)
      reads `mapBlockIndex
    {
      block.hash !in mapBlockIndex && (block.IsProofOfStake() ==> proof.Some?) && modifierOk
    }

    /** Add a block, already written at `nFile`, `nBlockPos`, to the tree, with the trust, the proof-of-work height and the stake
    modifier that follow from the blocks before it. `proof` is its proof-of-stake hash if one is known; `modifierOk` says whether
    the modifier has the checksum recorded for its height, if there is one. */
    method AddToBlockIndex(block: Block, nFile: nat, nBlockPos: nat, proof: Option<Hash>, modifierOk: bool)
      returns (ok: bool, ghost reached: BlockIndex)
      requires Valid() && DerivedTree() && block.hash != 0 && block.hashPrevBlock in mapBlockIndex
      requires NewTxids(ChainTxs(mapBlockIndex[block.hashPrevBlock].Path()), block.vtx)
      requires forall k | 0 <= k < |block.vtx| :: block.vtx[k].nBytes > 0
      requires forall p | p in disk :: !(p.DiskTxPos? && p.nFile == nFile && p.nBlockPos == nBlockPos)
      modifies this, txdb, mapBlockIndex.Values
      ensures TreeOk() && OnTip(reached) && DerivedTree()
      ensures !old(Derivable(block, proof, modifierOk)) ==> !ok && Valid() && unchanged(this) && unchanged(txdb) && reached == pindexBest
      ensures old(Derivable(block, proof, modifierOk)) ==>
                && Entered(old(mapBlockIndex), old(disk), block, nFile, nBlockPos) && fresh(mapBlockIndex[block.hash])
                && (block.IsProofOfStake() ==> mapBlockIndex[block.hash].derived.hashProofOfStake == proof.value)
      ensures old(Derivable(block, proof, modifierOk)) && mapBlockIndex[block.hash].derived.bnChainTrust <= old(bnBestChainTrust) ==>
                ok && Valid() && pindexBest == old(pindexBest) && txdb.index == old(txdb.index)
      ensures old(Derivable(block, proof, modifierOk)) && mapBlockIndex[block.hash].derived.bnChainTrust > old(bnBestChainTrust) ==>
                var b := mapBlockIndex[block.hash];
                && (ok <==> Switches(rules, old(pindexBest), b, disk, old(SkipSignatures())))
                && (Valid() <==> Intact(rules, old(pindexBest), b, disk, old(SkipSignatures())))
                && pindexBest == (if ok then b else old(pindexBest))
                && (!ok ==> reached == pindexBest)
                && (ok ==> StopsAt(rules, Intermediate(old(bnBestChainTrust), b), b, reached, disk, old(SkipSignatures())))
      ensures txdb.hashSyncCheckpoint == old(txdb.hashSyncCheckpoint)
    {
      hide TreeIn, BlockIndex.Wf, MoneyOk, Linked, NewTxids, ChainTxs, Replay, BranchOk, StopsAt, Intermediate, WrittenBlock, Switches, Intact, DerivedFrom, FirstDerived;
      reached := pindexBest;
      if block.hash in mapBlockIndex {
        return false, reached;
      }
      var pprev := mapBlockIndex[block.hashPrevBlock];
      StakesKnown(block.hashPrevBlock);
      var derived := Derive(rules.stakeHash, block, pprev, proof);
      if derived.None? || !modifierOk {
        return false, reached;
      }
      NoLessTrust(rules.stakeHash, block, pprev, derived.value);
      ok, reached := Enter(block, nFile, nBlockPos, derived.value);
    }

    lemma StakesKnown(h: Hash)
      requires TreeOk() && DerivedTree() && h in mapBlockIndex
      ensures mapBlockIndex[h].Wf() && StakeModifier.Distinct(Stakes(mapBlockIndex[h].Path()))
      ensures mapBlockIndex[h].Path()[0].derived.fGeneratedStakeModifier
    {
      hide ChainTxs, DistinctHashes, AllStored, BlockIndex.Wf, StakeModifier.Distinct, DerivedFrom;
      var b := mapBlockIndex[h];
      assert NodeOk(b);
      WfLength(b);
      forall i | 0 <= i < |b.Path()| ensures b.Path()[i].nHeight == i && InMap(mapBlockIndex, b.Path()[i]) {
        PathWf(b, i);
      }
      GenesisHeight(b.Path()[0]);
      StakesDistinct(b.Path(), mapBlockIndex);
      assert DerivedOk(rules.stakeHash, b.Path()[0]);
    }

    lemma HashOf(h: Hash)
      requires TreeOk() && h in mapBlockIndex
      ensures mapBlockIndex[h].hash == h && InTree(mapBlockIndex[h])
    {
    }

    /** Store the synchronized checkpoint in a transaction of its own. */
    method WriteSync(hashCheckpoint: Hash, ghost tip: BlockIndex)
      requires OnTip(tip)
      modifies txdb
      ensures OnTip(tip) && txdb.hashSyncCheckpoint == hashCheckpoint
    {
      hide Linked, MoneyOk, Replay;
      var begun := txdb.TxnBegin();
      txdb.hashSyncCheckpoint := hashCheckpoint;
      var committed := txdb.TxnCommit();
    }

    // -------------------------------------------------------------- what a consistent state means

    predicate IsInMainChain(b: BlockIndex)
      reads `pindexBest, b`pnext
    {
      b.pnext != null || b == pindexBest
    }

    /** The main-chain test is exact: it holds of the best block and its ancestors and of no other block. */
    lemma MainChainExact(b: BlockIndex)
      requires Valid() && InTree(b)
      ensures IsInMainChain(b) <==> IsAncestor(b, pindexBest)
    {
      hide TreeIn, NodeIn, BlockIndex.Wf, Replay, MoneyOk;
      InTreeWf(b);
      InTreeWf(pindexBest);
      assert b.pnext == NextOn(pindexBest.Path(), b);
    }

    lemma TreePath(b: BlockIndex)
      requires TreeOk() && DerivedTree() && FittingTree() && InTree(b)
      ensures b.Wf() && |b.Path()| == b.nHeight + 1 && DerivedPath(rules.stakeHash, b.Path()) && FitPath(b.Path())
    {
      hide ChainTxs, DistinctHashes, AllStored, BlockIndex.Wf, DerivedOk, FitsParent;
      assert NodeOk(b);
      WfLength(b);
      forall i | 0 <= i < |b.Path()| ensures InMap(mapBlockIndex, b.Path()[i]) && (i > 0 ==> b.Path()[i].pprev != null) {
        PathWf(b, i);
        GenesisHeight(b.Path()[i]);
      }
    }

    /** The trust of a block is the sum of what the blocks up to it add, and each of its ancestors has less. */
    lemma TrustInTree(a: BlockIndex, b: BlockIndex)
      requires TreeOk() && DerivedTree() && FittingTree() && InTree(b) && IsAncestor(a, b)
      ensures b.derived.bnChainTrust == PathTrust(b.Path())
      ensures a != b ==> a.derived.bnChainTrust < b.derived.bnChainTrust
    {
      hide TreeIn, BlockIndex.Wf, DerivedPath, FitPath, PathTrust;
      TreePath(b);
      TrustIsSum(rules.stakeHash, b);
      PathWf(b, a.nHeight);
      if a != b {
        TrustRises(rules.stakeHash, a, b);
      }
    }

    /** On every branch of the tree the median time past never decreases. */
    lemma MedianInTree(a: BlockIndex, b: BlockIndex)
      requires TreeOk() && DerivedTree() && FittingTree() && InTree(b) && IsAncestor(a, b)
      ensures |Times(a.Path())| == a.nHeight + 1 && |Times(b.Path())| == b.nHeight + 1
      ensures MedianTime.Median(MedianTime.Recent(Times(a.Path()), a.nHeight)) <= MedianTime.Median(MedianTime.Recent(Times(b.Path()), b.nHeight))
    {
      hide TreeIn, BlockIndex.Wf, DerivedPath, FitPath, MedianTime.Median, MedianTime.Recent, Times;
      TreePath(b);
      MedianAbove(a, b);
    }

    /** Blocks at different heights have different coinbases, wherever they are in the tree. */
    lemma CoinbasesDiffer(a: BlockIndex, b: BlockIndex)
      requires TreeOk() && FittingTree() && InTree(a) && InTree(b) && 0 < a.nHeight < b.nHeight < 0x8000_0000
      ensures a.block.vtx != [] && b.block.vtx != [] && a.block.vtx[0] != b.block.vtx[0]
    {
      hide TreeIn, Pushed;
      InTreeWf(a);
      InTreeWf(b);
      assert FitsParent(a.block, a.pprev) && FitsParent(b.block, b.pprev);
      if a.block.vtx[0] == b.block.vtx[0] {
        HeightsDiffer(a.block.vtx[0].vin[0].scriptSig, a.nHeight, b.nHeight);
      }
    }

    /** No money appears or vanishes: the recorded supply is the value of all unspent outputs. */
    lemma MoneyConserved()
      requires Valid()
      ensures pindexBest.nMoneySupply == Unspent(txdb.index, disk)
    {
      hide TreeIn, Replay, Linked, Unspent;
      var path := pindexBest.Path();
      assert path[..|path|] == path;
      assert MoneyAt(path, |path| - 1);
    }

    /** An output is flagged spent exactly when one input on the main chain spends it, and the flag is
    that spender's position; no output has two spenders. */
    lemma SpentFlagsExact(op: OutPoint)
      requires Valid()
      ensures var txs := ChainTxs(pindexBest.Path());
              && Spenders(txs, |txs|, op) == Recorded(txdb.index, op)
              && |Spenders(txs, |txs|, op)| <= 1
    {
      hide Replay, ChainTxs, Spenders, Recorded, MoneyOk, Linked;
      SpentOnPath(pindexBest.Path(), op);
    }
  }

  lemma {:induction false} UnspendStops(view: TxMap, vin: seq<TxIn>, i: nat)
    requires i < |vin| && UnspendFirst(view, vin, i + 1).None?
    ensures UnspendFirst(view, vin, |vin|).None?
    decreases |vin| - i
  {
    if i + 1 < |vin| {
      UnspendStops(view, vin, i + 1);
    }
  }

  lemma {:induction false} DisconnectStops(view: TxMap, ps: seq<Placed>, i: nat)
    requires i <= |ps| && DisconnectFrom(view, ps, i).None?
    ensures DisconnectAll(view, ps).None?
    decreases i
  {
    if i > 0 {
      DisconnectStops(view, ps, i - 1);
    }
  }

  lemma GenesisAlone(genesis: BlockIndex, disk: Disk)
    requires genesis.Wf() && genesis.pprev == null && disk == WrittenBlock(genesis, |genesis.block.vtx|)
    requires forall k | 0 <= k < |genesis.block.vtx| :: genesis.block.vtx[k].nBytes > 0
    ensures genesis.Path() == [genesis] && MEMPOOL_POS !in disk
    ensures AllStored(genesis.Path(), disk) && DistinctHashes(ChainTxs(genesis.Path()))
    ensures Replay(genesis.Path()) == Some(map[]) && Replay(genesis.Path()[..1]) == Some(map[])
    ensures Unspent(map[], disk) == 0
  {
    WrittenPlace(genesis, |genesis.block.vtx|);
    forall j | 0 <= j < |genesis.block.vtx|
      ensures PosOf(genesis, j) in disk && disk[PosOf(genesis, j)] == genesis.block.vtx[j]
    {
      WrittenIsStored(genesis, |genesis.block.vtx|, j);
    }
    assert genesis.Path()[..1] == genesis.Path();
  }

  /** The queued changes that are not in `todo`. */
  ghost function Part(queue: TxMap, todo: set<Hash>): TxMap {
    queue - todo
  }

  lemma PartEnds(queue: TxMap)
    ensures Part(queue, queue.Keys) == map[] && Part(queue, {}) == queue
  {
  }

  lemma PartGrows(base: TxMap, queue: TxMap, todo: set<Hash>, h: Hash)
    requires h in queue && h in todo
    ensures base + Part(queue, todo - {h}) == (base + Part(queue, todo))[h := queue[h]]
  {
  }

  lemma OverlayAdd(index: TxMap, queue: TxMap, h: Hash, e: TxIndex)
    ensures index + queue[h := e] == (index + queue)[h := e]
  {
  }

  /** An indexed transaction is always found on disk. */
  lemma LookupBacked(index: TxMap, queue: TxMap, disk: Disk, mempool: map<Hash, Tx>, h: Hash)
    requires MEMPOOL_POS !in disk && Backed(index + queue, disk) && h in index + queue
    ensures (index + queue)[h].pos in disk
    ensures Lookup(index, queue, disk, mempool, true, h) == Some(((index + queue)[h], disk[(index + queue)[h].pos]))
  {
    assert EntryBacked(h, (index + queue)[h], disk);
  }

  lemma {:induction false} FetchedInIsSumIn(view: TxMap, disk: Disk, vin: seq<TxIn>, i: nat)
    requires i <= |vin|
    ensures FetchedIn(InputsFrom(view, disk, vin), vin, i) == SumIn(view, disk, vin, i)
  {
    if i > 0 {
      FetchedInIsSumIn(view, disk, vin, i - 1);
      assert vin[i - 1].prevout.hash in PrevHashes(vin, |vin|);
    }
  }

  /** Marking the fetched entries and laying them over the queue is spending in the whole view. */
  lemma SpendFetched(index: TxMap, queue: TxMap, disk: Disk, vin: seq<TxIn>, pos: DiskTxPos)
    requires !pos.NoPos?
    requires SpendFirst(Entries(InputsFrom(index + queue, disk, vin)), vin, |vin|, pos).Some?
    ensures SpendFirst(index + queue, vin, |vin|, pos) ==
            Some(index + (queue + SpendFirst(Entries(InputsFrom(index + queue, disk, vin)), vin, |vin|, pos).value))
  {
    var view := index + queue;
    var sub := Entries(InputsFrom(view, disk, vin));
    SpentAreKnown(sub, vin, pos);
    SpendLocal(view, sub, vin, |vin|, pos);
    var s := SpendFirst(sub, vin, |vin|, pos).value;
    assert index + queue + s == index + (queue + s);
  }

  lemma SpentAreKnown(view: TxMap, vin: seq<TxIn>, pos: DiskTxPos)
    requires !pos.NoPos? && SpendFirst(view, vin, |vin|, pos).Some?
    ensures forall j | 0 <= j < |vin| :: vin[j].prevout.hash in view
  {
    SpendShape(view, vin, |vin|, pos);
    forall j | 0 <= j < |vin| ensures vin[j].prevout.hash in view {
      assert vin[j].prevout in Outs(vin, |vin|);
    }
  }
}

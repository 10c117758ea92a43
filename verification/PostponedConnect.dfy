/** A run that leaves the chain state inconsistent: a postponed connect is refused, and the best-block pointer moves all the same.

The tree has two branches on the genesis block 1: the blocks 2, 3, 4 and the blocks 5, 6, 7, 8. Every block is one that the node can
receive: it passes CheckBlock, it has the required bits, a time two minutes after its parent and its height in the coinbase, and
all add the same trust. Only the coinbase of 7 pays one unit more than the reward, which nothing but ConnectBlock looks at. */
module PostponedConnect {
  import opened Wrappers
  import opened Ledger
  import opened BlockTree
  import opened BlockContext
  import opened TxConnect
  import opened ChainReplay
  import opened ChainState
  import opened Checkpoints
  import Bignum
  import Retarget
  import MedianTime

  /** The block that is refused. */
  const BAD: Hash := 7

  const LAST: Hash := 8

  const BITS: Bits := Bignum.ToCompact(Retarget.POW_LIMIT)

  const START_TIME: nat := 1_400_000_000

  function Parent(h: Hash): (p: Hash)
    ensures h > 0 ==> p < h
    ensures h > 1 ==> p > 0
  {
    if h <= 1 then 0 else if h == 5 then 1 else h - 1
  }

  function Height(h: Hash): (n: nat)
    ensures h > 1 ==> n == Height(Parent(h)) + 1
  {
    if h == 0 then 0 else if h <= 4 then h - 1 else h - 4
  }

  function Time(h: Hash): nat {
    START_TIME + 120 * Height(h)
  }

  /** The reward of a proof-of-work block as long as the money supply is not used up. */
  function Reward(nPOWHeight: nat, nFees: int): int {
    (if nPOWHeight <= 1 then 35_000_000 * COIN else if nPOWHeight <= 518_400 then 15_000_000 else 330_000_000) + nFees
  }

  const RULES: Rules := Rules((_, _, _) => true, _ => 0, (_, _) => 0, _ => 0, (_, _, _, _) => None, Reward, (h, _) => h, _ => true)

  function Coinbase(h: Hash): Tx {
    Tx(h, Time(h), [TxIn(OutPoint(0, UINT_MAX), [0x50 + Height(h), 0])], [TxOut(if h == BAD then 15_000_001 else 15_000_000, [1])], 1)
  }

  /** A proof-of-work block that holds a coinbase and nothing else. */
  function Plain(h: Hash): Block {
    Block(h, Parent(h), Time(h), BITS, [Coinbase(h)])
  }

  /** Each block adds one to the trust and to the proof-of-work height. */
  ghost predicate PlainIndex(b: BlockIndex) {
    && 0 < b.hash <= LAST && b.block == Plain(b.hash) && b.nHeight == b.derived.nPOWHeight == Height(b.hash)
    && b.derived.bnChainTrust == Height(b.hash) + 1
  }

  ghost predicate PlainPath(path: seq<BlockIndex>) {
    forall i | 0 <= i < |path| :: PlainIndex(path[i])
  }

  // ---------------------------------------------------------------- the blocks of the run

  /** Every block of the run passes the checks that are made before it enters the tree. */
  lemma PlainSound(h: Hash)
    ensures CheckBlock(RULES, Plain(h)) && !Plain(h).IsProofOfStake()
  {
    var tx := Coinbase(h);
    assert SumOut(tx.vout, 0) == 0 && SumOut(tx.vout, 1) == tx.vout[0].nValue;
    assert CheckTransaction(tx);
  }

  lemma PlainTimes(prev: BlockIndex, i: nat)
    requires prev.Wf() && PlainPath(prev.Path()) && i < |prev.Path()|
    ensures |prev.Path()| == prev.nHeight + 1 && prev.Path()[i].block.nTime == START_TIME + 120 * i
  {
    PathWf(prev, i);
  }

  lemma PlainFits(h: Hash, prev: BlockIndex)
    requires 1 < h <= LAST && prev.Wf() && PlainPath(prev.Path()) && prev.hash == Parent(h)
    ensures FitsParent(Plain(h), prev)
  {
    hide BlockIndex.Wf, Bignum.ToCompact, Retarget.Target, MedianTime.Median;
    var path := prev.Path();
    forall i | 0 <= i < |path| ensures path[i].block.nTime == START_TIME + 120 * i {
      PlainTimes(prev, i);
    }
    PlainTimes(prev, 0);
    Retarget.Steady(Indices(path), START_TIME, false);
    MedianTime.MedianAtMost(MedianTime.Recent(Times(path), prev.nHeight), prev.block.nTime);
    assert NamesHeight(Plain(h), prev.nHeight + 1);
  }

  /** The derived values, which follow from those of the parent, are the ones said above. */
  lemma PlainDerived(b: BlockIndex, prev: BlockIndex)
    requires b.Wf() && b.pprev == prev && PlainIndex(prev) && 1 < b.hash <= LAST && b.block == Plain(b.hash) && prev.hash == Parent(b.hash)
    requires DerivedOk(RULES.stakeHash, b)
    ensures PlainIndex(b)
  {
    hide StakeModifier.Computed, Bignum.ToCompact, Retarget.BlockTrust;
    Retarget.LeastTrust();
  }

  // ---------------------------------------------------------------- paths of plain blocks

  lemma {:induction false} PlainReplay(path: seq<BlockIndex>, n: nat)
    requires PlainPath(path) && forall i | 0 <= i < |path| :: path[i].hash <= n
    ensures Replay(path).Some?
    ensures forall i | 0 <= i < |ChainTxs(path)| :: ChainTxs(path)[i].tx.hash <= n
  {
    if |path| > 1 {
      PlainReplay(path[..|path| - 1], n);
      OnePlain(Replay(path[..|path| - 1]).value, Last(path));
    }
  }

  lemma OnePlain(view: TxMap, b: BlockIndex)
    requires b.block == Plain(b.hash)
    ensures |PlacedBlock(b)| == 1 && PlacedBlock(b)[0].tx == Coinbase(b.hash)
    ensures ConnectAll(view, PlacedBlock(b)).Some?
  {
    var ps := PlacedBlock(b);
    assert ConnectFirst(view, ps, 0) == Some(view);
    assert ConnectFirst(view, ps, 1) == ConnectTx(view, ps[0]);
  }

  /** All blocks but the bad one are accepted wherever their ids are new. */
  lemma PlainAccepted(view: TxMap, disk: Disk, b: BlockIndex, skip: bool)
    requires PlainIndex(b) && b.hash !in view
    ensures BlockAccepted(RULES, view, disk, b, skip) <==> b.hash != BAD
  {
    OnePlain(view, b);
    PlainSound(b.hash);
    var ps, tx := PlacedBlock(b), Coinbase(b.hash);
    assert SumOut(tx.vout, 0) == 0 && SumOut(tx.vout, 1) == tx.vout[0].nValue;
    assert SigOpsUpTo(RULES, view, disk, ps, 0) == 0 && SigOpsUpTo(RULES, view, disk, ps, 1) == 0;
    assert FeesUpTo(view, disk, ps, 0) == 0 && FeesUpTo(view, disk, ps, 1) == 0;
    assert AcceptedUpTo(RULES, view, disk, ps, 0, b, skip);
    assert AcceptedUpTo(RULES, view, disk, ps, 1, b, skip);
  }

  lemma PlainExtends(path: seq<BlockIndex>, disk: Disk, skip: bool)
    requires |path| > 1 && PlainPath(path) && DistinctHashes(ChainTxs(path))
    ensures Extends(RULES, path, disk, skip) <==> Last(path).hash != BAD
  {
    hide ChainTxs, DistinctHashes, BlockAccepted, Replay;
    PlainReplay(path[..|path| - 1], LAST);
    LastBlockIsNew(path);
    OnePlain(map[], Last(path));
    assert PlacedBlock(Last(path))[0].tx.hash !in Replay(path[..|path| - 1]).value;
    PlainAccepted(Replay(path[..|path| - 1]).value, disk, Last(path), skip);
  }

  /** Which blocks are accepted on the way from `tip` to `b`: all but the bad one. */
  lemma PlainBranch(tip: BlockIndex, b: BlockIndex, k: nat, disk: Disk, skip: bool)
    requires PlainPath(b.Path()) && DistinctHashes(ChainTxs(b.Path()))
    requires k == Shared(tip.Path(), b.Path()) > 0
    ensures BranchOk(RULES, tip, b, disk, skip) <==> forall i | k <= i < |b.Path()| :: b.Path()[i].hash != BAD
  {
    hide ChainTxs, DistinctHashes, Extends, Shared, PlainIndex;
    var path := b.Path();
    forall i {:trigger path[..i + 1]} | k <= i < |path|
      ensures Extends(RULES, path[..i + 1], disk, skip) <==> path[i].hash != BAD
    {
      PrefixDistinct(path, i + 1);
      PlainExtends(path[..i + 1], disk, skip);
    }
    if BranchOk(RULES, tip, b, disk, skip) {
      forall i | k <= i < |path| ensures path[i].hash != BAD {
        assert Extends(RULES, path[..i + 1], disk, skip);
      }
    }
  }

  // ---------------------------------------------------------------- the tree of the run

  /** The blocks 1 to `n` have arrived, each written in its own place on disk. */
  ghost predicate PlainWorld(chain: Chain, n: nat)
    reads chain`mapBlockIndex, chain`disk
  {
    && chain.rules == RULES
    && (forall h | h in chain.mapBlockIndex :: h <= n && PlainIndex(chain.mapBlockIndex[h]))
    && (forall h | 1 <= h <= n :: h in chain.mapBlockIndex)
    && forall p | p in chain.disk :: p.DiskTxPos? && p.nFile == 0 && p.nBlockPos <= n
  }

  lemma PlainTree(chain: Chain, b: BlockIndex, n: nat)
    requires PlainWorld(chain, n) && chain.TreeOk() && chain.InTree(b)
    ensures b.Wf() && PlainPath(b.Path()) && DistinctHashes(ChainTxs(b.Path()))
    ensures forall i | 0 <= i < |ChainTxs(b.Path())| :: ChainTxs(b.Path())[i].tx.hash <= n
  {
    hide ChainTxs, DistinctHashes, BlockIndex.Wf, AllStored, PlainIndex;
    chain.InTreeWf(b);
    assert chain.NodeOk(b);
    forall i | 0 <= i < |b.Path()| ensures chain.InTree(b.Path()[i]) {
      chain.OnPathInTree(b, i);
    }
    PlainReplay(b.Path(), n);
  }

  /** The parent of a block of the run. */
  lemma PlainParent(chain: Chain, h: Hash, n: nat)
    requires PlainWorld(chain, n) && chain.TreeOk() && 1 <= h <= n
    ensures var m := chain.mapBlockIndex;
            && h in m && m[h].hash == h && m[h].Wf() && m[h].derived.bnChainTrust == Height(h) + 1
            && (h == 1 ==> m[h].pprev == null && m[h].Path() == [m[h]])
            && (h > 1 ==> Parent(h) in m && m[h].pprev == m[Parent(h)] && m[h].Path() == m[Parent(h)].Path() + [m[h]])
  {
    hide ChainTxs, DistinctHashes, AllStored, Bignum.ToCompact;
    var b := chain.mapBlockIndex[h];
    assert chain.NodeOk(b);
    chain.InTreeWf(b);
    if h > 1 {
      chain.OnPathInTree(b, b.nHeight - 1);
    }
  }

  /** All paths of the run so far. */
  ghost predicate Branches(m: map<Hash, BlockIndex>, n: nat) {
    && (forall h | 1 <= h <= n :: h in m && m[h].hash == h && m[h].Wf() && m[h].derived.bnChainTrust == Height(h) + 1)
    && (1 <= n ==> m[1].Path() == [m[1]])
    && (2 <= n ==> m[2].Path() == [m[1], m[2]] && m[2].pprev == m[1])
    && (3 <= n ==> m[3].Path() == [m[1], m[2], m[3]] && m[3].pprev == m[2])
    && (4 <= n ==> m[4].Path() == [m[1], m[2], m[3], m[4]] && m[4].pprev == m[3])
    && (5 <= n ==> m[5].Path() == [m[1], m[5]] && m[5].pprev == m[1])
    && (6 <= n ==> m[6].Path() == [m[1], m[5], m[6]] && m[6].pprev == m[5])
    && (7 <= n ==> m[7].Path() == [m[1], m[5], m[6], m[7]] && m[7].pprev == m[6])
    && (8 <= n ==> m[8].Path() == [m[1], m[5], m[6], m[7], m[8]] && m[8].pprev == m[7])
  }

  lemma PlainBranches(chain: Chain, n: nat)
    requires PlainWorld(chain, n) && chain.TreeOk() && n <= LAST
    ensures Branches(chain.mapBlockIndex, n)
  {
    hide TreeIn, BlockIndex.Wf, PlainIndex, PlainWorld;
    forall h | 1 <= h <= n {
      PlainParent(chain, h, n);
    }
  }

  // ---------------------------------------------------------------- the run

  lemma Written(b: BlockIndex, n: nat)
    requires b.nFile == 0 && b.nBlockPos == n
    ensures forall p | p in WrittenBlock(b, |b.block.vtx|) :: p.DiskTxPos? && p.nFile == 0 && p.nBlockPos == n
  {
    WrittenPlace(b, |b.block.vtx|);
  }

  lemma PlainArrives(chain: Chain, h: Hash)
    requires 1 < h <= LAST && PlainWorld(chain, h - 1) && chain.TreeOk()
    ensures h !in chain.mapBlockIndex && Parent(h) in chain.mapBlockIndex
    ensures FitsParent(Plain(h), chain.mapBlockIndex[Parent(h)])
    ensures NewTxids(ChainTxs(chain.mapBlockIndex[Parent(h)].Path()), Plain(h).vtx)
    ensures forall p | p in chain.disk :: !(p.DiskTxPos? && p.nFile == 0 && p.nBlockPos == h)
  {
    hide TreeIn, BlockIndex.Wf, ChainTxs, FitsParent;
    PlainParent(chain, Parent(h), h - 1);
    PlainTree(chain, chain.mapBlockIndex[Parent(h)], h - 1);
    PlainFits(h, chain.mapBlockIndex[Parent(h)]);
  }

  lemma PlainGrows(chain: Chain, m: map<Hash, BlockIndex>, disk: Disk, h: Hash)
    requires 1 < h <= LAST && Parent(h) in m && PlainIndex(m[Parent(h)]) && m[Parent(h)].hash == Parent(h)
    requires forall k | k in m :: k <= h - 1 && PlainIndex(m[k])
    requires forall k | 1 <= k <= h - 1 :: k in m
    requires forall p | p in disk :: p.DiskTxPos? && p.nFile == 0 && p.nBlockPos <= h - 1
    requires chain.rules == RULES && chain.Entered(m, disk, Plain(h), 0, h) && chain.DerivedTree() && chain.TreeOk()
    ensures PlainWorld(chain, h) && Branches(chain.mapBlockIndex, h)
  {
    hide TreeIn, BlockIndex.Wf, DerivedOk, WrittenBlock, Branches, PlainIndex;
    var b := chain.mapBlockIndex[h];
    Written(b, h);
    assert DerivedOk(RULES.stakeHash, b);
    PlainDerived(b, b.pprev);
    PlainBranches(chain, h);
  }

  /** Block `h` arrives. */
  method Offer(sync: SyncCheckpoints, h: Hash) returns (ghost reached: BlockIndex)
    requires 1 < h <= LAST && sync.Safe() && sync.chain.Valid() && PlainWorld(sync.chain, h - 1)
    requires Parent(h) in sync.chain.mapBlockIndex && sync.InSync(h, sync.chain.mapBlockIndex[Parent(h)])
    modifies sync.chain, sync.chain.txdb, sync.chain.mapBlockIndex.Values
    ensures sync.Safe() && PlainWorld(sync.chain, h) && Branches(sync.chain.mapBlockIndex, h) && sync.chain.OnTip(reached)
    ensures var b := sync.chain.mapBlockIndex[h];
            && sync.chain.mapBlockIndex == old(sync.chain.mapBlockIndex)[h := b] && fresh(b)
            && (Height(h) + 1 <= old(sync.chain.bnBestChainTrust) ==>
                  sync.chain.Valid() && sync.chain.pindexBest == old(sync.chain.pindexBest))
            && (Height(h) + 1 > old(sync.chain.bnBestChainTrust) ==>
                  var tip, skip := old(sync.chain.pindexBest), old(sync.chain.SkipSignatures());
                  && (sync.chain.Valid() <==> Intact(RULES, tip, b, sync.chain.disk, skip))
                  && sync.chain.pindexBest == (if Switches(RULES, tip, b, sync.chain.disk, skip) then b else tip)
                  && (Switches(RULES, tip, b, sync.chain.disk, skip) ==>
                        StopsAt(RULES, Intermediate(old(sync.chain.bnBestChainTrust), b), b, reached, sync.chain.disk, skip)))
  {
    hide TreeIn, BlockIndex.Wf, ChainTxs, DistinctHashes, Switches, Intact, Replay, Chain.Linked, Chain.OnTip, WrittenBlock, FitsParent,
         FittingIn, StopsAt, Intermediate, Branches, Chain.DerivedTree, SyncCheckpoints.StoredAdvance;
    var chain := sync.chain;
    PlainSound(h);
    PlainArrives(chain, h);
    PlainParent(chain, Parent(h), h - 1);
    ghost var m, disk := chain.mapBlockIndex, chain.disk;
    var ok;
    ok, reached := sync.AcceptBlock(Plain(h), 0, h, None, true, true);
    PlainGrows(chain, m, disk, h);
  }

  method Start() returns (sync: SyncCheckpoints)
    ensures fresh(sync) && fresh(sync.chain) && fresh(sync.chain.txdb) && fresh(sync.chain.mapBlockIndex.Values)
    ensures sync.Safe() && sync.chain.Valid() && PlainWorld(sync.chain, 1) && sync.hashSyncCheckpoint == 1
    ensures sync.chain.mapBlockIndex == map[1 := sync.chain.pindexBest]
  {
    hide TreeIn, BlockIndex.Wf, WrittenBlock, Chain.OnTip, SyncCheckpoints.Safe, FirstDerived, FittingIn, Chain.DerivedTree, PlainWorld;
    PlainSound(1);
    var chain := new Chain(RULES, Plain(1), 0, 1);
    StartWorld(chain);
    sync := new SyncCheckpoints(chain);
  }

  lemma StartWorld(chain: Chain)
    requires var g := chain.pindexGenesisBlock;
             && chain.TreeOk() && chain.rules == RULES && chain.mapBlockIndex == map[1 := g] && g.block == Plain(1)
             && g.nFile == 0 && g.nBlockPos == 1 && g.derived == FirstDerived(Plain(1)) && chain.disk == WrittenBlock(g, |g.block.vtx|)
    ensures PlainWorld(chain, 1) && chain.pindexGenesisBlock.hash == 1
  {
    hide BlockIndex.Wf, WrittenBlock, FirstDerived, ChainTxs, DistinctHashes, AllStored, PlainIndex;
    var g := chain.pindexGenesisBlock;
    Written(g, 1);
    assert NodeIn(chain.mapBlockIndex, chain.disk, g, g);
    PathWf(g, 0);
    GenesisHeight(g);
    GenesisIsPlain(g);
  }

  lemma GenesisIsPlain(g: BlockIndex)
    requires g.Wf() && g.hash == 1 && g.pprev == null && g.block == Plain(1) && g.derived == FirstDerived(Plain(1))
    ensures PlainIndex(g)
  {
    hide Retarget.BlockTrust;
    Retarget.LeastTrust();
    PlainSound(1);
  }

  /** Which blocks are accepted on the way from `tip` to `b`, where the two paths part at height `k`. */
  lemma Decide(chain: Chain, tip: BlockIndex, b: BlockIndex, k: nat, n: nat, skip: bool)
    requires PlainWorld(chain, n) && chain.TreeOk() && chain.InTree(b)
    requires 0 < k <= |tip.Path()| && k <= |b.Path()| && tip.Path()[..k] == b.Path()[..k]
    requires k < |tip.Path()| && k < |b.Path()| ==> tip.Path()[k] != b.Path()[k]
    ensures chain.rules == RULES
    ensures BranchOk(RULES, tip, b, chain.disk, skip) <==> forall i | k <= i < |b.Path()| :: b.Path()[i].hash != BAD
  {
    hide ChainTxs, DistinctHashes, BlockIndex.Wf, TreeIn;
    PlainTree(chain, b, n);
    SharedIs(tip.Path(), b.Path(), k);
    PlainBranch(tip, b, k, chain.disk, skip);
  }

  lemma InSyncWithGenesis(sync: SyncCheckpoints, h: Hash)
    requires 1 < h <= LAST && PlainWorld(sync.chain, h - 1) && sync.chain.TreeOk() && sync.hashSyncCheckpoint == 1
    ensures Parent(h) in sync.chain.mapBlockIndex && sync.InSync(h, sync.chain.mapBlockIndex[Parent(h)])
  {
    hide TreeIn, BlockIndex.Wf, PlainIndex;
    PlainBranches(sync.chain, h - 1);
    WfLength(sync.chain.mapBlockIndex[1]);
  }

  lemma InSyncWithFive(sync: SyncCheckpoints)
    requires PlainWorld(sync.chain, 7) && sync.chain.TreeOk() && sync.hashSyncCheckpoint == 5
    ensures 7 in sync.chain.mapBlockIndex && sync.InSync(8, sync.chain.mapBlockIndex[7])
  {
    hide TreeIn, BlockIndex.Wf, PlainIndex;
    PlainBranches(sync.chain, 7);
    WfLength(sync.chain.mapBlockIndex[5]);
    WfLength(sync.chain.mapBlockIndex[7]);
  }

  /** The checkpoint on 5 is obeyed. */
  lemma FiveIsMovable(sync: SyncCheckpoints)
    requires PlainWorld(sync.chain, 7) && sync.chain.TreeOk() && sync.hashSyncCheckpoint == 1
    requires 4 in sync.chain.mapBlockIndex && sync.chain.pindexBest == sync.chain.mapBlockIndex[4]
    ensures 1 in sync.chain.mapBlockIndex && 5 in sync.chain.mapBlockIndex
    ensures sync.Newer(5) && sync.Movable(5) && sync.Intact(5) && sync.Destination(5) == sync.chain.mapBlockIndex[5]
  {
    hide TreeIn, BlockIndex.Wf, PlainIndex, BranchOk, PlainWorld;
    var chain := sync.chain;
    var m := chain.mapBlockIndex;
    PlainBranches(chain, 7);
    WfLength(m[1]);
    WfLength(m[5]);
    Decide(chain, m[4], m[5], 1, 7, chain.SkipSignatures());
    assert Intermediate(m[4].derived.bnChainTrust, m[5]) == m[5];
  }

  /** The blocks 2, 3 and 4 each become the best block. */
  method Lead(sync: SyncCheckpoints, h: Hash)
    requires 1 < h <= 4 && sync.Safe() && sync.chain.Valid() && PlainWorld(sync.chain, h - 1) && sync.hashSyncCheckpoint == 1
    requires h - 1 in sync.chain.mapBlockIndex && sync.chain.pindexBest == sync.chain.mapBlockIndex[h - 1]
    modifies sync.chain, sync.chain.txdb, sync.chain.mapBlockIndex.Values
    ensures sync.Safe() && sync.chain.Valid() && PlainWorld(sync.chain, h)
    ensures h in sync.chain.mapBlockIndex && sync.chain.pindexBest == sync.chain.mapBlockIndex[h]
    ensures fresh(sync.chain.mapBlockIndex.Values - old(sync.chain.mapBlockIndex.Values))
  {
    hide TreeIn, BlockIndex.Wf, BranchOk, Replay, Chain.OnTip, PlainWorld, StopsAt, SyncCheckpoints.StoredAdvance, Chain.DerivedTree, FittingIn;
    var chain := sync.chain;
    InSyncWithGenesis(sync, h);
    PlainBranches(chain, h - 1);
    ghost var tip, skip := chain.pindexBest, chain.SkipSignatures();
    ghost var reached := Offer(sync, h);
    ghost var b := chain.mapBlockIndex[h];
    assert b.Path()[..h - 1] == tip.Path();
    Decide(chain, tip, b, h - 1, h, skip);
    assert Intermediate(tip.derived.bnChainTrust, b) == b;
  }

  /** The blocks 5, 6 and 7 have no more trust than 4. */
  method Trail(sync: SyncCheckpoints, h: Hash)
    requires 5 <= h <= 7 && sync.Safe() && sync.chain.Valid() && PlainWorld(sync.chain, h - 1) && sync.hashSyncCheckpoint == 1
    requires 4 in sync.chain.mapBlockIndex && sync.chain.pindexBest == sync.chain.mapBlockIndex[4]
    modifies sync.chain, sync.chain.txdb, sync.chain.mapBlockIndex.Values
    ensures sync.Safe() && sync.chain.Valid() && PlainWorld(sync.chain, h)
    ensures 4 in sync.chain.mapBlockIndex && sync.chain.pindexBest == sync.chain.mapBlockIndex[4]
    ensures fresh(sync.chain.mapBlockIndex.Values - old(sync.chain.mapBlockIndex.Values))
  {
    hide TreeIn, BlockIndex.Wf, Switches, Intact, Replay, Chain.OnTip, PlainWorld, StopsAt, SyncCheckpoints.StoredAdvance, Chain.DerivedTree, FittingIn;
    InSyncWithGenesis(sync, h);
    PlainBranches(sync.chain, h - 1);
    ghost var reached := Offer(sync, h);
  }

  /** The blocks 1 to 4 have arrived. */
  method Grow() returns (sync: SyncCheckpoints)
    ensures fresh(sync) && fresh(sync.chain) && fresh(sync.chain.txdb) && fresh(sync.chain.mapBlockIndex.Values)
    ensures sync.Safe() && sync.chain.Valid() && PlainWorld(sync.chain, 4) && sync.hashSyncCheckpoint == 1
    ensures 4 in sync.chain.mapBlockIndex && sync.chain.pindexBest == sync.chain.mapBlockIndex[4]
  {
    hide TreeIn, BlockIndex.Wf, Replay, Chain.Valid, Chain.OnTip, PlainWorld, SyncCheckpoints.Safe, PlainIndex;
    sync := Start();
    Lead(sync, 2);
    Lead(sync, 3);
    Lead(sync, 4);
  }

  /** Best block 4 against the branch 5, 6, 7 of the same trust, in which 7 is bad. A checkpoint on 5 makes 5 the best block; then 8
  arrives. The first block with more trust than 5 is 6, which is accepted; 7 is postponed and refused; and yet the best-block pointer
  moves to 8, while the index and the best chain of the database are those of 6. */
  method Fails() returns (sync: SyncCheckpoints)
    ensures sync.Safe() && !sync.chain.Valid()
    ensures forall h | 1 <= h <= LAST :: h in sync.chain.mapBlockIndex && CheckBlock(sync.chain.rules, sync.chain.mapBlockIndex[h].block)
    ensures sync.chain.pindexBest == sync.chain.mapBlockIndex[8] && sync.chain.OnTip(sync.chain.mapBlockIndex[6])
  {
    hide TreeIn, BlockIndex.Wf, Replay, Chain.Valid, Chain.OnTip, PlainWorld, SyncCheckpoints.Safe, CheckBlock, PlainIndex;
    sync := Grow();
    Trail(sync, 5);
    Trail(sync, 6);
    Trail(sync, 7);
    Strike(sync);
    WorldSound(sync.chain);
  }

  lemma WorldSound(chain: Chain)
    requires PlainWorld(chain, LAST)
    ensures forall h | 1 <= h <= LAST :: h in chain.mapBlockIndex && CheckBlock(chain.rules, chain.mapBlockIndex[h].block)
  {
    hide CheckBlock;
    forall h | 1 <= h <= LAST ensures h in chain.mapBlockIndex && CheckBlock(chain.rules, chain.mapBlockIndex[h].block) {
      PlainSound(chain.mapBlockIndex[h].hash);
    }
  }

  method Strike(sync: SyncCheckpoints)
    requires sync.Safe() && sync.chain.Valid() && PlainWorld(sync.chain, 7) && sync.hashSyncCheckpoint == 1
    requires 4 in sync.chain.mapBlockIndex && sync.chain.pindexBest == sync.chain.mapBlockIndex[4]
    modifies sync, sync.chain, sync.chain.txdb, sync.chain.mapBlockIndex.Values
    ensures sync.Safe() && !sync.chain.Valid() && PlainWorld(sync.chain, LAST)
    ensures 6 in sync.chain.mapBlockIndex && 8 in sync.chain.mapBlockIndex
    ensures sync.chain.pindexBest == sync.chain.mapBlockIndex[8] && sync.chain.OnTip(sync.chain.mapBlockIndex[6])
  {
    hide TreeIn, BlockIndex.Wf, Replay, Chain.OnTip, PlainWorld, StopsAt, SyncCheckpoints.StoredAdvance, Chain.DerivedTree, FittingIn,
         SyncCheckpoints.Newer, SyncCheckpoints.Movable, SyncCheckpoints.Intact, SyncCheckpoints.Destination, SyncCheckpoints.InSync,
         Switches, Intact, Branches, Intermediate;
    var chain := sync.chain;
    FiveIsMovable(sync);
    var ok;
    ghost var reached;
    ok, reached := sync.ProcessSyncCheckpoint(5, true);
    InSyncWithFive(sync);
    ghost var skip := chain.SkipSignatures();
    reached := Offer(sync, 8);
    Refused(chain, reached, skip);
  }

  /** On the way from 5 to 8 the block 6 is reached and no other. */
  lemma Refused(chain: Chain, reached: BlockIndex, skip: bool)
    requires PlainWorld(chain, 8) && chain.TreeOk()
    ensures var m := chain.mapBlockIndex;
            && 5 in m && 6 in m && 8 in m && m[8].Wf() && chain.rules == RULES && m[5].derived.bnChainTrust == 2
            && Switches(RULES, m[5], m[8], chain.disk, skip) && !Intact(RULES, m[5], m[8], chain.disk, skip)
            && (StopsAt(RULES, Intermediate(2, m[8]), m[8], reached, chain.disk, skip) ==> reached == m[6])
  {
    hide TreeIn, BlockIndex.Wf, BranchOk, PlainWorld, StopsAt;
    PlainBranches(chain, 8);
    var m := chain.mapBlockIndex;
    Decide(chain, m[5], m[6], 2, 8, skip);
    Decide(chain, m[5], m[8], 2, 8, skip);
    assert m[8].Path()[3].hash == BAD;
    assert Intermediate(2, m[6]) == m[6] && Intermediate(2, m[7]) == m[6] && Intermediate(2, m[8]) == m[6];
    if StopsAt(RULES, m[6], m[8], reached, chain.disk, skip) {
      Stops(chain, m, reached, skip);
    }
  }

  lemma Stops(chain: Chain, m: map<Hash, BlockIndex>, reached: BlockIndex, skip: bool)
    requires PlainWorld(chain, 8) && chain.TreeOk() && m == chain.mapBlockIndex && Branches(m, 8)
    requires StopsAt(RULES, m[6], m[8], reached, chain.disk, skip)
    ensures reached == m[6]
  {
    hide TreeIn, Extends, ChainTxs, DistinctHashes, BlockIndex.Wf, PlainIndex, PlainWorld, StopsAt;
    PlainTree(chain, m[8], 8);
    WfLength(m[6]);
    var path := m[8].Path();
    PrefixDistinct(path, 4);
    PlainExtends(path[..4], chain.disk, skip);
    assert Last(path[..4]) == path[3] == m[7];
    NoFurther(m[6], m[8], reached, 3, chain.disk, skip);
  }

  lemma NoFurther(inter: BlockIndex, b: BlockIndex, reached: BlockIndex, j: nat, disk: Disk, skip: bool)
    requires StopsAt(RULES, inter, b, reached, disk, skip)
    requires inter.nHeight < j < |b.Path()| && !Extends(RULES, b.Path()[..j + 1], disk, skip)
    ensures inter.nHeight <= reached.nHeight < j && IsAncestor(reached, b)
  {
    hide Extends;
  }
}

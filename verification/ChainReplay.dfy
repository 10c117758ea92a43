/** What the transaction index must be for a given path of blocks, and which blocks may extend it.

`Replay` connects every block of a path from the genesis block, whose own transactions are never
indexed. Module ChainState keeps the database equal to the replay of the path to the best block. */
module ChainReplay {
  import opened Wrappers
  import opened Ledger
  import opened BlockTree
  import opened TxConnect

  // ---------------------------------------------------------------- positions on disk

  function CompactSizeLen(n: nat): nat {
    if n < 253 then 1 else if n <= 0xFFFF then 3 else if n <= 0xFFFF_FFFF then 5 else 9
  }

  function SizeBefore(vtx: seq<Tx>, i: nat): nat
    requires i <= |vtx|
  {
    if i == 0 then 0 else SizeBefore(vtx, i - 1) + vtx[i - 1].nBytes
  }

  /** Serialized size of an empty block: an 80-byte header and two empty vectors. */
  const EMPTY_BLOCK_SIZE: nat := 82

  /** Where the first transaction of a block starts. */
  function FirstTxPos(b: BlockIndex): nat {
    b.nBlockPos + EMPTY_BLOCK_SIZE - 2 * CompactSizeLen(0) + CompactSizeLen(|b.block.vtx|)
  }

  function PosOf(b: BlockIndex, i: nat): DiskTxPos
    requires i <= |b.block.vtx|
  {
    DiskTxPos(b.nFile, b.nBlockPos, FirstTxPos(b) + SizeBefore(b.block.vtx, i))
  }

  function PlacedBlock(b: BlockIndex): (ps: seq<Placed>)
    ensures |ps| == |b.block.vtx|
    ensures forall i {:trigger ps[i]} | 0 <= i < |ps| :: ps[i] == Placed(b.block.vtx[i], PosOf(b, i))
  {
    seq(|b.block.vtx|, i requires 0 <= i < |b.block.vtx| => Placed(b.block.vtx[i], PosOf(b, i)))
  }

  /** A count below 253 takes one byte; others take a marker and as many of two, four or eight bytes as they need. */
  lemma CountLength(n: nat)
    requires n < 0x1_0000_0000_0000_0000
    ensures var k := CompactSizeLen(n);
            && k in {1, 3, 5, 9} && (k == 1 <==> n < 253)
            && (k == 3 ==> n < 0x1_0000) && (k == 5 ==> 0x1_0000 <= n < 0x1_0000_0000) && (k == 9 ==> n >= 0x1_0000_0000)
  {
  }

  /** The first transaction of a block comes right after the 80 bytes of its header and the count, each other one after the one before it. */
  lemma PlacesFollow(b: BlockIndex, i: nat)
    requires i < |b.block.vtx|
    ensures PosOf(b, i).nFile == b.nFile && PosOf(b, i).nBlockPos == b.nBlockPos
    ensures PosOf(b, 0).nTxPos == b.nBlockPos + 80 + CompactSizeLen(|b.block.vtx|)
    ensures PosOf(b, i + 1).nTxPos == PosOf(b, i).nTxPos + b.block.vtx[i].nBytes
  {
    assert SizeBefore(b.block.vtx, 0) == 0;
  }

  lemma {:induction false} SizeGrows(vtx: seq<Tx>, i: nat, j: nat)
    requires i < j <= |vtx| && forall k | 0 <= k < |vtx| :: vtx[k].nBytes > 0
    ensures SizeBefore(vtx, i) < SizeBefore(vtx, j)
  {
    if i + 1 < j {
      SizeGrows(vtx, i, j - 1);
    }
  }

  /** Two transactions are at the same position only if they are the same one of the same block file entry. */
  lemma PositionsDistinct(a: BlockIndex, i: nat, b: BlockIndex, j: nat)
    requires i < |a.block.vtx| && j < |b.block.vtx|
    requires forall k | 0 <= k < |a.block.vtx| :: a.block.vtx[k].nBytes > 0
    requires a.nFile == b.nFile && a.nBlockPos == b.nBlockPos ==> a == b
    ensures PosOf(a, i) == PosOf(b, j) <==> a == b && i == j
  {
    if a == b && i < j {
      SizeGrows(a.block.vtx, i, j);
    } else if a == b && j < i {
      SizeGrows(a.block.vtx, j, i);
    }
  }

  /** What writing a block to its file adds: each transaction at its position. */
  function WrittenBlock(b: BlockIndex, i: nat): Disk
    requires i <= |b.block.vtx|
  {
    if i == 0 then map[] else WrittenBlock(b, i - 1)[PosOf(b, i - 1) := b.block.vtx[i - 1]]
  }

  lemma {:induction false} WrittenPlace(b: BlockIndex, i: nat)
    requires i <= |b.block.vtx|
    ensures forall p | p in WrittenBlock(b, i) :: InBlockFile(b, p)
  {
    if i > 0 {
      WrittenPlace(b, i - 1);
    }
  }

  /** A position inside the space a block takes in its file. */
  predicate InBlockFile(b: BlockIndex, p: DiskTxPos) {
    p.DiskTxPos? && p.nFile == b.nFile && p.nBlockPos == b.nBlockPos && p != MEMPOOL_POS
  }

  lemma {:induction false} WrittenIsStored(b: BlockIndex, i: nat, j: nat)
    requires j < i <= |b.block.vtx| && forall k | 0 <= k < |b.block.vtx| :: b.block.vtx[k].nBytes > 0
    ensures PosOf(b, j) in WrittenBlock(b, i) && WrittenBlock(b, i)[PosOf(b, j)] == b.block.vtx[j]
  {
    if j < i - 1 {
      WrittenIsStored(b, i - 1, j);
      PositionsDistinct(b, j, b, i - 1);
    }
  }

  // ---------------------------------------------------------------- replaying a path

  function Last<T>(s: seq<T>): T
    requires |s| > 0
  {
    s[|s| - 1]
  }

  /** The index after connecting every block of `path` but the first, the genesis block. */
  function Replay(path: seq<BlockIndex>): Option<TxMap> {
    if |path| <= 1 then Some(map[]) else ConnectMore(Replay(path[..|path| - 1]), PlacedBlock(Last(path)))
  }

  /** All transactions of a path, the genesis block's left out. */
  function ChainTxs(path: seq<BlockIndex>): seq<Placed> {
    if |path| <= 1 then [] else ChainTxs(path[..|path| - 1]) + PlacedBlock(Last(path))
  }

  lemma {:induction false} ReplayIsConnect(path: seq<BlockIndex>)
    ensures Replay(path) == ConnectAll(map[], ChainTxs(path))
  {
    if |path| > 1 {
      var prefix := path[..|path| - 1];
      ReplayIsConnect(prefix);
      ConnectAllAppend(map[], ChainTxs(prefix), PlacedBlock(Last(path)));
    }
  }

  lemma {:induction false} ReplayPrefix(path: seq<BlockIndex>, k: nat)
    requires 1 <= k <= |path| && Replay(path).Some?
    ensures Replay(path[..k]).Some?
    decreases |path|
  {
    if k < |path| {
      ReplayPrefix(path[..|path| - 1], k);
      assert path[..|path| - 1][..k] == path[..k];
    } else {
      assert path[..k] == path;
    }
  }

  lemma {:induction false} ChainTxsPlaced(path: seq<BlockIndex>)
    ensures forall j | 0 <= j < |ChainTxs(path)| :: !ChainTxs(path)[j].pos.NoPos?
  {
    if |path| > 1 {
      ChainTxsPlaced(path[..|path| - 1]);
    }
  }

  /** The transactions of the last block of a path of distinct transactions are new to the index. */
  lemma LastBlockIsNew(path: seq<BlockIndex>)
    requires |path| > 1 && Replay(path[..|path| - 1]).Some? && DistinctHashes(ChainTxs(path))
    ensures DistinctHashes(PlacedBlock(Last(path)))
    ensures DistinctHashes(ChainTxs(path[..|path| - 1]))
    ensures forall j | 0 <= j < |PlacedBlock(Last(path))| ::
              PlacedBlock(Last(path))[j].tx.hash !in Replay(path[..|path| - 1]).value
  {
    hide DistinctHashes, Replay, PlacedBlock;
    var prefix := path[..|path| - 1];
    DistinctParts(ChainTxs(prefix), PlacedBlock(Last(path)));
    ReplayIsConnect(prefix);
    ChainTxsPlaced(prefix);
    ConnectFirstKeys(map[], ChainTxs(prefix), |ChainTxs(prefix)|);
  }

  lemma DistinctParts(ps: seq<Placed>, qs: seq<Placed>)
    requires DistinctHashes(ps + qs)
    ensures DistinctHashes(ps) && DistinctHashes(qs)
    ensures forall j | 0 <= j < |qs| :: qs[j].tx.hash !in Hashes(ps, |ps|)
  {
    var all := ps + qs;
    forall j, k | 0 <= j < k < |ps| ensures ps[j].tx.hash != ps[k].tx.hash {
      assert all[j].tx.hash != all[k].tx.hash;
    }
    forall j, k | 0 <= j < k < |qs| ensures qs[j].tx.hash != qs[k].tx.hash {
      assert all[|ps| + j].tx.hash != all[|ps| + k].tx.hash;
    }
    forall j | 0 <= j < |qs| ensures qs[j].tx.hash !in Hashes(ps, |ps|) {
      forall k | 0 <= k < |ps| ensures ps[k].tx.hash != qs[j].tx.hash {
        assert all[k].tx.hash != all[|ps| + j].tx.hash;
      }
    }
  }

  /** Disconnecting the last block of a path gives the index of the rest, whatever the block spends. */
  lemma UndoLast(path: seq<BlockIndex>)
    requires |path| > 1 && Replay(path).Some? && DistinctHashes(ChainTxs(path))
    ensures DisconnectAll(Replay(path).value, PlacedBlock(Last(path))) == Replay(path[..|path| - 1])
  {
    LastBlockIsNew(path);
    UndoBlock(Replay(path[..|path| - 1]).value, PlacedBlock(Last(path)));
  }

  // ---------------------------------------------------------------- money

  ghost predicate AllStored(path: seq<BlockIndex>, disk: Disk) {
    forall i | 0 <= i < |path| :: Stored(PlacedBlock(path[i]), disk)
  }

  lemma {:induction false} ReplayBacked(path: seq<BlockIndex>, disk: Disk)
    requires Replay(path).Some? && AllStored(path, disk) && DistinctHashes(ChainTxs(path))
    ensures Backed(Replay(path).value, disk)
  {
    if |path| > 1 {
      var prefix := path[..|path| - 1];
      LastBlockIsNew(path);
      ReplayBacked(prefix, disk);
      ConnectValue(Replay(prefix).value, disk, PlacedBlock(Last(path)), |PlacedBlock(Last(path))|);
    }
  }

  /** The unspent total of a path grows with its last block by what that block creates net. */
  lemma ReplayMoney(path: seq<BlockIndex>, disk: Disk)
    requires |path| > 1 && Replay(path).Some? && AllStored(path, disk) && DistinctHashes(ChainTxs(path))
    ensures var before := Replay(path[..|path| - 1]).value;
            var ps := PlacedBlock(Last(path));
            Unspent(Replay(path).value, disk) == Unspent(before, disk) + NetValue(before, disk, ps, |ps|)
  {
    var prefix := path[..|path| - 1];
    LastBlockIsNew(path);
    ReplayBacked(prefix, disk);
    ConnectValue(Replay(prefix).value, disk, PlacedBlock(Last(path)), |PlacedBlock(Last(path))|);
  }

  /** On a replayed path the index names, for every output, exactly the inputs of the path that spend it. */
  lemma SpentOnPath(path: seq<BlockIndex>, op: OutPoint)
    requires Replay(path).Some? && DistinctHashes(ChainTxs(path))
    ensures Spenders(ChainTxs(path), |ChainTxs(path)|, op) == Recorded(Replay(path).value, op)
    ensures |Spenders(ChainTxs(path), |ChainTxs(path)|, op)| <= 1
  {
    ReplayIsConnect(path);
    ChainTxsPlaced(path);
    SpentExactly(map[], ChainTxs(path), |ChainTxs(path)|, op);
  }

  // ---------------------------------------------------------------- which blocks are accepted

  predicate CheckTransaction(tx: Tx) {
    && tx.vin != [] && tx.vout != []
    && (forall i | 0 <= i < |tx.vout| ::
          && (tx.vout[i].IsEmpty() ==> tx.IsCoinBase() || tx.IsCoinStake())
          && MoneyRange(tx.vout[i].nValue) && MoneyRange(SumOut(tx.vout, i + 1)))
    && (forall i, j | 0 <= i < j < |tx.vin| :: tx.vin[i].prevout != tx.vin[j].prevout)
    && (if tx.IsCoinBase() then 2 <= |tx.vin[0].scriptSig| <= 100
        else forall i | 0 <= i < |tx.vin| :: !tx.vin[i].prevout.IsNull())
  }

  /** The first transaction is the only coinbase, ids are distinct, and each transaction is sound. */
  predicate CheckBlock(rules: Rules, block: Block) {
    && block.vtx != [] && block.vtx[0].IsCoinBase()
    && (forall i | 1 <= i < |block.vtx| :: !block.vtx[i].IsCoinBase())
    && (block.IsProofOfStake() ==> |block.vtx[0].vout| == 1 && block.vtx[0].vout[0].IsEmpty())
    && (forall i | 0 <= i < |block.vtx| :: CheckTransaction(block.vtx[i]) && block.vtx[i].nTime <= block.nTime)
    && (forall i, j | 0 <= i < j < |block.vtx| :: block.vtx[i].hash != block.vtx[j].hash)
    && rules.blockChecks(block)
  }

  lemma {:induction false} SumGrows(vout: seq<TxOut>, i: nat, j: nat)
    requires i <= j <= |vout| && forall k | 0 <= k < |vout| :: vout[k].nValue >= 0
    ensures 0 <= SumOut(vout, i) <= SumOut(vout, j)
    decreases j
  {
    if i < j {
      SumGrows(vout, i, j - 1);
    } else if i > 0 {
      SumGrows(vout, i - 1, i - 1);
    }
  }

  /** A transaction has inputs and outputs, no output is negative and together they are within the money there can be, no output is empty
  except in a coinbase or coinstake, no input is named twice, and null inputs are for a coinbase, whose script has 2 to 100 bytes. */
  ghost predicate IsSound(tx: Tx) {
    && |tx.vin| > 0 && |tx.vout| > 0
    && (forall i | 0 <= i < |tx.vout| :: tx.vout[i].nValue >= 0) && ValueOut(tx) <= MAX_MONEY
    && (tx.IsCoinBase() || tx.IsCoinStake() || forall i | 0 <= i < |tx.vout| :: !tx.vout[i].IsEmpty())
    && (forall i, j | 0 <= i < j < |tx.vin| :: tx.vin[i].prevout != tx.vin[j].prevout)
    && (tx.IsCoinBase() ==> 2 <= |tx.vin[0].scriptSig| <= 100)
    && (!tx.IsCoinBase() ==> forall i | 0 <= i < |tx.vin| :: !tx.vin[i].prevout.IsNull())
  }

  /** The checks on one transaction, with their partial sums, demand just that. */
  lemma SoundTransaction(tx: Tx)
    ensures CheckTransaction(tx) <==> IsSound(tx)
  {
    hide CheckTransaction, IsSound;
    if CheckTransaction(tx) {
      CheckedIsSound(tx);
    }
    if IsSound(tx) {
      SoundIsChecked(tx);
    }
  }

  lemma CheckedIsSound(tx: Tx)
    requires CheckTransaction(tx)
    ensures IsSound(tx)
  {
    CheckedValue(tx, |tx.vout| - 1);
  }

  lemma SoundIsChecked(tx: Tx)
    requires IsSound(tx)
    ensures CheckTransaction(tx)
  {
    forall i | 0 <= i < |tx.vout|
      ensures (tx.vout[i].IsEmpty() ==> tx.IsCoinBase() || tx.IsCoinStake()) && MoneyRange(tx.vout[i].nValue) && MoneyRange(SumOut(tx.vout, i + 1))
    {
      SumGrows(tx.vout, i, i);
      SumGrows(tx.vout, i + 1, |tx.vout|);
      SumStep(tx.vout, i);
    }
  }

  lemma CheckedValue(tx: Tx, i: nat)
    requires CheckTransaction(tx) && i < |tx.vout|
    ensures MoneyRange(tx.vout[i].nValue) && MoneyRange(SumOut(tx.vout, i + 1))
    ensures i + 1 == |tx.vout| ==> ValueOut(tx) <= MAX_MONEY
  {
  }

  lemma SumStep(vout: seq<TxOut>, i: nat)
    requires i < |vout|
    ensures SumOut(vout, i + 1) == SumOut(vout, i) + vout[i].nValue
  {
  }

  /** The checks on a whole block that look at its transactions: one coinbase and that first, empty in a proof-of-stake block, sound transactions no
  later than the block, and different ids. */
  lemma SoundBlock(rules: Rules, block: Block)
    ensures CheckBlock(rules, block) <==>
              && |block.vtx| > 0 && (forall i | 0 <= i < |block.vtx| :: block.vtx[i].IsCoinBase() <==> i == 0)
              && (|block.vtx| > 1 && block.vtx[1].IsCoinStake() ==> block.vtx[0].vout == [TxOut(0, [])])
              && (forall i | 0 <= i < |block.vtx| :: CheckTransaction(block.vtx[i]) && block.nTime >= block.vtx[i].nTime)
              && (forall i, j | 0 <= i < |block.vtx| && 0 <= j < |block.vtx| && i != j :: block.vtx[i].hash != block.vtx[j].hash)
              && rules.blockChecks(block)
  {
    hide CheckTransaction;
    if CheckBlock(rules, block) {
      forall i, j | 0 <= i < |block.vtx| && 0 <= j < |block.vtx| && i != j ensures block.vtx[i].hash != block.vtx[j].hash {
        assert if i < j then block.vtx[i].hash != block.vtx[j].hash else block.vtx[j].hash != block.vtx[i].hash;
      }
    }
  }

  /** What FetchInputs returns for a block being connected. */
  function InputsFrom(view: TxMap, disk: Disk, vin: seq<TxIn>): Inputs {
    map h | h in PrevHashes(vin, |vin|) && h in view && view[h].pos in disk :: (view[h], disk[view[h].pos])
  }

  /** One transaction passes: nothing unspent is overwritten, and its inputs connect. */
  ghost predicate TxAccepted(rules: Rules, start: TxMap, view: TxMap, disk: Disk, p: Placed, pindex: BlockIndex, skip: bool) {
    && Overwritable(start, p.tx.hash)
    && (p.tx.IsCoinBase() || Connectable(rules, p.tx, InputsFrom(view, disk, p.tx.vin), start, p.pos, pindex, skip))
  }

  function TxSigOps(rules: Rules, view: TxMap, disk: Disk, tx: Tx): nat {
    rules.legacySigOps(tx) + if tx.IsCoinBase() then 0 else rules.p2shSigOps(tx, Prevs(InputsFrom(view, disk, tx.vin)))
  }

  function ViewAt(start: TxMap, ps: seq<Placed>, i: nat): TxMap
    requires i <= |ps|
  {
    match ConnectFirst(start, ps, i) case None => map[] case Some(v) => v
  }

  function SigOpsUpTo(rules: Rules, start: TxMap, disk: Disk, ps: seq<Placed>, i: nat): nat
    requires i <= |ps|
  {
    if i == 0 then 0 else
      SigOpsUpTo(rules, start, disk, ps, i - 1) + TxSigOps(rules, ViewAt(start, ps, i - 1), disk, ps[i - 1].tx)
  }

  /** Each transaction counts with the operations in its own scripts and, unless it is a coinbase, those in the scripts it spends. */
  lemma SigOpsStep(rules: Rules, start: TxMap, disk: Disk, ps: seq<Placed>, i: nat)
    requires i < |ps|
    ensures var tx, inputs := ps[i].tx, InputsFrom(ViewAt(start, ps, i), disk, ps[i].tx.vin);
            SigOpsUpTo(rules, start, disk, ps, i + 1) == SigOpsUpTo(rules, start, disk, ps, i) + rules.legacySigOps(tx) +
              if tx.IsCoinBase() then 0 else rules.p2shSigOps(tx, map h | h in inputs :: inputs[h].1)
    ensures SigOpsUpTo(rules, start, disk, ps, 0) == 0
  {
    var inputs := InputsFrom(ViewAt(start, ps, i), disk, ps[i].tx.vin);
    assert Prevs(inputs) == map h | h in inputs :: inputs[h].1;
  }

  ghost predicate AcceptedUpTo(rules: Rules, start: TxMap, disk: Disk, ps: seq<Placed>, i: nat, pindex: BlockIndex, skip: bool)
    requires i <= |ps|
  {
    i > 0 ==>
      && AcceptedUpTo(rules, start, disk, ps, i - 1, pindex, skip)
      && TxAccepted(rules, start, ViewAt(start, ps, i - 1), disk, ps[i - 1], pindex, skip)
      && SigOpsUpTo(rules, start, disk, ps, i) <= MAX_BLOCK_SIGOPS
  }

  function FeesUpTo(start: TxMap, disk: Disk, ps: seq<Placed>, i: nat): int
    requires i <= |ps|
  {
    if i == 0 then 0 else
      var tx := ps[i - 1].tx;
      FeesUpTo(start, disk, ps, i - 1) +
      if tx.IsCoinBase() || tx.IsCoinStake() then 0
      else ValueIn(ViewAt(start, ps, i - 1), disk, tx) - ValueOut(tx)
  }

  /** Everything ConnectBlock demands of a block above the genesis block. */
  ghost predicate BlockAccepted(rules: Rules, start: TxMap, disk: Disk, pindex: BlockIndex, skip: bool) {
    var ps := PlacedBlock(pindex);
    && CheckBlock(rules, pindex.block)
    && AcceptedUpTo(rules, start, disk, ps, |ps|, pindex, skip)
    && ValueOut(pindex.block.vtx[0]) <= rules.powReward(pindex.derived.nPOWHeight, FeesUpTo(start, disk, ps, |ps|))
  }

  lemma {:induction false} AcceptedPrefix(rules: Rules, start: TxMap, disk: Disk, ps: seq<Placed>, i: nat, k: nat, pindex: BlockIndex, skip: bool)
    requires i <= k <= |ps| && AcceptedUpTo(rules, start, disk, ps, k, pindex, skip)
    ensures AcceptedUpTo(rules, start, disk, ps, i, pindex, skip)
    decreases k - i
  {
    if i < k {
      AcceptedPrefix(rules, start, disk, ps, i, k - 1, pindex, skip);
    }
  }

  lemma EarlierOverwritable(rules: Rules, start: TxMap, disk: Disk, ps: seq<Placed>, j: nat, i: nat, pindex: BlockIndex, skip: bool)
    requires j < i <= |ps| && AcceptedUpTo(rules, start, disk, ps, i, pindex, skip)
    ensures Overwritable(start, ps[j].tx.hash)
  {
    AcceptedPrefix(rules, start, disk, ps, j + 1, i, pindex, skip);
  }

  /** The last block of `path` is accepted on top of the others. */
  ghost predicate Extends(rules: Rules, path: seq<BlockIndex>, disk: Disk, skip: bool) {
    && |path| > 1
    && Replay(path[..|path| - 1]).Some?
    && BlockAccepted(rules, Replay(path[..|path| - 1]).value, disk, Last(path), skip)
  }

  /** Every block of `path` from position `k` on is accepted on top of those before it. */
  ghost predicate BranchAccepted(rules: Rules, path: seq<BlockIndex>, k: nat, disk: Disk, skip: bool) {
    forall i {:trigger path[..i + 1]} | k <= i < |path| :: Extends(rules, path[..i + 1], disk, skip)
  }

  /** Is every block of the way from the fork with `tip` up to `b` accepted in its place? */
  ghost predicate BranchOk(rules: Rules, tip: BlockIndex, b: BlockIndex, disk: Disk, skip: bool) {
    BranchAccepted(rules, b.Path(), Shared(tip.Path(), b.Path()), disk, skip)
  }

  /** Does the way get as far as the first block with more trust than `tip`? */
  ghost predicate Switches(rules: Rules, tip: BlockIndex, b: BlockIndex, disk: Disk, skip: bool)
    requires b.Wf()
  {
    BranchOk(rules, tip, Intermediate(tip.derived.bnChainTrust, b), disk, skip)
  }

  /** Making `b` the best block leaves a consistent state: it fails at once, or no block on the way is refused. */
  ghost predicate Intact(rules: Rules, tip: BlockIndex, b: BlockIndex, disk: Disk, skip: bool)
    requires b.Wf()
  {
    Switches(rules, tip, b, disk, skip) ==> BranchOk(rules, tip, b, disk, skip)
  }

  /** The blocks from `inter` on up to `reached` are accepted, and the next one towards `b` is not. */
  ghost predicate StopsAt(rules: Rules, inter: BlockIndex, b: BlockIndex, reached: BlockIndex, disk: Disk, skip: bool) {
    && IsAncestor(reached, b) && inter.nHeight <= reached.nHeight
    && (forall j {:trigger b.Path()[..j + 1]} | inter.nHeight < j <= reached.nHeight :: Extends(rules, b.Path()[..j + 1], disk, skip))
    && (reached == b || (reached.nHeight + 1 < |b.Path()| && !Extends(rules, b.Path()[..reached.nHeight + 2], disk, skip)))
  }

  // ---------------------------------------------------------------- prefixes of a path

  lemma {:induction false} ChainTxsPrefix(path: seq<BlockIndex>, k: nat)
    requires 1 <= k <= |path|
    ensures ChainTxs(path[..k]) <= ChainTxs(path)
    decreases |path|
  {
    if k < |path| {
      ChainTxsPrefix(path[..|path| - 1], k);
      assert path[..|path| - 1][..k] == path[..k];
    } else {
      assert path[..k] == path;
    }
  }

  lemma PrefixFacts(path: seq<BlockIndex>, k: nat, disk: Disk)
    requires 1 <= k <= |path| && DistinctHashes(ChainTxs(path)) && AllStored(path, disk)
    ensures DistinctHashes(ChainTxs(path[..k])) && AllStored(path[..k], disk)
  {
    ChainTxsPrefix(path, k);
  }

  lemma ReplayStep(path: seq<BlockIndex>, k: nat)
    requires 1 <= k < |path|
    ensures Replay(path[..k + 1]) == ConnectMore(Replay(path[..k]), PlacedBlock(path[k]))
    ensures path[..k + 1][..k] == path[..k] && Last(path[..k + 1]) == path[k]
  {
    var p := path[..k + 1];
    assert p[..|p| - 1] == path[..k];
  }

  lemma ExtendsAt(rules: Rules, path: seq<BlockIndex>, k: nat, disk: Disk, skip: bool)
    requires 1 <= k < |path|
    ensures Extends(rules, path[..k + 1], disk, skip) <==>
            Replay(path[..k]).Some? && BlockAccepted(rules, Replay(path[..k]).value, disk, path[k], skip)
  {
    hide Replay, BlockAccepted;
    assert path[..k + 1][..k] == path[..k];
  }

  /** Disconnecting block `k` of a path, counted from the genesis block. */
  lemma UndoAt(path: seq<BlockIndex>, k: nat)
    requires 1 <= k < |path| && Replay(path[..k + 1]).Some? && DistinctHashes(ChainTxs(path))
    ensures DisconnectAll(Replay(path[..k + 1]).value, PlacedBlock(path[k])) == Replay(path[..k])
    ensures Replay(path[..k]).Some?
  {
    hide Replay, DisconnectAll, DistinctHashes, ChainTxs, ConnectMore, PlacedBlock;
    PrefixDistinct(path, k + 1);
    ReplayStep(path, k);
    ReplayPrefix(path[..k + 1], k);
    UndoLast(path[..k + 1]);
  }

  lemma PrefixDistinct(path: seq<BlockIndex>, k: nat)
    requires 1 <= k <= |path| && DistinctHashes(ChainTxs(path))
    ensures DistinctHashes(ChainTxs(path[..k]))
  {
    ChainTxsPrefix(path, k);
  }

  /** A larger disk holds the same outputs. */
  lemma {:induction false} UnspentOnLargerDisk(view: TxMap, disk: Disk, disk': Disk, hs: set<Hash>)
    requires Backed(view, disk) && hs <= view.Keys
    requires forall p | p in disk :: p in disk' && disk'[p] == disk[p]
    ensures UnspentOver(view, disk, hs) == UnspentOver(view, disk', hs)
    decreases hs
  {
    if hs != {} {
      var h :| h in hs;
      UnspentRemove(view, disk, hs, h);
      UnspentRemove(view, disk', hs, h);
      assert EntryBacked(h, view[h], disk);
      UnspentOnLargerDisk(view, disk, disk', hs - {h});
    }
  }

  ghost predicate Larger(disk: Disk, disk': Disk) {
    forall p | p in disk :: p in disk' && disk'[p] == disk[p]
  }

  lemma StoredOnLargerDisk(path: seq<BlockIndex>, disk: Disk, disk': Disk)
    requires AllStored(path, disk) && Larger(disk, disk')
    ensures AllStored(path, disk')
  {
    forall i | 0 <= i < |path| ensures Stored(PlacedBlock(path[i]), disk') {
      assert Stored(PlacedBlock(path[i]), disk);
    }
  }

  lemma MoneyOnLargerDisk(path: seq<BlockIndex>, k: nat, disk: Disk, disk': Disk)
    requires 1 <= k <= |path| && Replay(path[..k]).Some? && AllStored(path, disk) && DistinctHashes(ChainTxs(path))
    requires Larger(disk, disk')
    ensures Unspent(Replay(path[..k]).value, disk) == Unspent(Replay(path[..k]).value, disk')
  {
    hide Replay, DistinctHashes, ChainTxs, AllStored;
    PrefixFacts(path, k, disk);
    ReplayBacked(path[..k], disk);
    UnspentOnLargerDisk(Replay(path[..k]).value, disk, disk', Replay(path[..k]).value.Keys);
  }

  ghost predicate SameMoney(path: seq<BlockIndex>, i: nat, disk: Disk, disk': Disk) {
    i < |path| && Replay(path[..i + 1]).Some? ==>
      Unspent(Replay(path[..i + 1]).value, disk) == Unspent(Replay(path[..i + 1]).value, disk')
  }

  /** All along a path, writing more to the disk leaves the money of the unspent outputs alone. */
  lemma MoneyAlongLargerDisk(path: seq<BlockIndex>, disk: Disk, disk': Disk)
    requires AllStored(path, disk) && DistinctHashes(ChainTxs(path)) && Larger(disk, disk')
    ensures forall i | 0 <= i < |path| :: SameMoney(path, i, disk, disk')
  {
    hide Replay, DistinctHashes, ChainTxs, AllStored, Larger, Unspent;
    forall i | 0 <= i < |path| ensures SameMoney(path, i, disk, disk') {
      if Replay(path[..i + 1]).Some? {
        MoneyOnLargerDisk(path, i + 1, disk, disk');
      }
    }
  }

  /** The ids of a block's transactions are distinct and new to a chain (BIP 30 and the height in the coinbase). */
  predicate NewTxids(txs: seq<Placed>, vtx: seq<Tx>) {
    && (forall i, j | 0 <= i < j < |vtx| :: vtx[i].hash != vtx[j].hash)
    && (forall i, j | 0 <= i < |txs| && 0 <= j < |vtx| :: txs[i].tx.hash != vtx[j].hash)
  }

  lemma DistinctExtends(path: seq<BlockIndex>, b: BlockIndex)
    requires |path| > 0 && DistinctHashes(ChainTxs(path)) && NewTxids(ChainTxs(path), b.block.vtx)
    ensures DistinctHashes(ChainTxs(path + [b]))
  {
    hide DistinctHashes, NewTxids;
    assert (path + [b])[..|path|] == path;
    DistinctAppend(ChainTxs(path), b);
  }

  lemma DistinctAppend(txs: seq<Placed>, b: BlockIndex)
    requires DistinctHashes(txs) && NewTxids(txs, b.block.vtx)
    ensures DistinctHashes(txs + PlacedBlock(b))
  {
    var ps := PlacedBlock(b);
    var all: seq<Placed> := txs + ps;
    forall i, j | 0 <= i < j < |all| ensures all[i].tx.hash != all[j].tx.hash {
      if j >= |txs| {
        assert ps[j - |txs|].tx == b.block.vtx[j - |txs|];
        if i >= |txs| {
          assert ps[i - |txs|].tx == b.block.vtx[i - |txs|];
        }
      }
    }
  }
}

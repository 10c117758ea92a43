/** What transactions may pay out: the balance of an accepted transaction, and the money that a block and a branch may create. */
module Issuance {
  import opened Wrappers
  import opened Ledger
  import opened BlockTree
  import opened TxConnect
  import opened ChainReplay
  import opened ChainState

  // ---------------------------------------------------------------- one transaction

  /** Input `k` names an unspent output on disk that is old enough, no later than its spender, in money range and signed for. */
  ghost predicate InputGood(rules: Rules, view: TxMap, disk: Disk, tx: Tx, k: nat, b: BlockIndex, skip: bool)
    requires k < |tx.vin|
  {
    var op := tx.vin[k].prevout;
    && op.hash in view && view[op.hash].pos in disk
    && var e, prev := view[op.hash], disk[view[op.hash].pos];
       && op.n < |prev.vout| && op.n < |e.vSpent| && e.vSpent[op.n].NoPos?
       && (prev.IsCoinBase() || prev.IsCoinStake() ==>
             forall i | 0 <= i < |b.Path()| && |b.Path()| - i <= 100 ::
               !(e.pos.DiskTxPos? && b.Path()[i].nFile == e.pos.nFile && b.Path()[i].nBlockPos == e.pos.nBlockPos))
       && prev.nTime <= tx.nTime
       && 0 <= prev.vout[op.n].nValue <= MAX_MONEY && 0 <= SumIn(view, disk, tx.vin, k + 1) <= MAX_MONEY
       && (skip || rules.verifySignature(prev, tx, k))
  }

  ghost predicate InputsGood(rules: Rules, view: TxMap, disk: Disk, tx: Tx, b: BlockIndex, skip: bool) {
    && (forall k | 0 <= k < |tx.vin| :: InputGood(rules, view, disk, tx, k, b, skip))
    && forall j, k | 0 <= j < k < |tx.vin| :: tx.vin[j].prevout != tx.vin[k].prevout
  }

  lemma FetchedSame(rules: Rules, view: TxMap, disk: Disk, tx: Tx, k: nat, b: BlockIndex, skip: bool)
    requires k < |tx.vin|
    ensures var inputs := InputsFrom(view, disk, tx.vin);
            InputGood(rules, view, disk, tx, k, b, skip) <==>
              && InputSane(tx, inputs, k, b) && Spendable(Entries(inputs), tx.vin[k].prevout) && SignatureOk(rules, tx, inputs, k, skip)
  {
    var op := tx.vin[k].prevout;
    assert op.hash in PrevHashes(tx.vin, |tx.vin|);
    FetchedInIsSumIn(view, disk, tx.vin, k + 1);
    if op.hash in view && view[op.hash].pos in disk {
      MatureSame(view[op.hash], disk[view[op.hash].pos], b);
    }
  }

  lemma MatureSame(e: TxIndex, prev: Tx, b: BlockIndex)
    ensures Immature(e, prev, b) <==>
              (prev.IsCoinBase() || prev.IsCoinStake()) &&
              exists i | 0 <= i < |b.Path()| && |b.Path()| - i <= 100 ::
                e.pos.DiskTxPos? && b.Path()[i].nFile == e.pos.nFile && b.Path()[i].nBlockPos == e.pos.nBlockPos
  {
    if Immature(e, prev, b) {
      var i :| 0 <= i < |b.Path()| && |b.ancestors| - i < COINBASE_MATURITY && SamePlace(b.Path()[i], e.pos);
      assert |b.Path()| - i <= 100;
    }
    if (prev.IsCoinBase() || prev.IsCoinStake())
       && exists i | 0 <= i < |b.Path()| && |b.Path()| - i <= 100 ::
            e.pos.DiskTxPos? && b.Path()[i].nFile == e.pos.nFile && b.Path()[i].nBlockPos == e.pos.nBlockPos {
      var i :| 0 <= i < |b.Path()| && |b.Path()| - i <= 100
               && e.pos.DiskTxPos? && b.Path()[i].nFile == e.pos.nFile && b.Path()[i].nBlockPos == e.pos.nBlockPos;
      assert |b.ancestors| - i < COINBASE_MATURITY && SamePlace(b.Path()[i], e.pos);
    }
  }

  lemma InputsSame(rules: Rules, view: TxMap, disk: Disk, p: Placed, b: BlockIndex, skip: bool)
    requires !p.pos.NoPos?
    ensures var tx, inputs := p.tx, InputsFrom(view, disk, p.tx.vin);
            InputsGood(rules, view, disk, tx, b, skip) <==>
              && (forall k | 0 <= k < |tx.vin| :: InputSane(tx, inputs, k, b))
              && SpendFirst(Entries(inputs), tx.vin, |tx.vin|, p.pos).Some?
              && forall k | 0 <= k < |tx.vin| :: SignatureOk(rules, tx, inputs, k, skip)
  {
    hide InputGood, InputSane, SignatureOk, Spendable, SpendFirst;
    var tx, inputs := p.tx, InputsFrom(view, disk, p.tx.vin);
    SpendSucceeds(Entries(inputs), tx.vin, |tx.vin|, p.pos);
    forall k | 0 <= k < |tx.vin|
      ensures InputGood(rules, view, disk, tx, k, b, skip) <==>
                InputSane(tx, inputs, k, b) && Spendable(Entries(inputs), tx.vin[k].prevout) && SignatureOk(rules, tx, inputs, k, skip)
    {
      FetchedSame(rules, view, disk, tx, k, b, skip);
    }
  }

  /** No output of the id in the index is unspent. */
  ghost predicate AllSpent(start: TxMap, h: Hash) {
    h in start ==> forall n | 0 <= n < |start[h].vSpent| :: start[h].vSpent[n].DiskTxPos?
  }

  /** A coinbase is accepted if and only if it overwrites nothing unspent. */
  lemma CoinbaseAccepted(rules: Rules, start: TxMap, view: TxMap, disk: Disk, p: Placed, b: BlockIndex, skip: bool)
    requires p.tx.IsCoinBase()
    ensures TxAccepted(rules, start, view, disk, p, b, skip) <==> AllSpent(start, p.tx.hash)
  {
    SpentSame(start, p.tx.hash);
  }

  lemma SpentSame(start: TxMap, h: Hash)
    ensures Overwritable(start, h) <==> AllSpent(start, h)
  {
  }

  /** A payment is accepted if and only if it overwrites nothing unspent, its inputs are good, it pays its fee and pays out no more than it takes in. */
  lemma PaymentAccepted(rules: Rules, start: TxMap, view: TxMap, disk: Disk, p: Placed, b: BlockIndex, skip: bool)
    requires !p.pos.NoPos? && !p.tx.IsCoinBase() && !p.tx.IsCoinStake()
    ensures TxAccepted(rules, start, view, disk, p, b, skip) <==>
              && AllSpent(start, p.tx.hash) && InputsGood(rules, view, disk, p.tx, b, skip)
              && var fee := ValueIn(view, disk, p.tx) - ValueOut(p.tx);
                 0 <= fee <= MAX_MONEY && fee >= rules.minFee(p.tx)
  {
    hide InputsGood, InputSane, SignatureOk, SpendFirst;
    SpentSame(start, p.tx.hash);
    InputsSame(rules, view, disk, p, b, skip);
    FetchedInIsSumIn(view, disk, p.tx.vin, |p.tx.vin|);
  }

  /** A coinstake is accepted if and only if the same holds of its inputs and it creates no more than its reward, less its fee, plus the
  least fee; its reward must be known. */
  lemma CoinstakeAccepted(rules: Rules, start: TxMap, view: TxMap, disk: Disk, p: Placed, b: BlockIndex, skip: bool)
    requires !p.pos.NoPos? && p.tx.IsCoinStake()
    ensures TxAccepted(rules, start, view, disk, p, b, skip) <==>
              && AllSpent(start, p.tx.hash) && InputsGood(rules, view, disk, p.tx, b, skip)
              && var reward := rules.stakeReward(p.tx, start, b.block.nBits, b.nHeight);
                 reward.Some? && ValueOut(p.tx) - ValueIn(view, disk, p.tx) <= reward.value - rules.minFee(p.tx) + MIN_TX_FEE
  {
    hide InputsGood, InputSane, SignatureOk, SpendFirst;
    SpentSame(start, p.tx.hash);
    InputsSame(rules, view, disk, p, b, skip);
    FetchedInIsSumIn(view, disk, p.tx.vin, |p.tx.vin|);
  }

  // ---------------------------------------------------------------- one block

  /** What the coinstakes among the first `i` transactions may create. */
  function StakeAllowance(rules: Rules, start: TxMap, ps: seq<Placed>, i: nat, b: BlockIndex): int
    requires i <= |ps|
  {
    if i == 0 then 0 else
      var tx := ps[i - 1].tx;
      StakeAllowance(rules, start, ps, i - 1, b) +
      if !tx.IsCoinStake() then 0
      else match rules.stakeReward(tx, start, b.block.nBits, b.nHeight)
           case None => 0
           case Some(reward) => reward - rules.minFee(tx) + MIN_TX_FEE
  }

  /** What the coinstakes among them do create. */
  function StakeMinted(start: TxMap, disk: Disk, ps: seq<Placed>, i: nat): int
    requires i <= |ps|
  {
    if i == 0 then 0 else
      var tx := ps[i - 1].tx;
      StakeMinted(start, disk, ps, i - 1) + if tx.IsCoinStake() then ValueOut(tx) - ValueIn(ViewAt(start, ps, i - 1), disk, tx) else 0
  }

  lemma {:induction false} AcceptedConnects(rules: Rules, start: TxMap, disk: Disk, ps: seq<Placed>, i: nat, b: BlockIndex, skip: bool)
    requires i <= |ps| && AcceptedUpTo(rules, start, disk, ps, i, b, skip) && forall j | 0 <= j < |ps| :: !ps[j].pos.NoPos?
    ensures ConnectFirst(start, ps, i) == Some(ViewAt(start, ps, i))
  {
    hide TxAccepted, SigOpsUpTo;
    if i > 0 {
      AcceptedConnects(rules, start, disk, ps, i - 1, b, skip);
      SpendsWhatItFetched(rules, start, ViewAt(start, ps, i - 1), disk, ps[i - 1], b, skip);
    }
  }

  lemma SpendsWhatItFetched(rules: Rules, start: TxMap, view: TxMap, disk: Disk, p: Placed, b: BlockIndex, skip: bool)
    requires TxAccepted(rules, start, view, disk, p, b, skip) && !p.pos.NoPos?
    ensures ConnectTx(view, p).Some?
  {
    hide InputSane, SignatureOk, BalanceOk;
    if !p.tx.IsCoinBase() {
      var sub := Entries(InputsFrom(view, disk, p.tx.vin));
      SpentAreKnown(sub, p.tx.vin, p.pos);
      SpendLocal(view, sub, p.tx.vin, |p.tx.vin|, p.pos);
    }
  }

  /** An accepted transaction creates nothing, or as a coinstake no more than it may. */
  lemma CreatesAtMost(rules: Rules, start: TxMap, view: TxMap, disk: Disk, p: Placed, b: BlockIndex, skip: bool)
    requires TxAccepted(rules, start, view, disk, p, b, skip) && !p.pos.NoPos? && !p.tx.IsCoinBase()
    ensures !p.tx.IsCoinStake() ==> ValueIn(view, disk, p.tx) - ValueOut(p.tx) >= 0 && ValueIn(view, disk, p.tx) - ValueOut(p.tx) >= rules.minFee(p.tx)
    ensures p.tx.IsCoinStake() ==>
              var reward := rules.stakeReward(p.tx, start, b.block.nBits, b.nHeight);
              reward.Some? && ValueOut(p.tx) - ValueIn(view, disk, p.tx) <= reward.value - rules.minFee(p.tx) + MIN_TX_FEE
  {
    hide TxAccepted;
    if p.tx.IsCoinStake() {
      CoinstakeAccepted(rules, start, view, disk, p, b, skip);
    } else {
      PaymentAccepted(rules, start, view, disk, p, b, skip);
    }
  }

  /** What the first `i` transactions create: the coinbase value, less all fees, plus at most what the coinstakes may. */
  lemma {:induction false} CreatedUpTo(rules: Rules, start: TxMap, disk: Disk, ps: seq<Placed>, i: nat, b: BlockIndex, skip: bool)
    requires 1 <= i <= |ps| && AcceptedUpTo(rules, start, disk, ps, i, b, skip) && forall j | 0 <= j < |ps| :: !ps[j].pos.NoPos?
    requires ps[0].tx.IsCoinBase() && forall j | 1 <= j < |ps| :: !ps[j].tx.IsCoinBase()
    ensures NetValue(start, disk, ps, i) == ValueOut(ps[0].tx) - FeesUpTo(start, disk, ps, i) + StakeMinted(start, disk, ps, i)
    ensures FeesUpTo(start, disk, ps, i) >= 0 && StakeMinted(start, disk, ps, i) <= StakeAllowance(rules, start, ps, i, b)
    ensures (forall j | 0 <= j < i :: !ps[j].tx.IsCoinStake()) ==>
              StakeMinted(start, disk, ps, i) == 0 && StakeAllowance(rules, start, ps, i, b) == 0
  {
    hide TxAccepted, SigOpsUpTo, ConnectTx, SumOut, SumIn;
    AcceptedConnects(rules, start, disk, ps, i - 1, b, skip);
    if i == 1 {
      assert NetValue(start, disk, ps, 0) == 0 && FeesUpTo(start, disk, ps, 0) == 0 && StakeAllowance(rules, start, ps, 0, b) == 0;
      assert StakeMinted(start, disk, ps, 0) == 0;
    } else {
      CreatedUpTo(rules, start, disk, ps, i - 1, b, skip);
      CreatesAtMost(rules, start, ViewAt(start, ps, i - 1), disk, ps[i - 1], b, skip);
    }
  }

  /** What a block may create: the reward for its fees and height, less the fees, plus what its coinstakes may. */
  function Allowed(rules: Rules, start: TxMap, disk: Disk, b: BlockIndex): int {
    var ps := PlacedBlock(b);
    var nFees := FeesUpTo(start, disk, ps, |ps|);
    rules.powReward(b.derived.nPOWHeight, nFees) - nFees + StakeAllowance(rules, start, ps, |ps|, b)
  }

  /** An accepted block creates no more. Without a coinstake that is the reward for its fees and height, less the fees. */
  lemma BlockIssues(rules: Rules, start: TxMap, disk: Disk, b: BlockIndex, skip: bool)
    requires BlockAccepted(rules, start, disk, b, skip)
    ensures var ps := PlacedBlock(b);
            var nFees := FeesUpTo(start, disk, ps, |ps|);
            && NetValue(start, disk, ps, |ps|) <= Allowed(rules, start, disk, b) && nFees >= 0
            && NetValue(start, disk, ps, |ps|) == ValueOut(b.block.vtx[0]) - nFees + StakeMinted(start, disk, ps, |ps|)
            && ((forall k | 0 <= k < |b.block.vtx| :: !b.block.vtx[k].IsCoinStake()) ==>
                  NetValue(start, disk, ps, |ps|) == ValueOut(b.block.vtx[0]) - nFees <= rules.powReward(b.derived.nPOWHeight, nFees) - nFees)
  {
    hide AcceptedUpTo, CheckTransaction, NetValue, FeesUpTo, StakeAllowance, StakeMinted;
    var ps := PlacedBlock(b);
    forall j | 0 <= j < |ps| ensures !ps[j].pos.NoPos? && ps[j].tx == b.block.vtx[j] {
    }
    CreatedUpTo(rules, start, disk, ps, |ps|, b, skip);
  }

  // ---------------------------------------------------------------- acceptance lasts

  lemma InputsOnLargerDisk(view: TxMap, disk: Disk, disk': Disk, tx: Tx)
    requires Backed(view, disk) && Larger(disk, disk')
    ensures InputsFrom(view, disk, tx.vin) == InputsFrom(view, disk', tx.vin)
    ensures ValueIn(view, disk, tx) == ValueIn(view, disk', tx)
  {
    forall h | h in view ensures view[h].pos in disk && view[h].pos in disk' && disk[view[h].pos] == disk'[view[h].pos] {
      assert EntryBacked(h, view[h], disk);
    }
    FetchedInIsSumIn(view, disk, tx.vin, |tx.vin|);
    FetchedInIsSumIn(view, disk', tx.vin, |tx.vin|);
  }

  /** What was accepted once would be accepted with more on disk, and without looking at signatures. */
  lemma TxStaysAccepted(rules: Rules, start: TxMap, view: TxMap, disk: Disk, disk': Disk, p: Placed, b: BlockIndex, skip: bool)
    requires Backed(view, disk) && Larger(disk, disk') && TxAccepted(rules, start, view, disk, p, b, skip)
    ensures TxAccepted(rules, start, view, disk', p, b, true) && TxSigOps(rules, view, disk, p.tx) == TxSigOps(rules, view, disk', p.tx)
  {
    hide InputsFrom, InputSane, BalanceOk, SpendFirst, Backed, Larger;
    InputsOnLargerDisk(view, disk, disk', p.tx);
  }

  lemma BackedAt(rules: Rules, start: TxMap, disk: Disk, b: BlockIndex, i: nat, skip: bool)
    requires i <= |PlacedBlock(b)| && AcceptedUpTo(rules, start, disk, PlacedBlock(b), i, b, skip)
    requires Backed(start, disk) && Stored(PlacedBlock(b), disk) && DistinctHashes(PlacedBlock(b))
    ensures Backed(ViewAt(start, PlacedBlock(b), i), disk)
  {
    hide AcceptedUpTo, Backed;
    var ps := PlacedBlock(b);
    AcceptedConnects(rules, start, disk, ps, i, b, skip);
    forall j | 0 <= j < i ensures Overwritable(start, ps[j].tx.hash) {
      EarlierOverwritable(rules, start, disk, ps, j, i, b, skip);
    }
    ConnectValue(start, disk, ps, i);
  }

  lemma {:induction false} UpToStaysAccepted(rules: Rules, start: TxMap, disk: Disk, disk': Disk, b: BlockIndex, i: nat, skip: bool)
    requires i <= |PlacedBlock(b)| && AcceptedUpTo(rules, start, disk, PlacedBlock(b), i, b, skip)
    requires Backed(start, disk) && Stored(PlacedBlock(b), disk) && DistinctHashes(PlacedBlock(b)) && Larger(disk, disk')
    ensures var ps := PlacedBlock(b);
            && AcceptedUpTo(rules, start, disk', ps, i, b, true)
            && SigOpsUpTo(rules, start, disk, ps, i) == SigOpsUpTo(rules, start, disk', ps, i)
            && FeesUpTo(start, disk, ps, i) == FeesUpTo(start, disk', ps, i)
  {
    hide TxAccepted, Backed, Stored, DistinctHashes, Larger, ViewAt, TxSigOps, ValueIn, PlacedBlock;
    if i > 0 {
      var ps := PlacedBlock(b);
      UpToStaysAccepted(rules, start, disk, disk', b, i - 1, skip);
      BackedAt(rules, start, disk, b, i - 1, skip);
      TxStaysAccepted(rules, start, ViewAt(start, ps, i - 1), disk, disk', ps[i - 1], b, skip);
      InputsOnLargerDisk(ViewAt(start, ps, i - 1), disk, disk', ps[i - 1].tx);
    }
  }

  lemma BlockStaysAccepted(rules: Rules, start: TxMap, disk: Disk, disk': Disk, b: BlockIndex, skip: bool)
    requires BlockAccepted(rules, start, disk, b, skip)
    requires Backed(start, disk) && Stored(PlacedBlock(b), disk) && DistinctHashes(PlacedBlock(b)) && Larger(disk, disk')
    ensures BlockAccepted(rules, start, disk', b, true)
    ensures Allowed(rules, start, disk, b) == Allowed(rules, start, disk', b)
  {
    hide AcceptedUpTo, Backed, Stored, DistinctHashes, Larger, CheckBlock, FeesUpTo, StakeAllowance;
    UpToStaysAccepted(rules, start, disk, disk', b, |PlacedBlock(b)|, skip);
  }

  lemma ExtensionStays(rules: Rules, path: seq<BlockIndex>, disk: Disk, disk': Disk, skip: bool)
    requires Extends(rules, path, disk, skip) && AllStored(path, disk) && DistinctHashes(ChainTxs(path)) && Larger(disk, disk')
    ensures Extends(rules, path, disk', true)
  {
    hide BlockAccepted, DistinctHashes, ChainTxs, Larger, Replay, Stored;
    var prefix := path[..|path| - 1];
    PrefixFacts(path, |prefix|, disk);
    ReplayBacked(prefix, disk);
    LastBlockIsNew(path);
    BlockStaysAccepted(rules, Replay(prefix).value, disk, disk', Last(path), skip);
  }

  // ---------------------------------------------------------------- one branch

  /** Every block of the path above the genesis block was accepted in its place. */
  ghost predicate Earned(rules: Rules, path: seq<BlockIndex>, disk: Disk) {
    BranchAccepted(rules, path, 1, disk, true)
  }

  /** What the blocks of a path from position `k` on may create. */
  ghost function IssuedFrom(rules: Rules, path: seq<BlockIndex>, k: nat, disk: Disk): int {
    if |path| <= k || |path| <= 1 then 0 else
      var prefix := path[..|path| - 1];
      IssuedFrom(rules, prefix, k, disk) + match Replay(prefix) case None => 0 case Some(view) => Allowed(rules, view, disk, Last(path))
  }

  lemma PrefixAccepted(rules: Rules, path: seq<BlockIndex>, k: nat, disk: Disk, skip: bool)
    requires k < |path| && BranchAccepted(rules, path, k, disk, skip)
    ensures BranchAccepted(rules, path[..|path| - 1], k, disk, skip) && Extends(rules, path, disk, skip)
  {
    hide Extends;
    var prefix := path[..|path| - 1];
    forall i {:trigger prefix[..i + 1]} | k <= i < |prefix| ensures Extends(rules, prefix[..i + 1], disk, skip) {
      assert prefix[..i + 1] == path[..i + 1];
    }
    var last := |path| - 1;
    assert path[..last + 1] == path;
  }

  /** An accepted branch adds no more to the value of all unspent outputs than its blocks may create. */
  lemma {:induction false} BranchIssues(rules: Rules, path: seq<BlockIndex>, k: nat, disk: Disk, skip: bool)
    requires 1 <= k <= |path| && BranchAccepted(rules, path, k, disk, skip) && Replay(path[..k]).Some?
    requires AllStored(path, disk) && DistinctHashes(ChainTxs(path))
    ensures Replay(path).Some?
    ensures Unspent(Replay(path).value, disk) <= Unspent(Replay(path[..k]).value, disk) + IssuedFrom(rules, path, k, disk)
    decreases |path|
  {
    hide BranchAccepted, DistinctHashes, ChainTxs, AllStored, Unspent, Replay, Allowed, NetValue;
    if |path| == k {
      assert path[..k] == path;
    } else {
      var prefix := path[..|path| - 1];
      assert prefix[..k] == path[..k];
      PrefixAccepted(rules, path, k, disk, skip);
      PrefixFacts(path, |prefix|, disk);
      BranchIssues(rules, prefix, k, disk, skip);
      LastIssues(rules, path, disk, skip);
    }
  }

  lemma LastIssues(rules: Rules, path: seq<BlockIndex>, disk: Disk, skip: bool)
    requires Extends(rules, path, disk, skip) && AllStored(path, disk) && DistinctHashes(ChainTxs(path))
    ensures Replay(path).Some? && Replay(path[..|path| - 1]).Some?
    ensures var before := Replay(path[..|path| - 1]).value;
            Unspent(Replay(path).value, disk) <= Unspent(before, disk) + Allowed(rules, before, disk, Last(path))
  {
    hide DistinctHashes, ChainTxs, AllStored, Unspent, Allowed, NetValue, AcceptedUpTo, CheckBlock;
    var prefix := path[..|path| - 1];
    BlockIssues(rules, Replay(prefix).value, disk, Last(path), skip);
    AcceptedConnects(rules, Replay(prefix).value, disk, PlacedBlock(Last(path)), |PlacedBlock(Last(path))|, Last(path), skip);
    ReplayMoney(path, disk);
  }

  lemma EarnedAt(rules: Rules, path: seq<BlockIndex>, disk: Disk, disk': Disk, i: nat)
    requires Earned(rules, path, disk) && 1 <= i < |path| && AllStored(path, disk) && DistinctHashes(ChainTxs(path)) && Larger(disk, disk')
    ensures Extends(rules, path[..i + 1], disk', true)
  {
    hide Extends, AllStored, DistinctHashes, ChainTxs, Larger;
    PrefixFacts(path, i + 1, disk);
    assert Extends(rules, path[..i + 1], disk, true);
    ExtensionStays(rules, path[..i + 1], disk, disk', true);
  }

  lemma SwitchedAt(rules: Rules, path: seq<BlockIndex>, k: nat, disk: Disk, i: nat, skip: bool)
    requires BranchAccepted(rules, path, k, disk, skip) && k <= i < |path| && AllStored(path, disk) && DistinctHashes(ChainTxs(path))
    ensures Extends(rules, path[..i + 1], disk, true)
  {
    hide Extends, AllStored, DistinctHashes, ChainTxs;
    PrefixFacts(path, i + 1, disk);
    assert Extends(rules, path[..i + 1], disk, skip);
    ExtensionStays(rules, path[..i + 1], disk, disk, skip);
  }

  /** A best chain that was earned is earned after a switch all of whose blocks are accepted, with more on disk. */
  lemma EarnedAfter(rules: Rules, tip: BlockIndex, b: BlockIndex, disk: Disk, disk': Disk, skip: bool)
    requires Earned(rules, tip.Path(), disk) && AllStored(tip.Path(), disk) && DistinctHashes(ChainTxs(tip.Path())) && Larger(disk, disk')
    requires AllStored(b.Path(), disk') && DistinctHashes(ChainTxs(b.Path()))
    requires b == tip || BranchOk(rules, tip, b, disk', skip)
    ensures Earned(rules, b.Path(), disk')
  {
    hide Extends, AllStored, DistinctHashes, ChainTxs, Larger;
    var path := b.Path();
    forall i {:trigger path[..i + 1]} | 1 <= i < |path| ensures Extends(rules, path[..i + 1], disk', true) {
      if b == tip {
        EarnedAt(rules, path, disk, disk', i);
      } else if i < Shared(tip.Path(), path) {
        var k := Shared(tip.Path(), path);
        assert path[..i + 1] == path[..k][..i + 1] == tip.Path()[..k][..i + 1] == tip.Path()[..i + 1];
        EarnedAt(rules, tip.Path(), disk, disk', i);
      } else {
        SwitchedAt(rules, path, Shared(tip.Path(), path), disk', i, skip);
      }
    }
  }

  /** In a consistent state whose best chain was earned, the recorded money supply is no more than its blocks may create. */
  lemma SupplyEarned(chain: Chain)
    requires chain.Valid() && Earned(chain.rules, chain.pindexBest.Path(), chain.disk)
    ensures chain.pindexBest.nMoneySupply <= IssuedFrom(chain.rules, chain.pindexBest.Path(), 1, chain.disk)
  {
    hide ChainTxs, DistinctHashes, AllStored, BlockIndex.Wf, Replay, Chain.Linked, Unspent, BranchAccepted;
    var best := chain.pindexBest;
    assert chain.NodeOk(best);
    chain.MoneyConserved();
    GenesisReplay(best.Path()[..1], chain.disk);
    BranchIssues(chain.rules, best.Path(), 1, chain.disk, true);
  }

  lemma GenesisReplay(path: seq<BlockIndex>, disk: Disk)
    requires |path| == 1
    ensures Replay(path) == Some(map[]) && Unspent(map[], disk) == 0
  {
  }
}

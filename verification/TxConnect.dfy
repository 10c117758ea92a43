/** Fetching and connecting the inputs of one transaction, for block connection, for the miner and
for memory-pool acceptance. */
module TxConnect {
  import opened Wrappers
  import opened Ledger
  import opened BlockTree

  type Inputs = map<Hash, (TxIndex, Tx)>

  const COINBASE_MATURITY: nat := 100
  const MAX_BLOCK_SIGOPS: nat := 20_000
  const TOTAL_BLOCKS_ESTIMATE: nat := 18_000   // height of the last hardened checkpoint
  const MIN_TX_FEE: int := 1_000_000

  /** The consensus inputs that stay uninterpreted: scripts, fees, rewards, the hash that stake modifiers select by and the
  block checks that do not look at transactions (size, proof of work, clock, Merkle root, signature). */
  datatype Rules = Rules(
    verifySignature: (Tx, Tx, nat) -> bool,
    legacySigOps: Tx -> nat,
    p2shSigOps: (Tx, map<Hash, Tx>) -> nat,
    minFee: Tx -> int,
    stakeReward: (Tx, TxMap, nat, nat) -> Option<int>,
    powReward: (nat, int) -> int,
    stakeHash: (Hash, nat) -> Hash,
    blockChecks: Block -> bool)

  // ---------------------------------------------------------------- FetchInputs

  function PrevHashes(vin: seq<TxIn>, i: nat): set<Hash>
    requires i <= |vin|
  {
    set j | 0 <= j < i :: vin[j].prevout.hash
  }

  /** What FetchInputs finds for one previous transaction id; `strict` is fBlock or fMiner. */
  function Lookup(index: TxMap, pool: TxMap, disk: Disk, mempool: map<Hash, Tx>, strict: bool, h: Hash): Option<(TxIndex, Tx)> {
    var view := if strict then index + pool else index;
    if h in view && view[h].pos != MEMPOOL_POS then
      if view[h].pos in disk then Some((view[h], disk[view[h].pos])) else None
    else if h in view then
      if h in mempool then Some((view[h], mempool[h])) else None
    else if strict || h !in mempool then None
    else Some((TxIndex(NoPos, seq(|mempool[h].vout|, _ => NoPos)), mempool[h]))
  }

  /** What is found: for a block or the miner the pending entry before the indexed one, otherwise the indexed one alone; the transaction comes from
  disk, or from the memory pool when the entry says so. Outside blocks an unknown transaction is taken from the pool, all unspent. */
  lemma LookupMeans(index: TxMap, pool: TxMap, disk: Disk, mempool: map<Hash, Tx>, strict: bool, h: Hash, e: TxIndex)
    ensures (strict && h in pool && e == pool[h]) || ((!strict || h !in pool) && h in index && e == index[h]) ==>
              Lookup(index, pool, disk, mempool, strict, h) ==
              if e.pos == MEMPOOL_POS then (if h in mempool then Some((e, mempool[h])) else None)
              else if e.pos in disk then Some((e, disk[e.pos])) else None
    ensures strict && h !in pool && h !in index ==> Lookup(index, pool, disk, mempool, strict, h).None?
    ensures !strict && h !in index && h !in mempool ==> Lookup(index, pool, disk, mempool, strict, h).None?
    ensures !strict && h !in index && h in mempool ==>
              var r := Lookup(index, pool, disk, mempool, strict, h);
              && r.Some? && r.value.1 == mempool[h] && r.value.0.pos.NoPos? && |r.value.0.vSpent| == |mempool[h].vout|
              && forall n | 0 <= n < |mempool[h].vout| :: r.value.0.vSpent[n].NoPos?
  {
  }

  predicate OutputInRange(inputs: Inputs, op: OutPoint)
    requires op.hash in inputs
  {
    op.n < |inputs[op.hash].1.vout| && op.n < |inputs[op.hash].0.vSpent|
  }

  /** The previous transactions of `tx` with their index entries. */
  method FetchInputs(tx: Tx, index: TxMap, mapTestPool: TxMap, disk: Disk, mempool: map<Hash, Tx>, fBlock: bool, fMiner: bool)
    returns (ok: bool, inputs: Inputs, fInvalid: bool)
    ensures var strict := fBlock || fMiner;
            var found := tx.IsCoinBase() || forall h | h in PrevHashes(tx.vin, |tx.vin|) ::
                           Lookup(index, mapTestPool, disk, mempool, strict, h).Some?;
            && (found && !tx.IsCoinBase() ==>
                 && inputs.Keys == PrevHashes(tx.vin, |tx.vin|)
                 && (forall h | h in inputs :: Some(inputs[h]) == Lookup(index, mapTestPool, disk, mempool, strict, h))
                 && (ok <==> forall i | 0 <= i < |tx.vin| :: OutputInRange(inputs, tx.vin[i].prevout)))
            && (ok ==> found)
            && (tx.IsCoinBase() ==> ok && inputs == map[])
            && (fInvalid <==> found && !ok)
  {
    fInvalid := false;
    inputs := map[];
    if tx.IsCoinBase() {
      return true, inputs, false;
    }
    var strict := fBlock || fMiner;
    for i := 0 to |tx.vin|
      invariant inputs.Keys == PrevHashes(tx.vin, i)
      invariant forall h | h in inputs :: Some(inputs[h]) == Lookup(index, mapTestPool, disk, mempool, strict, h)
    {
      var h := tx.vin[i].prevout.hash;
      assert PrevHashes(tx.vin, i + 1) == PrevHashes(tx.vin, i) + {h};
      assert h in PrevHashes(tx.vin, |tx.vin|);
      if h in inputs {
        continue;
      }
      var txindex := TxIndex(NoPos, []);
      var fFound := true;
      if strict && h in mapTestPool {
        txindex := mapTestPool[h];
      } else if h in index {
        txindex := index[h];
      } else {
        fFound := false;
      }
      if !fFound && strict {
        return false, inputs, false;
      }
      if !fFound || txindex.pos == MEMPOOL_POS {
        if h !in mempool {
          return false, inputs, false;
        }
        if !fFound {
          txindex := txindex.(vSpent := seq(|mempool[h].vout|, _ => NoPos));
        }
        inputs := inputs[h := (txindex, mempool[h])];
      } else {
        if txindex.pos !in disk {
          return false, inputs, false;
        }
        inputs := inputs[h := (txindex, disk[txindex.pos])];
      }
    }
    assert forall i | 0 <= i < |tx.vin| :: tx.vin[i].prevout.hash in PrevHashes(tx.vin, |tx.vin|);
    ok := AllInRange(tx, inputs);
    fInvalid := !ok;
  }

  /** The second loop of FetchInputs: every spent output exists in its fetched transaction. */
  method AllInRange(tx: Tx, inputs: Inputs) returns (ok: bool)
    requires forall i | 0 <= i < |tx.vin| :: tx.vin[i].prevout.hash in inputs
    ensures ok <==> forall i | 0 <= i < |tx.vin| :: OutputInRange(inputs, tx.vin[i].prevout)
  {
    for i := 0 to |tx.vin|
      invariant forall j | 0 <= j < i :: OutputInRange(inputs, tx.vin[j].prevout)
    {
      if !OutputInRange(inputs, tx.vin[i].prevout) {
        return false;
      }
    }
    return true;
  }

  // ---------------------------------------------------------------- ConnectInputs

  /** The previous transactions among the fetched inputs. */
  function Prevs(inputs: Inputs): map<Hash, Tx> {
    map h | h in inputs :: inputs[h].1
  }

  /** The index entries among the fetched inputs. */
  function Entries(inputs: Inputs): TxMap {
    map h | h in inputs :: inputs[h].0
  }

  function FetchedValue(inputs: Inputs, op: OutPoint): int {
    if op.hash in inputs && op.n < |inputs[op.hash].1.vout|
    then inputs[op.hash].1.vout[op.n].nValue else 0
  }

  /** GetValueIn over the first `i` inputs. */
  function FetchedIn(inputs: Inputs, vin: seq<TxIn>, i: nat): int
    requires i <= |vin|
  {
    if i == 0 then 0 else FetchedIn(inputs, vin, i - 1) + FetchedValue(inputs, vin[i - 1].prevout)
  }

  predicate SamePlace(b: BlockIndex, pos: DiskTxPos) {
    pos.DiskTxPos? && b.nFile == pos.nFile && b.nBlockPos == pos.nBlockPos
  }

  /** A coinbase or coinstake output that sits in one of the last COINBASE_MATURITY blocks. */
  ghost predicate Immature(entry: TxIndex, txPrev: Tx, pindexBlock: BlockIndex) {
    && (txPrev.IsCoinBase() || txPrev.IsCoinStake())
    && exists i | 0 <= i < |pindexBlock.Path()| ::
         |pindexBlock.ancestors| - i < COINBASE_MATURITY && SamePlace(pindexBlock.Path()[i], entry.pos)
  }

  /** The inexpensive checks on input `i`. */
  ghost predicate InputSane(tx: Tx, inputs: Inputs, i: nat, pindexBlock: BlockIndex)
    requires i < |tx.vin|
  {
    var op := tx.vin[i].prevout;
    && op.hash in inputs
    && OutputInRange(inputs, op)
    && !Immature(inputs[op.hash].0, inputs[op.hash].1, pindexBlock)
    && inputs[op.hash].1.nTime <= tx.nTime
    && MoneyRange(FetchedValue(inputs, op))
    && MoneyRange(FetchedIn(inputs, tx.vin, i + 1))
  }

  predicate SignatureOk(rules: Rules, tx: Tx, inputs: Inputs, i: nat, skip: bool)
    requires i < |tx.vin|
  {
    skip || (tx.vin[i].prevout.hash in inputs && rules.verifySignature(inputs[tx.vin[i].prevout.hash].1, tx, i))
  }

  /** The balance rule: a coinstake may mint up to its reward, any other transaction must pay its fee. */
  predicate BalanceOk(rules: Rules, tx: Tx, index: TxMap, nValueIn: int, nBits: nat, nHeight: nat) {
    if tx.IsCoinStake() then
      match rules.stakeReward(tx, index, nBits, nHeight)
      case None => false
      case Some(reward) => ValueOut(tx) - nValueIn <= reward - rules.minFee(tx) + MIN_TX_FEE
    else
      && ValueOut(tx) <= nValueIn
      && rules.minFee(tx) <= nValueIn - ValueOut(tx)
      && MoneyRange(nValueIn - ValueOut(tx))
  }

  /** Everything ConnectInputs demands of a transaction that is not a coinbase. */
  ghost predicate Connectable(rules: Rules, tx: Tx, inputs: Inputs, index: TxMap, pos: DiskTxPos, pindexBlock: BlockIndex, skip: bool) {
    && (forall i | 0 <= i < |tx.vin| :: InputSane(tx, inputs, i, pindexBlock))
    && SpendFirst(Entries(inputs), tx.vin, |tx.vin|, pos).Some?
    && (forall i | 0 <= i < |tx.vin| :: SignatureOk(rules, tx, inputs, i, skip))
    && BalanceOk(rules, tx, index, FetchedIn(inputs, tx.vin, |tx.vin|), pindexBlock.block.nBits, pindexBlock.nHeight)
  }

  lemma {:induction false} SpendPrefix(view: TxMap, vin: seq<TxIn>, i: nat, k: nat, pos: DiskTxPos)
    requires i <= k <= |vin| && SpendFirst(view, vin, k, pos).Some?
    ensures SpendFirst(view, vin, i, pos).Some?
    decreases k - i
  {
    if i < k {
      SpendPrefix(view, vin, i, k - 1, pos);
    }
  }

  /** Is the output immature? Walks down from `pindexBlock`. */
  method IsImmature(entry: TxIndex, txPrev: Tx, pindexBlock: BlockIndex) returns (r: bool)
    requires pindexBlock.Wf()
    ensures r <==> Immature(entry, txPrev, pindexBlock)
  {
    if !(txPrev.IsCoinBase() || txPrev.IsCoinStake()) {
      return false;
    }
    var pindex: BlockIndex? := pindexBlock;
    ghost var path := pindexBlock.Path();
    while pindex != null && pindexBlock.nHeight - pindex.nHeight < COINBASE_MATURITY
      invariant pindex != null ==> pindex.Wf() && pindex.nHeight < |path| && path[pindex.nHeight] == pindex
      invariant forall i | (if pindex == null then 0 else pindex.nHeight + 1) <= i < |path| :: !SamePlace(path[i], entry.pos)
      decreases if pindex == null then 0 else pindex.nHeight + 1
    {
      if SamePlace(pindex, entry.pos) {
        return true;
      }
      if pindex.pprev != null {
        StepDown(pindexBlock, pindex);
      }
      pindex := pindex.pprev;
    }
    return false;
  }

  lemma StepDown(b: BlockIndex, p: BlockIndex)
    requires b.Wf() && p.Wf() && IsAncestor(p, b) && p.pprev != null
    ensures p.pprev.Wf() && p.pprev.nHeight + 1 == p.nHeight && b.Path()[p.nHeight - 1] == p.pprev
  {
    ParentWf(p);
    AncestorTransitive(p.pprev, p, b);
  }

  /** Check the inputs of `tx` and mark them spent in the pending changes. `nBestHeight` decides whether
  signatures before the last hardened checkpoint are skipped. */
  method ConnectInputs(rules: Rules, tx: Tx, fetched: Inputs, index: TxMap, mapTestPool: TxMap, posThisTx: DiskTxPos,
                       pindexBlock: BlockIndex, nBestHeight: nat, fBlock: bool, fMiner: bool)
    returns (ok: bool, pool: TxMap)
    requires pindexBlock.Wf() && !posThisTx.NoPos?
    requires tx.IsCoinBase() || fetched.Keys == PrevHashes(tx.vin, |tx.vin|)
    ensures ok <==> tx.IsCoinBase() ||
                    Connectable(rules, tx, fetched, index, posThisTx, pindexBlock, fBlock && nBestHeight < TOTAL_BLOCKS_ESTIMATE)
    ensures ok ==> pool == if tx.IsCoinBase() || !(fBlock || fMiner) then mapTestPool
                           else mapTestPool + SpendFirst(Entries(fetched), tx.vin, |tx.vin|, posThisTx).value
  {
    pool := mapTestPool;
    if tx.IsCoinBase() {
      return true, pool;
    }
    assert forall i | 0 <= i < |tx.vin| :: tx.vin[i].prevout.hash in PrevHashes(tx.vin, |tx.vin|);
    var nValueIn := CheckInputs(tx, fetched, pindexBlock);
    if nValueIn.None? {
      return false, pool;
    }
    var skip := fBlock && nBestHeight < TOTAL_BLOCKS_ESTIMATE;
    forall i | 0 <= i < |tx.vin| ensures HasOutput(Entries(fetched), tx.vin[i].prevout) {
      assert InputSane(tx, fetched, i, pindexBlock);
    }
    var spent: bool;
    spent, pool := MarkInputs(rules, tx, fetched, mapTestPool, posThisTx, skip, fBlock || fMiner);
    if !spent {
      return false, pool;
    }
    ghost var after := SpendFirst(Entries(fetched), tx.vin, |tx.vin|, posThisTx).value;
    MarkingFacts(Entries(fetched), after, tx.vin, |tx.vin|, posThisTx);
    WrittenEnds(mapTestPool, after, tx.vin, fBlock || fMiner);
    ok := BalanceOk(rules, tx, index, nValueIn.value, pindexBlock.block.nBits, pindexBlock.nHeight);
  }

  /** The first loop of ConnectInputs: the inexpensive checks; the input value when all pass. */
  method CheckInputs(tx: Tx, inputs: Inputs, pindexBlock: BlockIndex) returns (nValueIn: Option<int>)
    requires pindexBlock.Wf()
    requires inputs.Keys == PrevHashes(tx.vin, |tx.vin|)
    ensures nValueIn.Some? <==> forall i | 0 <= i < |tx.vin| :: InputSane(tx, inputs, i, pindexBlock)
    ensures nValueIn.Some? ==> nValueIn.value == FetchedIn(inputs, tx.vin, |tx.vin|)
  {
    var value := 0;
    for i := 0 to |tx.vin|
      invariant value == FetchedIn(inputs, tx.vin, i)
      invariant forall j | 0 <= j < i :: InputSane(tx, inputs, j, pindexBlock)
    {
      var op := tx.vin[i].prevout;
      assert op.hash in PrevHashes(tx.vin, |tx.vin|);
      var (txindex, txPrev) := inputs[op.hash];
      if op.n >= |txPrev.vout| || op.n >= |txindex.vSpent| {
        assert !InputSane(tx, inputs, i, pindexBlock);
        return None;
      }
      var immature := IsImmature(txindex, txPrev, pindexBlock);
      if immature || txPrev.nTime > tx.nTime {
        assert !InputSane(tx, inputs, i, pindexBlock);
        return None;
      }
      value := value + txPrev.vout[op.n].nValue;
      if !MoneyRange(txPrev.vout[op.n].nValue) || !MoneyRange(value) {
        assert !InputSane(tx, inputs, i, pindexBlock);
        return None;
      }
    }
    return Some(value);
  }

  /** The second loop of ConnectInputs: refuse a spent output, verify, mark, and write back. */
  method MarkInputs(rules: Rules, tx: Tx, fetched: Inputs, mapTestPool: TxMap, posThisTx: DiskTxPos, skip: bool, writeBack: bool)
    returns (ok: bool, pool: TxMap)
    requires !posThisTx.NoPos?
    requires forall i | 0 <= i < |tx.vin| :: HasOutput(Entries(fetched), tx.vin[i].prevout)
    ensures ok <==> SpendFirst(Entries(fetched), tx.vin, |tx.vin|, posThisTx).Some? &&
                    forall i | 0 <= i < |tx.vin| :: SignatureOk(rules, tx, fetched, i, skip)
    ensures ok ==> pool == Written(mapTestPool, SpendFirst(Entries(fetched), tx.vin, |tx.vin|, posThisTx).value, tx.vin, |tx.vin|, writeBack)
  {
    var txindexes := Entries(fetched);
    ghost var start := txindexes;
    pool := mapTestPool;
    for i := 0 to |tx.vin|
      invariant SpendFirst(start, tx.vin, i, posThisTx) == Some(txindexes)
      invariant forall j | 0 <= j < i :: SignatureOk(rules, tx, fetched, j, skip)
      invariant pool == Written(mapTestPool, txindexes, tx.vin, i, writeBack)
    {
      var op := tx.vin[i].prevout;
      MarkingFacts(start, txindexes, tx.vin, i, posThisTx);
      if !txindexes[op.hash].vSpent[op.n].NoPos? {
        return false, pool;
      }
      if !SignatureOk(rules, tx, fetched, i, skip) {
        return false, pool;
      }
      WriteBack(mapTestPool, txindexes, op, tx.vin, i, posThisTx, writeBack);
      txindexes := SetSpent(txindexes, op, posThisTx);
      if writeBack {
        pool := pool[op.hash := txindexes[op.hash]];
      }
    }
    return true, pool;
  }

  /** Marking keeps every output where it is; a refused input makes the whole spend fail. */
  lemma MarkingFacts(start: TxMap, now: TxMap, vin: seq<TxIn>, i: nat, pos: DiskTxPos)
    requires i <= |vin| && !pos.NoPos? && SpendFirst(start, vin, i, pos) == Some(now)
    ensures now.Keys == start.Keys
    ensures i < |vin| && HasOutput(start, vin[i].prevout) ==> HasOutput(now, vin[i].prevout)
    ensures i < |vin| && !Spendable(now, vin[i].prevout) ==> SpendFirst(start, vin, |vin|, pos).None?
  {
    hide SameShape;
    SpendSameShape(start, vin, i, pos);
    if i < |vin| {
      SameOutputs(start, now, vin[i].prevout);
    } else {
      SameOutputs(start, now, OutPoint(0, 0));
    }
    if i < |vin| && SpendFirst(start, vin, |vin|, pos).Some? {
      SpendPrefix(start, vin, i + 1, |vin|, pos);
    }
  }

  lemma SameOutputs(v: TxMap, w: TxMap, op: OutPoint)
    requires SameShape(v, w)
    ensures v.Keys == w.Keys && (HasOutput(v, op) <==> HasOutput(w, op))
  {
  }

  /** The pending changes once the first `i` inputs are written back. */
  ghost function Written(pool: TxMap, now: TxMap, vin: seq<TxIn>, i: nat, writeBack: bool): TxMap
    requires i <= |vin|
  {
    if writeBack then pool + Touched(now, vin, i) else pool
  }

  lemma WriteBack(pool: TxMap, now: TxMap, op: OutPoint, vin: seq<TxIn>, i: nat, pos: DiskTxPos, writeBack: bool)
    requires i < |vin| && op == vin[i].prevout && HasOutput(now, op)
    ensures var after := SetSpent(now, op, pos);
            Written(pool, after, vin, i + 1, writeBack) ==
            if writeBack then Written(pool, now, vin, i, writeBack)[op.hash := after[op.hash]] else pool
  {
    TouchedGrows(now, SetSpent(now, op, pos), vin, i);
  }

  lemma WrittenEnds(pool: TxMap, now: TxMap, vin: seq<TxIn>, writeBack: bool)
    requires now.Keys == PrevHashes(vin, |vin|)
    ensures Written(pool, now, vin, |vin|, writeBack) == if writeBack then pool + now else pool
  {
    assert Touched(now, vin, |vin|) == now;
  }

  /** The entries of the first `i` inputs. */
  ghost function Touched(view: TxMap, vin: seq<TxIn>, i: nat): TxMap
    requires i <= |vin|
  {
    map h | h in view && h in PrevHashes(vin, i) :: view[h]
  }

  lemma TouchedGrows(v: TxMap, w: TxMap, vin: seq<TxIn>, i: nat)
    requires i < |vin| && vin[i].prevout.hash in v
    requires w.Keys == v.Keys && forall h | h in v && h != vin[i].prevout.hash :: w[h] == v[h]
    ensures Touched(w, vin, i + 1) == Touched(v, vin, i)[vin[i].prevout.hash := w[vin[i].prevout.hash]]
  {
    assert PrevHashes(vin, i + 1) == PrevHashes(vin, i) + {vin[i].prevout.hash};
  }

  // ---------------------------------------------------------------- a local view suffices

  /** Spending in a sub-view that holds every entry concerned is spending in the whole view. */
  lemma {:induction false} SpendLocal(view: TxMap, sub: TxMap, vin: seq<TxIn>, i: nat, pos: DiskTxPos)
    requires i <= |vin| && !pos.NoPos?
    requires forall h | h in sub :: h in view && view[h] == sub[h]
    requires forall j | 0 <= j < i :: vin[j].prevout.hash in sub
    ensures SpendFirst(view, vin, i, pos) ==
            match SpendFirst(sub, vin, i, pos) case None => None case Some(s) => Some(view + s)
    ensures SpendFirst(sub, vin, i, pos).Some? ==> SpendFirst(sub, vin, i, pos).value.Keys == sub.Keys
  {
    if i == 0 {
      assert view + sub == view;
    } else {
      SpendLocal(view, sub, vin, i - 1, pos);
      if SpendFirst(sub, vin, i - 1, pos).Some? {
        var s := SpendFirst(sub, vin, i - 1, pos).value;
        var op := vin[i - 1].prevout;
        if Spendable(s, op) {
          assert view + SetSpent(s, op, pos) == SetSpent(view + s, op, pos);
        }
      }
    }
  }
}

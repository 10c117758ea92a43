/** A block made of a coinbase, perhaps a coinstake, and the transactions the miner chose, handed to ConnectBlock. */
module MinedBlock {
  import opened Wrappers
  import opened Ledger
  import opened BlockTree
  import opened BlockContext
  import opened TxConnect
  import opened ChainReplay
  import opened ChainState
  import opened Miner

  /** The state the miner read, the chosen transactions, the block made of them behind its first `front` transactions, and the
  disk it has been written to. */
  datatype Work = Work(index: TxMap, disk: Disk, after: Disk, mempool: Pool, front: nat, vtx: seq<Tx>, b: BlockIndex) {
    /** A coinbase, and in a proof-of-stake block a coinstake. */
    ghost predicate FrontOk() {
      && 1 <= front <= 2 && |b.block.vtx| == front + |vtx| && b.block.vtx[0].IsCoinBase()
      && (front == 2 ==> b.block.vtx[1].IsCoinStake() && !b.block.vtx[1].IsCoinBase())
    }

    ghost predicate Ok() {
      && b.Wf() && b.pprev != null && FrontOk()
      && b.block.vtx[front..] == vtx
      && Backed(index, disk) && MEMPOOL_POS !in disk && (forall p | p in disk :: !SamePlace(b, p))
      && Larger(disk, after) && Stored(PlacedBlock(b), after)
      && (forall i | 0 <= i < |vtx| :: vtx[i].hash in mempool && mempool[vtx[i].hash] == vtx[i])
      && (forall i | 0 <= i < |vtx| :: !vtx[i].IsCoinBase() && !vtx[i].IsCoinStake())
      && (forall i, j | 0 <= i < j < |b.block.vtx| :: b.block.vtx[i].hash != b.block.vtx[j].hash)
      && (forall i | 0 <= i < |b.block.vtx| :: b.block.vtx[i].hash !in index)
    }

    /** The outputs that the coinstake spends. */
    ghost function Staked(): set<OutPoint>
      requires FrontOk()
    {
      if front == 2 then Outs(b.block.vtx[1].vin, |b.block.vtx[1].vin|) else {}
    }

    /** No input of the transaction is one of them. */
    ghost predicate Free(tx: Tx)
      requires FrontOk()
    {
      forall k | 0 <= k < |tx.vin| :: tx.vin[k].prevout !in Staked()
    }
  }

  // ---------------------------------------------------------------- what the miner sees and what the block sees

  /** The same outputs, unspent in the block unless spent for the miner or staked. */
  ghost predicate FlagsAgree(staked: set<OutPoint>, h: Hash, e: TxIndex, e': TxIndex) {
    && |e.vSpent| == |e'.vSpent|
    && forall n | 0 <= n < |e.vSpent| :: e'.vSpent[n].NoPos? <==> e.vSpent[n].NoPos? && OutPoint(h, n) !in staked
  }

  /** And a chosen transaction is in the memory pool for the miner and in its place for the block. */
  ghost predicate EntryAgrees(w: Work, h: Hash, e: TxIndex, e': TxIndex)
    requires w.FrontOk()
  {
    && FlagsAgree(w.Staked(), h, e, e')
    && if h in w.index then e.pos == e'.pos == w.index[h].pos
       else e.pos == MEMPOOL_POS && exists j :: 0 <= j < |w.vtx| && h == w.vtx[j].hash && e'.pos == PosOf(w.b, w.front + j)
  }

  ghost predicate Agree(w: Work, v: TxMap, v': TxMap)
    requires w.FrontOk()
  {
    forall h | h in v :: h in v' && EntryAgrees(w, h, v[h], v'[h])
  }

  /** What is found for an input is the same transaction, and no output of the new block counts as immature in it. */
  lemma PrevAgrees(w: Work, v: TxMap, v': TxMap, h: Hash)
    requires w.Ok() && Agree(w, v, v') && Lookup(v, map[], w.disk, w.mempool, true, h).Some?
    ensures h in v && h in v' && EntryAgrees(w, h, v[h], v'[h]) && v'[h].pos in w.after
    ensures Lookup(v, map[], w.disk, w.mempool, true, h) == Some((v[h], w.after[v'[h].pos]))
    ensures !Immature(v[h], w.after[v'[h].pos], w.b.pprev) ==> !Immature(v'[h], w.after[v'[h].pos], w.b)
  {
    hide Stored;
    assert v + map[] == v;
    var prev := Lookup(v, map[], w.disk, w.mempool, true, h).value.1;
    if h in w.index {
      assert EntryBacked(h, w.index[h], w.disk);
      if Immature(v'[h], prev, w.b) {
        ImmatureBefore(v'[h], prev, w.b);
      }
    } else {
      var j :| 0 <= j < |w.vtx| && h == w.vtx[j].hash && v'[h].pos == PosOf(w.b, w.front + j);
      StoredHere(w, j);
    }
  }

  lemma StoredHere(w: Work, j: nat)
    requires w.Ok() && j < |w.vtx|
    ensures |PlacedBlock(w.b)| == w.front + |w.vtx|
    ensures var pos := PosOf(w.b, w.front + j);
            && pos in w.after && w.after[pos] == w.vtx[j] && !pos.NoPos? && PlacedBlock(w.b)[w.front + j] == Placed(w.vtx[j], pos)
  {
    assert w.b.block.vtx[w.front + j] == w.vtx[j];
    assert PlacedBlock(w.b)[w.front + j] == Placed(w.vtx[j], PosOf(w.b, w.front + j));
  }

  /** An output that is immature for a block, and not one of its own, is immature for its parent. */
  lemma ImmatureBefore(e: TxIndex, prev: Tx, b: BlockIndex)
    requires b.Wf() && b.pprev != null && Immature(e, prev, b) && !SamePlace(b, e.pos)
    ensures Immature(e, prev, b.pprev)
  {
    ParentWf(b);
    var i :| 0 <= i < |b.Path()| && |b.ancestors| - i < COINBASE_MATURITY && SamePlace(b.Path()[i], e.pos);
    assert b.Path()[i] == b.pprev.Path()[i];
    assert |b.pprev.ancestors| - i < COINBASE_MATURITY;
  }

  // ---------------------------------------------------------------- one transaction

  /** The inputs found for a transaction of block `b`, and those found for it above its parent. */
  ghost predicate Alike(staked: set<OutPoint>, found: Inputs, from: Inputs, b: BlockIndex)
    requires b.pprev != null
  {
    && found.Keys == from.Keys
    && forall h | h in found :: found[h].1 == from[h].1 && FlagsAgree(staked, h, found[h].0, from[h].0)
                                && (!Immature(found[h].0, found[h].1, b.pprev) ==> !Immature(from[h].0, from[h].1, b))
  }

  lemma InputsAlike(w: Work, v: TxMap, v': TxMap, tx: Tx)
    requires w.Ok() && Agree(w, v, v')
    requires forall k | 0 <= k < |tx.vin| :: InputSane(tx, Found(v, w.disk, w.mempool, tx.vin), k, w.b.pprev)
    ensures Alike(w.Staked(), Found(v, w.disk, w.mempool, tx.vin), InputsFrom(v', w.after, tx.vin), w.b)
  {
    hide Backed, Stored, Immature, Lookup, Agree, BlockIndex.Wf, FlagsAgree, Work.Staked;
    var found := Found(v, w.disk, w.mempool, tx.vin);
    forall h | h in PrevHashes(tx.vin, |tx.vin|) ensures h in found {
      var k :| 0 <= k < |tx.vin| && tx.vin[k].prevout.hash == h;
      assert InputSane(tx, found, k, w.b.pprev);
    }
    forall h | h in found
      ensures h in v' && v'[h].pos in w.after && found[h].1 == w.after[v'[h].pos] && FlagsAgree(w.Staked(), h, found[h].0, v'[h])
      ensures !Immature(found[h].0, found[h].1, w.b.pprev) ==> !Immature(v'[h], w.after[v'[h].pos], w.b)
    {
      PrevAgrees(w, v, v', h);
    }
  }

  lemma SaneAlike(tx: Tx, staked: set<OutPoint>, found: Inputs, from: Inputs, b: BlockIndex, k: nat)
    requires b.pprev != null && Alike(staked, found, from, b) && k < |tx.vin| && InputSane(tx, found, k, b.pprev)
    ensures InputSane(tx, from, k, b)
  {
    hide Immature;
    PrevsAlike(staked, found, from, b);
    FetchedSame(found, from, tx.vin, k + 1);
  }

  lemma PrevsAlike(staked: set<OutPoint>, found: Inputs, from: Inputs, b: BlockIndex)
    requires b.pprev != null && Alike(staked, found, from, b)
    ensures Prevs(found) == Prevs(from)
    ensures forall h | h in Entries(found) :: h in Entries(from) && FlagsAgree(staked, h, Entries(found)[h], Entries(from)[h])
  {
    hide Immature, FlagsAgree;
  }

  /** A transaction that connects above the parent connects in the block, unless it spends what the coinstake spends. */
  lemma ConnectsAlike(rules: Rules, tx: Tx, staked: set<OutPoint>, found: Inputs, from: Inputs, index: TxMap, pos: DiskTxPos, pos': DiskTxPos,
                      b: BlockIndex, skip: bool)
    requires b.pprev != null && Alike(staked, found, from, b) && !pos.NoPos? && !pos'.NoPos? && !tx.IsCoinStake()
    requires Connectable(rules, tx, found, index, pos, b.pprev, false)
    ensures Connectable(rules, tx, from, index, pos', b, skip) <==> forall k | 0 <= k < |tx.vin| :: tx.vin[k].prevout !in staked
  {
    hide Alike, InputSane, SpendFirst, FetchedIn, Entries, Prevs, FlagsAgree;
    PrevsAlike(staked, found, from, b);
    FetchedSame(found, from, tx.vin, |tx.vin|);
    SpendAgrees(staked, Entries(found), Entries(from), tx.vin, pos, pos');
    forall k | 0 <= k < |tx.vin| ensures InputSane(tx, from, k, b) && SignatureOk(rules, tx, from, k, skip) {
      SaneAlike(tx, staked, found, from, b, k);
      SignedAlike(rules, tx, staked, found, from, b, k, skip);
    }
  }

  lemma SignedAlike(rules: Rules, tx: Tx, staked: set<OutPoint>, found: Inputs, from: Inputs, b: BlockIndex, k: nat, skip: bool)
    requires b.pprev != null && Alike(staked, found, from, b) && k < |tx.vin| && SignatureOk(rules, tx, found, k, false)
    ensures SignatureOk(rules, tx, from, k, skip)
  {
    hide Immature;
  }

  /** The miner's conditions on a transaction are those of the block, but for the outputs that the coinstake spends; and both count
  the same operations and fee. */
  lemma TakenIsAccepted(rules: Rules, w: Work, v: TxMap, v': TxMap, i: nat, skip: bool)
    requires w.Ok() && Agree(w, v, v') && i < |w.vtx|
    requires Takes(rules, w.index, v, w.disk, w.mempool, w.vtx[i], w.b.pprev)
    ensures |PlacedBlock(w.b)| == w.front + |w.vtx|
    ensures TxAccepted(rules, w.index, v', w.after, PlacedBlock(w.b)[w.front + i], w.b, skip) <==> w.Free(w.vtx[i])
    ensures TxSigOps(rules, v', w.after, w.vtx[i]) == MinerSigOps(rules, v, w.disk, w.mempool, w.vtx[i])
    ensures ValueIn(v', w.after, w.vtx[i]) - ValueOut(w.vtx[i]) == FeeOf(v, w.disk, w.mempool, w.vtx[i])
  {
    hide Backed, Stored, Immature, Lookup, Agree, BlockIndex.Wf, InputSane, SpendFirst, Alike, Found, InputsFrom, SignatureOk, BalanceOk, Work.Staked;
    var tx := w.vtx[i];
    var found, from := Found(v, w.disk, w.mempool, tx.vin), InputsFrom(v', w.after, tx.vin);
    StoredHere(w, i);
    InputsAlike(w, v, v', tx);
    PrevsAlike(w.Staked(), found, from, w.b);
    ConnectsAlike(rules, tx, w.Staked(), found, from, w.index, MEMPOOL_POS, PosOf(w.b, w.front + i), w.b, skip);
    FetchedSame(found, from, tx.vin, |tx.vin|);
    FetchedInIsSumIn(v', w.after, tx.vin, |tx.vin|);
  }

  lemma {:induction false} FetchedSame(a: Inputs, c: Inputs, vin: seq<TxIn>, i: nat)
    requires i <= |vin| && Prevs(a) == Prevs(c)
    ensures FetchedIn(a, vin, i) == FetchedIn(c, vin, i)
  {
    if i > 0 {
      FetchedSame(a, c, vin, i - 1);
      var h := vin[i - 1].prevout.hash;
      assert h in Prevs(a) <==> h in a;
      assert h in Prevs(c) <==> h in c;
      assert h in a ==> Prevs(a)[h] == a[h].1 == c[h].1;
    }
  }

  /** Spending looks at nothing but which flags are set. */
  lemma SpendAgrees(staked: set<OutPoint>, v: TxMap, v': TxMap, vin: seq<TxIn>, pos: DiskTxPos, pos': DiskTxPos)
    requires !pos.NoPos? && !pos'.NoPos? && SpendFirst(v, vin, |vin|, pos).Some?
    requires forall h | h in v :: h in v' && FlagsAgree(staked, h, v[h], v'[h])
    ensures SpendFirst(v', vin, |vin|, pos').Some? <==> forall k | 0 <= k < |vin| :: vin[k].prevout !in staked
  {
    SpendSucceeds(v, vin, |vin|, pos);
    SpendSucceeds(v', vin, |vin|, pos');
    forall k | 0 <= k < |vin| ensures Spendable(v', vin[k].prevout) <==> vin[k].prevout !in staked {
      var op := vin[k].prevout;
      assert Spendable(v, op) && OutPoint(op.hash, op.n) == op;
      assert FlagsAgree(staked, op.hash, v[op.hash], v'[op.hash]);
    }
  }

  // ---------------------------------------------------------------- the views side by side

  lemma SpentAgree(w: Work, v: TxMap, v': TxMap, u: TxMap, u': TxMap, ops: set<OutPoint>, pos: DiskTxPos, pos': DiskTxPos)
    requires w.FrontOk() && Agree(w, v, v') && !pos.NoPos? && !pos'.NoPos?
    requires Marked(v, u, ops, pos) && Marked(v', u', ops, pos')
    ensures Agree(w, u, u')
  {
    hide Work.Staked;
    forall h | h in u ensures h in u' && EntryAgrees(w, h, u[h], u'[h]) {
      assert EntryAgrees(w, h, v[h], v'[h]);
      forall n | 0 <= n < |u[h].vSpent| ensures u'[h].vSpent[n].NoPos? <==> u[h].vSpent[n].NoPos? && OutPoint(h, n) !in w.Staked() {
        assert v'[h].vSpent[n].NoPos? <==> v[h].vSpent[n].NoPos? && OutPoint(h, n) !in w.Staked();
      }
    }
  }

  /** Connecting a chosen transaction keeps the two views in agreement. */
  lemma ConnectAgrees(w: Work, v: TxMap, v': TxMap, i: nat)
    requires w.Ok() && Agree(w, v, v') && i < |w.vtx| && ConnectTx(v, Placed(w.vtx[i], MEMPOOL_POS)).Some?
    requires w.Free(w.vtx[i]) && StakedBefore(w)
    ensures |PlacedBlock(w.b)| == w.front + |w.vtx| && ConnectTx(v', PlacedBlock(w.b)[w.front + i]).Some?
    ensures Agree(w, ConnectTx(v, Placed(w.vtx[i], MEMPOOL_POS)).value, ConnectTx(v', PlacedBlock(w.b)[w.front + i]).value)
  {
    hide Backed, Stored, Marked, SpendFirst, Agree, BlockIndex.Wf, Work.Staked, StakedBefore, FlagsAgree;
    var tx, pos' := w.vtx[i], PosOf(w.b, w.front + i);
    StoredHere(w, i);
    FlagsOf(w, v, v');
    SpendAgrees(w.Staked(), v, v', tx.vin, MEMPOOL_POS, pos');
    SpendShape(v, tx.vin, |tx.vin|, MEMPOOL_POS);
    SpendShape(v', tx.vin, |tx.vin|, pos');
    var u, u' := SpendFirst(v, tx.vin, |tx.vin|, MEMPOOL_POS).value, SpendFirst(v', tx.vin, |tx.vin|, pos').value;
    SpentAgree(w, v, v', u, u', Outs(tx.vin, |tx.vin|), MEMPOOL_POS, pos');
    EnteredAgree(w, u, u', i);
  }

  lemma FlagsOf(w: Work, v: TxMap, v': TxMap)
    requires w.FrontOk() && Agree(w, v, v')
    ensures forall h | h in v :: h in v' && FlagsAgree(w.Staked(), h, v[h], v'[h])
  {
    hide Work.Staked, FlagsAgree;
    forall h | h in v ensures h in v' && FlagsAgree(w.Staked(), h, v[h], v'[h]) {
      assert EntryAgrees(w, h, v[h], v'[h]);
    }
  }

  /** The coinstake spends no output of a chosen transaction. */
  ghost predicate StakedBefore(w: Work)
    requires w.FrontOk()
  {
    forall op, i | op in w.Staked() && 0 <= i < |w.vtx| :: op.hash != w.vtx[i].hash
  }

  lemma EnteredAgree(w: Work, u: TxMap, u': TxMap, i: nat)
    requires w.Ok() && Agree(w, u, u') && i < |w.vtx| && StakedBefore(w)
    ensures var tx := w.vtx[i];
            Agree(w, u[tx.hash := Fresh(MEMPOOL_POS, |tx.vout|)], u'[tx.hash := Fresh(PosOf(w.b, w.front + i), |tx.vout|)])
  {
    hide Backed, Stored, BlockIndex.Wf, Work.Staked;
    var tx := w.vtx[i];
    assert w.b.block.vtx[w.front + i] == tx;
    assert EntryAgrees(w, tx.hash, Fresh(MEMPOOL_POS, |tx.vout|), Fresh(PosOf(w.b, w.front + i), |tx.vout|));
  }

  // ---------------------------------------------------------------- coinbase and coinstake

  /** The coinbase passes and adds an entry that nothing in the block looks at. */
  lemma CoinbaseConnects(rules: Rules, w: Work, skip: bool)
    requires w.Ok()
    ensures var ps, coinbase := PlacedBlock(w.b), w.b.block.vtx[0];
            && |ps| == w.front + |w.vtx| && ps[0].tx == coinbase
            && ConnectFirst(w.index, ps, 1) == Some(w.index[coinbase.hash := Fresh(ps[0].pos, |coinbase.vout|)])
            && SigOpsUpTo(rules, w.index, w.after, ps, 1) == rules.legacySigOps(coinbase)
            && FeesUpTo(w.index, w.after, ps, 1) == 0
            && (rules.legacySigOps(coinbase) <= MAX_BLOCK_SIGOPS <==> AcceptedUpTo(rules, w.index, w.after, ps, 1, w.b, skip))
  {
    hide Backed, Stored, BlockIndex.Wf;
    var ps := PlacedBlock(w.b);
    assert ConnectFirst(w.index, ps, 0) == Some(w.index);
    assert ConnectFirst(w.index, ps, 1) == ConnectTx(w.index, ps[0]);
    assert SigOpsUpTo(rules, w.index, w.after, ps, 0) == 0 && FeesUpTo(w.index, w.after, ps, 0) == 0;
    assert AcceptedUpTo(rules, w.index, w.after, ps, 0, w.b, skip);
  }

  /** An accepted transaction spends its inputs in the view it was accepted in. */
  lemma AcceptedSpends(rules: Rules, start: TxMap, view: TxMap, disk: Disk, p: Placed, b: BlockIndex, skip: bool)
    requires TxAccepted(rules, start, view, disk, p, b, skip) && !p.tx.IsCoinBase() && !p.pos.NoPos?
    ensures SpendFirst(view, p.tx.vin, |p.tx.vin|, p.pos).Some?
  {
    hide InputSane, SignatureOk, BalanceOk;
    var sub := Entries(InputsFrom(view, disk, p.tx.vin));
    SpentAreKnown(sub, p.tx.vin, p.pos);
    SpendLocal(view, sub, p.tx.vin, |p.tx.vin|, p.pos);
  }

  lemma StakeAgrees(w: Work, e: TxIndex, view: TxMap, u: TxMap)
    requires w.Ok() && w.front == 2 && view == w.index[w.b.block.vtx[0].hash := e]
    requires Marked(view, u, w.Staked(), PosOf(w.b, 1)) && forall op | op in w.Staked() :: Spendable(view, op)
    ensures StakedBefore(w)
    ensures var coinstake := w.b.block.vtx[1]; Agree(w, w.index, u[coinstake.hash := Fresh(PosOf(w.b, 1), |coinstake.vout|)])
  {
    hide Backed, Stored, BlockIndex.Wf, Work.Staked;
    var coinbase, coinstake := w.b.block.vtx[0], w.b.block.vtx[1];
    forall op, i | op in w.Staked() && 0 <= i < |w.vtx| ensures op.hash != w.vtx[i].hash {
      assert w.b.block.vtx[2 + i] == w.vtx[i];
      assert op.hash in view;
    }
  }

  /** The first transactions of the block leave a view that agrees with the index but for what the coinstake spends. */
  lemma FrontAgrees(rules: Rules, w: Work, skip: bool)
    requires w.Ok() && |PlacedBlock(w.b)| == w.front + |w.vtx| && AcceptedUpTo(rules, w.index, w.after, PlacedBlock(w.b), w.front, w.b, skip)
    ensures ConnectFirst(w.index, PlacedBlock(w.b), w.front).Some?
    ensures Agree(w, w.index, ConnectFirst(w.index, PlacedBlock(w.b), w.front).value) && StakedBefore(w)
    ensures FeesUpTo(w.index, w.after, PlacedBlock(w.b), w.front) == 0
  {
    hide Backed, Stored, BlockIndex.Wf, Marked, Spendable, TxAccepted, StakedBefore, Agree, SigOpsUpTo;
    var ps := PlacedBlock(w.b);
    CoinbaseConnects(rules, w, skip);
    if w.front == 1 {
      CoinbaseAgrees(w, ps[0].pos);
    } else {
      var view, tx := ConnectFirst(w.index, ps, 1).value, ps[1].tx;
      AcceptedSpends(rules, w.index, view, w.after, ps[1], w.b, skip);
      SpendShape(view, tx.vin, |tx.vin|, ps[1].pos);
      StakeAgrees(w, Fresh(ps[0].pos, |ps[0].tx.vout|), view, SpendFirst(view, tx.vin, |tx.vin|, ps[1].pos).value);
      assert ConnectFirst(w.index, ps, 2) == ConnectTx(view, ps[1]);
    }
  }

  lemma CoinbaseAgrees(w: Work, pos: DiskTxPos)
    requires w.Ok() && w.front == 1
    ensures var coinbase := w.b.block.vtx[0]; Agree(w, w.index, w.index[coinbase.hash := Fresh(pos, |coinbase.vout|)]) && StakedBefore(w)
  {
    hide Backed, Stored, BlockIndex.Wf;
  }

  // ---------------------------------------------------------------- the whole block

  lemma ViewStep(index: TxMap, vtx: seq<Tx>, k: nat)
    requires k < |vtx| && ConnectAll(index, PlacedTxs(vtx)).Some?
    ensures ConnectAll(index, PlacedTxs(vtx[..k])) == Some(ViewAfter(index, vtx[..k]))
    ensures ConnectTx(ViewAfter(index, vtx[..k]), Placed(vtx[k], MEMPOOL_POS)) == Some(ViewAfter(index, vtx[..k + 1]))
  {
    var all, front, next := PlacedTxs(vtx), PlacedTxs(vtx[..k]), PlacedTxs(vtx[..k + 1]);
    ConnectPrefix(index, all, k + 1, |vtx|);
    ConnectPrefix(index, all, k, |vtx|);
    ConnectSame(index, all, front, k);
    ConnectSame(index, all, next, k + 1);
    assert ConnectFirst(index, all, k + 1) == ConnectTx(ConnectFirst(index, all, k).value, all[k]);
  }

  lemma {:induction false} TakenPrefix(rules: Rules, index: TxMap, disk: Disk, mempool: Pool, vtx: seq<Tx>, pindexPrev: BlockIndex, k: nat)
    requires Taken(rules, index, disk, mempool, vtx, pindexPrev) && k < |vtx|
    ensures Takes(rules, index, ViewAfter(index, vtx[..k]), disk, mempool, vtx[k], pindexPrev)
    ensures SigOpsOf(rules, index, disk, mempool, vtx[..k + 1]) <= SigOpsOf(rules, index, disk, mempool, vtx)
    decreases |vtx|
  {
    hide Takes, ViewAfter, MinerSigOps;
    var rest := vtx[..|vtx| - 1];
    if k < |rest| {
      TakenPrefix(rules, index, disk, mempool, rest, pindexPrev, k);
      assert rest[..k] == vtx[..k] && rest[..k + 1] == vtx[..k + 1];
    } else {
      assert vtx[..k + 1] == vtx;
    }
  }

  /** The whole block has been connected up to its chosen transaction `k`. */
  lemma {:induction false} Follows(rules: Rules, w: Work, k: nat, skip: bool)
    requires w.Ok() && k <= |w.vtx| && ConnectAll(w.index, PlacedTxs(w.vtx)).Some?
    requires Taken(rules, w.index, w.disk, w.mempool, w.vtx, w.b.pprev)
    requires |PlacedBlock(w.b)| == w.front + |w.vtx| && AcceptedUpTo(rules, w.index, w.after, PlacedBlock(w.b), w.front, w.b, skip)
    requires SigOpsUpTo(rules, w.index, w.after, PlacedBlock(w.b), w.front) + SigOpsOf(rules, w.index, w.disk, w.mempool, w.vtx) <= MAX_BLOCK_SIGOPS
    requires forall i | 0 <= i < k :: w.Free(w.vtx[i])
    ensures var ps := PlacedBlock(w.b);
            && ConnectFirst(w.index, ps, w.front + k).Some?
            && Agree(w, ViewAfter(w.index, w.vtx[..k]), ConnectFirst(w.index, ps, w.front + k).value)
            && AcceptedUpTo(rules, w.index, w.after, ps, w.front + k, w.b, skip)
            && SigOpsUpTo(rules, w.index, w.after, ps, w.front + k) ==
                 SigOpsUpTo(rules, w.index, w.after, ps, w.front) + SigOpsOf(rules, w.index, w.disk, w.mempool, w.vtx[..k])
            && FeesUpTo(w.index, w.after, ps, w.front + k) == FeesOf(w.index, w.disk, w.mempool, w.vtx[..k])
  {
    hide Work.Ok, Work.FrontOk, Work.Free, Agree, AcceptedUpTo, SigOpsUpTo, FeesUpTo, ConnectFirst, Taken, StakedBefore, Selection,
         SigOpsOf, FeesOf, ViewAfter, PlacedBlock;
    BlockShape(w);
    FrontAgrees(rules, w, skip);
    if k == 0 {
      NothingChosen(rules, w);
    } else {
      Follows(rules, w, k - 1, skip);
      TakenPrefix(rules, w.index, w.disk, w.mempool, w.vtx, w.b.pprev, k - 1);
      ChosenStep(rules, w, k - 1);
      FollowsStep(rules, w, ConnectFirst(w.index, PlacedBlock(w.b), w.front + k - 1).value, k - 1, skip);
    }
  }

  /** One chosen transaction more. */
  lemma FollowsStep(rules: Rules, w: Work, v': TxMap, i: nat, skip: bool)
    requires w.Ok() && i < |w.vtx| && ConnectAll(w.index, PlacedTxs(w.vtx)).Some? && |PlacedBlock(w.b)| == w.front + |w.vtx|
    requires Takes(rules, w.index, ViewAfter(w.index, w.vtx[..i]), w.disk, w.mempool, w.vtx[i], w.b.pprev)
    requires w.Free(w.vtx[i]) && StakedBefore(w)
    requires ConnectFirst(w.index, PlacedBlock(w.b), w.front + i) == Some(v') && Agree(w, ViewAfter(w.index, w.vtx[..i]), v')
    requires AcceptedUpTo(rules, w.index, w.after, PlacedBlock(w.b), w.front + i, w.b, skip)
    requires SigOpsUpTo(rules, w.index, w.after, PlacedBlock(w.b), w.front + i) +
             MinerSigOps(rules, ViewAfter(w.index, w.vtx[..i]), w.disk, w.mempool, w.vtx[i]) <= MAX_BLOCK_SIGOPS
    ensures var v, tx, ps, n := ViewAfter(w.index, w.vtx[..i]), w.vtx[i], PlacedBlock(w.b), w.front + i;
            && ConnectFirst(w.index, ps, n + 1).Some?
            && Agree(w, ViewAfter(w.index, w.vtx[..i + 1]), ConnectFirst(w.index, ps, n + 1).value)
            && AcceptedUpTo(rules, w.index, w.after, ps, n + 1, w.b, skip)
            && SigOpsUpTo(rules, w.index, w.after, ps, n + 1) ==
                 SigOpsUpTo(rules, w.index, w.after, ps, n) + MinerSigOps(rules, v, w.disk, w.mempool, tx)
            && FeesUpTo(w.index, w.after, ps, n + 1) == FeesUpTo(w.index, w.after, ps, n) + FeeOf(v, w.disk, w.mempool, tx)
            && SigOpsOf(rules, w.index, w.disk, w.mempool, w.vtx[..i + 1]) ==
                 SigOpsOf(rules, w.index, w.disk, w.mempool, w.vtx[..i]) + MinerSigOps(rules, v, w.disk, w.mempool, tx)
            && FeesOf(w.index, w.disk, w.mempool, w.vtx[..i + 1]) ==
                 FeesOf(w.index, w.disk, w.mempool, w.vtx[..i]) + FeeOf(v, w.disk, w.mempool, tx)
  {
    hide Work.Ok, Work.Free, Agree, TxAccepted, Takes, MinerSigOps, FeeOf, TxSigOps, ValueIn, ConnectTx, StakedBefore, ViewAfter, PlacedBlock,
         SigOpsOf, FeesOf;
    var v := ViewAfter(w.index, w.vtx[..i]);
    BlockShape(w);
    TakenIsAccepted(rules, w, v, v', i, skip);
    ViewStep(w.index, w.vtx, i);
    ConnectAgrees(w, v, v', i);
    ChosenStep(rules, w, i);
  }

  lemma BlockShape(w: Work)
    requires w.Ok()
    ensures |PlacedBlock(w.b)| == w.front + |w.vtx| && w.b.pprev != null && w.FrontOk()
  {
  }

  lemma NothingChosen(rules: Rules, w: Work)
    ensures SigOpsOf(rules, w.index, w.disk, w.mempool, w.vtx[..0]) == 0 && FeesOf(w.index, w.disk, w.mempool, w.vtx[..0]) == 0
    ensures ViewAfter(w.index, w.vtx[..0]) == w.index
  {
    assert ConnectFirst(w.index, PlacedTxs(w.vtx[..0]), 0) == Some(w.index);
  }

  lemma ChosenStep(rules: Rules, w: Work, i: nat)
    requires w.Ok() && i < |w.vtx|
    ensures |PlacedBlock(w.b)| == w.front + |w.vtx|
    ensures var tx, v, ps := w.vtx[i], ViewAfter(w.index, w.vtx[..i]), PlacedBlock(w.b);
            && ps[w.front + i].tx == tx && !tx.IsCoinBase() && !tx.IsCoinStake()
            && SigOpsOf(rules, w.index, w.disk, w.mempool, w.vtx[..i + 1]) ==
                 SigOpsOf(rules, w.index, w.disk, w.mempool, w.vtx[..i]) + MinerSigOps(rules, v, w.disk, w.mempool, tx)
            && FeesOf(w.index, w.disk, w.mempool, w.vtx[..i + 1]) ==
                 FeesOf(w.index, w.disk, w.mempool, w.vtx[..i]) + FeeOf(v, w.disk, w.mempool, tx)
  {
    hide MinerSigOps, FeeOf, ViewAfter, Backed, Stored, BlockIndex.Wf;
    StoredHere(w, i);
    var next := w.vtx[..i + 1];
    assert next[..|next| - 1] == w.vtx[..i] && Last(next) == w.vtx[i];
  }

  /** The first chosen transaction that spends a staked output is refused. */
  lemma StakedIsRefused(rules: Rules, w: Work, i: nat, skip: bool)
    requires w.Ok() && i < |w.vtx| && ConnectAll(w.index, PlacedTxs(w.vtx)).Some?
    requires Taken(rules, w.index, w.disk, w.mempool, w.vtx, w.b.pprev)
    requires |PlacedBlock(w.b)| == w.front + |w.vtx|
    requires SigOpsUpTo(rules, w.index, w.after, PlacedBlock(w.b), w.front) + SigOpsOf(rules, w.index, w.disk, w.mempool, w.vtx) <= MAX_BLOCK_SIGOPS
    requires !w.Free(w.vtx[i]) && forall j | 0 <= j < i :: w.Free(w.vtx[j])
    ensures !AcceptedUpTo(rules, w.index, w.after, PlacedBlock(w.b), |PlacedBlock(w.b)|, w.b, skip)
  {
    hide Work.Ok, Work.Free, Agree, TxAccepted, Takes, MinerSigOps, FeeOf, TxSigOps, ValueIn, ConnectFirst, Taken, SigOpsUpTo, PlacedBlock, SigOpsOf, FeesOf, FeesUpTo;
    var ps := PlacedBlock(w.b);
    BlockShape(w);
    if AcceptedUpTo(rules, w.index, w.after, ps, |ps|, w.b, skip) {
      AcceptedPrefix(rules, w.index, w.after, ps, w.front, |ps|, w.b, skip);
      AcceptedPrefix(rules, w.index, w.after, ps, w.front + i + 1, |ps|, w.b, skip);
      Follows(rules, w, i, skip);
      TakenPrefix(rules, w.index, w.disk, w.mempool, w.vtx, w.b.pprev, i);
      TakenIsAccepted(rules, w, ViewAfter(w.index, w.vtx[..i]), ConnectFirst(w.index, ps, w.front + i).value, i, skip);
    }
  }

  lemma {:induction false} FirstStaked(w: Work, i: nat) returns (k: nat)
    requires w.FrontOk() && i < |w.vtx| && !w.Free(w.vtx[i])
    ensures k < |w.vtx| && !w.Free(w.vtx[k]) && forall j | 0 <= j < k :: w.Free(w.vtx[j])
    decreases i
  {
    hide Work.Free;
    if j :| 0 <= j < i && !w.Free(w.vtx[j]) {
      k := FirstStaked(w, j);
    } else {
      k := i;
    }
  }

  /** The block is connected to the end if and only if its first transactions are accepted and no chosen transaction spends an output
  that the coinstake spends; then both have counted the same fees. */
  lemma MinedConnects(rules: Rules, policy: Policy, w: Work, mapTestPool: TxMap, nBlockSize: nat, nBlockSigOps: nat, nFees: int, skip: bool)
    requires w.Ok() && |PlacedBlock(w.b)| == w.front + |w.vtx|
    requires SigOpsUpTo(rules, w.index, w.after, PlacedBlock(w.b), w.front) <= 100
    requires Selection(rules, policy, w.index, w.disk, w.mempool, w.vtx, mapTestPool, nBlockSize, nBlockSigOps, nFees, w.b.pprev)
    ensures var ps := PlacedBlock(w.b);
            && (AcceptedUpTo(rules, w.index, w.after, ps, |ps|, w.b, skip) <==>
                  AcceptedUpTo(rules, w.index, w.after, ps, w.front, w.b, skip) && forall i | 0 <= i < |w.vtx| :: w.Free(w.vtx[i]))
            && (AcceptedUpTo(rules, w.index, w.after, ps, |ps|, w.b, skip) ==> FeesUpTo(w.index, w.after, ps, |ps|) == nFees)
  {
    hide Work.Ok, Work.FrontOk, Work.Free, AcceptedUpTo, FeesUpTo, SigOpsUpTo, Taken, Agree, PlacedBlock, SigOpsOf, FeesOf, ConnectFirst, FromPool;
    var ps := PlacedBlock(w.b);
    BlockShape(w);
    if AcceptedUpTo(rules, w.index, w.after, ps, |ps|, w.b, skip) {
      AcceptedPrefix(rules, w.index, w.after, ps, w.front, |ps|, w.b, skip);
    }
    if i :| 0 <= i < |w.vtx| && !w.Free(w.vtx[i]) {
      var k := FirstStaked(w, i);
      StakedIsRefused(rules, w, k, skip);
    } else if AcceptedUpTo(rules, w.index, w.after, ps, w.front, w.b, skip) {
      Follows(rules, w, |w.vtx|, skip);
      assert w.vtx[..|w.vtx|] == w.vtx;
    }
  }

  /** Proof of work: what the miner chose is accepted by ConnectBlock behind a coinbase with up to a hundred signature operations.
  So the block is accepted if and only if it passes CheckBlock and its coinbase pays no more than the reward for the height
  the block index gives it. */
  lemma MinedIsAccepted(rules: Rules, policy: Policy, w: Work, mapTestPool: TxMap, nBlockSize: nat, nBlockSigOps: nat, nFees: int, skip: bool)
    requires w.Ok() && w.front == 1 && rules.legacySigOps(w.b.block.vtx[0]) <= 100
    requires Selection(rules, policy, w.index, w.disk, w.mempool, w.vtx, mapTestPool, nBlockSize, nBlockSigOps, nFees, w.b.pprev)
    ensures var ps := PlacedBlock(w.b);
            && AcceptedUpTo(rules, w.index, w.after, ps, |ps|, w.b, skip)
            && FeesUpTo(w.index, w.after, ps, |ps|) == nFees
    ensures BlockAccepted(rules, w.index, w.after, w.b, skip) <==>
              CheckBlock(rules, w.b.block) && ValueOut(w.b.block.vtx[0]) <= rules.powReward(w.b.derived.nPOWHeight, nFees)
  {
    hide Work.Ok, AcceptedUpTo, FeesUpTo, SigOpsUpTo, Selection, CheckBlock;
    CoinbaseConnects(rules, w, skip);
    MinedConnects(rules, policy, w, mapTestPool, nBlockSize, nBlockSigOps, nFees, skip);
  }

  /** Proof of stake: the miner chooses without a look at the coinstake. The block is accepted if and only if it passes CheckBlock, the
  coinstake is accepted behind the empty coinbase, and no chosen transaction spends an output that the coinstake spends. */
  lemma StakedIsAccepted(rules: Rules, policy: Policy, w: Work, mapTestPool: TxMap, nBlockSize: nat, nBlockSigOps: nat, nFees: int, skip: bool)
    requires w.Ok() && w.front == 2 && rules.powReward(w.b.derived.nPOWHeight, nFees) >= 0
    requires |PlacedBlock(w.b)| >= 2 && SigOpsUpTo(rules, w.index, w.after, PlacedBlock(w.b), 2) <= 100
    requires Selection(rules, policy, w.index, w.disk, w.mempool, w.vtx, mapTestPool, nBlockSize, nBlockSigOps, nFees, w.b.pprev)
    ensures BlockAccepted(rules, w.index, w.after, w.b, skip) <==>
              && CheckBlock(rules, w.b.block)
              && TxAccepted(rules, w.index, ViewAt(w.index, PlacedBlock(w.b), 1), w.after, PlacedBlock(w.b)[1], w.b, skip)
              && forall i, k | 0 <= i < |w.vtx| && 0 <= k < |w.vtx[i].vin| ::
                   w.vtx[i].vin[k].prevout !in Outs(w.b.block.vtx[1].vin, |w.b.block.vtx[1].vin|)
  {
    hide Work.Ok, FeesUpTo, TxAccepted, Selection, CheckBlock, ViewAt, TxSigOps;
    CoinbaseConnects(rules, w, skip);
    FrontAccepted(rules, w, skip);
    MinedConnects(rules, policy, w, mapTestPool, nBlockSize, nBlockSigOps, nFees, skip);
    if CheckBlock(rules, w.b.block) {
      StakedPaysNothing(rules, w);
    }
  }

  lemma FrontAccepted(rules: Rules, w: Work, skip: bool)
    requires w.Ok() && w.front == 2 && |PlacedBlock(w.b)| >= 2 && SigOpsUpTo(rules, w.index, w.after, PlacedBlock(w.b), 2) <= 100
    ensures AcceptedUpTo(rules, w.index, w.after, PlacedBlock(w.b), 2, w.b, skip) <==>
            TxAccepted(rules, w.index, ViewAt(w.index, PlacedBlock(w.b), 1), w.after, PlacedBlock(w.b)[1], w.b, skip)
  {
    hide Work.Ok, TxAccepted, ViewAt, TxSigOps;
    CoinbaseConnects(rules, w, skip);
  }

  lemma StakedPaysNothing(rules: Rules, w: Work)
    requires w.Ok() && w.front == 2 && CheckBlock(rules, w.b.block)
    ensures ValueOut(w.b.block.vtx[0]) == 0
  {
    hide CheckTransaction, Backed, Stored;
    assert SumOut(w.b.block.vtx[0].vout, 0) == 0;
  }

  /** The miner pays itself the reward for a height above the parent's; the index keeps the parent's height when the parent
  is a proof-of-stake block. The block is accepted exactly when that reward is not higher than the one for its own height. */
  lemma MinedReward(rules: Rules, policy: Policy, w: Work, mapTestPool: TxMap, nBlockSize: nat, nBlockSigOps: nat, nFees: int, skip: bool)
    requires w.Ok() && w.front == 1 && rules.legacySigOps(w.b.block.vtx[0]) <= 100 && CheckBlock(rules, w.b.block)
    requires Selection(rules, policy, w.index, w.disk, w.mempool, w.vtx, mapTestPool, nBlockSize, nBlockSigOps, nFees, w.b.pprev)
    requires ValueOut(w.b.block.vtx[0]) == rules.powReward(w.b.pprev.derived.nPOWHeight + 1, nFees)
    requires DerivedFrom(rules.stakeHash, w.b.block, w.b.pprev, w.b.derived)
    ensures BlockAccepted(rules, w.index, w.after, w.b, skip) <==>
              !w.b.pprev.IsProofOfStake() ||
              rules.powReward(w.b.pprev.derived.nPOWHeight + 1, nFees) <= rules.powReward(w.b.pprev.derived.nPOWHeight, nFees)
  {
    hide BlockAccepted, CheckBlock, Selection;
    MinedIsAccepted(rules, policy, w, mapTestPool, nBlockSize, nBlockSigOps, nFees, skip);
  }
}

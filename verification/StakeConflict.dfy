/** A proof-of-stake block that the miner builds and ConnectBlock refuses: the miner chooses from the memory pool without a look at
the coinstake in front, here a transaction that spends the output staked. */
module StakeConflict {
  import opened Wrappers
  import opened Ledger
  import opened BlockTree
  import opened TxConnect
  import opened ChainReplay
  import opened ChainState
  import opened Miner
  import opened MinedBlock

  const VALUE: int := 10_000_000_000

  const COIN_POS: DiskTxPos := DiskTxPos(0, 1, 1)

  /** The coin: an ordinary transaction on the chain with one output, which is unspent. */
  const THE_COIN: Tx := Tx(1, 0, [TxIn(OutPoint(9, 0), [])], [TxOut(VALUE, [1])], 1)

  const INDEX: TxMap := map[1 := TxIndex(COIN_POS, [NoPos])]

  const DISK: Disk := map[COIN_POS := THE_COIN]

  /** A memory-pool transaction spends it. */
  const PAYMENT: Tx := Tx(2, 0, [TxIn(OutPoint(1, 0), [])], [TxOut(VALUE, [2])], 1)

  const POOL: Pool := map[2 := PAYMENT]

  /** And so does the coinstake. */
  const COINSTAKE: Tx := Tx(3, 0, [TxIn(OutPoint(1, 0), [])], [TxOut(0, []), TxOut(VALUE, [3])], 1)

  const COINBASE: Tx := Tx(4, 0, [TxIn(OutPoint(0, UINT_MAX), [0x51, 0])], [TxOut(0, [])], 1)

  const BLOCK: Block := Block(100, 99, 1, 0, [COINBASE, COINSTAKE, PAYMENT])

  const RULES: Rules := Rules((_, _, _) => true, _ => 0, (_, _) => 0, _ => 0, (_, _, _, _) => Some(0), (_, nFees) => nFees, (h, _) => h, _ => true)

  const POLICY: Policy := Policy(2000, 0, 0, 0.0, 1, Some(0), _ => true, _ => (0.0, 0.0), (_, _) => 0)

  const CHANGES: TxMap := map[1 := TxIndex(COIN_POS, [MEMPOOL_POS]), 2 := Fresh(MEMPOOL_POS, 1)]

  function WorkOn(b: BlockIndex): Work {
    Work(INDEX, DISK, DISK + WrittenBlock(b, |b.block.vtx|), POOL, 2, [PAYMENT], b)
  }

  /** The block on top of any other, at its place in the block files. */
  ghost predicate Built(b: BlockIndex) {
    b.Wf() && b.pprev != null && b.block == BLOCK && b.hash == 100 && b.nFile == 0 && b.nBlockPos == 2
  }

  lemma WorkIsOk(b: BlockIndex)
    requires Built(b)
    ensures WorkOn(b).Ok()
  {
    var after := DISK + WrittenBlock(b, 3);
    WrittenPlace(b, 3);
    forall j | 0 <= j < 3 ensures PosOf(b, j) in after && after[PosOf(b, j)] == b.block.vtx[j] {
      WrittenIsStored(b, 3, j);
    }
    assert BLOCK.vtx[2..] == [PAYMENT];
  }

  lemma Sums(vout: seq<TxOut>)
    requires 1 <= |vout| <= 2
    ensures SumOut(vout, 0) == 0 && SumOut(vout, 1) == vout[0].nValue
    ensures |vout| == 2 ==> SumOut(vout, 2) == vout[0].nValue + vout[1].nValue
  {
    assert SumOut(vout, 0) == 0;
  }

  lemma BlockIsSound()
    ensures CheckBlock(RULES, BLOCK)
  {
    Sums(COINBASE.vout);
    Sums(COINSTAKE.vout);
    Sums(PAYMENT.vout);
    assert CheckTransaction(COINBASE) && CheckTransaction(COINSTAKE) && CheckTransaction(PAYMENT);
  }

  /** A transaction that spends the coin, fetched from the chain, connects. */
  lemma SpendsTheCoin(tx: Tx, inputs: Inputs, index: TxMap, pos: DiskTxPos, b: BlockIndex, skip: bool)
    requires tx == PAYMENT || tx == COINSTAKE
    requires !pos.NoPos? && inputs == map[1 := (TxIndex(COIN_POS, [NoPos]), THE_COIN)]
    ensures Connectable(RULES, tx, inputs, index, pos, b, skip)
    ensures FetchedIn(inputs, tx.vin, 1) == VALUE
    ensures ValueOut(tx) == VALUE
  {
    Sums(tx.vout);
    assert FetchedIn(inputs, tx.vin, 0) == 0;
    assert SpendFirst(Entries(inputs), tx.vin, 0, pos) == Some(Entries(inputs));
    assert InputSane(tx, inputs, 0, b);
  }

  lemma PrevsOfSpender(tx: Tx)
    requires tx == PAYMENT || tx == COINSTAKE
    ensures PrevHashes(tx.vin, |tx.vin|) == {1}
  {
    assert tx.vin[0].prevout.hash == 1;
  }

  /** The miner can choose the payment. */
  lemma PaymentIsChosen(prev: BlockIndex)
    ensures Selection(RULES, POLICY, INDEX, DISK, POOL, [PAYMENT], CHANGES, 1001, 100, 0, prev)
  {
    var vtx := [PAYMENT];
    PrevsOfSpender(PAYMENT);
    assert vtx[..|vtx| - 1] == [];
    assert ConnectFirst(INDEX, PlacedTxs([]), 0) == Some(INDEX);
    assert ViewAfter(INDEX, []) == INDEX && INDEX + map[] == INDEX;
    var found := Found(INDEX, DISK, POOL, PAYMENT.vin);
    assert found == map[1 := (TxIndex(COIN_POS, [NoPos]), THE_COIN)];
    SpendsTheCoin(PAYMENT, found, INDEX, MEMPOOL_POS, prev, false);
    assert Taken(RULES, INDEX, DISK, POOL, [], prev);
    assert FeesOf(INDEX, DISK, POOL, []) == 0 && SigOpsOf(RULES, INDEX, DISK, POOL, []) == 0 && SizeBefore(vtx, 0) == 0;
    PaymentConnects();
  }

  lemma PaymentConnects()
    ensures ConnectAll(INDEX, PlacedTxs([PAYMENT])) == Some(INDEX + CHANGES)
  {
    var ps := PlacedTxs([PAYMENT]);
    assert ConnectFirst(INDEX, ps, 0) == Some(INDEX) && ConnectFirst(INDEX, ps, 1) == ConnectTx(INDEX, ps[0]);
    assert SpendFirst(INDEX, PAYMENT.vin, 0, MEMPOOL_POS) == Some(INDEX);
    var spent := SetSpent(INDEX, OutPoint(1, 0), MEMPOOL_POS);
    assert SpendFirst(INDEX, PAYMENT.vin, 1, MEMPOOL_POS) == Some(spent);
    assert spent[1].vSpent == [MEMPOOL_POS];
    assert spent[2 := Fresh(MEMPOOL_POS, 1)] == INDEX + CHANGES;
  }

  /** The coinstake passes behind the coinbase. */
  lemma CoinstakeIsAccepted(b: BlockIndex, skip: bool)
    requires Built(b)
    ensures var w, ps := WorkOn(b), PlacedBlock(b);
            && TxAccepted(RULES, INDEX, ViewAt(INDEX, ps, 1), w.after, ps[1], b, skip)
            && SigOpsUpTo(RULES, INDEX, w.after, ps, 2) == 0
  {
    hide BlockIndex.Wf, WrittenBlock, Connectable;
    var w, ps := WorkOn(b), PlacedBlock(b);
    WorkIsOk(b);
    CoinbaseConnects(RULES, w, skip);
    PrevsOfSpender(COINSTAKE);
    var view := ViewAt(INDEX, ps, 1);
    assert view == INDEX[4 := Fresh(ps[0].pos, 1)];
    WrittenPlace(b, 3);
    assert COIN_POS in w.after && w.after[COIN_POS] == THE_COIN;
    var inputs := InputsFrom(view, w.after, COINSTAKE.vin);
    assert inputs == map[1 := (TxIndex(COIN_POS, [NoPos]), THE_COIN)];
    SpendsTheCoin(COINSTAKE, inputs, INDEX, ps[1].pos, b, skip);
    assert SigOpsUpTo(RULES, INDEX, w.after, ps, 1) == 0;
  }

  /** The block passes CheckBlock, its coinstake is accepted, its payment is a correct choice of the miner, and it is refused. */
  lemma MinedIsRefused(b: BlockIndex, skip: bool)
    requires Built(b)
    ensures var w := WorkOn(b);
            && w.Ok() && CheckBlock(RULES, b.block)
            && Selection(RULES, POLICY, w.index, w.disk, w.mempool, w.vtx, CHANGES, 1001, 100, 0, b.pprev)
            && TxAccepted(RULES, w.index, ViewAt(w.index, PlacedBlock(b), 1), w.after, PlacedBlock(b)[1], b, skip)
            && !BlockAccepted(RULES, w.index, w.after, b, skip)
  {
    hide BlockAccepted, Selection, TxAccepted, CheckBlock, WrittenBlock, BlockIndex.Wf, Work.Ok, SigOpsUpTo, ViewAt;
    var w := WorkOn(b);
    WorkIsOk(b);
    BlockIsSound();
    PaymentIsChosen(b.pprev);
    CoinstakeIsAccepted(b, skip);
    StakedIsAccepted(RULES, POLICY, w, CHANGES, 1001, 100, 0, skip);
    var vin := COINSTAKE.vin;
    assert vin[0].prevout in Outs(vin, |vin|) && w.vtx[0].vin[0].prevout == vin[0].prevout;
  }
}

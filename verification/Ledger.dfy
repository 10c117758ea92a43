/** Transactions and the transaction index.

The index maps a transaction id to its position on disk and, per output, to the position of the
transaction that spends it. `ConnectTx` and `DisconnectTx` are what one transaction does to the
index; the imperative code of module ChainState is proved against them, and this module proves
what they mean over whole blocks and whole chains: exact undo, conservation of value, and spent
flags that name the one spender. */
module Ledger {
  import opened Wrappers

  // ---------------------------------------------------------------- data

  type Hash = nat
  type Script = seq<int>

  const UINT_MAX: nat := 0xFFFF_FFFF
  const COIN: int := 100_000_000
  const MAX_MONEY: int := 42_000_000 * COIN

  /** `NoPos` is the null position (file number -1). */
  datatype DiskTxPos = NoPos | DiskTxPos(nFile: nat, nBlockPos: nat, nTxPos: nat)

  /** The position that stands for "in the memory pool". */
  const MEMPOOL_POS := DiskTxPos(1, 1, 1)

  datatype OutPoint = OutPoint(hash: Hash, n: nat) {
    predicate IsNull() { hash == 0 && n == UINT_MAX }
  }

  datatype TxIn = TxIn(prevout: OutPoint, scriptSig: Script)

  datatype TxOut = TxOut(nValue: int, scriptPubKey: Script) {
    predicate IsEmpty() { nValue == 0 && scriptPubKey == [] }
  }

  /** `hash` is the value of GetHash and `nBytes` the serialized size. */
  datatype Tx = Tx(hash: Hash, nTime: nat, vin: seq<TxIn>, vout: seq<TxOut>, nBytes: nat) {
    predicate IsCoinBase() {
      |vin| == 1 && vin[0].prevout.IsNull() && |vout| >= 1
    }

    predicate IsCoinStake() {
      |vin| > 0 && !vin[0].prevout.IsNull() && |vout| >= 2 && vout[0].IsEmpty()
    }
  }

  /** The one input of a coinbase names the null output; a coinstake spends something and has an empty output in front. None is both. */
  lemma TxKinds(tx: Tx)
    ensures tx.IsCoinBase() <==> |tx.vin| == 1 && tx.vin[0].prevout == OutPoint(0, 0xFFFF_FFFF) && |tx.vout| >= 1
    ensures tx.IsCoinStake() <==> |tx.vin| > 0 && tx.vin[0].prevout != OutPoint(0, 0xFFFF_FFFF) && |tx.vout| >= 2 && tx.vout[0] == TxOut(0, [])
    ensures !(tx.IsCoinBase() && tx.IsCoinStake())
  {
  }

  datatype TxIndex = TxIndex(pos: DiskTxPos, vSpent: seq<DiskTxPos>)

  type TxMap = map<Hash, TxIndex>
  type Disk = map<DiskTxPos, Tx>

  /** A transaction together with the position it is stored at. */
  datatype Placed = Placed(tx: Tx, pos: DiskTxPos)

  predicate MoneyRange(nValue: int) { 0 <= nValue <= MAX_MONEY }

  function SumOut(vout: seq<TxOut>, i: nat): int
    requires i <= |vout|
  {
    if i == 0 then 0 else SumOut(vout, i - 1) + vout[i - 1].nValue
  }

  function ValueOut(tx: Tx): int { SumOut(tx.vout, |tx.vout|) }

  /** A new index entry with every output unspent. */
  function Fresh(pos: DiskTxPos, nOutputs: nat): TxIndex {
    TxIndex(pos, seq(nOutputs, _ => NoPos))
  }

  predicate FullySpent(e: TxIndex) {
    forall n | 0 <= n < |e.vSpent| :: !e.vSpent[n].NoPos?
  }

  // ---------------------------------------------------------------- one transaction

  predicate HasOutput(view: TxMap, op: OutPoint) {
    op.hash in view && op.n < |view[op.hash].vSpent|
  }

  predicate Spendable(view: TxMap, op: OutPoint) {
    HasOutput(view, op) && view[op.hash].vSpent[op.n].NoPos?
  }

  function SetSpent(view: TxMap, op: OutPoint, pos: DiskTxPos): TxMap
    requires HasOutput(view, op)
  {
    view[op.hash := view[op.hash].(vSpent := view[op.hash].vSpent[op.n := pos])]
  }

  /** Spend the first `i` inputs in order; None when one of them is missing or already spent. */
  function SpendFirst(view: TxMap, vin: seq<TxIn>, i: nat, pos: DiskTxPos): Option<TxMap>
    requires i <= |vin|
  {
    if i == 0 then Some(view) else
      match SpendFirst(view, vin, i - 1, pos)
      case None => None
      case Some(v) =>
        var op := vin[i - 1].prevout;
        if Spendable(v, op) then Some(SetSpent(v, op, pos)) else None
  }

  function ConnectTx(view: TxMap, p: Placed): Option<TxMap> {
    var entry := Fresh(p.pos, |p.tx.vout|);
    if p.tx.IsCoinBase() then Some(view[p.tx.hash := entry]) else
      match SpendFirst(view, p.tx.vin, |p.tx.vin|, p.pos)
      case None => None
      case Some(v) => Some(v[p.tx.hash := entry])
  }

  /** Relinquish the first `i` inputs in order; None when an entry is missing. */
  function UnspendFirst(view: TxMap, vin: seq<TxIn>, i: nat): Option<TxMap>
    requires i <= |vin|
  {
    if i == 0 then Some(view) else
      match UnspendFirst(view, vin, i - 1)
      case None => None
      case Some(v) =>
        var op := vin[i - 1].prevout;
        if HasOutput(v, op) then Some(SetSpent(v, op, NoPos)) else None
  }

  function DisconnectTx(view: TxMap, tx: Tx): Option<TxMap> {
    if tx.IsCoinBase() then Some(view - {tx.hash}) else
      match UnspendFirst(view, tx.vin, |tx.vin|)
      case None => None
      case Some(v) => Some(v - {tx.hash})
  }

  // ---------------------------------------------------------------- many transactions

  function ConnectFirst(view: TxMap, ps: seq<Placed>, i: nat): Option<TxMap>
    requires i <= |ps|
  {
    if i == 0 then Some(view) else
      match ConnectFirst(view, ps, i - 1)
      case None => None
      case Some(v) => ConnectTx(v, ps[i - 1])
  }

  function ConnectAll(view: TxMap, ps: seq<Placed>): Option<TxMap> {
    ConnectFirst(view, ps, |ps|)
  }

  /** Disconnect the transactions `ps[i..]`, last one first. */
  function DisconnectFrom(view: TxMap, ps: seq<Placed>, i: nat): Option<TxMap>
    requires i <= |ps|
    decreases |ps| - i
  {
    if i == |ps| then Some(view) else
      match DisconnectFrom(view, ps, i + 1)
      case None => None
      case Some(v) => DisconnectTx(v, ps[i].tx)
  }

  function DisconnectAll(view: TxMap, ps: seq<Placed>): Option<TxMap> {
    DisconnectFrom(view, ps, 0)
  }

  /** Connect further transactions to an index, if there is one. */
  function ConnectMore(view: Option<TxMap>, ps: seq<Placed>): Option<TxMap> {
    match view case None => None case Some(v) => ConnectAll(v, ps)
  }

  function Hashes(ps: seq<Placed>, i: nat): set<Hash>
    requires i <= |ps|
  {
    set j | 0 <= j < i :: ps[j].tx.hash
  }

  predicate DistinctHashes(ps: seq<Placed>) {
    forall j, k | 0 <= j < k < |ps| :: ps[j].tx.hash != ps[k].tx.hash
  }

  // ---------------------------------------------------------------- pointwise shape of spending

  function Outs(vin: seq<TxIn>, i: nat): set<OutPoint>
    requires i <= |vin|
  {
    set j | 0 <= j < i :: vin[j].prevout
  }

  /** `v` and `w` differ at most in their spent flags. */
  ghost predicate SameShape(v: TxMap, w: TxMap) {
    && v.Keys == w.Keys
    && forall h | h in v :: v[h].pos == w[h].pos && |v[h].vSpent| == |w[h].vSpent|
  }

  /** `w` is `v` with the flags of `ops` set to `pos` and all others unchanged. */
  ghost predicate Marked(v: TxMap, w: TxMap, ops: set<OutPoint>, pos: DiskTxPos) {
    && SameShape(v, w)
    && forall h, n | h in v && 0 <= n < |v[h].vSpent| ::
         w[h].vSpent[n] == if OutPoint(h, n) in ops then pos else v[h].vSpent[n]
  }

  lemma {:induction false} SpendShape(view: TxMap, vin: seq<TxIn>, i: nat, pos: DiskTxPos)
    requires i <= |vin| && SpendFirst(view, vin, i, pos).Some? && !pos.NoPos?
    ensures Marked(view, SpendFirst(view, vin, i, pos).value, Outs(vin, i), pos)
    ensures forall op | op in Outs(vin, i) :: Spendable(view, op)
    ensures forall j, k | 0 <= j < k < i :: vin[j].prevout != vin[k].prevout
  {
    if i > 0 {
      SpendShape(view, vin, i - 1, pos);
      var op := vin[i - 1].prevout;
      var v := SpendFirst(view, vin, i - 1, pos).value;
      OutsGrow(vin, i);
      MarkMore(view, v, Outs(vin, i - 1), op, pos);
      MarkedOutput(view, v, Outs(vin, i - 1), op, pos);
      hide Marked;
      forall j | 0 <= j < i - 1 ensures vin[j].prevout != op {
        assert vin[j].prevout in Outs(vin, i - 1);
      }
    }
  }

  lemma OutsGrow(vin: seq<TxIn>, i: nat)
    requires 0 < i <= |vin|
    ensures Outs(vin, i) == Outs(vin, i - 1) + {vin[i - 1].prevout}
  {
  }

  /** Marking one more output. */
  lemma MarkMore(view: TxMap, v: TxMap, ops: set<OutPoint>, op: OutPoint, pos: DiskTxPos)
    requires Marked(view, v, ops, pos) && HasOutput(v, op)
    ensures HasOutput(view, op)
    ensures Marked(view, SetSpent(v, op, pos), ops + {op}, pos)
  {
    assert op == OutPoint(op.hash, op.n);
    var w := SetSpent(v, op, pos);
    forall h, n | h in view && 0 <= n < |view[h].vSpent|
      ensures w[h].vSpent[n] == if OutPoint(h, n) in ops + {op} then pos else view[h].vSpent[n]
    {
      assert v[h].vSpent[n] == if OutPoint(h, n) in ops then pos else view[h].vSpent[n];
    }
  }

  lemma MarkedOutput(view: TxMap, v: TxMap, ops: set<OutPoint>, op: OutPoint, pos: DiskTxPos)
    requires Marked(view, v, ops, pos)
    ensures HasOutput(v, op) <==> HasOutput(view, op)
    ensures !pos.NoPos? ==> (Spendable(v, op) <==> Spendable(view, op) && op !in ops)
  {
    assert op == OutPoint(op.hash, op.n);
  }

  lemma {:induction false} SpendSameShape(view: TxMap, vin: seq<TxIn>, i: nat, pos: DiskTxPos)
    requires i <= |vin| && SpendFirst(view, vin, i, pos).Some?
    ensures SameShape(view, SpendFirst(view, vin, i, pos).value)
  {
    if i > 0 {
      SpendSameShape(view, vin, i - 1, pos);
    }
  }

  /** Spending succeeds exactly when every input is unspent and none is repeated. */
  lemma {:induction false} SpendSucceeds(view: TxMap, vin: seq<TxIn>, i: nat, pos: DiskTxPos)
    requires i <= |vin| && !pos.NoPos?
    ensures SpendFirst(view, vin, i, pos).Some? <==>
            (forall j | 0 <= j < i :: Spendable(view, vin[j].prevout)) &&
            (forall j, k | 0 <= j < k < i :: vin[j].prevout != vin[k].prevout)
  {
    hide Marked, Spendable;
    if i > 0 {
      SpendSucceeds(view, vin, i - 1, pos);
      if SpendFirst(view, vin, i - 1, pos).Some? {
        SpendShape(view, vin, i - 1, pos);
        MarkedOutput(view, SpendFirst(view, vin, i - 1, pos).value, Outs(vin, i - 1), vin[i - 1].prevout, pos);
      }
    }
  }

  lemma {:induction false} UnspendShape(view: TxMap, vin: seq<TxIn>, i: nat)
    requires i <= |vin|
    requires forall op | op in Outs(vin, i) :: HasOutput(view, op)
    ensures UnspendFirst(view, vin, i).Some?
    ensures Marked(view, UnspendFirst(view, vin, i).value, Outs(vin, i), NoPos)
  {
    if i > 0 {
      hide Marked;
      OutsGrow(vin, i);
      UnspendShape(view, vin, i - 1);
      var v := UnspendFirst(view, vin, i - 1).value;
      MarkedOutput(view, v, Outs(vin, i - 1), vin[i - 1].prevout, NoPos);
      MarkMore(view, v, Outs(vin, i - 1), vin[i - 1].prevout, NoPos);
    }
  }

  // ---------------------------------------------------------------- exact undo

  lemma ConnectKeys(view: TxMap, p: Placed)
    requires ConnectTx(view, p).Some? && !p.pos.NoPos?
    ensures ConnectTx(view, p).value.Keys == view.Keys + {p.tx.hash}
  {
    if !p.tx.IsCoinBase() {
      SpendShape(view, p.tx.vin, |p.tx.vin|, p.pos);
    }
  }

  lemma UndoTx(view: TxMap, p: Placed)
    requires ConnectTx(view, p).Some? && !p.pos.NoPos? && p.tx.hash !in view
    ensures DisconnectTx(ConnectTx(view, p).value, p.tx) == Some(view)
  {
    if p.tx.IsCoinBase() {
      assert view[p.tx.hash := Fresh(p.pos, |p.tx.vout|)] - {p.tx.hash} == view;
    } else {
      var vin := p.tx.vin;
      SpendShape(view, vin, |vin|, p.pos);
      var spent := SpendFirst(view, vin, |vin|, p.pos).value;
      var after := ConnectTx(view, p).value;
      assert forall op | op in Outs(vin, |vin|) :: Spendable(view, op) && HasOutput(after, op);
      UnspendShape(after, vin, |vin|);
      var relinquished := UnspendFirst(after, vin, |vin|).value;
      UnmarkRestores(view, spent, relinquished, Outs(vin, |vin|), p);
    }
  }

  /** Clearing the flags that were set on unspent outputs gives the old flags back. */
  lemma UnmarkRestores(view: TxMap, spent: TxMap, cleared: TxMap, ops: set<OutPoint>, p: Placed)
    requires p.tx.hash !in view && Marked(view, spent, ops, p.pos)
    requires forall op | op in ops :: Spendable(view, op)
    requires Marked(spent[p.tx.hash := Fresh(p.pos, |p.tx.vout|)], cleared, ops, NoPos)
    ensures cleared - {p.tx.hash} == view
  {
    forall h | h in view ensures cleared[h] == view[h] {
      forall n | 0 <= n < |view[h].vSpent| ensures cleared[h].vSpent[n] == view[h].vSpent[n] {
        assert spent[h].vSpent[n] == if OutPoint(h, n) in ops then p.pos else view[h].vSpent[n];
        if OutPoint(h, n) in ops {
          assert Spendable(view, OutPoint(h, n));
        }
      }
      assert cleared[h].vSpent == view[h].vSpent;
    }
    assert (cleared - {p.tx.hash}).Keys == view.Keys;
  }

  lemma {:induction false} ConnectFirstKeys(view: TxMap, ps: seq<Placed>, i: nat)
    requires i <= |ps| && ConnectFirst(view, ps, i).Some?
    requires forall j | 0 <= j < |ps| :: !ps[j].pos.NoPos?
    ensures ConnectFirst(view, ps, i).value.Keys == view.Keys + Hashes(ps, i)
  {
    if i > 0 {
      ConnectFirstKeys(view, ps, i - 1);
      ConnectKeys(ConnectFirst(view, ps, i - 1).value, ps[i - 1]);
      assert Hashes(ps, i) == Hashes(ps, i - 1) + {ps[i - 1].tx.hash};
    }
  }

  lemma {:induction false} ConnectPrefix(view: TxMap, ps: seq<Placed>, i: nat, k: nat)
    requires i <= k <= |ps| && ConnectFirst(view, ps, k).Some?
    ensures ConnectFirst(view, ps, i).Some?
    decreases k - i
  {
    if i < k {
      ConnectPrefix(view, ps, i, k - 1);
    }
  }

  lemma {:induction false} UndoFrom(view: TxMap, ps: seq<Placed>, i: nat)
    requires i <= |ps| && ConnectAll(view, ps).Some? && DistinctHashes(ps)
    requires forall j | 0 <= j < |ps| :: !ps[j].pos.NoPos?
    requires Hashes(ps, |ps|) !! view.Keys
    ensures ConnectFirst(view, ps, i).Some?
    ensures DisconnectFrom(ConnectAll(view, ps).value, ps, i) == ConnectFirst(view, ps, i)
    decreases |ps| - i
  {
    ConnectPrefix(view, ps, i, |ps|);
    if i < |ps| {
      UndoFrom(view, ps, i + 1);
      ConnectFirstKeys(view, ps, i);
      assert ps[i].tx.hash in Hashes(ps, |ps|);
      assert ps[i].tx.hash !in Hashes(ps, i);
      UndoTx(ConnectFirst(view, ps, i).value, ps[i]);
    }
  }

  lemma {:induction false} DisconnectErases(view: TxMap, ps: seq<Placed>, i: nat, j: nat)
    requires i <= j < |ps| && DisconnectFrom(view, ps, i).Some?
    ensures ps[j].tx.hash !in DisconnectFrom(view, ps, i).value
    decreases |ps| - i
  {
    var v := DisconnectFrom(view, ps, i + 1).value;
    if i < j {
      DisconnectErases(view, ps, i + 1, j);
      if !ps[i].tx.IsCoinBase() {
        UnspendKeys(v, ps[i].tx.vin, |ps[i].tx.vin|);
      }
    }
  }

  lemma {:induction false} UnspendKeys(view: TxMap, vin: seq<TxIn>, i: nat)
    requires i <= |vin| && UnspendFirst(view, vin, i).Some?
    ensures UnspendFirst(view, vin, i).value.Keys == view.Keys
  {
    if i > 0 {
      UnspendKeys(view, vin, i - 1);
    }
  }

  /** Disconnecting a connected block restores the index exactly, spends inside the block included,
  if and only if none of its transaction ids was indexed before. */
  lemma UndoBlock(view: TxMap, ps: seq<Placed>)
    requires ConnectAll(view, ps).Some? && DistinctHashes(ps)
    requires forall j | 0 <= j < |ps| :: !ps[j].pos.NoPos?
    ensures DisconnectAll(ConnectAll(view, ps).value, ps) == Some(view)
            <==> forall j | 0 <= j < |ps| :: ps[j].tx.hash !in view
  {
    if forall j | 0 <= j < |ps| :: ps[j].tx.hash !in view {
      UndoFrom(view, ps, 0);
    } else if DisconnectAll(ConnectAll(view, ps).value, ps) == Some(view) {
      var j :| 0 <= j < |ps| && ps[j].tx.hash in view;
      DisconnectErases(ConnectAll(view, ps).value, ps, 0, j);
      assert false;
    }
  }

  // ---------------------------------------------------------------- conservation of value

  /** Every entry points at a stored transaction with that id and as many outputs. */
  ghost predicate Backed(view: TxMap, disk: Disk) {
    forall h | h in view :: EntryBacked(h, view[h], disk)
  }

  ghost predicate EntryBacked(h: Hash, e: TxIndex, disk: Disk) {
    e.pos in disk && disk[e.pos].hash == h && |disk[e.pos].vout| == |e.vSpent|
  }

  /** Value of the unspent ones among the first `i` outputs of an entry. */
  ghost function EntryValue(vSpent: seq<DiskTxPos>, vout: seq<TxOut>, i: nat): int
    requires i <= |vSpent| <= |vout|
  {
    if i == 0 then 0 else
      EntryValue(vSpent, vout, i - 1) + if vSpent[i - 1].NoPos? then vout[i - 1].nValue else 0
  }

  ghost function UnspentOf(e: TxIndex, disk: Disk): int {
    if e.pos in disk && |disk[e.pos].vout| == |e.vSpent|
    then EntryValue(e.vSpent, disk[e.pos].vout, |e.vSpent|) else 0
  }

  ghost function UnspentOver(view: TxMap, disk: Disk, hs: set<Hash>): int
    requires hs <= view.Keys
  {
    if hs == {} then 0 else
      var h :| h in hs;
      UnspentOf(view[h], disk) + UnspentOver(view, disk, hs - {h})
  }

  /** The sum of the values of all outputs that the index holds as unspent. */
  ghost function Unspent(view: TxMap, disk: Disk): int {
    UnspentOver(view, disk, view.Keys)
  }

  lemma {:induction false} UnspentRemove(view: TxMap, disk: Disk, hs: set<Hash>, h: Hash)
    requires hs <= view.Keys && h in hs
    ensures UnspentOver(view, disk, hs) == UnspentOf(view[h], disk) + UnspentOver(view, disk, hs - {h})
    decreases hs
  {
    var g :| g in hs && UnspentOver(view, disk, hs) == UnspentOf(view[g], disk) + UnspentOver(view, disk, hs - {g});
    if g != h {
      UnspentRemove(view, disk, hs - {g}, h);
      UnspentRemove(view, disk, hs - {h}, g);
      assert hs - {g} - {h} == hs - {h} - {g};
    }
  }

  lemma {:induction false} UnspentCongruent(v: TxMap, w: TxMap, disk: Disk, hs: set<Hash>)
    requires hs <= v.Keys && hs <= w.Keys
    requires forall h | h in hs :: v[h] == w[h]
    ensures UnspentOver(v, disk, hs) == UnspentOver(w, disk, hs)
    decreases hs
  {
    if hs != {} {
      var h :| h in hs;
      UnspentRemove(v, disk, hs, h);
      UnspentRemove(w, disk, hs, h);
      UnspentCongruent(v, w, disk, hs - {h});
    }
  }

  lemma UnspentUpdate(view: TxMap, disk: Disk, h: Hash, e: TxIndex)
    ensures Unspent(view[h := e], disk) ==
            Unspent(view, disk) - (if h in view then UnspentOf(view[h], disk) else 0) + UnspentOf(e, disk)
  {
    var w := view[h := e];
    UnspentRemove(w, disk, w.Keys, h);
    var rest := w.Keys - {h};
    UnspentCongruent(view, w, disk, rest);
    if h in view {
      UnspentRemove(view, disk, view.Keys, h);
      assert view.Keys - {h} == rest;
    } else {
      assert view.Keys == rest;
    }
  }

  lemma {:induction false} EntryValueUpdate(vSpent: seq<DiskTxPos>, vout: seq<TxOut>, i: nat, n: nat, pos: DiskTxPos)
    requires i <= |vSpent| <= |vout| && n < |vSpent| && vSpent[n].NoPos? && !pos.NoPos?
    ensures EntryValue(vSpent[n := pos], vout, i) ==
            EntryValue(vSpent, vout, i) - if n < i then vout[n].nValue else 0
  {
    if i > 0 {
      EntryValueUpdate(vSpent, vout, i - 1, n, pos);
    }
  }

  lemma {:induction false} FreshValue(vout: seq<TxOut>, nOutputs: nat, i: nat)
    requires i <= nOutputs <= |vout|
    ensures EntryValue(seq(nOutputs, _ => NoPos), vout, i) == SumOut(vout, i)
  {
    if i > 0 {
      FreshValue(vout, nOutputs, i - 1);
    }
  }

  lemma {:induction false} FullySpentValue(vSpent: seq<DiskTxPos>, vout: seq<TxOut>, i: nat)
    requires i <= |vSpent| <= |vout|
    requires forall n | 0 <= n < |vSpent| :: !vSpent[n].NoPos?
    ensures EntryValue(vSpent, vout, i) == 0
  {
    if i > 0 {
      FullySpentValue(vSpent, vout, i - 1);
    }
  }

  /** The value an input brings in: the value of the output it refers to. */
  function InputValue(view: TxMap, disk: Disk, op: OutPoint): int {
    if op.hash in view && view[op.hash].pos in disk && op.n < |disk[view[op.hash].pos].vout|
    then disk[view[op.hash].pos].vout[op.n].nValue else 0
  }

  function SumIn(view: TxMap, disk: Disk, vin: seq<TxIn>, i: nat): int
    requires i <= |vin|
  {
    if i == 0 then 0 else SumIn(view, disk, vin, i - 1) + InputValue(view, disk, vin[i - 1].prevout)
  }

  function ValueIn(view: TxMap, disk: Disk, tx: Tx): int {
    if tx.IsCoinBase() then 0 else SumIn(view, disk, tx.vin, |tx.vin|)
  }

  lemma {:induction false} SpendValue(view: TxMap, disk: Disk, vin: seq<TxIn>, i: nat, pos: DiskTxPos)
    requires i <= |vin| && SpendFirst(view, vin, i, pos).Some? && !pos.NoPos? && Backed(view, disk)
    ensures Backed(SpendFirst(view, vin, i, pos).value, disk)
    ensures Unspent(SpendFirst(view, vin, i, pos).value, disk) ==
            Unspent(view, disk) - SumIn(view, disk, vin, i)
  {
    if i > 0 {
      SpendValue(view, disk, vin, i - 1, pos);
      SpendShape(view, vin, i - 1, pos);
      var v := SpendFirst(view, vin, i - 1, pos).value;
      var op := vin[i - 1].prevout;
      var e := v[op.hash];
      assert EntryBacked(op.hash, e, disk);
      EntryValueUpdate(e.vSpent, disk[e.pos].vout, |e.vSpent|, op.n, pos);
      UnspentUpdate(v, disk, op.hash, e.(vSpent := e.vSpent[op.n := pos]));
    }
  }

  /** An entry that may be overwritten: absent, or with nothing left unspent (BIP 30). */
  predicate Overwritable(view: TxMap, h: Hash) {
    h in view ==> FullySpent(view[h])
  }

  lemma ConnectTxValue(view: TxMap, disk: Disk, p: Placed)
    requires ConnectTx(view, p).Some? && !p.pos.NoPos? && Backed(view, disk)
    requires p.pos in disk && disk[p.pos] == p.tx && Overwritable(view, p.tx.hash)
    ensures Backed(ConnectTx(view, p).value, disk)
    ensures Unspent(ConnectTx(view, p).value, disk) ==
            Unspent(view, disk) + ValueOut(p.tx) - ValueIn(view, disk, p.tx)
  {
    var vin, h := p.tx.vin, p.tx.hash;
    var v := view;
    if !p.tx.IsCoinBase() {
      SpendShape(view, vin, |vin|, p.pos);
      SpendValue(view, disk, vin, |vin|, p.pos);
      v := SpendFirst(view, vin, |vin|, p.pos).value;
    }
    var e := Fresh(p.pos, |p.tx.vout|);
    if h in view {
      assert EntryBacked(h, v[h], disk);
      assert forall n | 0 <= n < |v[h].vSpent| :: !v[h].vSpent[n].NoPos?;
      FullySpentValue(v[h].vSpent, disk[v[h].pos].vout, |v[h].vSpent|);
    }
    FreshValue(p.tx.vout, |p.tx.vout|, |p.tx.vout|);
    UnspentUpdate(v, disk, h, e);
  }

  /** What a block pays out less what it takes in: the change it makes to the money supply. */
  function NetValue(view: TxMap, disk: Disk, ps: seq<Placed>, i: nat): int
    requires i <= |ps|
  {
    if i == 0 then 0 else
      NetValue(view, disk, ps, i - 1) +
      match ConnectFirst(view, ps, i - 1)
      case None => 0
      case Some(v) => ValueOut(ps[i - 1].tx) - ValueIn(v, disk, ps[i - 1].tx)
  }

  ghost predicate Stored(ps: seq<Placed>, disk: Disk) {
    forall j | 0 <= j < |ps| :: !ps[j].pos.NoPos? && ps[j].pos in disk && disk[ps[j].pos] == ps[j].tx
  }

  lemma {:induction false} StaysOverwritable(view: TxMap, ps: seq<Placed>, i: nat, h: Hash)
    requires i <= |ps| && ConnectFirst(view, ps, i).Some? && Overwritable(view, h)
    requires forall j | 0 <= j < |ps| :: !ps[j].pos.NoPos?
    requires h !in Hashes(ps, i)
    ensures Overwritable(ConnectFirst(view, ps, i).value, h)
  {
    if i > 0 {
      assert Hashes(ps, i) == Hashes(ps, i - 1) + {ps[i - 1].tx.hash};
      StaysOverwritable(view, ps, i - 1, h);
      var v := ConnectFirst(view, ps, i - 1).value;
      if !ps[i - 1].tx.IsCoinBase() {
        SpendShape(v, ps[i - 1].tx.vin, |ps[i - 1].tx.vin|, ps[i - 1].pos);
      }
    }
  }

  /** Conservation: connecting transactions changes the unspent total by outputs less inputs. */
  lemma {:induction false} ConnectValue(view: TxMap, disk: Disk, ps: seq<Placed>, i: nat)
    requires i <= |ps| && ConnectFirst(view, ps, i).Some?
    requires Backed(view, disk) && Stored(ps, disk) && DistinctHashes(ps)
    requires forall j | 0 <= j < i :: Overwritable(view, ps[j].tx.hash)
    ensures Backed(ConnectFirst(view, ps, i).value, disk)
    ensures Unspent(ConnectFirst(view, ps, i).value, disk) ==
            Unspent(view, disk) + NetValue(view, disk, ps, i)
  {
    if i > 0 {
      ConnectValue(view, disk, ps, i - 1);
      assert ps[i - 1].tx.hash !in Hashes(ps, i - 1);
      StaysOverwritable(view, ps, i - 1, ps[i - 1].tx.hash);
      ConnectTxValue(ConnectFirst(view, ps, i - 1).value, disk, ps[i - 1]);
    }
  }

  // ---------------------------------------------------------------- spent flags name the spender

  /** Positions of the inputs among the first `i` of `vin` that refer to `op`, one per input. */
  function InputsOn(vin: seq<TxIn>, i: nat, op: OutPoint, pos: DiskTxPos): seq<DiskTxPos>
    requires i <= |vin|
  {
    if i == 0 then [] else
      InputsOn(vin, i - 1, op, pos) + if vin[i - 1].prevout == op then [pos] else []
  }

  /** Every input of the first `i` transactions that spends `op`, in order, as the spender's position. */
  function Spenders(ps: seq<Placed>, i: nat, op: OutPoint): seq<DiskTxPos>
    requires i <= |ps|
  {
    if i == 0 then [] else
      Spenders(ps, i - 1, op) +
      if ps[i - 1].tx.IsCoinBase() then []
      else InputsOn(ps[i - 1].tx.vin, |ps[i - 1].tx.vin|, op, ps[i - 1].pos)
  }

  /** What the index says about `op`: the spender it records, if any. */
  function Recorded(view: TxMap, op: OutPoint): seq<DiskTxPos> {
    if HasOutput(view, op) && !view[op.hash].vSpent[op.n].NoPos?
    then [view[op.hash].vSpent[op.n]] else []
  }

  lemma {:induction false} InputsOnOnce(vin: seq<TxIn>, i: nat, op: OutPoint, pos: DiskTxPos)
    requires i <= |vin|
    requires forall j, k | 0 <= j < k < i :: vin[j].prevout != vin[k].prevout
    ensures InputsOn(vin, i, op, pos) == if op in Outs(vin, i) then [pos] else []
  {
    if i > 0 {
      InputsOnOnce(vin, i - 1, op, pos);
      assert Outs(vin, i) == Outs(vin, i - 1) + {vin[i - 1].prevout};
    }
  }

  lemma RecordedAfterTx(view: TxMap, p: Placed, op: OutPoint)
    requires ConnectTx(view, p).Some? && !p.pos.NoPos? && (op.hash in view ==> p.tx.hash != op.hash)
    ensures Recorded(ConnectTx(view, p).value, op) ==
            Recorded(view, op) +
            if p.tx.IsCoinBase() then [] else InputsOn(p.tx.vin, |p.tx.vin|, op, p.pos)
  {
    var vin := p.tx.vin;
    if !p.tx.IsCoinBase() {
      SpendShape(view, vin, |vin|, p.pos);
      InputsOnOnce(vin, |vin|, op, p.pos);
      assert op == OutPoint(op.hash, op.n);
    }
  }

  /** When distinct transactions connect, the index records for an output that none of them puts in the place of an
  indexed one exactly what it recorded before followed by the inputs that spend it now; so it has one spender in all. */
  lemma {:induction false} SpentExactly(view: TxMap, ps: seq<Placed>, i: nat, op: OutPoint)
    requires i <= |ps| && ConnectFirst(view, ps, i).Some? && DistinctHashes(ps)
    requires forall j | 0 <= j < |ps| :: !ps[j].pos.NoPos? && (op.hash in view ==> ps[j].tx.hash != op.hash)
    ensures Recorded(ConnectFirst(view, ps, i).value, op) == Recorded(view, op) + Spenders(ps, i, op)
    ensures |Recorded(view, op) + Spenders(ps, i, op)| <= 1
  {
    if i > 0 {
      SpentExactly(view, ps, i - 1, op);
      ConnectFirstKeys(view, ps, i - 1);
      assert ps[i - 1].tx.hash !in Hashes(ps, i - 1);
      RecordedAfterTx(ConnectFirst(view, ps, i - 1).value, ps[i - 1], op);
    }
  }

  /** No connected transaction spends an output that was not there before it. */
  lemma InputsComeFromEarlier(view: TxMap, ps: seq<Placed>, i: nat, k: nat)
    requires i < |ps| && ConnectAll(view, ps).Some?
    requires forall j | 0 <= j < |ps| :: !ps[j].pos.NoPos?
    requires !ps[i].tx.IsCoinBase() && k < |ps[i].tx.vin|
    ensures ps[i].tx.vin[k].prevout.hash in view ||
            exists j | 0 <= j < i :: ps[j].tx.hash == ps[i].tx.vin[k].prevout.hash
  {
    ConnectPrefix(view, ps, i + 1, |ps|);
    var v := ConnectFirst(view, ps, i).value;
    ConnectFirstKeys(view, ps, i);
    SpendShape(v, ps[i].tx.vin, |ps[i].tx.vin|, ps[i].pos);
    assert ps[i].tx.vin[k].prevout in Outs(ps[i].tx.vin, |ps[i].tx.vin|);
    assert ps[i].tx.vin[k].prevout.hash in view.Keys + Hashes(ps, i);
  }

  // ---------------------------------------------------------------- appending

  lemma {:induction false} ConnectAppend(view: TxMap, ps: seq<Placed>, qs: seq<Placed>, i: nat)
    requires i <= |qs|
    ensures ConnectFirst(view, ps + qs, |ps| + i) ==
            match ConnectAll(view, ps) case None => None case Some(v) => ConnectFirst(v, qs, i)
  {
    if i == 0 {
      ConnectSame(view, ps, ps + qs, |ps|);
    } else {
      ConnectAppend(view, ps, qs, i - 1);
      assert (ps + qs)[|ps| + i - 1] == qs[i - 1];
    }
  }

  lemma ConnectAllAppend(view: TxMap, ps: seq<Placed>, qs: seq<Placed>)
    ensures ConnectAll(view, ps + qs) == ConnectMore(ConnectAll(view, ps), qs)
  {
    ConnectAppend(view, ps, qs, |qs|);
  }

  lemma {:induction false} ConnectSame(view: TxMap, ps: seq<Placed>, qs: seq<Placed>, i: nat)
    requires i <= |ps| && i <= |qs| && forall j | 0 <= j < i :: ps[j] == qs[j]
    ensures ConnectFirst(view, ps, i) == ConnectFirst(view, qs, i)
  {
    if i > 0 {
      ConnectSame(view, ps, qs, i - 1);
    }
  }
}

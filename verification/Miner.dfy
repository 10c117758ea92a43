/** Choosing memory-pool transactions for a new block. */
module Miner {
  import opened Wrappers
  import opened Ledger
  import opened BlockTree
  import opened TxConnect
  import opened ChainReplay

  type Pool = map<Hash, Tx>

  datatype TxPriority = TxPriority(dPriority: real, dFeePerKb: real, tx: Tx)

  /** Command-line limits, the clock, and the floating-point priorities, which may be anything. */
  datatype Policy = Policy(nBlockMaxSize: nat, nBlockMinSize: nat, nBlockPrioritySize: nat, nMinTxFee: real,
                           nAdjustedTime: nat, nStakeTime: Option<nat>, isFinal: Tx -> bool,
                           priorityOf: Tx -> (real, real), blockMinFee: (Tx, nat) -> int)

  function Rank(policy: Policy, tx: Tx): TxPriority {
    TxPriority(policy.priorityOf(tx).0, policy.priorityOf(tx).1, tx)
  }

  /** Queue entries carry the priority and the fee of their transactions. */
  ghost predicate Ranked(policy: Policy, vec: seq<TxPriority>) {
    forall i | 0 <= i < |vec| :: vec[i] == Rank(policy, vec[i].tx)
  }

  lemma TakeRanked(policy: Policy, vec: seq<TxPriority>, k: nat)
    requires Ranked(policy, vec) && k < |vec|
    ensures Ranked(policy, vec[..k] + vec[k + 1..]) && vec[k] == Rank(policy, vec[k].tx)
  {
  }

  lemma QueueRanked(policy: Policy, vec: seq<TxPriority>, tx: Tx)
    requires Ranked(policy, vec)
    ensures Ranked(policy, vec + [Rank(policy, tx)])
  {
  }

  predicate PoolOk(mempool: Pool) {
    forall h | h in mempool :: mempool[h].hash == h
  }

  predicate Eligible(policy: Policy, tx: Tx) {
    !tx.IsCoinBase() && !tx.IsCoinStake() && policy.isFinal(tx)
  }

  /** Can the output be read from the chain? */
  predicate OnChain(index: TxMap, disk: Disk, op: OutPoint) {
    op.hash in index && index[op.hash].pos in disk && op.n < |disk[index[op.hash].pos].vout|
  }

  /** The memory-pool parents of the first `i` inputs. */
  function Parents(index: TxMap, disk: Disk, vin: seq<TxIn>, i: nat): set<Hash>
    requires i <= |vin|
  {
    set j | 0 <= j < i && !OnChain(index, disk, vin[j].prevout) :: vin[j].prevout.hash
  }

  function HashesOf(vec: seq<TxPriority>): set<Hash> {
    set i | 0 <= i < |vec| :: vec[i].tx.hash
  }

  function WaitingIn(setDependsOn: map<Hash, set<Hash>>): set<Hash> {
    set o | o in setDependsOn && setDependsOn[o] != {}
  }

  /** Queue entries are distinct memory-pool transactions. */
  ghost predicate QueueOk(mempool: Pool, vec: seq<TxPriority>) {
    && (forall i | 0 <= i < |vec| :: vec[i].tx.hash in mempool && mempool[vec[i].tx.hash] == vec[i].tx)
    && (forall i, j | 0 <= i < j < |vec| :: vec[i].tx.hash != vec[j].tx.hash)
  }

  /** Whoever waits for a parent is on that parent's list. */
  ghost predicate Listed(setDependsOn: map<Hash, set<Hash>>, mapDependers: map<Hash, seq<Hash>>) {
    forall o, d | o in setDependsOn && d in setDependsOn[o] :: d in mapDependers && o in mapDependers[d]
  }

  lemma ReleasedFrom(deps: map<Hash, set<Hash>>, dependers: map<Hash, seq<Hash>>, o: Hash, d: Hash)
    requires o in deps && deps[o] != {} && Listed(deps, dependers)
    ensures var after := deps[o := deps[o] - {d}];
            && Listed(after, dependers) && after.Keys == deps.Keys
            && WaitingIn(after) == (if deps[o] == {d} then WaitingIn(deps) - {o} else WaitingIn(deps))
            && o in WaitingIn(deps)
  {
    var after := deps[o := deps[o] - {d}];
    assert after[o] == {} <==> deps[o] == {d};
    assert WaitingIn(after) == if deps[o] == {d} then WaitingIn(deps) - {o} else WaitingIn(deps);
  }

  lemma QueueOne(mempool: Pool, vec: seq<TxPriority>, item: TxPriority)
    requires QueueOk(mempool, vec) && item.tx.hash in mempool && mempool[item.tx.hash] == item.tx
    requires item.tx.hash !in HashesOf(vec)
    ensures QueueOk(mempool, vec + [item]) && HashesOf(vec + [item]) == HashesOf(vec) + {item.tx.hash}
  {
    PushOne(vec, item);
    assert forall i | 0 <= i < |vec| :: vec[i].tx.hash in HashesOf(vec);
  }

  /** The transactions that could still enter the block: those queued and those waiting for parents. */
  class TxQueue {
    const mempool: Pool
    var vecPriority: seq<TxPriority>
    var setDependsOn: map<Hash, set<Hash>>     // per waiting transaction, the parents it waits for
    var mapDependers: map<Hash, seq<Hash>>     // per parent, the transactions waiting for it, one entry per input

    function Waiting(): set<Hash>
      reads this
    {
      WaitingIn(setDependsOn)
    }

    function Offered(): set<Hash>
      reads this
    {
      HashesOf(vecPriority) + Waiting()
    }

    /** Bounds the transactions still to come: a waiting one is queued once and then taken once. */
    ghost function Measure(): nat
      reads this
    {
      2 * |Waiting()| + |vecPriority|
    }

    ghost predicate Valid()
      reads this
    {
      && PoolOk(mempool)
      && QueueOk(mempool, vecPriority)
      && setDependsOn.Keys <= mempool.Keys
      && HashesOf(vecPriority) !! Waiting()
      && Listed(setDependsOn, mapDependers)
    }

    constructor (mempool: Pool)
      requires PoolOk(mempool)
      ensures Valid() && Offered() == {} && setDependsOn == map[] && vecPriority == [] && this.mempool == mempool
    {
      this.mempool := mempool;
      vecPriority, setDependsOn, mapDependers := [], map[], map[];
    }

    /** Sort one memory-pool transaction into the queue or among the waiting. */
    method Classify(tx: Tx, policy: Policy, index: TxMap, disk: Disk)
      requires Valid() && tx.hash in mempool && mempool[tx.hash] == tx
      requires tx.hash !in Offered() && tx.hash !in setDependsOn
      modifies this
      ensures Valid()
      ensures Offered() == old(Offered()) + if Eligible(policy, tx) && Parents(index, disk, tx.vin, |tx.vin|) <= mempool.Keys then {tx.hash} else {}
      ensures tx.hash in HashesOf(vecPriority) <==> Eligible(policy, tx) && Parents(index, disk, tx.vin, |tx.vin|) == {}
      ensures var parents := Parents(index, disk, tx.vin, |tx.vin|);
              setDependsOn == if Eligible(policy, tx) && parents != {} && parents <= mempool.Keys then old(setDependsOn)[tx.hash := parents] else old(setDependsOn)
      ensures old(vecPriority) <= vecPriority && forall i | |old(vecPriority)| <= i < |vecPriority| :: vecPriority[i] == Rank(policy, tx)
    {
      if !Eligible(policy, tx) {
        return;
      }
      ghost var before := setDependsOn;
      var fMissingInputs := AwaitParents(tx, index, disk);
      if fMissingInputs {
        setDependsOn := setDependsOn - {tx.hash};
        assert setDependsOn == before;
        return;
      }
      if tx.hash !in setDependsOn {
        PushOne(vecPriority, Rank(policy, tx));
        vecPriority := vecPriority + [Rank(policy, tx)];
      }
    }

    /** The input loop of the first pass: note every parent that is not on the chain; stop at one that is nowhere. */
    method AwaitParents(tx: Tx, index: TxMap, disk: Disk) returns (fMissingInputs: bool)
      requires Valid() && tx.hash in mempool && tx.hash !in setDependsOn && tx.hash !in HashesOf(vecPriority)
      modifies this`setDependsOn, this`mapDependers
      ensures Valid() && setDependsOn - {tx.hash} == old(setDependsOn)
      ensures fMissingInputs <==> !(Parents(index, disk, tx.vin, |tx.vin|) <= mempool.Keys)
      ensures !fMissingInputs ==>
                if Parents(index, disk, tx.vin, |tx.vin|) == {} then tx.hash !in setDependsOn
                else tx.hash in setDependsOn && setDependsOn[tx.hash] == Parents(index, disk, tx.vin, |tx.vin|)
    {
      for i := 0 to |tx.vin|
        invariant Valid() && setDependsOn - {tx.hash} == old(setDependsOn)
        invariant Parents(index, disk, tx.vin, i) <= mempool.Keys
        invariant if Parents(index, disk, tx.vin, i) == {} then tx.hash !in setDependsOn
                  else tx.hash in setDependsOn && setDependsOn[tx.hash] == Parents(index, disk, tx.vin, i)
      {
        var prevout := tx.vin[i].prevout;
        ParentsGrow(index, disk, tx.vin, i);
        if !OnChain(index, disk, prevout) {
          if prevout.hash !in mempool {
            assert prevout.hash in Parents(index, disk, tx.vin, |tx.vin|);
            return true;
          }
          Await(tx.hash, prevout.hash);
        }
      }
      return false;
    }

    /** `h` has an input from the memory-pool transaction `parent`. */
    method Await(h: Hash, parent: Hash)
      requires Valid() && h in mempool && h !in HashesOf(vecPriority)
      modifies this`setDependsOn, this`mapDependers
      ensures Valid() && setDependsOn == old(setDependsOn)[h := (if h in old(setDependsOn) then old(setDependsOn)[h] else {}) + {parent}]
    {
      if h !in setDependsOn {
        setDependsOn := setDependsOn[h := {}];
      }
      mapDependers := mapDependers[parent := (if parent in mapDependers then mapDependers[parent] else []) + [h]];
      setDependsOn := setDependsOn[h := setDependsOn[h] + {parent}];
    }

    /** Take one transaction off the heap; which one is up to the priorities. */
    method Take(k: nat) returns (item: TxPriority)
      requires Valid() && k < |vecPriority|
      modifies this`vecPriority
      ensures Valid() && item == old(vecPriority)[k]
      ensures vecPriority == old(vecPriority)[..k] + old(vecPriority)[k + 1..]
      ensures item.tx.hash in mempool && mempool[item.tx.hash] == item.tx
      ensures Offered() == old(Offered()) - {item.tx.hash} && item.tx.hash in old(Offered())
      ensures Measure() < old(Measure())
    {
      item := vecPriority[k];
      vecPriority := vecPriority[..k] + vecPriority[k + 1..];
      TakeOne(old(vecPriority), k);
    }

    /** A transaction has been chosen: whatever waited for it alone is queued, once, however many inputs it has from it. */
    method Release(chosen: Hash, policy: Policy)
      requires Valid() && Ranked(policy, vecPriority)
      modifies this`vecPriority, this`setDependsOn
      ensures Valid() && Ranked(policy, vecPriority) && Offered() == old(Offered())
      ensures setDependsOn == Struck(old(setDependsOn), chosen)
      ensures Measure() <= old(Measure())
    {
      hide TxQueue.Valid, TxQueue.Offered, TxQueue.Measure, ReleasedBy, Struck, Listed, Ranked;
      ghost var before := setDependsOn;
      IsListed();
      ReleasedEnds(before, before, mapDependers, chosen);
      if chosen !in mapDependers {
        return;
      }
      var porphans := mapDependers[chosen];
      for i := 0 to |porphans|
        invariant Valid() && Ranked(policy, vecPriority) && Offered() == old(Offered())
        invariant ReleasedBy(before, setDependsOn, porphans[..i], chosen)
        invariant Measure() <= old(Measure())
      {
        var porphan := porphans[i];
        ReleaseStep(before, setDependsOn, porphans[..i], porphan, chosen);
        assert porphans[..i + 1] == porphans[..i] + [porphan];
        if porphan in setDependsOn && setDependsOn[porphan] != {} {
          ReleaseOne(porphan, chosen, policy);
        }
      }
      assert porphans[..|porphans|] == porphans;
      ReleasedEnds(before, setDependsOn, mapDependers, chosen);
    }

    lemma IsListed()
      requires Valid()
      ensures Listed(setDependsOn, mapDependers)
    {
    }

    method ReleaseOne(porphan: Hash, chosen: Hash, policy: Policy)
      requires Valid() && porphan in setDependsOn && setDependsOn[porphan] != {} && Ranked(policy, vecPriority)
      modifies this`vecPriority, this`setDependsOn
      ensures Valid() && Ranked(policy, vecPriority) && Offered() == old(Offered())
      ensures setDependsOn == old(setDependsOn)[porphan := old(setDependsOn)[porphan] - {chosen}]
      ensures Measure() <= old(Measure())
    {
      hide QueueOk, WaitingIn, Listed, PoolOk, HashesOf, Ranked;
      ReleasedFrom(setDependsOn, mapDependers, porphan, chosen);
      PoolHash(mempool, porphan);
      setDependsOn := setDependsOn[porphan := setDependsOn[porphan] - {chosen}];
      if setDependsOn[porphan] == {} {
        QueueOne(mempool, vecPriority, Rank(policy, mempool[porphan]));
        QueueRanked(policy, vecPriority, mempool[porphan]);
        vecPriority := vecPriority + [Rank(policy, mempool[porphan])];
      }
    }
  }

  /** `now` is `before` with `chosen` struck off the sets of those in `done`. */
  ghost predicate ReleasedBy(before: map<Hash, set<Hash>>, now: map<Hash, set<Hash>>, done: seq<Hash>, chosen: Hash) {
    && now.Keys == before.Keys
    && forall o | o in now :: now[o] == if o in done then before[o] - {chosen} else before[o]
  }

  lemma ReleaseStep(before: map<Hash, set<Hash>>, now: map<Hash, set<Hash>>, done: seq<Hash>, o: Hash, chosen: Hash)
    requires ReleasedBy(before, now, done, chosen)
    ensures o in now ==> ReleasedBy(before, now[o := now[o] - {chosen}], done + [o], chosen)
    ensures o !in now || now[o] == {} ==> ReleasedBy(before, now, done + [o], chosen)
  {
  }

  function Struck(deps: map<Hash, set<Hash>>, chosen: Hash): map<Hash, set<Hash>> {
    map o | o in deps :: deps[o] - {chosen}
  }

  lemma ReleasedEnds(before: map<Hash, set<Hash>>, now: map<Hash, set<Hash>>, dependers: map<Hash, seq<Hash>>, chosen: Hash)
    requires Listed(before, dependers)
    ensures now == before ==> ReleasedBy(before, now, [], chosen)
    ensures chosen !in dependers ==> Struck(before, chosen) == before
    ensures chosen in dependers && ReleasedBy(before, now, dependers[chosen], chosen) ==> now == Struck(before, chosen)
  {
    forall o | o in before && chosen !in before[o] ensures before[o] - {chosen} == before[o] {
    }
    if chosen !in dependers {
      forall o | o in before ensures before[o] == before[o] - {chosen} {
        assert chosen !in before[o];
      }
    } else if ReleasedBy(before, now, dependers[chosen], chosen) {
      forall o | o in before ensures now[o] == before[o] - {chosen} {
        assert chosen in before[o] ==> o in dependers[chosen];
      }
    }
  }

  lemma PoolHash(mempool: Pool, h: Hash)
    requires PoolOk(mempool) && h in mempool
    ensures mempool[h].hash == h
  {
  }

  lemma ParentsGrow(index: TxMap, disk: Disk, vin: seq<TxIn>, i: nat)
    requires i < |vin|
    ensures Parents(index, disk, vin, i + 1) ==
            Parents(index, disk, vin, i) + if OnChain(index, disk, vin[i].prevout) then {} else {vin[i].prevout.hash}
  {
  }

  lemma PushOne(vec: seq<TxPriority>, item: TxPriority)
    ensures HashesOf(vec + [item]) == HashesOf(vec) + {item.tx.hash}
  {
    var all := vec + [item];
    assert all[|vec|] == item;
    forall h | h in HashesOf(vec) ensures h in HashesOf(all) {
      var i :| 0 <= i < |vec| && vec[i].tx.hash == h;
      assert all[i] == vec[i];
    }
  }

  lemma TakeOne(vec: seq<TxPriority>, k: nat)
    requires k < |vec| && forall i, j | 0 <= i < j < |vec| :: vec[i].tx.hash != vec[j].tx.hash
    ensures HashesOf(vec[..k] + vec[k + 1..]) == HashesOf(vec) - {vec[k].tx.hash}
    ensures vec[k].tx.hash in HashesOf(vec)
  {
    var rest := vec[..k] + vec[k + 1..];
    forall h | h in HashesOf(vec) - {vec[k].tx.hash} ensures h in HashesOf(rest) {
      var i :| 0 <= i < |vec| && vec[i].tx.hash == h;
      assert if i < k then rest[i] == vec[i] else rest[i - 1] == vec[i];
    }
  }

  // ---------------------------------------------------------------- who waits for whom

  /** With `chosen` in the block: whoever waits does so for its other pool parents, and whoever is queued has no others. */
  ghost predicate Tracked(index: TxMap, disk: Disk, mempool: Pool, deps: map<Hash, set<Hash>>, vec: seq<TxPriority>, chosen: set<Hash>) {
    && (forall h | h in deps :: h in mempool && deps[h] == Parents(index, disk, mempool[h].vin, |mempool[h].vin|) - chosen)
    && forall i | 0 <= i < |vec| :: Parents(index, disk, vec[i].tx.vin, |vec[i].tx.vin|) <= chosen
  }

  lemma TrackOne(policy: Policy, index: TxMap, disk: Disk, mempool: Pool, deps: map<Hash, set<Hash>>, vec: seq<TxPriority>, tx: Tx,
                 deps': map<Hash, set<Hash>>, vec': seq<TxPriority>)
    requires Tracked(index, disk, mempool, deps, vec, {}) && tx.hash in mempool && mempool[tx.hash] == tx
    requires var parents := Parents(index, disk, tx.vin, |tx.vin|); deps' == deps || deps' == deps[tx.hash := parents]
    requires Ranked(policy, vec) && vec <= vec' && forall i | |vec| <= i < |vec'| :: vec'[i] == Rank(policy, tx)
    requires |vec| < |vec'| ==> Parents(index, disk, tx.vin, |tx.vin|) == {}
    ensures Tracked(index, disk, mempool, deps', vec', {}) && Ranked(policy, vec')
  {
    hide Parents;
    forall i | 0 <= i < |vec'| ensures vec'[i] == Rank(policy, vec'[i].tx) && Parents(index, disk, vec'[i].tx.vin, |vec'[i].tx.vin|) <= {} {
      assert i < |vec| ==> vec'[i] == vec[i];
    }
  }

  lemma TakeTracks(index: TxMap, disk: Disk, mempool: Pool, deps: map<Hash, set<Hash>>, vec: seq<TxPriority>, chosen: set<Hash>, k: nat)
    requires Tracked(index, disk, mempool, deps, vec, chosen) && k < |vec|
    ensures Tracked(index, disk, mempool, deps, vec[..k] + vec[k + 1..], chosen)
    ensures Parents(index, disk, vec[k].tx.vin, |vec[k].tx.vin|) <= chosen
  {
    hide Parents;
  }

  /** Releasing the children of a chosen transaction keeps the account. */
  lemma ReleaseTracks(index: TxMap, disk: Disk, mempool: Pool, deps: map<Hash, set<Hash>>, vec: seq<TxPriority>, chosen: set<Hash>, h: Hash,
                      deps': map<Hash, set<Hash>>, vec': seq<TxPriority>)
    requires Tracked(index, disk, mempool, deps, vec, chosen) && QueueOk(mempool, vec) && QueueOk(mempool, vec')
    requires deps' == Struck(deps, h) && HashesOf(vec') !! WaitingIn(deps')
    requires HashesOf(vec') + WaitingIn(deps') == HashesOf(vec) + WaitingIn(deps)
    ensures Tracked(index, disk, mempool, deps', vec', chosen + {h})
  {
    hide Parents;
    forall i | 0 <= i < |vec'| ensures Parents(index, disk, vec'[i].tx.vin, |vec'[i].tx.vin|) <= chosen + {h} {
      var g := vec'[i].tx.hash;
      assert g in HashesOf(vec') && mempool[g] == vec'[i].tx;
      if g in HashesOf(vec) {
        var j :| 0 <= j < |vec| && vec[j].tx.hash == g;
      } else {
        assert g in WaitingIn(deps) && g !in WaitingIn(deps');
      }
    }
  }

  // ---------------------------------------------------------------- the selection

  /** The chosen transactions with the position that stands for the memory pool. */
  function PlacedTxs(vtx: seq<Tx>): (ps: seq<Placed>)
    ensures |ps| == |vtx| && forall i {:trigger ps[i]} | 0 <= i < |ps| :: ps[i] == Placed(vtx[i], MEMPOOL_POS)
  {
    seq(|vtx|, i requires 0 <= i < |vtx| => Placed(vtx[i], MEMPOOL_POS))
  }

  /** What FetchInputs finds for the miner, on top of the transactions chosen so far. */
  function Found(view: TxMap, disk: Disk, mempool: Pool, vin: seq<TxIn>): Inputs {
    map h | h in PrevHashes(vin, |vin|) && Lookup(view, map[], disk, mempool, true, h).Some? ::
      Lookup(view, map[], disk, mempool, true, h).value
  }

  function FeeOf(view: TxMap, disk: Disk, mempool: Pool, tx: Tx): int {
    FetchedIn(Found(view, disk, mempool, tx.vin), tx.vin, |tx.vin|) - ValueOut(tx)
  }

  function MinerSigOps(rules: Rules, view: TxMap, disk: Disk, mempool: Pool, tx: Tx): nat {
    rules.legacySigOps(tx) + rules.p2shSigOps(tx, Prevs(Found(view, disk, mempool, tx.vin)))
  }

  /** The conditions under which the miner takes a transaction, besides size, fee and signature-operation limits. */
  ghost predicate Takes(rules: Rules, index: TxMap, view: TxMap, disk: Disk, mempool: Pool, tx: Tx, pindexPrev: BlockIndex) {
    Connectable(rules, tx, Found(view, disk, mempool, tx.vin), index, MEMPOOL_POS, pindexPrev, false)
  }

  /** Fetch, check the fee, count, and connect one transaction on a copy of the pending changes. */
  method TryConnect(rules: Rules, policy: Policy, tx: Tx, index: TxMap, disk: Disk, mempool: Pool, mapTestPool: TxMap,
                    pindexPrev: BlockIndex, nBestHeight: nat, nMinFee: int, nBlockSigOps: nat)
    returns (ok: bool, mapTestPoolTmp: TxMap, nTxSigOps: nat, nTxFees: int)
    requires pindexPrev.Wf() && !tx.IsCoinBase()
    ensures var view := index + mapTestPool;
            ok <==> Takes(rules, index, view, disk, mempool, tx, pindexPrev)
                    && FeeOf(view, disk, mempool, tx) >= nMinFee
                    && nBlockSigOps + MinerSigOps(rules, view, disk, mempool, tx) < MAX_BLOCK_SIGOPS
    ensures ok ==> ConnectTx(index + mapTestPool, Placed(tx, MEMPOOL_POS)) == Some(index + mapTestPoolTmp)
    ensures ok ==> nTxSigOps == MinerSigOps(rules, index + mapTestPool, disk, mempool, tx)
    ensures ok ==> nTxFees == FeeOf(index + mapTestPool, disk, mempool, tx)
  {
    hide PrevHashes, SpendFirst, Unspent;
    mapTestPoolTmp := mapTestPool;
    nTxSigOps, nTxFees := rules.legacySigOps(tx), 0;
    var fetched, inputs := FetchForMiner(tx, index, disk, mempool, mapTestPool, pindexPrev);
    if !fetched {
      return false, mapTestPoolTmp, nTxSigOps, nTxFees;
    }
    nTxFees := FetchedIn(inputs, tx.vin, |tx.vin|) - ValueOut(tx);
    if nTxFees < nMinFee {
      return false, mapTestPoolTmp, nTxSigOps, nTxFees;
    }
    nTxSigOps := nTxSigOps + rules.p2shSigOps(tx, Prevs(inputs));
    if nBlockSigOps + nTxSigOps >= MAX_BLOCK_SIGOPS {
      return false, mapTestPoolTmp, nTxSigOps, nTxFees;
    }
    ok, mapTestPoolTmp := ConnectInputs(rules, tx, inputs, index, mapTestPoolTmp, MEMPOOL_POS, pindexPrev, nBestHeight, false, true);
    if !ok {
      return;
    }
    SpendOverlay(index, mapTestPool, Entries(inputs), tx.vin);
    var entry := Fresh(MEMPOOL_POS, |tx.vout|);
    Overlay(index, mapTestPoolTmp, tx.hash, entry);
    mapTestPoolTmp := mapTestPoolTmp[tx.hash := entry];
  }

  /** FetchInputs in miner mode, told in terms of the view it reads. */
  method FetchForMiner(tx: Tx, index: TxMap, disk: Disk, mempool: Pool, mapTestPool: TxMap, pindexPrev: BlockIndex) returns (ok: bool, inputs: Inputs)
    requires !tx.IsCoinBase()
    ensures ok ==> inputs == Found(index + mapTestPool, disk, mempool, tx.vin) && inputs.Keys == PrevHashes(tx.vin, |tx.vin|)
    ensures ok ==> forall h | h in inputs :: h in index + mapTestPool && inputs[h].0 == (index + mapTestPool)[h]
    ensures !ok ==> exists i | 0 <= i < |tx.vin| :: !InputSane(tx, Found(index + mapTestPool, disk, mempool, tx.vin), i, pindexPrev)
  {
    var fInvalid;
    ok, inputs, fInvalid := FetchInputs(tx, index, mapTestPool, disk, mempool, false, true);
    FoundInView(tx, index, disk, mempool, mapTestPool, pindexPrev, ok, inputs);
  }

  /** The miner looks in the pending changes before the index, which is looking in the two laid over each other. */
  lemma LookupInView(index: TxMap, disk: Disk, mempool: Pool, mapTestPool: TxMap, h: Hash)
    ensures Lookup(index, mapTestPool, disk, mempool, true, h) == Lookup(index + mapTestPool, map[], disk, mempool, true, h)
  {
  }

  lemma FoundInView(tx: Tx, index: TxMap, disk: Disk, mempool: Pool, mapTestPool: TxMap, pindexPrev: BlockIndex, ok: bool, inputs: Inputs)
    requires !tx.IsCoinBase()
    requires var found := forall h | h in PrevHashes(tx.vin, |tx.vin|) :: Lookup(index, mapTestPool, disk, mempool, true, h).Some?;
             && (found ==>
                  && inputs.Keys == PrevHashes(tx.vin, |tx.vin|)
                  && (forall h | h in inputs :: Some(inputs[h]) == Lookup(index, mapTestPool, disk, mempool, true, h))
                  && (ok <==> forall i | 0 <= i < |tx.vin| :: OutputInRange(inputs, tx.vin[i].prevout)))
             && (ok ==> found)
    ensures ok ==> inputs == Found(index + mapTestPool, disk, mempool, tx.vin) && inputs.Keys == PrevHashes(tx.vin, |tx.vin|)
    ensures ok ==> forall h | h in inputs :: h in index + mapTestPool && inputs[h].0 == (index + mapTestPool)[h]
    ensures !ok ==> exists i | 0 <= i < |tx.vin| :: !InputSane(tx, Found(index + mapTestPool, disk, mempool, tx.vin), i, pindexPrev)
  {
    var view, hs := index + mapTestPool, PrevHashes(tx.vin, |tx.vin|);
    forall h ensures Lookup(index, mapTestPool, disk, mempool, true, h) == Lookup(view, map[], disk, mempool, true, h) {
      LookupInView(index, disk, mempool, mapTestPool, h);
    }
    if h :| h in hs && Lookup(view, map[], disk, mempool, true, h).None? {
      var i :| 0 <= i < |tx.vin| && tx.vin[i].prevout.hash == h;
      assert !InputSane(tx, Found(view, disk, mempool, tx.vin), i, pindexPrev);
    } else {
      assert inputs == Found(view, disk, mempool, tx.vin);
      if !ok {
        var i :| 0 <= i < |tx.vin| && !OutputInRange(inputs, tx.vin[i].prevout);
        assert !InputSane(tx, inputs, i, pindexPrev);
      }
    }
  }

  lemma Overlay(index: TxMap, pool: TxMap, h: Hash, e: TxIndex)
    ensures index + pool[h := e] == (index + pool)[h := e]
  {
  }

  lemma SpendOverlay(index: TxMap, pool: TxMap, sub: TxMap, vin: seq<TxIn>)
    requires forall h | h in sub :: h in index + pool && (index + pool)[h] == sub[h]
    requires sub.Keys == PrevHashes(vin, |vin|)
    requires SpendFirst(sub, vin, |vin|, MEMPOOL_POS).Some?
    ensures SpendFirst(index + pool, vin, |vin|, MEMPOOL_POS) ==
            Some(index + (pool + SpendFirst(sub, vin, |vin|, MEMPOOL_POS).value))
  {
    hide SpendFirst;
    PrevKnown(vin);
    SpendLocal(index + pool, sub, vin, |vin|, MEMPOOL_POS);
    OverlayAssociates(index, pool, SpendFirst(sub, vin, |vin|, MEMPOOL_POS).value);
  }

  lemma PrevKnown(vin: seq<TxIn>)
    ensures forall j | 0 <= j < |vin| :: vin[j].prevout.hash in PrevHashes(vin, |vin|)
  {
  }

  lemma OverlayAssociates(a: TxMap, b: TxMap, c: TxMap)
    ensures a + b + c == a + (b + c)
  {
  }

  /** The index with the pending changes of the chosen transactions laid over it. */
  ghost function ViewAfter(index: TxMap, vtx: seq<Tx>): TxMap {
    match ConnectAll(index, PlacedTxs(vtx)) case None => map[] case Some(v) => v
  }

  ghost function FeesOf(index: TxMap, disk: Disk, mempool: Pool, vtx: seq<Tx>): int {
    if vtx == [] then 0 else
      var rest := vtx[..|vtx| - 1];
      FeesOf(index, disk, mempool, rest) + FeeOf(ViewAfter(index, rest), disk, mempool, Last(vtx))
  }

  ghost function SigOpsOf(rules: Rules, index: TxMap, disk: Disk, mempool: Pool, vtx: seq<Tx>): nat {
    if vtx == [] then 0 else
      var rest := vtx[..|vtx| - 1];
      SigOpsOf(rules, index, disk, mempool, rest) + MinerSigOps(rules, ViewAfter(index, rest), disk, mempool, Last(vtx))
  }

  /** Each chosen transaction met the miner's conditions on the chain and those chosen before it. */
  ghost predicate Taken(rules: Rules, index: TxMap, disk: Disk, mempool: Pool, vtx: seq<Tx>, pindexPrev: BlockIndex) {
    vtx != [] ==>
      var rest := vtx[..|vtx| - 1];
      && Taken(rules, index, disk, mempool, rest, pindexPrev)
      && Takes(rules, index, ViewAfter(index, rest), disk, mempool, Last(vtx), pindexPrev)
  }

  ghost predicate FromPool(policy: Policy, mempool: Pool, vtx: seq<Tx>) {
    && (forall i | 0 <= i < |vtx| :: vtx[i].hash in mempool && mempool[vtx[i].hash] == vtx[i])
    && (forall i | 0 <= i < |vtx| :: Eligible(policy, vtx[i]) && vtx[i].nTime <= policy.nAdjustedTime)
    && (forall i, j | 0 <= i < j < |vtx| :: vtx[i].hash != vtx[j].hash)
  }

  /** A correct selection: distinct pool transactions, in an order in which they connect one after the
  other on the chain, within the size and signature-operation limits, with their fees added up. */
  ghost predicate Selection(rules: Rules, policy: Policy, index: TxMap, disk: Disk, mempool: Pool, vtx: seq<Tx>, mapTestPool: TxMap,
                            nBlockSize: nat, nBlockSigOps: nat, nFees: int, pindexPrev: BlockIndex) {
    && FromPool(policy, mempool, vtx)
    && ConnectAll(index, PlacedTxs(vtx)) == Some(index + mapTestPool)
    && nBlockSize == 1000 + SizeBefore(vtx, |vtx|) && (vtx == [] || nBlockSize < policy.nBlockMaxSize)
    && nBlockSigOps == 100 + SigOpsOf(rules, index, disk, mempool, vtx) && nBlockSigOps < MAX_BLOCK_SIGOPS
    && nFees == FeesOf(index, disk, mempool, vtx)
    && Taken(rules, index, disk, mempool, vtx, pindexPrev)
  }

  predicate Candidate(policy: Policy, index: TxMap, disk: Disk, mempool: Pool, tx: Tx) {
    Eligible(policy, tx) && Parents(index, disk, tx.vin, |tx.vin|) <= mempool.Keys
  }

  /** The transactions among `hs` that may enter the block: each parent is on the chain or in the pool. */
  function Candidates(policy: Policy, index: TxMap, disk: Disk, mempool: Pool, hs: set<Hash>): set<Hash> {
    set h | h in hs && h in mempool && Candidate(policy, index, disk, mempool, mempool[h])
  }

  /** Candidates are the final transactions, no coinbase and no coinstake, each of whose inputs can be read from the chain or is in the pool. */
  lemma CandidateMeans(policy: Policy, index: TxMap, disk: Disk, mempool: Pool, h: Hash)
    ensures h in Candidates(policy, index, disk, mempool, mempool.Keys) <==>
              && h in mempool && !mempool[h].IsCoinBase() && !mempool[h].IsCoinStake() && policy.isFinal(mempool[h])
              && forall k | 0 <= k < |mempool[h].vin| ::
                   var op := mempool[h].vin[k].prevout;
                   op.hash in mempool || (op.hash in index && index[op.hash].pos in disk && op.n < |disk[index[op.hash].pos].vout|)
  {
    if h in mempool && Candidate(policy, index, disk, mempool, mempool[h]) {
      var tx := mempool[h];
      forall k | 0 <= k < |tx.vin| ensures OnChain(index, disk, tx.vin[k].prevout) || tx.vin[k].prevout.hash in mempool {
        assert !OnChain(index, disk, tx.vin[k].prevout) ==> tx.vin[k].prevout.hash in Parents(index, disk, tx.vin, |tx.vin|);
      }
    }
  }

  lemma CandidatesGrow(policy: Policy, index: TxMap, disk: Disk, mempool: Pool, todo: set<Hash>, h: Hash)
    requires h in todo && todo <= mempool.Keys
    ensures Candidates(policy, index, disk, mempool, mempool.Keys - (todo - {h})) ==
            Candidates(policy, index, disk, mempool, mempool.Keys - todo) +
            if Candidate(policy, index, disk, mempool, mempool[h]) then {h} else {}
    ensures h !in Candidates(policy, index, disk, mempool, mempool.Keys - todo)
  {
  }

  /** Fill the queue from the memory pool. */
  method FillQueue(policy: Policy, index: TxMap, disk: Disk, mempool: Pool) returns (queue: TxQueue)
    requires PoolOk(mempool)
    ensures fresh(queue) && queue.Valid() && queue.mempool == mempool
    ensures queue.Offered() == Candidates(policy, index, disk, mempool, mempool.Keys)
    ensures Tracked(index, disk, mempool, queue.setDependsOn, queue.vecPriority, {}) && Ranked(policy, queue.vecPriority)
  {
    hide TxQueue.Valid, TxQueue.Offered, Candidates, Eligible, Parents, Tracked, Ranked, HashesOf;
    queue := new TxQueue(mempool);
    var todo := mempool.Keys;
    NoCandidates(policy, index, disk, mempool);
    NoneTracked(policy, index, disk, mempool, queue.setDependsOn, queue.vecPriority);
    while todo != {}
      invariant todo <= mempool.Keys && queue.Valid() && queue.mempool == mempool && fresh(queue)
      invariant queue.setDependsOn.Keys !! todo
      invariant Tracked(index, disk, mempool, queue.setDependsOn, queue.vecPriority, {}) && Ranked(policy, queue.vecPriority)
      invariant queue.Offered() == Candidates(policy, index, disk, mempool, mempool.Keys - todo)
      decreases |todo|
    {
      var h :| h in todo;
      CandidatesGrow(policy, index, disk, mempool, todo, h);
      ghost var deps, vec := queue.setDependsOn, queue.vecPriority;
      queue.Classify(mempool[h], policy, index, disk);
      InQueue(queue.vecPriority, |vec|);
      TrackOne(policy, index, disk, mempool, deps, vec, mempool[h], queue.setDependsOn, queue.vecPriority);
      todo := todo - {h};
    }
    assert mempool.Keys - todo == mempool.Keys;
  }

  lemma NoneTracked(policy: Policy, index: TxMap, disk: Disk, mempool: Pool, deps: map<Hash, set<Hash>>, vec: seq<TxPriority>)
    requires deps == map[] && vec == []
    ensures Tracked(index, disk, mempool, deps, vec, {}) && Ranked(policy, vec)
  {
  }

  lemma InQueue(vec: seq<TxPriority>, k: nat)
    ensures k < |vec| ==> vec[k].tx.hash in HashesOf(vec)
  {
  }

  lemma NoCandidates(policy: Policy, index: TxMap, disk: Disk, mempool: Pool)
    ensures Candidates(policy, index, disk, mempool, mempool.Keys - mempool.Keys) == {}
  {
  }

  // ---------------------------------------------------------------- why a transaction is left out

  function ChosenHashes(vtx: seq<Tx>): set<Hash> {
    set i | 0 <= i < |vtx| :: vtx[i].hash
  }

  /** Does a transaction, examined when `p` had been chosen, end the part of the block that goes by priority? */
  predicate EndsPriority(policy: Policy, p: seq<Tx>, tx: Tx) {
    1000 + SizeBefore(p, |p|) + tx.nBytes >= policy.nBlockPrioritySize || policy.priorityOf(tx).0 < 57_600_000.0
  }

  /** By the time that `p` has been chosen the queue goes by fee: from the start, or because of some transaction examined by then. */
  ghost predicate ByFee(policy: Policy, mempool: Pool, p: seq<Tx>) {
    policy.nBlockPrioritySize == 0 || exists m, h :: 0 <= m <= |p| && h in mempool && EndsPriority(policy, p[..m], mempool[h])
  }

  /** By then it goes by fee for certain: from the start, or because of a transaction that was chosen. */
  ghost predicate SurelyByFee(policy: Policy, p: seq<Tx>) {
    policy.nBlockPrioritySize == 0 || exists m :: 0 <= m < |p| && EndsPriority(policy, p[..m], p[m])
  }

  /** The grounds on which the miner passes over a transaction when it has chosen `p`: size, signature operations, time, no fee worth
  the place when it goes by fee, too small a fee, or inputs that do not connect. */
  ghost predicate Unfit(byFee: bool, rules: Rules, policy: Policy, index: TxMap, disk: Disk, mempool: Pool, pindexPrev: BlockIndex, p: seq<Tx>, tx: Tx) {
    var size, sigOps, view := 1000 + SizeBefore(p, |p|), 100 + SigOpsOf(rules, index, disk, mempool, p), ViewAfter(index, p);
    || size + tx.nBytes >= policy.nBlockMaxSize
    || sigOps + rules.legacySigOps(tx) >= MAX_BLOCK_SIGOPS
    || tx.nTime > policy.nAdjustedTime || (policy.nStakeTime.Some? && tx.nTime > policy.nStakeTime.value)
    || (byFee && policy.priorityOf(tx).1 < policy.nMinTxFee && size + tx.nBytes >= policy.nBlockMinSize)
    || FeeOf(view, disk, mempool, tx) < policy.blockMinFee(tx, size)
    || sigOps + MinerSigOps(rules, view, disk, mempool, tx) >= MAX_BLOCK_SIGOPS
    || !Takes(rules, index, view, disk, mempool, tx, pindexPrev)
  }

  ghost predicate PassedOver(rules: Rules, policy: Policy, index: TxMap, disk: Disk, mempool: Pool, pindexPrev: BlockIndex, p: seq<Tx>, tx: Tx) {
    Unfit(ByFee(policy, mempool, p), rules, policy, index, disk, mempool, pindexPrev, p, tx)
  }

  /** On none of these grounds should a chosen transaction have been passed over. */
  ghost predicate Deserved(rules: Rules, policy: Policy, index: TxMap, disk: Disk, mempool: Pool, pindexPrev: BlockIndex, vtx: seq<Tx>) {
    forall i | 0 <= i < |vtx| :: !Unfit(SurelyByFee(policy, vtx[..i]), rules, policy, index, disk, mempool, pindexPrev, vtx[..i], vtx[i])
  }

  lemma DeservedStart(rules: Rules, policy: Policy, index: TxMap, disk: Disk, mempool: Pool, pindexPrev: BlockIndex)
    ensures Deserved(rules, policy, index, disk, mempool, pindexPrev, [])
    ensures SurelyByFee(policy, []) ==> policy.nBlockPrioritySize == 0
  {
  }

  lemma DeservedMore(byFee: bool, rules: Rules, policy: Policy, index: TxMap, disk: Disk, mempool: Pool, pindexPrev: BlockIndex, vtx: seq<Tx>, tx: Tx)
    requires Deserved(rules, policy, index, disk, mempool, pindexPrev, vtx) && (SurelyByFee(policy, vtx) ==> byFee)
    requires !Unfit(byFee, rules, policy, index, disk, mempool, pindexPrev, vtx, tx)
    ensures Deserved(rules, policy, index, disk, mempool, pindexPrev, vtx + [tx])
  {
    FitEither(byFee, rules, policy, index, disk, mempool, pindexPrev, vtx, tx);
    hide Unfit, SurelyByFee;
    var more := vtx + [tx];
    forall i | 0 <= i < |more|
      ensures !Unfit(SurelyByFee(policy, more[..i]), rules, policy, index, disk, mempool, pindexPrev, more[..i], more[i])
    {
      PrefixOfMore(vtx, tx, i);
      assert vtx[..|vtx|] == vtx;
    }
  }

  lemma FitEither(byFee: bool, rules: Rules, policy: Policy, index: TxMap, disk: Disk, mempool: Pool, pindexPrev: BlockIndex, p: seq<Tx>, tx: Tx)
    requires !Unfit(byFee, rules, policy, index, disk, mempool, pindexPrev, p, tx) && (SurelyByFee(policy, p) ==> byFee)
    ensures !Unfit(SurelyByFee(policy, p), rules, policy, index, disk, mempool, pindexPrev, p, tx)
  {
    hide FeeOf, MinerSigOps, Takes, SigOpsOf, SizeBefore, ViewAfter, SurelyByFee;
  }

  lemma UnfitIsPassedOver(byFee: bool, rules: Rules, policy: Policy, index: TxMap, disk: Disk, mempool: Pool, pindexPrev: BlockIndex, p: seq<Tx>, tx: Tx)
    requires Unfit(byFee, rules, policy, index, disk, mempool, pindexPrev, p, tx) && (byFee ==> ByFee(policy, mempool, p))
    ensures PassedOver(rules, policy, index, disk, mempool, pindexPrev, p, tx)
  {
    hide FeeOf, MinerSigOps, Takes, SigOpsOf, SizeBefore, ViewAfter, ByFee;
  }

  lemma SurelyMore(policy: Policy, p: seq<Tx>, tx: Tx)
    requires SurelyByFee(policy, p + [tx])
    ensures SurelyByFee(policy, p) || EndsPriority(policy, p, tx)
  {
    hide EndsPriority;
    if policy.nBlockPrioritySize != 0 {
      var more := p + [tx];
      var m :| 0 <= m < |more| && EndsPriority(policy, more[..m], more[m]);
      PrefixOfMore(p, tx, m);
      assert p[..|p|] == p;
    }
  }

  /** All pool parents of the transaction had been chosen by the time it was passed over. */
  ghost predicate PassedOverAt(rules: Rules, policy: Policy, index: TxMap, disk: Disk, mempool: Pool, pindexPrev: BlockIndex, vtx: seq<Tx>, tx: Tx, n: nat) {
    && n <= |vtx| && Parents(index, disk, tx.vin, |tx.vin|) <= ChosenHashes(vtx[..n])
    && PassedOver(rules, policy, index, disk, mempool, pindexPrev, vtx[..n], tx)
  }

  /** Every candidate is chosen, or still on offer, or was passed over for a reason; and only candidates are chosen. */
  ghost predicate Settled(rules: Rules, policy: Policy, index: TxMap, disk: Disk, mempool: Pool, pindexPrev: BlockIndex, vtx: seq<Tx>, offered: set<Hash>) {
    && ChosenHashes(vtx) + offered <= Candidates(policy, index, disk, mempool, mempool.Keys)
    && forall h | h in Candidates(policy, index, disk, mempool, mempool.Keys) && h !in ChosenHashes(vtx) && h !in offered ::
         exists n :: PassedOverAt(rules, policy, index, disk, mempool, pindexPrev, vtx, mempool[h], n)
  }

  lemma SettledStart(rules: Rules, policy: Policy, index: TxMap, disk: Disk, mempool: Pool, pindexPrev: BlockIndex)
    ensures Settled(rules, policy, index, disk, mempool, pindexPrev, [], Candidates(policy, index, disk, mempool, mempool.Keys))
    ensures ChosenHashes([]) == {} && (policy.nBlockPrioritySize == 0 ==> ByFee(policy, mempool, []))
  {
  }

  lemma PrefixOfMore(vtx: seq<Tx>, tx: Tx, n: nat)
    requires n <= |vtx|
    ensures (vtx + [tx])[..n] == vtx[..n]
  {
  }

  lemma ChosenMore(vtx: seq<Tx>, tx: Tx)
    ensures ChosenHashes(vtx + [tx]) == ChosenHashes(vtx) + {tx.hash}
  {
    var more := vtx + [tx];
    assert more[|vtx|] == tx;
    forall i | 0 <= i < |vtx| ensures vtx[i].hash in ChosenHashes(more) {
      assert more[i] == vtx[i];
    }
  }

  lemma SettledChosen(rules: Rules, policy: Policy, index: TxMap, disk: Disk, mempool: Pool, pindexPrev: BlockIndex, vtx: seq<Tx>, offered: set<Hash>, tx: Tx)
    requires Settled(rules, policy, index, disk, mempool, pindexPrev, vtx, offered) && tx.hash in offered
    ensures Settled(rules, policy, index, disk, mempool, pindexPrev, vtx + [tx], offered - {tx.hash})
    ensures ChosenHashes(vtx + [tx]) == ChosenHashes(vtx) + {tx.hash}
  {
    hide PassedOver, Candidates, Parents, ChosenHashes;
    ChosenMore(vtx, tx);
    forall h | h in Candidates(policy, index, disk, mempool, mempool.Keys) && h !in ChosenHashes(vtx + [tx]) && h !in offered - {tx.hash}
      ensures h in mempool && exists n :: PassedOverAt(rules, policy, index, disk, mempool, pindexPrev, vtx + [tx], mempool[h], n)
    {
      CandidateKnown(policy, index, disk, mempool, h);
      var n :| PassedOverAt(rules, policy, index, disk, mempool, pindexPrev, vtx, mempool[h], n);
      PrefixOfMore(vtx, tx, n);
      assert PassedOverAt(rules, policy, index, disk, mempool, pindexPrev, vtx + [tx], mempool[h], n);
    }
  }

  lemma CandidateKnown(policy: Policy, index: TxMap, disk: Disk, mempool: Pool, h: Hash)
    requires h in Candidates(policy, index, disk, mempool, mempool.Keys)
    ensures h in mempool && Candidate(policy, index, disk, mempool, mempool[h])
  {
  }

  lemma SettledPassed(rules: Rules, policy: Policy, index: TxMap, disk: Disk, mempool: Pool, pindexPrev: BlockIndex, vtx: seq<Tx>, offered: set<Hash>, tx: Tx)
    requires Settled(rules, policy, index, disk, mempool, pindexPrev, vtx, offered) && tx.hash in mempool && mempool[tx.hash] == tx
    requires Parents(index, disk, tx.vin, |tx.vin|) <= ChosenHashes(vtx)
    requires PassedOver(rules, policy, index, disk, mempool, pindexPrev, vtx, tx)
    ensures Settled(rules, policy, index, disk, mempool, pindexPrev, vtx, offered - {tx.hash})
  {
    hide PassedOver, Candidates, Parents, ChosenHashes;
    assert vtx[..|vtx|] == vtx;
    assert PassedOverAt(rules, policy, index, disk, mempool, pindexPrev, vtx, tx, |vtx|);
  }

  /** A candidate that is not chosen was passed over for a reason, all its pool parents chosen before it, or has a pool parent that is not
  chosen; and only candidates are chosen. */
  ghost predicate Complete(rules: Rules, policy: Policy, index: TxMap, disk: Disk, mempool: Pool, pindexPrev: BlockIndex, vtx: seq<Tx>) {
    && ChosenHashes(vtx) <= Candidates(policy, index, disk, mempool, mempool.Keys)
    && forall h | h in Candidates(policy, index, disk, mempool, mempool.Keys) && h !in ChosenHashes(vtx) ::
         || (exists n :: PassedOverAt(rules, policy, index, disk, mempool, pindexPrev, vtx, mempool[h], n))
         || !(Parents(index, disk, mempool[h].vin, |mempool[h].vin|) <= ChosenHashes(vtx))
  }

  lemma NothingQueued(rules: Rules, policy: Policy, index: TxMap, disk: Disk, mempool: Pool, pindexPrev: BlockIndex, vtx: seq<Tx>,
                      deps: map<Hash, set<Hash>>, vec: seq<TxPriority>)
    requires Settled(rules, policy, index, disk, mempool, pindexPrev, vtx, HashesOf(vec) + WaitingIn(deps)) && vec == []
    requires Tracked(index, disk, mempool, deps, vec, ChosenHashes(vtx))
    ensures Complete(rules, policy, index, disk, mempool, pindexPrev, vtx)
  {
    hide PassedOverAt, Candidates, Parents, ChosenHashes;
    forall h | h in Candidates(policy, index, disk, mempool, mempool.Keys) && h !in ChosenHashes(vtx)
      ensures h in mempool
      ensures (exists n :: PassedOverAt(rules, policy, index, disk, mempool, pindexPrev, vtx, mempool[h], n))
              || !(Parents(index, disk, mempool[h].vin, |mempool[h].vin|) <= ChosenHashes(vtx))
    {
      CandidateKnown(policy, index, disk, mempool, h);
      if h in WaitingIn(deps) {
        assert deps[h] != {};
      }
    }
  }

  lemma ByFeeMore(policy: Policy, mempool: Pool, p: seq<Tx>, tx: Tx)
    requires ByFee(policy, mempool, p)
    ensures ByFee(policy, mempool, p + [tx])
  {
    hide EndsPriority;
    if policy.nBlockPrioritySize != 0 {
      var m, h :| 0 <= m <= |p| && h in mempool && EndsPriority(policy, p[..m], mempool[h]);
      PrefixOfMore(p, tx, m);
      assert EndsPriority(policy, (p + [tx])[..m], mempool[h]);
    }
  }

  lemma ByFeeNow(policy: Policy, mempool: Pool, p: seq<Tx>, tx: Tx)
    requires tx.hash in mempool && mempool[tx.hash] == tx && EndsPriority(policy, p, tx)
    ensures ByFee(policy, mempool, p)
  {
    hide EndsPriority;
    assert p[..|p|] == p;
    assert EndsPriority(policy, p[..|p|], mempool[tx.hash]);
  }

  lemma SelectionMeans(rules: Rules, policy: Policy, index: TxMap, disk: Disk, mempool: Pool, vtx: seq<Tx>, mapTestPool: TxMap,
                       nBlockSize: nat, nBlockSigOps: nat, nFees: int, pindexPrev: BlockIndex)
    requires Selection(rules, policy, index, disk, mempool, vtx, mapTestPool, nBlockSize, nBlockSigOps, nFees, pindexPrev)
    ensures nBlockSize == 1000 + SizeBefore(vtx, |vtx|) && nBlockSigOps == 100 + SigOpsOf(rules, index, disk, mempool, vtx)
    ensures ViewAfter(index, vtx) == index + mapTestPool
  {
  }

  /** One pass of the loop: the checks on the transaction at the head of the queue. */
  method Examine(rules: Rules, policy: Policy, item: TxPriority, index: TxMap, disk: Disk, mempool: Pool, ghost vtx: seq<Tx>, mapTestPool: TxMap,
                 nBlockSize: nat, nBlockSigOps: nat, ghost nFees: int, pindexPrev: BlockIndex, nBestHeight: nat, fSorted0: bool)
    returns (taken: bool, mapTestPoolTmp: TxMap, nTxSigOps: nat, nTxFees: int, fSortedByFee: bool)
    requires pindexPrev.Wf() && item.tx.hash in mempool && mempool[item.tx.hash] == item.tx && !item.tx.IsCoinBase()
    requires item == Rank(policy, item.tx)
    requires Selection(rules, policy, index, disk, mempool, vtx, mapTestPool, nBlockSize, nBlockSigOps, nFees, pindexPrev)
    requires fSorted0 ==> ByFee(policy, mempool, vtx)
    ensures fSortedByFee ==> ByFee(policy, mempool, vtx)
    ensures taken <==> !Unfit(fSorted0, rules, policy, index, disk, mempool, pindexPrev, vtx, item.tx)
    ensures fSorted0 || (taken && EndsPriority(policy, vtx, item.tx)) ==> fSortedByFee
    ensures taken ==>
              var tx, view := item.tx, index + mapTestPool;
              && nBlockSize + tx.nBytes < policy.nBlockMaxSize && tx.nTime <= policy.nAdjustedTime
              && nBlockSigOps + MinerSigOps(rules, view, disk, mempool, tx) < MAX_BLOCK_SIGOPS
              && Takes(rules, index, view, disk, mempool, tx, pindexPrev)
              && ConnectTx(view, Placed(tx, MEMPOOL_POS)) == Some(index + mapTestPoolTmp)
              && nTxSigOps == MinerSigOps(rules, view, disk, mempool, tx) && nTxFees == FeeOf(view, disk, mempool, tx)
  {
    hide Selection, Takes, FeeOf, MinerSigOps, ConnectTx, ByFee, ViewAfter, SigOpsOf, SizeBefore;
    SelectionMeans(rules, policy, index, disk, mempool, vtx, mapTestPool, nBlockSize, nBlockSigOps, nFees, pindexPrev);
    var tx := item.tx;
    taken, mapTestPoolTmp, nTxSigOps, nTxFees, fSortedByFee := false, mapTestPool, 0, 0, fSorted0;
    if nBlockSize + tx.nBytes >= policy.nBlockMaxSize {
      return;
    }
    if nBlockSigOps + rules.legacySigOps(tx) >= MAX_BLOCK_SIGOPS {
      return;
    }
    if tx.nTime > policy.nAdjustedTime || (policy.nStakeTime.Some? && tx.nTime > policy.nStakeTime.value) {
      return;
    }
    var nMinFee := policy.blockMinFee(tx, nBlockSize);
    if fSortedByFee && item.dFeePerKb < policy.nMinTxFee && nBlockSize + tx.nBytes >= policy.nBlockMinSize {
      return;
    }
    if !fSortedByFee && (nBlockSize + tx.nBytes >= policy.nBlockPrioritySize || item.dPriority < 57_600_000.0) {
      fSortedByFee := true;
      ByFeeNow(policy, mempool, vtx, tx);
    }
    taken, mapTestPoolTmp, nTxSigOps, nTxFees :=
      TryConnect(rules, policy, tx, index, disk, mempool, mapTestPool, pindexPrev, nBestHeight, nMinFee, nBlockSigOps);
  }

  /** Release the children of a chosen transaction. */
  method ReleaseChosen(queue: TxQueue, policy: Policy, ghost index: TxMap, ghost disk: Disk, h: Hash, ghost chosen: set<Hash>)
    requires queue.Valid() && Ranked(policy, queue.vecPriority)
    requires Tracked(index, disk, queue.mempool, queue.setDependsOn, queue.vecPriority, chosen)
    modifies queue`vecPriority, queue`setDependsOn
    ensures queue.Valid() && Ranked(policy, queue.vecPriority) && queue.Offered() == old(queue.Offered()) && queue.Measure() <= old(queue.Measure())
    ensures Tracked(index, disk, queue.mempool, queue.setDependsOn, queue.vecPriority, chosen + {h})
  {
    hide Tracked, Ranked, QueueOk, Struck, Listed, PoolOk;
    ghost var deps, vec := queue.setDependsOn, queue.vecPriority;
    queue.Release(h, policy);
    ReleaseTracks(index, disk, queue.mempool, deps, vec, chosen, h, queue.setDependsOn, queue.vecPriority);
  }

  lemma AllSettled(rules: Rules, policy: Policy, index: TxMap, disk: Disk, mempool: Pool, pindexPrev: BlockIndex, vtx: seq<Tx>, queue: TxQueue)
    requires queue.vecPriority == [] && Settled(rules, policy, index, disk, mempool, pindexPrev, vtx, queue.Offered())
    requires Tracked(index, disk, mempool, queue.setDependsOn, queue.vecPriority, ChosenHashes(vtx))
    ensures Complete(rules, policy, index, disk, mempool, pindexPrev, vtx)
  {
    hide Settled, Tracked, Complete;
    NothingQueued(rules, policy, index, disk, mempool, pindexPrev, vtx, queue.setDependsOn, queue.vecPriority);
  }

  /** Fill the rest of the block from the queue; `heapPick` stands for the priorities. */
  method CollectTransactions(rules: Rules, policy: Policy, index: TxMap, disk: Disk, mempool: Pool, pindexPrev: BlockIndex,
                             nBestHeight: nat, heapPick: (seq<TxPriority>, bool) -> nat)
    returns (vtx: seq<Tx>, mapTestPool: TxMap, nBlockSize: nat, nBlockSigOps: nat, nFees: int)
    requires PoolOk(mempool) && pindexPrev.Wf() && policy.nBlockMaxSize >= 1000
    ensures Selection(rules, policy, index, disk, mempool, vtx, mapTestPool, nBlockSize, nBlockSigOps, nFees, pindexPrev)
    ensures Complete(rules, policy, index, disk, mempool, pindexPrev, vtx)
    ensures Deserved(rules, policy, index, disk, mempool, pindexPrev, vtx)
  {
    hide Selection, TxQueue.Valid, TxQueue.Offered, TxQueue.Measure, Takes, FeeOf, MinerSigOps, ConnectTx, Settled, Tracked, ByFee, SurelyByFee, EndsPriority,
         PassedOver, Unfit, Deserved, Ranked, Rank, ChosenHashes, Complete;
    var queue := FillQueue(policy, index, disk, mempool);
    vtx, mapTestPool := [], map[];
    nBlockSize, nBlockSigOps, nFees := 1000, 100, 0;
    var fSortedByFee := policy.nBlockPrioritySize <= 0;
    SelectionStart(rules, policy, index, disk, mempool, pindexPrev);
    SettledStart(rules, policy, index, disk, mempool, pindexPrev);
    DeservedStart(rules, policy, index, disk, mempool, pindexPrev);
    while queue.vecPriority != []
      invariant fresh(queue) && queue.Valid() && queue.mempool == mempool
      invariant Selection(rules, policy, index, disk, mempool, vtx, mapTestPool, nBlockSize, nBlockSigOps, nFees, pindexPrev)
      invariant forall h | h in queue.Offered() :: h in mempool && Eligible(policy, mempool[h])
      invariant forall i | 0 <= i < |vtx| :: vtx[i].hash !in queue.Offered()
      invariant Settled(rules, policy, index, disk, mempool, pindexPrev, vtx, queue.Offered())
      invariant Tracked(index, disk, mempool, queue.setDependsOn, queue.vecPriority, ChosenHashes(vtx))
      invariant Ranked(policy, queue.vecPriority) && (fSortedByFee ==> ByFee(policy, mempool, vtx))
      invariant Deserved(rules, policy, index, disk, mempool, pindexPrev, vtx) && (SurelyByFee(policy, vtx) ==> fSortedByFee)
      decreases queue.Measure()
    {
      var k := heapPick(queue.vecPriority, fSortedByFee) % |queue.vecPriority|;
      TakeTracks(index, disk, mempool, queue.setDependsOn, queue.vecPriority, ChosenHashes(vtx), k);
      TakeRanked(policy, queue.vecPriority, k);
      ghost var offered := queue.Offered();
      var item := queue.Take(k);
      var tx := item.tx;
      assert tx.hash in mempool && Eligible(policy, tx);
      var taken, mapTestPoolTmp, nTxSigOps, nTxFees;
      ghost var byFee := fSortedByFee;
      taken, mapTestPoolTmp, nTxSigOps, nTxFees, fSortedByFee :=
        Examine(rules, policy, item, index, disk, mempool, vtx, mapTestPool, nBlockSize, nBlockSigOps, nFees, pindexPrev, nBestHeight, fSortedByFee);
      if !taken {
        UnfitIsPassedOver(byFee, rules, policy, index, disk, mempool, pindexPrev, vtx, tx);
        SettledPassed(rules, policy, index, disk, mempool, pindexPrev, vtx, offered, tx);
        continue;
      }
      SelectionStep(rules, policy, index, disk, mempool, vtx, mapTestPool, nBlockSize, nBlockSigOps, nFees, pindexPrev, tx, mapTestPoolTmp);
      SettledChosen(rules, policy, index, disk, mempool, pindexPrev, vtx, offered, tx);
      DeservedMore(byFee, rules, policy, index, disk, mempool, pindexPrev, vtx, tx);
      if fSortedByFee {
        ByFeeMore(policy, mempool, vtx, tx);
      } else if SurelyByFee(policy, vtx + [tx]) {
        SurelyMore(policy, vtx, tx);
      }
      ghost var chosen := ChosenHashes(vtx);
      mapTestPool := mapTestPoolTmp;
      vtx := vtx + [tx];
      nBlockSize := nBlockSize + tx.nBytes;
      nBlockSigOps := nBlockSigOps + nTxSigOps;
      nFees := nFees + nTxFees;
      ReleaseChosen(queue, policy, index, disk, tx.hash, chosen);
    }
    AllSettled(rules, policy, index, disk, mempool, pindexPrev, vtx, queue);
  }

  lemma SelectionStart(rules: Rules, policy: Policy, index: TxMap, disk: Disk, mempool: Pool, pindexPrev: BlockIndex)
    ensures Selection(rules, policy, index, disk, mempool, [], map[], 1000, 100, 0, pindexPrev)
  {
    assert index + map[] == index;
  }

  lemma SelectionStep(rules: Rules, policy: Policy, index: TxMap, disk: Disk, mempool: Pool, vtx: seq<Tx>, mapTestPool: TxMap,
                      nBlockSize: nat, nBlockSigOps: nat, nFees: int, pindexPrev: BlockIndex, tx: Tx, mapTestPoolTmp: TxMap)
    requires Selection(rules, policy, index, disk, mempool, vtx, mapTestPool, nBlockSize, nBlockSigOps, nFees, pindexPrev)
    requires tx.hash in mempool && mempool[tx.hash] == tx && Eligible(policy, tx) && tx.nTime <= policy.nAdjustedTime
    requires forall i | 0 <= i < |vtx| :: vtx[i].hash != tx.hash
    requires nBlockSize + tx.nBytes < policy.nBlockMaxSize
    requires nBlockSigOps + MinerSigOps(rules, index + mapTestPool, disk, mempool, tx) < MAX_BLOCK_SIGOPS
    requires ConnectTx(index + mapTestPool, Placed(tx, MEMPOOL_POS)) == Some(index + mapTestPoolTmp)
    requires Takes(rules, index, index + mapTestPool, disk, mempool, tx, pindexPrev)
    ensures Selection(rules, policy, index, disk, mempool, vtx + [tx], mapTestPoolTmp, nBlockSize + tx.nBytes,
                      nBlockSigOps + MinerSigOps(rules, index + mapTestPool, disk, mempool, tx),
                      nFees + FeeOf(index + mapTestPool, disk, mempool, tx), pindexPrev)
  {
    var all := vtx + [tx];
    assert all[..|all| - 1] == vtx && Last(all) == tx;
    assert PlacedTxs(all) == PlacedTxs(vtx) + [Placed(tx, MEMPOOL_POS)];
    ConnectAllAppend(index, PlacedTxs(vtx), [Placed(tx, MEMPOOL_POS)]);
    ConnectSingle(index + mapTestPool, Placed(tx, MEMPOOL_POS));
    SizeAppend(vtx, tx);
  }

  lemma ConnectSingle(view: TxMap, p: Placed)
    ensures ConnectAll(view, [p]) == ConnectTx(view, p)
  {
    assert ConnectFirst(view, [p], 0) == Some(view);
  }

  lemma SizeAppend(vtx: seq<Tx>, tx: Tx)
    ensures SizeBefore(vtx + [tx], |vtx| + 1) == SizeBefore(vtx, |vtx|) + tx.nBytes
  {
    SizeSame(vtx, vtx + [tx], |vtx|);
  }

  lemma {:induction false} SizeSame(a: seq<Tx>, b: seq<Tx>, i: nat)
    requires i <= |a| && i <= |b| && forall j | 0 <= j < i :: a[j] == b[j]
    ensures SizeBefore(a, i) == SizeBefore(b, i)
  {
    if i > 0 {
      SizeSame(a, b, i - 1);
    }
  }

  // ---------------------------------------------------------------- what a selection guarantees

  /** No output is spent twice: not by two chosen transactions, nor by one of them and the chain. A chosen transaction
  whose id is indexed already would put fresh outputs in the place of the old ones; those are the outputs left out. */
  lemma NoDoubleSpend(rules: Rules, policy: Policy, index: TxMap, disk: Disk, mempool: Pool, vtx: seq<Tx>, mapTestPool: TxMap,
                      nBlockSize: nat, nBlockSigOps: nat, nFees: int, pindexPrev: BlockIndex, op: OutPoint)
    requires Selection(rules, policy, index, disk, mempool, vtx, mapTestPool, nBlockSize, nBlockSigOps, nFees, pindexPrev)
    requires op.hash in index ==> forall i | 0 <= i < |vtx| :: vtx[i].hash != op.hash
    ensures |Recorded(index, op) + Spenders(PlacedTxs(vtx), |vtx|, op)| <= 1
  {
    SpentExactly(index, PlacedTxs(vtx), |vtx|, op);
  }

  /** Every input of a chosen transaction comes from the chain or from a transaction chosen before it. */
  lemma ParentsFirst(rules: Rules, policy: Policy, index: TxMap, disk: Disk, mempool: Pool, vtx: seq<Tx>, mapTestPool: TxMap,
                     nBlockSize: nat, nBlockSigOps: nat, nFees: int, pindexPrev: BlockIndex, i: nat, k: nat)
    requires Selection(rules, policy, index, disk, mempool, vtx, mapTestPool, nBlockSize, nBlockSigOps, nFees, pindexPrev)
    requires i < |vtx| && k < |vtx[i].vin|
    ensures vtx[i].vin[k].prevout.hash in index ||
            exists j | 0 <= j < i :: vtx[j].hash == vtx[i].vin[k].prevout.hash
  {
    InputsComeFromEarlier(index, PlacedTxs(vtx), i, k);
    assert PlacedTxs(vtx)[i].tx == vtx[i];
    if vtx[i].vin[k].prevout.hash !in index {
      var j :| 0 <= j < i && PlacedTxs(vtx)[j].tx.hash == vtx[i].vin[k].prevout.hash;
      assert vtx[j].hash == vtx[i].vin[k].prevout.hash;
    }
  }

  /** A pool with one candidate, which has no pool parents and is within all limits, ends in the block. */
  lemma SingleIsChosen(rules: Rules, policy: Policy, index: TxMap, disk: Disk, mempool: Pool, vtx: seq<Tx>, mapTestPool: TxMap,
                       nBlockSize: nat, nBlockSigOps: nat, nFees: int, pindexPrev: BlockIndex, h: Hash)
    requires Selection(rules, policy, index, disk, mempool, vtx, mapTestPool, nBlockSize, nBlockSigOps, nFees, pindexPrev)
    requires Complete(rules, policy, index, disk, mempool, pindexPrev, vtx)
    requires h in mempool && Candidates(policy, index, disk, mempool, mempool.Keys) == {h}
    requires var tx := mempool[h];
             && (forall i | 0 <= i < |tx.vin| :: OnChain(index, disk, tx.vin[i].prevout))
             && 1000 + tx.nBytes < policy.nBlockMaxSize && 100 + rules.legacySigOps(tx) < MAX_BLOCK_SIGOPS
             && tx.nTime <= policy.nAdjustedTime && (policy.nStakeTime.Some? ==> tx.nTime <= policy.nStakeTime.value)
             && (policy.priorityOf(tx).1 >= policy.nMinTxFee || 1000 + tx.nBytes < policy.nBlockMinSize)
             && FeeOf(index, disk, mempool, tx) >= policy.blockMinFee(tx, 1000)
             && 100 + MinerSigOps(rules, index, disk, mempool, tx) < MAX_BLOCK_SIGOPS
             && Takes(rules, index, index, disk, mempool, tx, pindexPrev)
    ensures vtx == [mempool[h]]
  {
    hide Takes, MinerSigOps, FeeOf, Candidates, Taken, OnChain;
    var tx := mempool[h];
    assert Parents(index, disk, tx.vin, |tx.vin|) == {};
    OnlyOne(vtx, h);
    NothingYet(rules, index, disk, mempool);
    forall n: nat ensures !PassedOverAt(rules, policy, index, disk, mempool, pindexPrev, [], tx, n) {
      NoPrefix([], n);
    }
    assert h in ChosenHashes(vtx);
  }

  lemma NoPrefix(none: seq<Tx>, n: nat)
    requires none == []
    ensures n <= |none| ==> none[..n] == none
  {
  }

  lemma OnlyOne(vtx: seq<Tx>, h: Hash)
    requires ChosenHashes(vtx) <= {h} && forall i, j | 0 <= i < j < |vtx| :: vtx[i].hash != vtx[j].hash
    ensures |vtx| <= 1 && (vtx != [] ==> vtx[0].hash == h)
  {
    forall i | 0 <= i < |vtx| ensures vtx[i].hash == h {
      assert vtx[i].hash in ChosenHashes(vtx);
    }
    ChosenSize(vtx);
    SubsetSize(ChosenHashes(vtx), {h});
  }

  lemma {:induction false} ChosenSize(vtx: seq<Tx>)
    requires forall i, j | 0 <= i < j < |vtx| :: vtx[i].hash != vtx[j].hash
    ensures |ChosenHashes(vtx)| == |vtx|
  {
    if vtx != [] {
      var rest, last := vtx[..|vtx| - 1], vtx[|vtx| - 1];
      ChosenSize(rest);
      ChosenMore(rest, last);
      assert vtx == rest + [last];
    }
  }

  lemma NothingYet(rules: Rules, index: TxMap, disk: Disk, mempool: Pool)
    ensures SizeBefore([], 0) == 0 && SigOpsOf(rules, index, disk, mempool, []) == 0 && ViewAfter(index, []) == index
  {
    assert ConnectFirst(index, PlacedTxs([]), 0) == Some(index);
  }
}

/** The address manager's own consistency check, and how it relates to the invariant all operations keep. */
module AddrCheck {
  import opened AddrMan
  import opened AddrStore
  import opened AddrTables

  // ---------------------------------------------------------------- what the check accepts

  /** How often the first `k` tried buckets, and the first `i` places of the next, hold `n`. */
  function Seen(tried: TriedBuckets, k: nat, i: nat, n: Id): nat
    requires k <= |tried| && (k < |tried| ==> i <= |tried[k]|)
  {
    SeenBefore(tried, k, n) + if k < |tried| then multiset(tried[k][..i])[n] else 0
  }

  function SeenBefore(tried: TriedBuckets, k: nat, n: Id): nat
    requires k <= |tried|
  {
    if k == 0 then 0 else SeenBefore(tried, k - 1, n) + multiset(tried[k - 1])[n]
  }

  /** The id of an address; an unknown one reads as zero. */
  function IdOf(addr: AddrMap, a: NetAddr): Id {
    if a in addr then addr[a] else 0
  }

  ghost predicate EntryPasses(info: InfoMap, addr: AddrMap, rnd: seq<Id>, n: Id)
    requires n in info
  {
    var e := info[n];
    EntryOk(e) && IdOf(addr, e.addr) == n && 0 <= e.nRandomPos < |rnd| && rnd[e.nRandomPos] == n
  }

  ghost predicate TriedPasses(info: InfoMap, tried: TriedBuckets) {
    forall n: Id :: SeenBefore(tried, |tried|, n) == if n in TriedIds(info) then 1 else 0
  }

  ghost predicate NewPasses(info: InfoMap, buckets: NewBuckets) {
    forall n: Id :: Refs(buckets, n, |buckets|) == Owed(info, n)
  }

  /** How many new buckets should hold `n`. */
  function Owed(info: InfoMap, n: Id): int {
    if n in info && !info[n].fInTried then info[n].nRefCount else 0
  }

  ghost predicate Passes(info: InfoMap, addr: AddrMap, rnd: seq<Id>, nTried: int, tried: TriedBuckets, nNew: int, buckets: NewBuckets) {
    && |rnd| == nTried + nNew
    && (forall n | n in info :: EntryPasses(info, addr, rnd, n))
    && CountsOk(info, nTried, nNew)
    && TriedPasses(info, tried) && NewPasses(info, buckets)
  }

  // ---------------------------------------------------------------- what its codes mean

  /** What is wrong with an entry. */
  ghost predicate EntryFault(info: InfoMap, addr: AddrMap, rnd: seq<Id>, n: Id, r: int)
    requires n in info
  {
    var e := info[n];
    || (r == -1 && e.fInTried && e.nLastSuccess == 0)
    || (r == -2 && e.fInTried && e.nRefCount != 0)
    || (r == -3 && !e.fInTried && !(0 <= e.nRefCount <= NEW_BUCKETS_PER_ADDRESS))
    || (r == -4 && !e.fInTried && e.nRefCount == 0)
    || (r == -5 && IdOf(addr, e.addr) != n)
    || (r == -14 && !(0 <= e.nRandomPos < |rnd| && rnd[e.nRandomPos] == n))
    || (r == -6 && e.nLastTry < 0)
    || (r == -8 && e.nLastSuccess < 0)
  }

  /** A tried id too many in the tried buckets, and one that is missing. */
  ghost predicate TriedFault(info: InfoMap, tried: TriedBuckets, r: int) {
    || (r == -11 && exists n: Id :: SeenBefore(tried, |tried|, n) > if n in TriedIds(info) then 1 else 0)
    || (r == -13 && exists n: Id :: n in TriedIds(info) && SeenBefore(tried, |tried|, n) == 0)
  }

  /** A reference too many in the new buckets, and one that is missing. */
  ghost predicate NewFault(info: InfoMap, buckets: NewBuckets, r: int) {
    || (r == -12 && exists n: Id :: Refs(buckets, n, |buckets|) > Owed(info, n))
    || (r == -15 && exists n: Id :: Refs(buckets, n, |buckets|) < Owed(info, n))
  }

  ghost predicate Fault(info: InfoMap, addr: AddrMap, rnd: seq<Id>, nTried: int, tried: TriedBuckets, nNew: int, buckets: NewBuckets, r: int) {
    || (r == -7 && |rnd| != nTried + nNew)
    || (r == -9 && |TriedIds(info)| != nTried)
    || (r == -10 && |NewIds(info)| != nNew)
    || TriedFault(info, tried, r) || NewFault(info, buckets, r)
    || exists n :: n in info && EntryFault(info, addr, rnd, n, r)
  }

  // ---------------------------------------------------------------- the check

  /** Looking up an address that has no id enters it with id zero: `after` is `addr` with some such addresses of entries. */
  ghost predicate Padded(info: InfoMap, addr: AddrMap, after: AddrMap) {
    && (forall a | a in addr :: a in after && after[a] == addr[a])
    && (forall a | a in after && a !in addr :: after[a] == 0 && exists n :: n in info && info[n].addr == a)
  }

  /** The checks on one entry, in order. */
  method CheckEntry(m: AddrManager, n: Id) returns (r: int)
    requires n in m.mapInfo
    modifies m`mapAddr
    ensures Padded(m.mapInfo, old(m.mapAddr), m.mapAddr)
    ensures r == 0 <==> EntryPasses(m.mapInfo, old(m.mapAddr), m.vRandom, n)
    ensures r != 0 ==> EntryFault(m.mapInfo, old(m.mapAddr), m.vRandom, n, r)
  {
    var info := m.mapInfo[n];
    if info.fInTried {
      if info.nLastSuccess == 0 { return -1; }
      if info.nRefCount != 0 { return -2; }
    } else {
      if info.nRefCount < 0 || info.nRefCount > NEW_BUCKETS_PER_ADDRESS { return -3; }
      if info.nRefCount == 0 { return -4; }
    }
    if info.addr !in m.mapAddr {
      m.mapAddr := m.mapAddr[info.addr := 0];
    }
    if m.mapAddr[info.addr] != n { return -5; }
    if info.nRandomPos < 0 || info.nRandomPos >= |m.vRandom| || m.vRandom[info.nRandomPos] != n { return -14; }
    if info.nLastTry < 0 { return -6; }
    if info.nLastSuccess < 0 { return -8; }
    r := 0;
  }

  /** Tried and new ids among the first entries. */
  ghost predicate Sorted(info: InfoMap, q: seq<Id>, i: nat, setTried: set<Id>, mapNew: map<Id, int>) {
    && i <= |q| && (forall j | 0 <= j < |q| :: q[j] in info)
    && (forall n :: n in setTried <==> n in info && info[n].fInTried && n in q[..i])
    && (forall n :: n in mapNew <==> n in info && !info[n].fInTried && n in q[..i])
    && (forall n | n in mapNew :: n in info && mapNew[n] == info[n].nRefCount)
  }

  lemma SortNone(info: InfoMap, q: seq<Id>)
    requires forall n :: n in q <==> n in info
    ensures Sorted(info, q, 0, {}, map[]) && forall j | 0 <= j < |q| :: q[j] in info
  {
    assert forall j | 0 <= j < |q| :: q[j] in q;
  }

  lemma SortOne(info: InfoMap, q: seq<Id>, i: nat, setTried: set<Id>, mapNew: map<Id, int>)
    requires Sorted(info, q, i, setTried, mapNew) && i < |q|
    ensures var n := q[i];
            && n in info
            && if info[n].fInTried then Sorted(info, q, i + 1, setTried + {n}, mapNew) else Sorted(info, q, i + 1, setTried, mapNew[n := info[n].nRefCount])
  {
    assert q[..i + 1] == q[..i] + [q[i]];
  }

  lemma SortAll(info: InfoMap, q: seq<Id>, setTried: set<Id>, mapNew: map<Id, int>)
    requires Sorted(info, q, |q|, setTried, mapNew) && forall n :: n in q <==> n in info
    ensures setTried == TriedIds(info) && mapNew.Keys == NewIds(info) && forall n | n in mapNew :: mapNew[n] == info[n].nRefCount
  {
    assert q[..|q|] == q;
  }

  lemma PadNone(info: InfoMap, addr: AddrMap)
    ensures Padded(info, addr, addr)
  {
  }

  lemma PadMore(info: InfoMap, addr: AddrMap, before: AddrMap, after: AddrMap, rnd: seq<Id>, n: Id)
    requires Padded(info, addr, before) && Padded(info, before, after) && n in info
    ensures Padded(info, addr, after)
    ensures EntryPasses(info, before, rnd, n) <==> EntryPasses(info, addr, rnd, n)
    ensures forall r: int :: EntryFault(info, before, rnd, n, r) <==> EntryFault(info, addr, rnd, n, r)
  {
  }

  /** Nothing is entered when every entry has its address on record. */
  lemma NotPadded(m: AddrManager, after: AddrMap)
    requires m.Valid() && Padded(m.mapInfo, m.mapAddr, after)
    ensures after == m.mapAddr
  {
  }

  /** The first loop: one entry at a time. */
  method CheckEntries(m: AddrManager) returns (r: int, setTried: set<Id>, mapNew: map<Id, int>)
    modifies m`mapAddr
    ensures Padded(m.mapInfo, old(m.mapAddr), m.mapAddr)
    ensures r == 0 <==> forall n | n in m.mapInfo :: EntryPasses(m.mapInfo, old(m.mapAddr), m.vRandom, n)
    ensures r != 0 ==> exists n :: n in m.mapInfo && EntryFault(m.mapInfo, old(m.mapAddr), m.vRandom, n, r)
    ensures r == 0 ==> setTried == TriedIds(m.mapInfo) && mapNew.Keys == NewIds(m.mapInfo)
    ensures r == 0 ==> forall n | n in mapNew :: mapNew[n] == m.mapInfo[n].nRefCount
  {
    hide Sorted, TriedIds, NewIds, EntryPasses, EntryFault, Padded;
    ghost var addr := m.mapAddr;
    PadNone(m.mapInfo, addr);
    var q := Ascending(m.mapInfo.Keys);
    SortNone(m.mapInfo, q);
    setTried, mapNew := {}, map[];
    var i: nat := 0;
    while i < |q|
      invariant 0 <= i <= |q| && Sorted(m.mapInfo, q, i, setTried, mapNew)
      invariant Padded(m.mapInfo, addr, m.mapAddr)
      invariant forall j | 0 <= j < i :: EntryPasses(m.mapInfo, addr, m.vRandom, q[j])
    {
      var n := q[i];
      ghost var before := m.mapAddr;
      r := CheckEntry(m, n);
      PadMore(m.mapInfo, addr, before, m.mapAddr, m.vRandom, n);
      if r != 0 {
        return r, setTried, mapNew;
      }
      SortOne(m.mapInfo, q, i, setTried, mapNew);
      if m.mapInfo[n].fInTried {
        setTried := setTried + {n};
      } else {
        mapNew := mapNew[n := m.mapInfo[n].nRefCount];
      }
      i := i + 1;
    }
    SortAll(m.mapInfo, q, setTried, mapNew);
    forall n | n in m.mapInfo ensures EntryPasses(m.mapInfo, addr, m.vRandom, n) {
      assert n in q;
    }
    r := 0;
  }

  lemma {:induction false} SeenGrows(tried: TriedBuckets, k: nat, i: nat, n: Id)
    requires k < |tried| && i <= |tried[k]|
    ensures Seen(tried, k, i, n) <= SeenBefore(tried, |tried|, n)
    decreases |tried| - k
  {
    assert tried[k] == tried[k][..i] + tried[k][i..];
    assert SeenBefore(tried, k + 1, n) == SeenBefore(tried, k, n) + multiset(tried[k])[n];
    if k + 1 < |tried| {
      SeenGrows(tried, k + 1, 0, n);
    }
  }

  lemma SeeNext(tried: TriedBuckets, k: nat, i: nat, n: Id)
    requires k < |tried| && i < |tried[k]|
    ensures Seen(tried, k, i + 1, n) == Seen(tried, k, i, n) + if n == tried[k][i] then 1 else 0
  {
    assert tried[k][..i + 1] == tried[k][..i] + [tried[k][i]];
  }

  /** What is left of setTried while the tried buckets are read. */
  ghost predicate Ticked(info: InfoMap, tried: TriedBuckets, k: nat, i: nat, setTried: set<Id>)
    requires k <= |tried| && (k < |tried| ==> i <= |tried[k]|)
  {
    && (forall n: Id :: n in setTried <==> n in TriedIds(info) && Seen(tried, k, i, n) == 0)
    && (forall n: Id :: Seen(tried, k, i, n) <= if n in TriedIds(info) then 1 else 0)
  }

  lemma TickStart(info: InfoMap, tried: TriedBuckets)
    ensures Ticked(info, tried, 0, 0, TriedIds(info))
  {
    hide TriedIds;
    if tried != [] {
      assert tried[0][..0] == [];
    }
  }

  lemma TickOne(info: InfoMap, tried: TriedBuckets, k: nat, i: nat, setTried: set<Id>)
    requires k < |tried| && i < |tried[k]| && Ticked(info, tried, k, i, setTried)
    ensures tried[k][i] in setTried ==> Ticked(info, tried, k, i + 1, setTried - {tried[k][i]})
    ensures tried[k][i] !in setTried ==> TriedFault(info, tried, -11) && !TriedPasses(info, tried)
  {
    hide TriedIds, Seen;
    forall n: Id ensures Seen(tried, k, i + 1, n) == Seen(tried, k, i, n) + if n == tried[k][i] then 1 else 0 {
      SeeNext(tried, k, i, n);
    }
    SeenGrows(tried, k, i + 1, tried[k][i]);
  }

  lemma TickBucket(info: InfoMap, tried: TriedBuckets, k: nat, setTried: set<Id>)
    requires k < |tried| && Ticked(info, tried, k, |tried[k]|, setTried)
    ensures Ticked(info, tried, k + 1, 0, setTried)
  {
    hide TriedIds;
    assert tried[k][..|tried[k]|] == tried[k];
    forall n: Id ensures Seen(tried, k + 1, 0, n) == Seen(tried, k, |tried[k]|, n) {
      if k + 1 < |tried| {
        assert tried[k + 1][..0] == [];
      }
    }
  }

  /** The second loop: every tried id once. */
  method CheckTried(m: AddrManager, allTried: set<Id>) returns (r: int, setTried: set<Id>)
    requires allTried == TriedIds(m.mapInfo)
    ensures r == 0 && setTried == {} <==> TriedPasses(m.mapInfo, m.vvTried)
    ensures r != 0 ==> TriedFault(m.mapInfo, m.vvTried, r)
    ensures setTried != {} && r == 0 ==> TriedFault(m.mapInfo, m.vvTried, -13)
  {
    hide TriedIds, Seen, Ticked, TriedPasses, TriedFault;
    setTried := allTried;
    TickStart(m.mapInfo, m.vvTried);
    var n: nat := 0;
    while n < |m.vvTried|
      invariant 0 <= n <= |m.vvTried| && Ticked(m.mapInfo, m.vvTried, n, 0, setTried)
    {
      var vTried := m.vvTried[n];
      var i: nat := 0;
      while i < |vTried|
        invariant 0 <= i <= |vTried| && Ticked(m.mapInfo, m.vvTried, n, i, setTried)
      {
        TickOne(m.mapInfo, m.vvTried, n, i, setTried);
        if vTried[i] !in setTried {
          return -11, setTried;
        }
        setTried := setTried - {vTried[i]};
        i := i + 1;
      }
      TickBucket(m.mapInfo, m.vvTried, n, setTried);
      n := n + 1;
    }
    AllTicked(m.mapInfo, m.vvTried, setTried);
    r := 0;
  }

  lemma AllTicked(info: InfoMap, tried: TriedBuckets, setTried: set<Id>)
    requires Ticked(info, tried, |tried|, 0, setTried)
    ensures setTried == {} <==> TriedPasses(info, tried)
    ensures setTried != {} ==> TriedFault(info, tried, -13)
  {
    hide TriedIds;
    assert forall n: Id :: Seen(tried, |tried|, 0, n) == SeenBefore(tried, |tried|, n);
    if !TriedPasses(info, tried) {
      var n: Id :| SeenBefore(tried, |tried|, n) != if n in TriedIds(info) then 1 else 0;
      assert n in setTried;
    }
  }

  // ---------------------------------------------------------------- the third loop

  /** In how many of the first `k` new buckets, and of the first `i` ids of the next, is `n`? */
  function Met(buckets: NewBuckets, ids: seq<Id>, k: nat, i: nat, n: Id): nat
    requires k <= |buckets| && i <= |ids|
  {
    Refs(buckets, n, k) + if n in ids[..i] then 1 else 0
  }

  /** What is left of mapNew while the new buckets are read. */
  ghost predicate Counted(info: InfoMap, buckets: NewBuckets, ids: seq<Id>, k: nat, i: nat, mapNew: map<Id, int>)
    requires k <= |buckets| && i <= |ids|
  {
    && (forall n: Id :: n in mapNew <==> n in NewIds(info) && Met(buckets, ids, k, i, n) < info[n].nRefCount)
    && (forall n | n in mapNew :: n in info && mapNew[n] == info[n].nRefCount - Met(buckets, ids, k, i, n))
    && (forall n: Id :: Met(buckets, ids, k, i, n) <= if n in NewIds(info) && info[n].nRefCount > 0 then info[n].nRefCount else 0)
  }

  lemma CountNone(info: InfoMap, buckets: NewBuckets, mapNew: map<Id, int>)
    requires mapNew.Keys == NewIds(info) && (forall n | n in mapNew :: mapNew[n] == info[n].nRefCount)
    requires forall n | n in NewIds(info) :: info[n].nRefCount > 0
    ensures Counted(info, buckets, [], 0, 0, mapNew)
  {
    assert forall n: Id :: n in mapNew.Keys <==> n in mapNew;
  }

  lemma {:induction false} RefsGrow(buckets: NewBuckets, n: Id, k: nat, j: nat)
    requires k <= j <= |buckets|
    ensures Refs(buckets, n, k) <= Refs(buckets, n, j)
  {
    if k < j {
      RefsGrow(buckets, n, k, j - 1);
    }
  }

  lemma CountOne(info: InfoMap, buckets: NewBuckets, ids: seq<Id>, k: nat, i: nat, mapNew: map<Id, int>)
    requires k < |buckets| && i < |ids| && Increasing(ids) && (forall n :: n in ids <==> n in buckets[k])
    requires Counted(info, buckets, ids, k, i, mapNew)
    ensures var n := ids[i];
            && (n !in mapNew ==> NewFault(info, buckets, -12) && !NewPasses(info, buckets))
            && (n in mapNew ==> Counted(info, buckets, ids, k, i + 1, if mapNew[n] - 1 == 0 then mapNew - {n} else mapNew[n := mapNew[n] - 1]))
  {
    var n := ids[i];
    assert n !in ids[..i] && ids[..i + 1] == ids[..i] + [n];
    forall m: Id ensures Met(buckets, ids, k, i + 1, m) == Met(buckets, ids, k, i, m) + if m == n then 1 else 0 {
    }
    assert n in ids;
    assert Refs(buckets, n, k + 1) == Refs(buckets, n, k) + 1;
    RefsGrow(buckets, n, k + 1, |buckets|);
  }

  lemma CountBucket(info: InfoMap, buckets: NewBuckets, ids: seq<Id>, k: nat, next: seq<Id>, mapNew: map<Id, int>)
    requires k < |buckets| && (forall n :: n in ids <==> n in buckets[k]) && Counted(info, buckets, ids, k, |ids|, mapNew)
    ensures Counted(info, buckets, next, k + 1, 0, mapNew)
  {
    hide NewIds;
    assert ids[..|ids|] == ids && next[..0] == [];
    assert forall n: Id :: Met(buckets, next, k + 1, 0, n) == Met(buckets, ids, k, |ids|, n);
  }

  lemma AllCounted(info: InfoMap, buckets: NewBuckets, mapNew: map<Id, int>)
    requires Counted(info, buckets, [], |buckets|, 0, mapNew) && (forall n | n in NewIds(info) :: info[n].nRefCount > 0)
    ensures |mapNew| == 0 <==> NewPasses(info, buckets)
    ensures |mapNew| != 0 ==> NewFault(info, buckets, -15)
  {
    assert forall n: Id :: Met(buckets, [], |buckets|, 0, n) == Refs(buckets, n, |buckets|);
    if !NewPasses(info, buckets) {
      var n: Id :| Refs(buckets, n, |buckets|) != Owed(info, n);
      assert n in mapNew;
    }
    if |mapNew| != 0 {
      assert exists n :: n in mapNew;
    }
  }

  /** The third loop: every new id as often as its reference count says. */
  method CheckNew(m: AddrManager, allNew: map<Id, int>) returns (r: int, mapNew: map<Id, int>)
    requires allNew.Keys == NewIds(m.mapInfo) && (forall n | n in allNew :: allNew[n] == m.mapInfo[n].nRefCount)
    requires forall n | n in NewIds(m.mapInfo) :: m.mapInfo[n].nRefCount > 0
    ensures r == 0 && |mapNew| == 0 <==> NewPasses(m.mapInfo, m.vvNew)
    ensures r != 0 ==> NewFault(m.mapInfo, m.vvNew, r)
    ensures |mapNew| != 0 && r == 0 ==> NewFault(m.mapInfo, m.vvNew, -15)
  {
    hide NewIds, Counted, NewPasses, NewFault, Increasing;
    mapNew := allNew;
    CountNone(m.mapInfo, m.vvNew, mapNew);
    var n: nat := 0;
    while n < |m.vvNew|
      invariant 0 <= n <= |m.vvNew| && Counted(m.mapInfo, m.vvNew, [], n, 0, mapNew)
    {
      var vNew := Ascending(m.vvNew[n]);
      CountAny(m.mapInfo, m.vvNew, [], vNew, n, mapNew);
      var i: nat := 0;
      while i < |vNew|
        invariant 0 <= i <= |vNew| && Counted(m.mapInfo, m.vvNew, vNew, n, i, mapNew)
      {
        CountOne(m.mapInfo, m.vvNew, vNew, n, i, mapNew);
        if vNew[i] !in mapNew {
          return -12, mapNew;
        }
        if mapNew[vNew[i]] - 1 == 0 {
          mapNew := mapNew - {vNew[i]};
        } else {
          mapNew := mapNew[vNew[i] := mapNew[vNew[i]] - 1];
        }
        i := i + 1;
      }
      CountBucket(m.mapInfo, m.vvNew, vNew, n, [], mapNew);
      n := n + 1;
    }
    AllCounted(m.mapInfo, m.vvNew, mapNew);
    r := 0;
  }

  lemma CountAny(info: InfoMap, buckets: NewBuckets, ids: seq<Id>, next: seq<Id>, k: nat, mapNew: map<Id, int>)
    requires k <= |buckets| && Counted(info, buckets, ids, k, 0, mapNew)
    ensures Counted(info, buckets, next, k, 0, mapNew)
  {
    hide NewIds;
    assert ids[..0] == [] && next[..0] == [];
    assert forall n: Id :: Met(buckets, next, k, 0, n) == Met(buckets, ids, k, 0, n);
  }

  // ---------------------------------------------------------------- the whole check

  method Check(m: AddrManager) returns (r: int)
    modifies m`mapAddr
    ensures Padded(m.mapInfo, old(m.mapAddr), m.mapAddr)
    ensures r == 0 <==> old(Passes(m.mapInfo, m.mapAddr, m.vRandom, m.nTried, m.vvTried, m.nNew, m.vvNew))
    ensures r != 0 ==> old(Fault(m.mapInfo, m.mapAddr, m.vRandom, m.nTried, m.vvTried, m.nNew, m.vvNew, r))
    ensures old(m.Valid()) ==> r == 0 && m.mapAddr == old(m.mapAddr)
  {
    hide EntryPasses, TriedPasses, NewPasses, TriedIds, NewIds, Padded, AddrManager.Valid, EntryFault, TriedFault, NewFault;
    ghost var addr := m.mapAddr;
    PadNone(m.mapInfo, addr);
    if m.Valid() {
      ValidPasses(m);
      forall after | Padded(m.mapInfo, addr, after) ensures after == addr {
        NotPadded(m, after);
      }
    }
    if |m.vRandom| != m.nTried + m.nNew { return -7; }
    var setTried, mapNew;
    r, setTried, mapNew := CheckEntries(m);
    if r != 0 { return; }
    if |setTried| != m.nTried { return -9; }
    if |mapNew| != m.nNew { return -10; }
    assert |mapNew| == |mapNew.Keys|;
    NewCounted(m.mapInfo, addr, m.vRandom);
    var leftTried, leftNew;
    r, leftTried := CheckTried(m, setTried);
    if r != 0 { return; }
    r, leftNew := CheckNew(m, mapNew);
    if r != 0 { return; }
    if |leftTried| != 0 { return -13; }
    if |leftNew| != 0 { return -15; }
    r := 0;
  }

  lemma NewCounted(info: InfoMap, addr: AddrMap, rnd: seq<Id>)
    requires forall n | n in info :: EntryPasses(info, addr, rnd, n)
    ensures forall n | n in NewIds(info) :: info[n].nRefCount > 0
  {
    forall n | n in NewIds(info) ensures info[n].nRefCount > 0 {
      assert EntryPasses(info, addr, rnd, n);
    }
  }

  // ---------------------------------------------------------------- what the check leaves open

  /** The invariant's part that the check does not look at: sizes, the placement of tried ids, ids
  below the counter and no address without an entry. */
  ghost predicate Unchecked(m: AddrManager)
    reads m
  {
    && |m.vvTried| == TRIED_BUCKET_COUNT && |m.vvNew| == NEW_BUCKET_COUNT && IdsBelow(m.mapInfo, m.nIdCount)
    && (forall b | 0 <= b < |m.vvNew| :: |m.vvNew[b]| <= NEW_BUCKET_SIZE)
    && (forall b | 0 <= b < |m.vvTried| :: |m.vvTried[b]| <= TRIED_BUCKET_SIZE)
    && (forall b, i | 0 <= b < |m.vvTried| && 0 <= i < |m.vvTried[b]| :: Placed(m.h, m.mapInfo, m.vvTried[b][i], b))
    && (forall a | a in m.mapAddr :: m.mapAddr[a] in m.mapInfo && m.mapInfo[m.mapAddr[a]].addr == a)
    && (forall n | n in m.mapInfo :: m.mapInfo[n].addr in m.mapAddr)
  }

  ghost predicate Placed(h: Hashing, info: InfoMap, n: Id, b: nat) {
    n in info ==> h.TriedBucket(info[n].addr, info[n].port) == b
  }

  /** A tried id that sits in exactly one place is seen once. */
  lemma {:induction false} SeenOnce(h: Hashing, info: InfoMap, tried: TriedBuckets, k: nat, n: Id)
    requires TriedOk(h, info, tried) && k <= |tried|
    ensures SeenBefore(tried, k, n) == if n in TriedIds(info) && h.TriedBucket(info[n].addr, info[n].port) < k then 1 else 0
  {
    if k > 0 {
      SeenOnce(h, info, tried, k - 1, n);
      NoDupCount(tried[k - 1], n);
      assert n in tried[k - 1] <==> multiset(tried[k - 1])[n] > 0;
      TriedSits(h, info, tried, k - 1, n);
    }
  }

  lemma TriedSits(h: Hashing, info: InfoMap, tried: TriedBuckets, b: nat, n: Id)
    requires TriedOk(h, info, tried) && b < |tried|
    ensures n in tried[b] <==> n in TriedIds(info) && h.TriedBucket(info[n].addr, info[n].port) == b
  {
    if n in tried[b] {
      var i :| 0 <= i < |tried[b]| && tried[b][i] == n;
      assert TriedHere(h, info, tried[b][i], b);
    }
  }

  lemma KindsSize(info: InfoMap)
    ensures |info.Keys| == |TriedIds(info)| + |NewIds(info)|
  {
    assert info.Keys == TriedIds(info) + NewIds(info);
    assert TriedIds(info) !! NewIds(info);
  }

  lemma RandomSize(info: InfoMap, rnd: seq<Id>)
    requires RandomOk(info, rnd)
    ensures |rnd| == |info.Keys|
  {
    assert NoDup(rnd);
    forall n ensures n in info.Keys <==> n in rnd {
      if n in info {
        assert rnd[info[n].nRandomPos] == n;
      }
    }
    NoDupSize(rnd, info.Keys);
  }

  lemma RefsPass(info: InfoMap, buckets: NewBuckets)
    requires RefsOk(info, buckets, -1, 0) && EntriesOk(info) && forall b | 0 <= b < |buckets| :: buckets[b] <= info.Keys
    ensures NewPasses(info, buckets)
  {
    forall n: Id ensures Refs(buckets, n, |buckets|) == Owed(info, n) {
      RefsZero(buckets, n, |buckets|);
      if n in info {
        assert EntryOk(info[n]);
      }
    }
  }

  /** The invariant is enough for the check. */
  lemma ValidPasses(m: AddrManager)
    requires m.Valid()
    ensures Passes(m.mapInfo, m.mapAddr, m.vRandom, m.nTried, m.vvTried, m.nNew, m.vvNew) && Unchecked(m)
  {
    hide TriedIds, NewIds, Refs, Passes, NoDup, Hashing.TriedBucket;
    TablesPass(m.h, m.mapInfo, m.mapAddr, m.vRandom, m.nTried, m.vvTried, m.nNew, m.vvNew, m.nIdCount);
    PlacedAll(m.h, m.mapInfo, m.vvTried);
  }

  /** So are tables that agree, whatever the sizes of the new buckets. */
  lemma TablesPass(h: Hashing, info: InfoMap, addr: AddrMap, rnd: seq<Id>, nTried: int, tried: TriedBuckets, nNew: int, new_: NewBuckets, c: nat)
    requires LinksOk(h, info, addr, rnd, tried, c) && RefsOk(info, new_, -1, 0) && EntriesOk(info) && CountsOk(info, nTried, nNew)
    requires forall b | 0 <= b < |new_| :: new_[b] <= info.Keys
    ensures Passes(info, addr, rnd, nTried, tried, nNew, new_)
  {
    hide TriedIds, NewIds, Refs, SeenBefore, NoDup, Hashing.TriedBucket;
    KindsSize(info);
    RandomSize(info, rnd);
    RefsPass(info, new_);
    forall n: Id ensures SeenBefore(tried, |tried|, n) == if n in TriedIds(info) then 1 else 0 {
      SeenOnce(h, info, tried, |tried|, n);
    }
    forall n | n in info ensures EntryPasses(info, addr, rnd, n) {
      assert EntryOk(info[n]);
    }
  }

  lemma PlacedAll(h: Hashing, info: InfoMap, tried: TriedBuckets)
    requires TriedOk(h, info, tried)
    ensures forall b, i | 0 <= b < |tried| && 0 <= i < |tried[b]| :: Placed(h, info, tried[b][i], b)
  {
    forall b, i | 0 <= b < |tried| && 0 <= i < |tried[b]| ensures Placed(h, info, tried[b][i], b) {
      assert TriedHere(h, info, tried[b][i], b);
    }
  }

  // ---------------------------------------------------------------- and the other way round

  ghost function Below(n: nat): (s: set<Id>)
    ensures forall i: Id :: i in s <==> i < n
  {
    if n == 0 then {} else Below(n - 1) + {n - 1}
  }

  /** Positions are all taken: there are as many as entries, and no two entries share one. */
  lemma PositionsTaken(info: InfoMap, rnd: seq<Id>)
    requires |rnd| == |info.Keys| && forall n | n in info :: 0 <= info[n].nRandomPos < |rnd| && rnd[info[n].nRandomPos] == n
    ensures RandomOk(info, rnd)
  {
    hide Ascending, Increasing, RandomOk;
    var q := Ascending(info.Keys);
    var pos := Positions(info, rnd, q);
    var all := Below(|rnd|);
    IntervalSize(all, 0, |rnd|);
    AllListed(pos, all);
    forall i | 0 <= i < |rnd| ensures rnd[i] in info && info[rnd[i]].nRandomPos == i {
      assert (i as Id) in all;
      var j :| 0 <= j < |pos| && pos[j] == i;
      assert q[j] in q;
    }
    Bijective(info, rnd);
  }

  lemma Bijective(info: InfoMap, rnd: seq<Id>)
    requires forall n | n in info :: 0 <= info[n].nRandomPos < |rnd| && rnd[info[n].nRandomPos] == n
    requires forall i | 0 <= i < |rnd| :: rnd[i] in info && info[rnd[i]].nRandomPos == i
    ensures RandomOk(info, rnd)
  {
  }

  /** The positions of some entries are all different. */
  lemma Positions(info: InfoMap, rnd: seq<Id>, q: seq<Id>) returns (pos: seq<Id>)
    requires Increasing(q) && (forall n | n in q :: n in info)
    requires forall n | n in info :: 0 <= info[n].nRandomPos < |rnd| && rnd[info[n].nRandomPos] == n
    ensures |pos| == |q| && NoDup(pos)
    ensures forall i | 0 <= i < |q| :: q[i] in q && pos[i] == info[q[i]].nRandomPos < |rnd|
  {
    forall i | 0 <= i < |q| ensures q[i] in info {
      assert q[i] in q;
    }
    pos := seq(|q|, i requires 0 <= i < |q| => info[q[i]].nRandomPos);
  }

  lemma RefsReturn(info: InfoMap, buckets: NewBuckets)
    requires NewPasses(info, buckets) && EntriesOk(info) && |buckets| == NEW_BUCKET_COUNT
    requires forall b | 0 <= b < |buckets| :: |buckets[b]| <= NEW_BUCKET_SIZE
    ensures NewOk(info, buckets)
  {
    forall b, n | 0 <= b < |buckets| && n in buckets[b] ensures n in info {
      RefsZero(buckets, n, |buckets|);
    }
    forall n | n in info ensures info[n].nRefCount == Refs(buckets, n, |buckets|) {
      assert EntryOk(info[n]);
    }
  }

  lemma {:induction false} SeenSomewhere(tried: TriedBuckets, k: nat, n: Id)
    requires k <= |tried|
    ensures SeenBefore(tried, k, n) > 0 <==> exists b :: 0 <= b < k && n in tried[b]
    ensures forall b | 0 <= b < k :: multiset(tried[b])[n] <= SeenBefore(tried, k, n)
  {
    if k > 0 {
      SeenSomewhere(tried, k - 1, n);
      assert n in tried[k - 1] <==> multiset(tried[k - 1])[n] > 0;
    }
  }

  lemma NoDupOf(s: seq<Id>)
    requires forall n :: multiset(s)[n] <= 1
    ensures NoDup(s)
  {
    forall i, j | 0 <= i < j < |s| && s[i] == s[j] ensures multiset(s)[s[i]] >= 2 {
      Twice(s, i, j);
    }
  }

  lemma TriedReturn(h: Hashing, info: InfoMap, tried: TriedBuckets)
    requires TriedPasses(info, tried) && |tried| == TRIED_BUCKET_COUNT
    requires forall b | 0 <= b < |tried| :: |tried[b]| <= TRIED_BUCKET_SIZE
    requires forall b, i | 0 <= b < |tried| && 0 <= i < |tried[b]| :: Placed(h, info, tried[b][i], b)
    ensures TriedOk(h, info, tried)
  {
    hide Hashing.TriedBucket, SeenBefore;
    forall b | 0 <= b < |tried| ensures NoDup(tried[b]) {
      forall n ensures multiset(tried[b])[n] <= 1 {
        SeenSomewhere(tried, |tried|, n);
      }
      NoDupOf(tried[b]);
    }
    forall b, i | 0 <= b < |tried| && 0 <= i < |tried[b]| ensures TriedHere(h, info, tried[b][i], b) {
      SeenSomewhere(tried, |tried|, tried[b][i]);
      assert tried[b][i] in tried[b];
      assert Placed(h, info, tried[b][i], b);
    }
    forall n | n in info && info[n].fInTried ensures n in tried[h.TriedBucket(info[n].addr, info[n].port)] {
      assert n in TriedIds(info);
      SeenSomewhere(tried, |tried|, n);
      var b :| 0 <= b < |tried| && n in tried[b];
      var i :| 0 <= i < |tried[b]| && tried[b][i] == n;
      assert Placed(h, info, tried[b][i], b);
    }
  }

  /** What passes the check and is placed right has the whole invariant. */
  lemma PassesValid(m: AddrManager)
    requires Passes(m.mapInfo, m.mapAddr, m.vRandom, m.nTried, m.vvTried, m.nNew, m.vvNew) && Unchecked(m)
    ensures m.Valid()
  {
    hide TriedIds, NewIds, Refs, SeenBefore, NoDup, Hashing.TriedBucket, RandomOk, TriedOk, NewPasses, TriedPasses;
    KindsSize(m.mapInfo);
    forall n | n in m.mapInfo ensures EntryOk(m.mapInfo[n]) && IdOf(m.mapAddr, m.mapInfo[n].addr) == n && 0 <= m.mapInfo[n].nRandomPos < |m.vRandom| && m.vRandom[m.mapInfo[n].nRandomPos] == n {
      assert EntryPasses(m.mapInfo, m.mapAddr, m.vRandom, n);
    }
    PositionsTaken(m.mapInfo, m.vRandom);
    RefsReturn(m.mapInfo, m.vvNew);
    TriedReturn(m.h, m.mapInfo, m.vvTried);
  }
}

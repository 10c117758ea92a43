/** The tables of the address manager as values, and what it means for them to agree.

Five structures describe one set of addresses: information by id, id by address, a vector of all
ids, buckets of new ids and buckets of tried ids. Module AddrMan updates them in place; the lemmas
here say what each kind of update does to their agreement. */
module AddrTables {
  import opened Wrappers

  type Id = nat

  const TRIED_BUCKET_COUNT: nat := 64
  const TRIED_BUCKET_SIZE: nat := 64
  const NEW_BUCKET_COUNT: nat := 256
  const NEW_BUCKET_SIZE: nat := 64
  const TRIED_BUCKETS_PER_GROUP: nat := 4
  const NEW_BUCKETS_PER_SOURCE_GROUP: nat := 32
  const NEW_BUCKETS_PER_ADDRESS: nat := 4
  const TRIED_ENTRIES_INSPECT_ON_EVICT: nat := 4
  const HORIZON_DAYS: int := 30
  const RETRIES: int := 3
  const MAX_FAILURES: int := 10
  const MIN_FAIL_DAYS: int := 7

  /** A network address without its port. */
  datatype NetAddr = NetAddr(ip: seq<nat>)

  datatype Address = Address(addr: NetAddr, port: nat, nServices: bv64, nTime: int)

  datatype AddrInfo = AddrInfo(addr: NetAddr, port: nat, nServices: bv64, nTime: int, source: NetAddr,
                               nLastSuccess: int, nLastTry: int, nAttempts: int,
                               nRefCount: int, fInTried: bool, nRandomPos: int)
  {
    predicate IsTerrible(nNow: int) {
      if nLastTry != 0 && nLastTry >= nNow - 60 then false
      else if nTime > nNow + 10 * 60 then true
      else if nTime == 0 || nNow - nTime > HORIZON_DAYS * 86400 then true
      else if nLastSuccess == 0 && nAttempts >= RETRIES then true
      else nNow - nLastSuccess > MIN_FAIL_DAYS * 86400 && nAttempts >= MAX_FAILURES
    }
  }

  /** Hashing with the secret key, and the address properties it works on; left uninterpreted. */
  datatype Hashing = Hashing(nKey: seq<nat>, hash: seq<nat> -> nat, keyOf: (NetAddr, nat) -> seq<nat>,
                             group: NetAddr -> seq<nat>, isRoutable: NetAddr -> bool)
  {
    function TriedBucket(addr: NetAddr, port: nat): (b: nat)
      ensures b < TRIED_BUCKET_COUNT
    {
      var hash1 := hash(nKey + keyOf(addr, port));
      hash(nKey + group(addr) + [hash1 % TRIED_BUCKETS_PER_GROUP]) % TRIED_BUCKET_COUNT
    }

    function NewBucket(addr: NetAddr, source: NetAddr): (b: nat)
      ensures b < NEW_BUCKET_COUNT
    {
      var hash1 := hash(nKey + group(addr) + group(source));
      hash(nKey + group(source) + [hash1 % NEW_BUCKETS_PER_SOURCE_GROUP]) % NEW_BUCKET_COUNT
    }
  }

  function TriedReached(h: Hashing, services: set<(NetAddr, nat)>): set<nat> {
    set s | s in services :: h.TriedBucket(s.0, s.1)
  }

  function NewReached(h: Hashing, reports: set<(NetAddr, NetAddr)>): set<nat> {
    set r | r in reports :: h.NewBucket(r.0, r.1)
  }

  /** The addresses of one group reach at most four tried buckets, whatever their ports. */
  lemma TriedReach(h: Hashing, g: seq<nat>, services: set<(NetAddr, nat)>)
    requires forall s | s in services :: h.group(s.0) == g
    ensures |TriedReached(h, services)| <= TRIED_BUCKETS_PER_GROUP == 4
  {
    var reached := TriedReached(h, services);
    var f := (i: nat) => h.hash(h.nKey + g + [i]) % TRIED_BUCKET_COUNT;
    var four := Image(f, TRIED_BUCKETS_PER_GROUP);
    forall b | b in reached ensures b in four {
      var s :| s in services && h.TriedBucket(s.0, s.1) == b;
      var i := h.hash(h.nKey + h.keyOf(s.0, s.1)) % TRIED_BUCKETS_PER_GROUP;
      InImage(f, TRIED_BUCKETS_PER_GROUP, i);
    }
    ImageSize(f, TRIED_BUCKETS_PER_GROUP);
    SubsetSize(reached, four);
  }

  /** What the sources of one group report goes into at most 32 new buckets, and the addresses of one group all into the same one. */
  lemma NewReach(h: Hashing, g: seq<nat>, reports: set<(NetAddr, NetAddr)>)
    requires forall r | r in reports :: h.group(r.1) == g
    ensures |NewReached(h, reports)| <= NEW_BUCKETS_PER_SOURCE_GROUP == 32
    ensures forall r, q | r in reports && q in reports && h.group(r.0) == h.group(q.0) :: h.NewBucket(r.0, r.1) == h.NewBucket(q.0, q.1)
  {
    var reached := NewReached(h, reports);
    var f := (i: nat) => h.hash(h.nKey + g + [i]) % NEW_BUCKET_COUNT;
    var some := Image(f, NEW_BUCKETS_PER_SOURCE_GROUP);
    forall b | b in reached ensures b in some {
      var r :| r in reports && h.NewBucket(r.0, r.1) == b;
      var i := h.hash(h.nKey + h.group(r.0) + h.group(r.1)) % NEW_BUCKETS_PER_SOURCE_GROUP;
      InImage(f, NEW_BUCKETS_PER_SOURCE_GROUP, i);
    }
    ImageSize(f, NEW_BUCKETS_PER_SOURCE_GROUP);
    SubsetSize(reached, some);
  }

  function Image(f: nat -> nat, n: nat): set<nat> {
    set i: nat | i < n :: f(i)
  }

  lemma InImage(f: nat -> nat, n: nat, i: nat)
    requires i < n
    ensures f(i) in Image(f, n)
  {
  }

  lemma {:induction false} ImageSize(f: nat -> nat, n: nat)
    ensures |Image(f, n)| <= n
  {
    if n > 0 {
      ImageSize(f, n - 1);
      assert Image(f, n) == Image(f, n - 1) + {f(n - 1)};
    }
  }

  /** An entry tried within the last minute is never terrible. */
  lemma TriedNow(e: AddrInfo, nNow: int)
    requires e.nLastTry != 0 && e.nLastTry >= nNow - 60
    ensures !e.IsTerrible(nNow)
  {
  }

  /** Any other entry is exactly when its time lies more than ten minutes ahead, is zero or a month old, when three attempts have all failed,
  or when ten have and the last success is more than a week ago. */
  lemma TerribleMeans(e: AddrInfo, nNow: int)
    requires e.nLastTry == 0 || e.nLastTry < nNow - 60
    ensures e.IsTerrible(nNow) <==>
              || e.nTime > nNow + 600 || e.nTime == 0 || e.nTime < nNow - 2_592_000
              || (e.nLastSuccess == 0 && e.nAttempts >= 3)
              || (e.nAttempts >= 10 && e.nLastSuccess < nNow - 604_800)
  {
  }

  type InfoMap = map<Id, AddrInfo>
  type AddrMap = map<NetAddr, Id>
  type NewBuckets = seq<set<Id>>
  type TriedBuckets = seq<seq<Id>>

  // ---------------------------------------------------------------- agreement

  /** vRandom lists every id once, at the position its information records. */
  ghost predicate RandomOk(info: InfoMap, rnd: seq<Id>) {
    && (forall i | 0 <= i < |rnd| :: rnd[i] in info && info[rnd[i]].nRandomPos == i)
    && (forall n | n in info :: 0 <= info[n].nRandomPos < |rnd| && rnd[info[n].nRandomPos] == n)
  }

  /** Ids and addresses are mutual inverses. */
  ghost predicate AddrOk(info: InfoMap, addr: AddrMap) {
    && (forall n | n in info :: info[n].addr in addr && addr[info[n].addr] == n)
    && (forall a | a in addr :: addr[a] in info && info[addr[a]].addr == a)
  }

  /** In how many of the first `k` new buckets is `n`? */
  function Refs(buckets: NewBuckets, n: Id, k: nat): nat
    requires k <= |buckets|
  {
    if k == 0 then 0 else Refs(buckets, n, k - 1) + if n in buckets[k - 1] then 1 else 0
  }

  /** Buckets hold known ids and keep their size. */
  ghost predicate BucketsOk(info: InfoMap, buckets: NewBuckets) {
    && |buckets| == NEW_BUCKET_COUNT
    && (forall b | 0 <= b < |buckets| :: |buckets[b]| <= NEW_BUCKET_SIZE && buckets[b] <= info.Keys)
  }

  /** Reference counts count new buckets, except that the count of `x` is ahead by `d` in the middle of an update. */
  ghost predicate RefsOk(info: InfoMap, buckets: NewBuckets, x: int, d: int) {
    forall n | n in info :: info[n].nRefCount == Refs(buckets, n, |buckets|) + if n == x then d else 0
  }

  ghost predicate NewOk(info: InfoMap, buckets: NewBuckets) {
    BucketsOk(info, buckets) && RefsOk(info, buckets, -1, 0)
  }

  predicate NoDup(s: seq<Id>) {
    forall i, j | 0 <= i < j < |s| :: s[i] != s[j]
  }

  /** A tried id is in exactly one bucket, the one its address hashes to, and once. */
  ghost predicate TriedOk(h: Hashing, info: InfoMap, buckets: TriedBuckets) {
    && |buckets| == TRIED_BUCKET_COUNT
    && (forall b | 0 <= b < |buckets| :: |buckets[b]| <= TRIED_BUCKET_SIZE && NoDup(buckets[b]))
    && (forall b, i | 0 <= b < |buckets| && 0 <= i < |buckets[b]| :: TriedHere(h, info, buckets[b][i], b))
    && (forall n | n in info && info[n].fInTried :: n in buckets[h.TriedBucket(info[n].addr, info[n].port)])
  }

  ghost predicate TriedHere(h: Hashing, info: InfoMap, n: Id, b: nat) {
    n in info && info[n].fInTried && h.TriedBucket(info[n].addr, info[n].port) == b
  }

  /** What Check_ demands of a single entry. */
  predicate EntryOk(e: AddrInfo) {
    && e.nLastTry >= 0 && e.nLastSuccess >= 0
    && (if e.fInTried then e.nLastSuccess != 0 && e.nRefCount == 0 else 1 <= e.nRefCount <= NEW_BUCKETS_PER_ADDRESS)
  }

  ghost predicate EntriesOk(info: InfoMap) {
    forall n | n in info :: EntryOk(info[n])
  }

  ghost predicate IdsBelow(info: InfoMap, nIdCount: nat) {
    forall n | n in info :: n < nIdCount
  }

  /** Positions, addresses, tried buckets and the id counter agree. */
  ghost predicate LinksOk(h: Hashing, info: InfoMap, addr: AddrMap, rnd: seq<Id>, tried: TriedBuckets, c: nat) {
    RandomOk(info, rnd) && AddrOk(info, addr) && TriedOk(h, info, tried) && IdsBelow(info, c)
  }

  function TriedIds(info: InfoMap): set<Id> {
    set n | n in info && info[n].fInTried
  }

  function NewIds(info: InfoMap): set<Id> {
    set n | n in info && !info[n].fInTried
  }

  ghost predicate CountsOk(info: InfoMap, nTried: int, nNew: int) {
    nTried == |TriedIds(info)| && nNew == |NewIds(info)|
  }

  // ---------------------------------------------------------------- reference counts

  lemma {:induction false} RefsChange(buckets: NewBuckets, b: nat, s: set<Id>, n: Id, k: nat)
    requires b < |buckets| && k <= |buckets|
    ensures Refs(buckets[b := s], n, k) ==
            Refs(buckets, n, k) + if b < k then (if n in s then 1 else 0) - (if n in buckets[b] then 1 else 0) else 0
  {
    if k > 0 {
      RefsChange(buckets, b, s, n, k - 1);
    }
  }

  lemma {:induction false} RefsZero(buckets: NewBuckets, n: Id, k: nat)
    requires k <= |buckets|
    ensures Refs(buckets, n, k) == 0 <==> forall b | 0 <= b < k :: n !in buckets[b]
  {
    if k > 0 {
      RefsZero(buckets, n, k - 1);
    }
  }

  lemma {:induction false} RefsSame(a: NewBuckets, c: NewBuckets, n: Id, k: nat)
    requires k <= |a| && k <= |c| && forall b | 0 <= b < k :: n in a[b] <==> n in c[b]
    ensures Refs(a, n, k) == Refs(c, n, k)
  {
    if k > 0 {
      RefsSame(a, c, n, k - 1);
    }
  }

  // ---------------------------------------------------------------- changing one entry

  /** `e` and `f` agree on everything the tables cross-reference. */
  predicate SameLinks(e: AddrInfo, f: AddrInfo) {
    && e.addr == f.addr && e.port == f.port && e.nRefCount == f.nRefCount
    && e.fInTried == f.fInTried && e.nRandomPos == f.nRandomPos
  }

  /** Statistics of an entry may change without disturbing the tables. */
  lemma UpdateStats(h: Hashing, info: InfoMap, addr: AddrMap, rnd: seq<Id>, tried: TriedBuckets, new_: NewBuckets, nTried: int, nNew: int, n: Id, e: AddrInfo)
    requires n in info && SameLinks(info[n], e)
    requires RandomOk(info, rnd) && AddrOk(info, addr) && TriedOk(h, info, tried) && NewOk(info, new_) && CountsOk(info, nTried, nNew)
    ensures var w := info[n := e];
            RandomOk(w, rnd) && AddrOk(w, addr) && TriedOk(h, w, tried) && NewOk(w, new_) && CountsOk(w, nTried, nNew)
  {
    var w := info[n := e];
    TriedSame(h, info, w, tried);
    assert TriedIds(w) == TriedIds(info) && NewIds(w) == NewIds(info);
  }

  /** Tried buckets only look at address, port and flag. */
  lemma TriedSame(h: Hashing, info: InfoMap, w: InfoMap, tried: TriedBuckets)
    requires TriedOk(h, info, tried) && TriedIds(w) == TriedIds(info)
    requires forall n | n in TriedIds(info) :: info[n].addr == w[n].addr && info[n].port == w[n].port
    ensures TriedOk(h, w, tried)
  {
    forall b, i | 0 <= b < |tried| && 0 <= i < |tried[b]| ensures TriedHere(h, w, tried[b][i], b) {
      assert TriedHere(h, info, tried[b][i], b);
      assert tried[b][i] in TriedIds(info);
    }
    forall n | n in w && w[n].fInTried ensures n in tried[h.TriedBucket(w[n].addr, w[n].port)] {
      assert n in TriedIds(info);
    }
  }

  // ---------------------------------------------------------------- positions

  /** `w` is `info` with some entries moved in vRandom. */
  ghost predicate Moved(info: InfoMap, w: InfoMap) {
    w.Keys == info.Keys && forall n | n in info :: w[n] == info[n].(nRandomPos := w[n].nRandomPos)
  }

  function Swapped(info: InfoMap, rnd: seq<Id>, p: nat, q: nat): InfoMap
    requires p < |rnd| && q < |rnd| && rnd[p] in info && rnd[q] in info
  {
    var w := info[rnd[p] := info[rnd[p]].(nRandomPos := q)];
    w[rnd[q] := w[rnd[q]].(nRandomPos := p)]
  }

  lemma SwapKeeps(info: InfoMap, rnd: seq<Id>, p: nat, q: nat)
    requires RandomOk(info, rnd) && p < |rnd| && q < |rnd| && p != q
    ensures RandomOk(Swapped(info, rnd, p, q), rnd[p := rnd[q]][q := rnd[p]])
    ensures Moved(info, Swapped(info, rnd, p, q))
  {
  }

  lemma InRandom(info: InfoMap, rnd: seq<Id>, n: Id)
    requires RandomOk(info, rnd) && n in info
    ensures 0 <= info[n].nRandomPos < |rnd| && rnd[info[n].nRandomPos] == n
  {
  }

  lemma MovedEntry(info: InfoMap, w: InfoMap, n: Id)
    requires Moved(info, w) && n in info
    ensures n in w && w[n] == info[n].(nRandomPos := w[n].nRandomPos)
    ensures Moved(info - {n}, w - {n})
    ensures forall c: nat :: IdsBelow(info, c) ==> IdsBelow(w - {n}, c)
  {
  }

  lemma MovedKeeps(h: Hashing, info: InfoMap, w: InfoMap, addr: AddrMap, tried: TriedBuckets)
    requires Moved(info, w)
    ensures AddrOk(info, addr) ==> AddrOk(w, addr)
    ensures TriedOk(h, info, tried) ==> TriedOk(h, w, tried)
    ensures TriedIds(w) == TriedIds(info) && NewIds(w) == NewIds(info)
  {
    assert TriedIds(w) == TriedIds(info) && NewIds(w) == NewIds(info);
    if TriedOk(h, info, tried) {
      TriedSame(h, info, w, tried);
    }
  }

  lemma MovedRefs(info: InfoMap, w: InfoMap, new_: NewBuckets, x: int, d: int)
    requires Moved(info, w)
    ensures BucketsOk(info, new_) ==> BucketsOk(w, new_)
    ensures RefsOk(info, new_, x, d) ==> RefsOk(w, new_, x, d)
  {
  }

  // ---------------------------------------------------------------- adding and removing an entry

  /** A new id at the end of vRandom. */
  lemma AddEntry(h: Hashing, info: InfoMap, addr: AddrMap, rnd: seq<Id>, tried: TriedBuckets, n: Id, e: AddrInfo)
    requires n !in info && e.addr !in addr && e.nRandomPos == |rnd| && !e.fInTried
    requires RandomOk(info, rnd) && AddrOk(info, addr) && TriedOk(h, info, tried)
    ensures var w := info[n := e];
            && RandomOk(w, rnd + [n]) && AddrOk(w, addr[e.addr := n]) && TriedOk(h, w, tried)
            && TriedIds(w) == TriedIds(info) && NewIds(w) == NewIds(info) + {n}
  {
    var w := info[n := e];
    assert TriedIds(w) == TriedIds(info) && NewIds(w) == NewIds(info) + {n};
    TriedSame(h, info, w, tried);
  }

  lemma AddEntryRefs(info: InfoMap, new_: NewBuckets, n: Id, e: AddrInfo)
    requires n !in info && BucketsOk(info, new_) && RefsOk(info, new_, -1, 0) && e.nRefCount == 0
    ensures BucketsOk(info[n := e], new_) && RefsOk(info[n := e], new_, -1, 0)
  {
    RefsZero(new_, n, |new_|);
  }

  /** Removing the id at the end of vRandom. */
  lemma DropEntry(h: Hashing, info: InfoMap, addr: AddrMap, rnd: seq<Id>, tried: TriedBuckets, n: Id)
    requires n in info && !info[n].fInTried && |rnd| > 0 && rnd[|rnd| - 1] == n
    requires RandomOk(info, rnd) && AddrOk(info, addr) && TriedOk(h, info, tried)
    ensures var w := info - {n};
            && RandomOk(w, rnd[..|rnd| - 1]) && AddrOk(w, addr - {info[n].addr}) && TriedOk(h, w, tried)
            && TriedIds(w) == TriedIds(info) && NewIds(w) == NewIds(info) - {n} && n in NewIds(info)
  {
    var w := info - {n};
    assert TriedIds(w) == TriedIds(info) && NewIds(w) == NewIds(info) - {n};
    assert info[n].nRandomPos == |rnd| - 1;
    TriedSame(h, info, w, tried);
  }

  lemma DropEntryRefs(info: InfoMap, new_: NewBuckets, n: Id, x: int, d: int)
    requires n in info && BucketsOk(info, new_) && RefsOk(info, new_, x, d)
    requires Refs(new_, n, |new_|) == 0
    ensures BucketsOk(info - {n}, new_) && RefsOk(info - {n}, new_, x, d)
  {
    RefsZero(new_, n, |new_|);
  }

  /** Forgetting a new entry that is in no bucket, once it has been moved to the end of vRandom. */
  lemma Forget(h: Hashing, info: InfoMap, w: InfoMap, addr: AddrMap, rnd: seq<Id>, tried: TriedBuckets, new_: NewBuckets, n: Id, x: int, d: int, c: nat)
    requires Moved(info, w) && n in info && !info[n].fInTried && |rnd| > 0 && rnd[|rnd| - 1] == n
    requires RandomOk(w, rnd) && AddrOk(info, addr) && TriedOk(h, info, tried) && IdsBelow(info, c)
    requires BucketsOk(info, new_) && RefsOk(info, new_, x, d) && Refs(new_, n, |new_|) == 0
    ensures n in w && w[n].addr == info[n].addr
    ensures var u := w - {n};
            && LinksOk(h, u, addr - {info[n].addr}, rnd[..|rnd| - 1], tried, c)
            && BucketsOk(u, new_) && RefsOk(u, new_, x, d) && Moved(info - {n}, u)
            && TriedIds(u) == TriedIds(info) && NewIds(u) == NewIds(info) - {n} && n in NewIds(info)
  {
    hide RandomOk, AddrOk, TriedOk, BucketsOk, RefsOk, TriedIds, NewIds, Moved, IdsBelow, Refs;
    MovedEntry(info, w, n);
    MovedKeeps(h, info, w, addr, tried);
    MovedRefs(info, w, new_, x, d);
    DropEntry(h, w, addr, rnd, tried, n);
    DropEntryRefs(w, new_, n, x, d);
  }

  // ---------------------------------------------------------------- bucket membership

  /** Taking `n` out of bucket `b` and lowering its count. */
  lemma LeaveBucket(info: InfoMap, new_: NewBuckets, b: nat, n: Id, x: int, d: int)
    requires BucketsOk(info, new_) && RefsOk(info, new_, x, d) && b < |new_| && n in new_[b]
    ensures var e := info[n].(nRefCount := info[n].nRefCount - 1);
            var after := new_[b := new_[b] - {n}];
            && BucketsOk(info[n := e], after) && RefsOk(info[n := e], after, x, d)
            && Refs(after, n, |after|) == Refs(new_, n, |new_|) - 1
  {
    var e := info[n].(nRefCount := info[n].nRefCount - 1);
    var after := new_[b := new_[b] - {n}];
    forall m | m in info ensures Refs(after, m, |after|) == Refs(new_, m, |new_|) - if m == n then 1 else 0 {
      RefsChange(new_, b, new_[b] - {n}, m, |new_|);
    }
  }

  /** Putting `n` into bucket `b` when its count is ahead by one. */
  lemma EnterBucket(info: InfoMap, new_: NewBuckets, b: nat, n: Id)
    requires BucketsOk(info, new_) && RefsOk(info, new_, n, 1) && b < |new_| && n in info && n !in new_[b] && |new_[b]| < NEW_BUCKET_SIZE
    ensures var after := new_[b := new_[b] + {n}];
            BucketsOk(info, after) && RefsOk(info, after, -1, 0)
  {
    var after := new_[b := new_[b] + {n}];
    forall m | m in info ensures Refs(after, m, |after|) == Refs(new_, m, |new_|) + if m == n then 1 else 0 {
      RefsChange(new_, b, new_[b] + {n}, m, |new_|);
    }
  }

  /** A known id that is in some bucket has a positive count, and a tried one is in none. */
  lemma InBucket(info: InfoMap, new_: NewBuckets, b: nat, n: Id, x: int, d: int)
    requires BucketsOk(info, new_) && RefsOk(info, new_, x, d) && b < |new_| && n in new_[b] && d >= 0
    ensures n in info && info[n].nRefCount >= 1
  {
    RefsZero(new_, n, |new_|);
  }

  /** A changed reference count disturbs neither positions, addresses nor tried buckets. */
  lemma Recounted(h: Hashing, info: InfoMap, addr: AddrMap, rnd: seq<Id>, tried: TriedBuckets, n: Id, c: int)
    requires n in info && RandomOk(info, rnd) && AddrOk(info, addr) && TriedOk(h, info, tried)
    ensures var w := info[n := info[n].(nRefCount := c)];
            && RandomOk(w, rnd) && AddrOk(w, addr) && TriedOk(h, w, tried)
            && TriedIds(w) == TriedIds(info) && NewIds(w) == NewIds(info)
  {
    var w := info[n := info[n].(nRefCount := c)];
    assert TriedIds(w) == TriedIds(info) && NewIds(w) == NewIds(info);
    TriedSame(h, info, w, tried);
  }

  // ---------------------------------------------------------------- tried buckets

  function SwapAt(s: seq<Id>, i: nat, j: nat): seq<Id>
    requires i < |s| && j < |s|
  {
    s[j := s[i]][i := s[j]]
  }

  function Put(s: seq<Id>, pos: nat, n: Id): seq<Id>
    requires pos < |s|
  {
    s[pos := n]
  }

  /** Where inspecting a tried bucket has got to: the shuffled bucket, the least recently good entry
  seen, the position remembered for it, and the step at which it was drawn. */
  datatype Inspection = Inspection(bucket: seq<Id>, nOldest: int, nOldestPos: int, step: int)

  predicate TriedKnown(info: InfoMap, s: seq<Id>) {
    forall n | n in s :: n in info
  }

  lemma TriedIsKnown(h: Hashing, info: InfoMap, tried: TriedBuckets, k: nat)
    requires TriedOk(h, info, tried) && k < |tried|
    ensures TriedKnown(info, tried[k])
  {
    forall n | n in tried[k] ensures n in info {
      var i :| 0 <= i < |tried[k]| && tried[k][i] == n;
      assert TriedHere(h, info, tried[k][i], k);
    }
  }

  /** Draw i exchanges position i with one from i on. */
  ghost predicate DrawsOk(s: seq<Id>, draws: seq<nat>) {
    |draws| <= |s| && forall i | 0 <= i < |draws| :: i <= draws[i] < |s|
  }

  function Inspect(info: InfoMap, s: seq<Id>, draws: seq<nat>): (r: Inspection)
    requires DrawsOk(s, draws) && TriedKnown(info, s)
    ensures |r.bucket| == |s| && TriedKnown(info, r.bucket) && multiset(r.bucket) == multiset(s)
    ensures if draws == [] then r.nOldest == -1 else 0 <= r.step < |draws| && r.step <= r.nOldestPos < |s| && r.bucket[r.step] == r.nOldest
    decreases |draws|
  {
    if draws == [] then Inspection(s, -1, -1, -1)
    else InspectOne(info, Inspect(info, s, draws[..|draws| - 1]), |draws| - 1, draws[|draws| - 1])
  }

  function InspectOne(info: InfoMap, p: Inspection, i: nat, nPos: nat): (r: Inspection)
    requires i <= nPos < |p.bucket| && TriedKnown(info, p.bucket)
    requires p.nOldest == -1 || (0 <= p.step < i && p.bucket[p.step] == p.nOldest)
    ensures |r.bucket| == |p.bucket| && TriedKnown(info, r.bucket) && multiset(r.bucket) == multiset(p.bucket)
    ensures r.bucket[i] == p.bucket[nPos] && forall m | 0 <= m < i :: r.bucket[m] == p.bucket[m]
  {
    Exchanged(p.bucket, i, nPos);
    var nTemp := p.bucket[nPos];
    assert nTemp in info;
    assert p.nOldest != -1 ==> p.nOldest in p.bucket;
    var after := SwapAt(p.bucket, i, nPos);
    if p.nOldest == -1 || info[nTemp].nLastSuccess < info[p.nOldest].nLastSuccess then Inspection(after, nTemp, nPos, i)
    else p.(bucket := after)
  }

  lemma Exchanged(s: seq<Id>, i: nat, j: nat)
    requires i < |s| && j < |s|
    ensures multiset(SwapAt(s, i, j)) == multiset(s) && forall n | n in SwapAt(s, i, j) :: n in s
  {
  }

  lemma Twice(t: seq<Id>, i: nat, j: nat)
    requires i < j < |t| && t[i] == t[j]
    ensures multiset(t)[t[i]] >= 2
  {
    assert t == t[..i] + [t[i]] + t[i + 1..j] + [t[j]] + t[j + 1..];
  }

  lemma NoDupByCount(s: seq<Id>, t: seq<Id>)
    requires NoDup(s) && multiset(s) == multiset(t)
    ensures NoDup(t)
  {
    forall i, j | 0 <= i < j < |t| ensures t[i] != t[j] {
      if t[i] == t[j] {
        Twice(t, i, j);
        NoDupCount(s, t[i]);
      }
    }
  }

  lemma {:induction false} NoDupCount(s: seq<Id>, n: Id)
    requires NoDup(s)
    ensures multiset(s)[n] <= 1
  {
    if s != [] {
      var rest := s[..|s| - 1];
      assert s == rest + [s[|s| - 1]];
      NoDupCount(rest, n);
      if n == s[|s| - 1] {
        assert n !in rest;
      }
    }
  }

  /** Order inside a tried bucket does not matter. */
  lemma ShuffleKeeps(h: Hashing, info: InfoMap, tried: TriedBuckets, k: nat, t: seq<Id>)
    requires TriedOk(h, info, tried) && k < |tried| && multiset(t) == multiset(tried[k])
    ensures TriedOk(h, info, tried[k := t])
  {
    var after := tried[k := t];
    NoDupByCount(tried[k], t);
    assert |t| == |multiset(t)| == |tried[k]|;
    assert forall n :: (n in t <==> n in multiset(t)) && (n in tried[k] <==> n in multiset(tried[k]));
    forall b, m | 0 <= b < |after| && 0 <= m < |after[b]| ensures TriedHere(h, info, after[b][m], b) {
      assert after[b][m] in tried[b];
      var i :| 0 <= i < |tried[b]| && tried[b][i] == after[b][m];
      assert TriedHere(h, info, tried[b][i], b);
    }
  }

  lemma NoDraws(info: InfoMap, s: seq<Id>)
    requires TriedKnown(info, s)
    ensures Inspect(info, s, []) == Inspection(s, -1, -1, -1)
  {
  }

  lemma OneMoreDraw(info: InfoMap, s: seq<Id>, draws: seq<nat>, d: nat)
    requires DrawsOk(s, draws) && |draws| <= d < |s| && TriedKnown(info, s)
    ensures Inspect(info, s, draws + [d]) == InspectOne(info, Inspect(info, s, draws), |draws|, d)
  {
    assert (draws + [d])[..|draws|] == draws;
  }

  /** A new id moves into its tried bucket. */
  lemma EnterTried(h: Hashing, info: InfoMap, tried: TriedBuckets, n: Id)
    requires n in info && !info[n].fInTried && TriedOk(h, info, tried)
    requires |tried[h.TriedBucket(info[n].addr, info[n].port)]| < TRIED_BUCKET_SIZE
    ensures var k := h.TriedBucket(info[n].addr, info[n].port);
            var w := info[n := info[n].(fInTried := true)];
            && TriedOk(h, w, tried[k := tried[k] + [n]])
            && TriedIds(w) == TriedIds(info) + {n} && NewIds(w) == NewIds(info) - {n}
  {
    var k := h.TriedBucket(info[n].addr, info[n].port);
    var w := info[n := info[n].(fInTried := true)];
    var after := tried[k := tried[k] + [n]];
    assert TriedIds(w) == TriedIds(info) + {n} && NewIds(w) == NewIds(info) - {n};
    forall b, i | 0 <= b < |after| && 0 <= i < |after[b]| ensures TriedHere(h, w, after[b][i], b) {
      if b != k || i < |tried[k]| {
        assert TriedHere(h, info, tried[b][i], b);
      }
    }
    forall i | 0 <= i < |tried[k]| ensures tried[k][i] != n {
      assert TriedHere(h, info, tried[k][i], k);
    }
  }

  /** A new id takes the place of a tried one, which becomes new with a count of one. */
  lemma ReplaceTried(h: Hashing, info: InfoMap, tried: TriedBuckets, n: Id, pos: nat)
    requires n in info && !info[n].fInTried && TriedOk(h, info, tried)
    requires pos < |tried[h.TriedBucket(info[n].addr, info[n].port)]|
    ensures var k := h.TriedBucket(info[n].addr, info[n].port);
            var gone := tried[k][pos];
            && gone in info && gone != n && info[gone].fInTried
            && var w := info[gone := info[gone].(fInTried := false, nRefCount := 1)][n := info[n].(fInTried := true)];
               && TriedOk(h, w, tried[k := Put(tried[k], pos, n)])
               && TriedIds(w) == TriedIds(info) - {gone} + {n} && NewIds(w) == NewIds(info) - {n} + {gone}
  {
    var k := h.TriedBucket(info[n].addr, info[n].port);
    var gone := tried[k][pos];
    assert TriedHere(h, info, gone, k);
    var w := info[gone := info[gone].(fInTried := false, nRefCount := 1)][n := info[n].(fInTried := true)];
    var after := tried[k := Put(tried[k], pos, n)];
    assert TriedIds(w) == TriedIds(info) - {gone} + {n} && NewIds(w) == NewIds(info) - {n} + {gone};
    forall b, i | 0 <= b < |after| && 0 <= i < |after[b]| ensures TriedHere(h, w, after[b][i], b) {
      assert TriedHere(h, info, tried[b][i], b);
    }
    forall i | 0 <= i < |tried[k]| ensures tried[k][i] != n {
      assert TriedHere(h, info, tried[k][i], k);
    }
    forall m | m in w && w[m].fInTried ensures m in after[h.TriedBucket(w[m].addr, w[m].port)] {
      if m == n {
        assert after[k][pos] == n;
      } else {
        var c := h.TriedBucket(info[m].addr, info[m].port);
        var i :| 0 <= i < |tried[c]| && tried[c][i] == m;
        assert after[c][i] == m;
      }
    }
  }

  /** Flags and counts of two entries change; positions and addresses do not care. */
  lemma FlagsKeep(info: InfoMap, w: InfoMap, addr: AddrMap, rnd: seq<Id>)
    requires RandomOk(info, rnd) && AddrOk(info, addr) && w.Keys == info.Keys
    requires forall n | n in info :: w[n].addr == info[n].addr && w[n].nRandomPos == info[n].nRandomPos
    ensures RandomOk(w, rnd) && AddrOk(w, addr)
  {
  }

  // ---------------------------------------------------------------- losing one reference

  /** Taking a new entry out of one of its buckets. */
  lemma LoseReference(h: Hashing, info: InfoMap, w: InfoMap, addr: AddrMap, rnd: seq<Id>, tried: TriedBuckets,
                      new_: NewBuckets, after: NewBuckets, b: nat, n: Id, x: int, d: int, c: nat)
    requires LinksOk(h, info, addr, rnd, tried, c)
    requires BucketsOk(info, new_) && RefsOk(info, new_, x, d) && b < |new_| && n in new_[b] && n != x && n in info
    requires w == info[n := info[n].(nRefCount := info[n].nRefCount - 1)] && after == new_[b := new_[b] - {n}]
    ensures LinksOk(h, w, addr, rnd, tried, c)
    ensures BucketsOk(w, after) && RefsOk(w, after, x, d) && Refs(after, n, |after|) == w[n].nRefCount
    ensures TriedIds(w) == TriedIds(info) && NewIds(w) == NewIds(info) && w - {n} == info - {n}
  {
    hide RandomOk, AddrOk, TriedOk, TriedIds, NewIds;
    LeaveBucket(info, new_, b, n, x, d);
    Recounted(h, info, addr, rnd, tried, n, info[n].nRefCount - 1);
  }

  /** `w` is `info` after `n` has lost a reference: its count is lower, or it is gone and others may have moved in vRandom. */
  ghost predicate LessOne(info: InfoMap, w: InfoMap, n: Id) {
    && n in info
    && if info[n].nRefCount == 1 then Moved(info - {n}, w) else w == info[n := info[n].(nRefCount := info[n].nRefCount - 1)]
  }

  lemma LostOne(info: InfoMap, mid: InfoMap, w: InfoMap, n: Id)
    requires n in info && mid == info[n := info[n].(nRefCount := info[n].nRefCount - 1)]
    requires if mid[n].nRefCount == 0 then Moved(info - {n}, w) else w == mid
    ensures LessOne(info, w, n)
  {
  }

  /** Entries are still in order after one has lost a reference, or has gone. */
  lemma EntriesLess(info: InfoMap, w: InfoMap, n: Id)
    requires EntriesOk(info) && n in info && !info[n].fInTried && LessOne(info, w, n)
    ensures EntriesOk(w)
  {
    forall m | m in w ensures EntryOk(w[m]) {
      assert EntryOk(info[m]);
    }
  }

  lemma CountsLess(info: InfoMap, w: InfoMap, nTried: int, nNew: int, n: Id)
    requires CountsOk(info, nTried, nNew)
    requires TriedIds(w) == TriedIds(info) && NewIds(w) == NewIds(info) - {n} && n in NewIds(info)
    ensures CountsOk(w, nTried, nNew - 1)
  {
  }

  lemma CountsSame(info: InfoMap, w: InfoMap, nTried: int, nNew: int)
    requires CountsOk(info, nTried, nNew) && TriedIds(w) == TriedIds(info) && NewIds(w) == NewIds(info)
    ensures CountsOk(w, nTried, nNew)
  {
  }

  // ---------------------------------------------------------------- from new to tried

  /** The first `k` buckets no longer hold `n`; nothing else has changed. */
  ghost predicate Purged(buckets: NewBuckets, after: NewBuckets, n: Id, k: nat) {
    && |after| == |buckets|
    && forall b | 0 <= b < |buckets| :: after[b] == if b < k then buckets[b] - {n} else buckets[b]
  }

  /** `w` is `info` with another reference count for `n`. */
  ghost predicate CountOnly(info: InfoMap, w: InfoMap, n: Id) {
    n in info && n in w && w == info[n := info[n].(nRefCount := w[n].nRefCount)]
  }

  lemma PurgeStart(info: InfoMap, buckets: NewBuckets, n: Id)
    requires n in info
    ensures Purged(buckets, buckets, n, 0) && CountOnly(info, info, n)
  {
  }

  lemma CountStep(info: InfoMap, v: InfoMap, w: InfoMap, n: Id, c: int)
    requires CountOnly(info, v, n) && w == v[n := v[n].(nRefCount := c)]
    ensures CountOnly(info, w, n)
  {
  }

  lemma PurgeStep(buckets: NewBuckets, s: NewBuckets, t: NewBuckets, n: Id, k: nat)
    requires Purged(buckets, s, n, k) && k < |s|
    requires t == s[k := s[k] - {n}] || (t == s && n !in s[k])
    ensures Purged(buckets, t, n, k + 1)
  {
  }

  lemma PurgedAll(info: InfoMap, w: InfoMap, buckets: NewBuckets, after: NewBuckets, n: Id)
    requires Purged(buckets, after, n, |buckets|) && NewOk(w, after) && CountOnly(info, w, n)
    ensures w[n].nRefCount == 0 && w == info[n := info[n].(nRefCount := 0)]
  {
    RefsZero(after, n, |after|);
  }

  lemma PurgedRoom(buckets: NewBuckets, after: NewBuckets, n: Id, b: nat)
    requires Purged(buckets, after, n, |buckets|) && b < |buckets| && n in buckets[b] && |buckets[b]| <= NEW_BUCKET_SIZE
    ensures |after[b]| < NEW_BUCKET_SIZE
  {
    assert after[b] + {n} == buckets[b] && n !in after[b];
  }

  lemma BucketCount(info: InfoMap, buckets: NewBuckets)
    requires NewOk(info, buckets)
    ensures |buckets| == NEW_BUCKET_COUNT
    ensures forall b | 0 <= b < |buckets| :: |buckets[b]| <= NEW_BUCKET_SIZE
  {
  }

  /** LoseReference where all counts are exact. */
  lemma NewLoseReference(h: Hashing, info: InfoMap, w: InfoMap, addr: AddrMap, rnd: seq<Id>, tried: TriedBuckets,
                         new_: NewBuckets, after: NewBuckets, b: nat, n: Id, nTried: int, nNew: int, c: nat)
    requires LinksOk(h, info, addr, rnd, tried, c) && NewOk(info, new_) && CountsOk(info, nTried, nNew)
    requires b < |new_| && n in new_[b] && n in info
    requires w == info[n := info[n].(nRefCount := info[n].nRefCount - 1)] && after == new_[b := new_[b] - {n}]
    ensures LinksOk(h, w, addr, rnd, tried, c) && NewOk(w, after) && CountsOk(w, nTried, nNew)
  {
    hide LinksOk, BucketsOk, RefsOk, TriedIds, NewIds, Refs;
    LoseReference(h, info, w, addr, rnd, tried, new_, after, b, n, -1, 0, c);
  }

  lemma OthersSame(info: InfoMap, w: InfoMap, n: Id)
    requires OthersOk(info, n) && CountOnly(info, w, n)
    ensures OthersOk(w, n)
  {
  }

  ghost predicate OthersOk(info: InfoMap, n: Id) {
    forall m | m in info && m != n :: EntryOk(info[m])
  }

  lemma OneMoreTried(info: InfoMap, w: InfoMap, nTried: int, nNew: int, n: Id)
    requires CountsOk(info, nTried, nNew) && n in info && !info[n].fInTried
    requires TriedIds(w) == TriedIds(info) + {n} && NewIds(w) == NewIds(info) - {n}
    ensures CountsOk(w, nTried + 1, nNew - 1)
  {
    assert n in NewIds(info) && n !in TriedIds(info);
  }

  /** `n` joins a tried bucket that has room. */
  lemma Promote(h: Hashing, info: InfoMap, w: InfoMap, addr: AddrMap, rnd: seq<Id>, tried: TriedBuckets, after: TriedBuckets,
                new_: NewBuckets, nTried: int, nNew: int, n: Id, c: nat)
    requires n in info && !info[n].fInTried && info[n].nRefCount == 0 && OthersOk(info, n)
    requires LinksOk(h, info, addr, rnd, tried, c)
    requires NewOk(info, new_) && CountsOk(info, nTried, nNew)
    requires |tried[h.TriedBucket(info[n].addr, info[n].port)]| < TRIED_BUCKET_SIZE
    requires w == info[n := info[n].(fInTried := true)]
    requires var k := h.TriedBucket(info[n].addr, info[n].port); after == tried[k := tried[k] + [n]]
    ensures LinksOk(h, w, addr, rnd, after, c)
    ensures NewOk(w, new_) && CountsOk(w, nTried + 1, nNew - 1) && OthersOk(w, n)
  {
    hide RandomOk, AddrOk, TriedOk, TriedIds, NewIds;
    EnterTried(h, info, tried, n);
    FlagsKeep(info, w, addr, rnd);
    OneMoreTried(info, w, nTried, nNew, n);
  }

  /** A tried entry that goes back to a new bucket is counted there once. */
  lemma ReturnToNew(info: InfoMap, w: InfoMap, new_: NewBuckets, newAfter: NewBuckets, n: Id, gone: Id, b: nat)
    requires NewOk(info, new_) && n in info && gone in info && n != gone && info[gone].nRefCount == 0
    requires w == info[gone := info[gone].(fInTried := false, nRefCount := 1)][n := info[n].(fInTried := true)]
    requires b < |new_| && |new_[b]| < NEW_BUCKET_SIZE && newAfter == new_[b := new_[b] + {gone}]
    ensures NewOk(w, newAfter)
  {
    hide Refs;
    RefsZero(new_, gone, |new_|);
    EnterBucket(w, new_, b, gone);
  }

  lemma CountsExchange(info: InfoMap, w: InfoMap, nTried: int, nNew: int, n: Id, gone: Id)
    requires CountsOk(info, nTried, nNew) && n in info && !info[n].fInTried && gone in info && info[gone].fInTried
    requires TriedIds(w) == TriedIds(info) - {gone} + {n} && NewIds(w) == NewIds(info) - {n} + {gone}
    ensures CountsOk(w, nTried, nNew)
  {
    assert n in NewIds(info) && n !in TriedIds(info) && gone in TriedIds(info) && gone !in NewIds(info);
  }

  /** `n` takes the place of tried entry `gone`, which goes back to new bucket `b`. */
  lemma Exchange(h: Hashing, info: InfoMap, w: InfoMap, addr: AddrMap, rnd: seq<Id>, tried: TriedBuckets, after: TriedBuckets,
                 new_: NewBuckets, newAfter: NewBuckets, nTried: int, nNew: int, n: Id, gone: Id, k: nat, pos: nat, b: nat, c: nat)
    requires n in info && !info[n].fInTried && info[n].nRefCount == 0 && OthersOk(info, n)
    requires LinksOk(h, info, addr, rnd, tried, c)
    requires NewOk(info, new_) && CountsOk(info, nTried, nNew)
    requires k == h.TriedBucket(info[n].addr, info[n].port) && pos < |tried[k]| && gone == tried[k][pos] && gone in info
    requires b < |new_| && |new_[b]| < NEW_BUCKET_SIZE
    requires w == info[gone := info[gone].(fInTried := false, nRefCount := 1)][n := info[n].(fInTried := true)]
    requires after == tried[k := Put(tried[k], pos, n)] && newAfter == new_[b := new_[b] + {gone}]
    ensures LinksOk(h, w, addr, rnd, after, c)
    ensures NewOk(w, newAfter) && CountsOk(w, nTried, nNew) && OthersOk(w, n)
  {
    hide RandomOk, AddrOk, NewOk, CountsOk, Refs, TriedIds, NewIds, Hashing.TriedBucket, Hashing.NewBucket;
    ReplaceTried(h, info, tried, n, pos);
    hide TriedOk;
    FlagsKeep(info, w, addr, rnd);
    assert EntryOk(info[gone]);
    ReturnToNew(info, w, new_, newAfter, n, gone, b);
    CountsExchange(info, w, nTried, nNew, n, gone);
  }

  /** Everything that moving `n` to the tried table changes; `gone` is the entry it displaces, if any, selected by `draws`. */
  ghost predicate MovedToTried(h: Hashing, info: InfoMap, w: InfoMap, tried: TriedBuckets, after: TriedBuckets,
                               new_: NewBuckets, newAfter: NewBuckets, n: Id, origin: nat, gone: Option<Id>, draws: seq<nat>)
    requires n in info && |tried| == TRIED_BUCKET_COUNT && |new_| == NEW_BUCKET_COUNT && origin < |new_|
  {
    var k := h.TriedBucket(info[n].addr, info[n].port);
    var promoted := info[n].(fInTried := true, nRefCount := 0);
    && |after| == |tried| && (forall b | 0 <= b < |tried| && b != k :: after[b] == tried[b])
    && if |tried[k]| < TRIED_BUCKET_SIZE then
         && gone == None && w == info[n := promoted]
         && after[k] == tried[k] + [n] && Purged(new_, newAfter, n, |new_|)
       else
         && gone.Some? && gone.value in info && info[gone.value].fInTried
         && w == info[gone.value := info[gone.value].(fInTried := false, nRefCount := 1)][n := promoted]
         && Selected(info, tried[k], after[k], n, gone.value, draws)
         && var own := h.NewBucket(info[gone.value].addr, info[gone.value].source);
            var b := if |new_[own] - {n}| < NEW_BUCKET_SIZE then own else origin;
            exists middle :: Purged(new_, middle, n, |new_|) && newAfter == middle[b := middle[b] + {gone.value}]
  }

  /** `gone` is what stands at the position that inspecting bucket `s` returns, and `n` takes its place there. */
  ghost predicate Selected(info: InfoMap, s: seq<Id>, after: seq<Id>, n: Id, gone: Id, draws: seq<nat>) {
    && DrawsOk(s, draws) && |draws| == TRIED_ENTRIES_INSPECT_ON_EVICT && TriedKnown(info, s)
    && var r := Inspect(info, s, draws);
       0 <= r.nOldestPos < |r.bucket| && gone == r.bucket[r.nOldestPos] && after == Put(r.bucket, r.nOldestPos, n)
  }

  /** Inspecting looks at nothing but when entries were last good. */
  lemma {:induction false} InspectSame(info: InfoMap, w: InfoMap, s: seq<Id>, draws: seq<nat>)
    requires DrawsOk(s, draws) && TriedKnown(info, s) && TriedKnown(w, s)
    requires forall n | n in s :: info[n].nLastSuccess == w[n].nLastSuccess
    ensures Inspect(info, s, draws) == Inspect(w, s, draws)
    decreases |draws|
  {
    hide Inspect, SwapAt;
    if draws == [] {
      NoDraws(info, s);
      NoDraws(w, s);
    } else {
      var i := |draws| - 1;
      InspectSame(info, w, s, draws[..i]);
      var p := Inspect(info, s, draws[..i]);
      assert draws == draws[..i] + [draws[i]];
      OneMoreDraw(info, s, draws[..i], draws[i]);
      OneMoreDraw(w, s, draws[..i], draws[i]);
      assert p.bucket[draws[i]] in multiset(p.bucket);
      assert p.nOldest != -1 ==> p.nOldest in multiset(p.bucket);
    }
  }

  lemma TriedCount(h: Hashing, info: InfoMap, tried: TriedBuckets, n: Id)
    requires TriedOk(h, info, tried) && n in info
    ensures |tried| == TRIED_BUCKET_COUNT
    ensures |tried[h.TriedBucket(info[n].addr, info[n].port)]| <= TRIED_BUCKET_SIZE
  {
  }

  lemma LinksShuffled(h: Hashing, info: InfoMap, addr: AddrMap, rnd: seq<Id>, tried: TriedBuckets, after: TriedBuckets, c: nat)
    requires LinksOk(h, info, addr, rnd, tried, c) && TriedOk(h, info, after)
    ensures LinksOk(h, info, addr, rnd, after, c)
  {
  }

  lemma TriedEntry(h: Hashing, info: InfoMap, tried: TriedBuckets, n: Id, k: nat, pos: nat)
    requires TriedOk(h, info, tried) && k < |tried| && pos < |tried[k]| && OthersOk(info, n) && n in info && !info[n].fInTried
    ensures var gone := tried[k][pos]; gone in info && gone != n && info[gone].fInTried && info[gone].nRefCount == 0
  {
    assert TriedHere(h, info, tried[k][pos], k);
  }

  lemma Promoted(h: Hashing, info: InfoMap, w: InfoMap, tried: TriedBuckets, after: TriedBuckets,
                 new_: NewBuckets, newAfter: NewBuckets, n: Id, origin: nat)
    requires n in info && |tried| == TRIED_BUCKET_COUNT && |new_| == NEW_BUCKET_COUNT && origin < |new_|
    requires w == info[n := info[n].(fInTried := true, nRefCount := 0)]
    requires var k := h.TriedBucket(info[n].addr, info[n].port); |tried[k]| < TRIED_BUCKET_SIZE && after == tried[k := tried[k] + [n]]
    requires Purged(new_, newAfter, n, |new_|)
    ensures MovedToTried(h, info, w, tried, after, new_, newAfter, n, origin, None, [])
  {
  }

  lemma Displaced(h: Hashing, info: InfoMap, w: InfoMap, tried: TriedBuckets, t: seq<Id>, after: TriedBuckets,
                  new_: NewBuckets, middle: NewBuckets, newAfter: NewBuckets, n: Id, origin: nat, gone: Id, draws: seq<nat>, b: nat)
    requires n in info && gone in info && info[gone].fInTried && gone != n
    requires |tried| == TRIED_BUCKET_COUNT && |new_| == NEW_BUCKET_COUNT && origin < |new_|
    requires w == info[n := info[n].(nRefCount := 0)][gone := info[gone].(fInTried := false, nRefCount := 1)][n := info[n].(fInTried := true, nRefCount := 0)]
    requires var k := h.TriedBucket(info[n].addr, info[n].port);
             && |tried[k]| >= TRIED_BUCKET_SIZE && Selected(info, tried[k], t, n, gone, draws) && after == tried[k := t]
    requires Purged(new_, middle, n, |new_|) && b < |new_| && newAfter == middle[b := middle[b] + {gone}]
    requires var own := h.NewBucket(info[gone].addr, info[gone].source); b == if |middle[own]| < NEW_BUCKET_SIZE then own else origin
    ensures MovedToTried(h, info, w, tried, after, new_, newAfter, n, origin, Some(gone), draws)
  {
    hide Hashing.TriedBucket, Hashing.NewBucket, Selected;
    assert w == info[gone := info[gone].(fInTried := false, nRefCount := 1)][n := info[n].(fInTried := true, nRefCount := 0)];
  }

  // ---------------------------------------------------------------- whole operations

  /** UpdateStats for an entry whose own counters may no longer be in order. */
  lemma StatsKeep(h: Hashing, info: InfoMap, w: InfoMap, addr: AddrMap, rnd: seq<Id>, tried: TriedBuckets, new_: NewBuckets,
                  nTried: int, nNew: int, n: Id, c: nat)
    requires n in info && n in w && SameLinks(info[n], w[n]) && w == info[n := w[n]]
    requires LinksOk(h, info, addr, rnd, tried, c) && NewOk(info, new_) && CountsOk(info, nTried, nNew)
    ensures LinksOk(h, w, addr, rnd, tried, c) && NewOk(w, new_) && CountsOk(w, nTried, nNew)
  {
    hide RandomOk, AddrOk, TriedOk, NewOk, CountsOk;
    UpdateStats(h, info, addr, rnd, tried, new_, nTried, nNew, n, w[n]);
  }

  lemma OthersKeep(info: InfoMap, w: InfoMap, n: Id)
    requires EntriesOk(info) && n in w && w == info[n := w[n]]
    ensures OthersOk(w, n)
  {
  }

  lemma EntryInOrder(info: InfoMap, n: Id)
    requires EntriesOk(info) && n in info
    ensures EntryOk(info[n])
  {
  }

  lemma AllEntries(info: InfoMap, n: Id)
    requires OthersOk(info, n) && n in info
    ensures EntriesOk(info) <==> EntryOk(info[n])
  {
  }

  /** A new entry in good order is in some bucket. */
  lemma NewIsSomewhere(info: InfoMap, new_: NewBuckets, n: Id)
    requires NewOk(info, new_) && n in info && info[n].nRefCount > 0
    ensures exists b :: 0 <= b < |new_| && n in new_[b]
  {
    RefsZero(new_, n, |new_|);
  }

  lemma MovedAll(h: Hashing, info: InfoMap, w: InfoMap, addr: AddrMap, rnd: seq<Id>, after: seq<Id>, tried: TriedBuckets,
                 new_: NewBuckets, nTried: int, nNew: int, c: nat)
    requires Moved(info, w) && RandomOk(w, after)
    requires LinksOk(h, info, addr, rnd, tried, c) && NewOk(info, new_) && CountsOk(info, nTried, nNew) && EntriesOk(info)
    ensures LinksOk(h, w, addr, after, tried, c) && NewOk(w, new_) && CountsOk(w, nTried, nNew) && EntriesOk(w)
  {
    hide RandomOk, AddrOk, TriedOk, BucketsOk, RefsOk;
    MovedKeeps(h, info, w, addr, tried);
    MovedRefs(info, w, new_, -1, 0);
    forall n | n in w ensures EntryOk(w[n]) {
      assert EntryOk(info[n]);
    }
  }

  lemma MovedTwice(info: InfoMap, v: InfoMap, w: InfoMap)
    requires Moved(info, v) && Moved(v, w)
    ensures Moved(info, w)
  {
  }

  /** What entering `n` into bucket `b` changes; `dropped` made room for it, if that was needed. */
  ghost predicate Entered(info: InfoMap, w: InfoMap, buckets: NewBuckets, after: NewBuckets, n: Id, b: nat, dropped: Option<Id>)
    requires n in info && b < |buckets|
  {
    if n in buckets[b] then w == info && after == buckets && dropped == None
    else
      var counted := info[n := info[n].(nRefCount := info[n].nRefCount + 1)];
      if |buckets[b]| < NEW_BUCKET_SIZE then dropped == None && w == counted && after == buckets[b := buckets[b] + {n}]
      else
        && dropped.Some? && dropped.value in buckets[b] && LessOne(counted, w, dropped.value)
        && after == buckets[b := buckets[b] - {dropped.value} + {n}]
  }

  /** One more reference is announced before the bucket takes it. */
  lemma CountAhead(h: Hashing, info: InfoMap, w: InfoMap, addr: AddrMap, rnd: seq<Id>, tried: TriedBuckets, new_: NewBuckets,
                   nTried: int, nNew: int, n: Id, c: nat)
    requires n in info && !info[n].fInTried && w == info[n := info[n].(nRefCount := info[n].nRefCount + 1)]
    requires LinksOk(h, info, addr, rnd, tried, c) && NewOk(info, new_) && CountsOk(info, nTried, nNew)
    requires OthersOk(info, n) && EntryOk(w[n])
    ensures LinksOk(h, w, addr, rnd, tried, c) && BucketsOk(w, new_) && RefsOk(w, new_, n, 1) && CountsOk(w, nTried, nNew) && EntriesOk(w)
  {
    hide RandomOk, AddrOk, TriedOk, TriedIds, NewIds;
    Recounted(h, info, addr, rnd, tried, n, info[n].nRefCount + 1);
  }

  lemma TakesPlace(info: InfoMap, new_: NewBuckets, after: NewBuckets, b: nat, n: Id)
    requires BucketsOk(info, new_) && RefsOk(info, new_, n, 1) && b < |new_| && n in info && n !in new_[b] && |new_[b]| < NEW_BUCKET_SIZE
    requires after == new_[b := new_[b] + {n}]
    ensures NewOk(info, after)
  {
    EnterBucket(info, new_, b, n);
  }

  lemma StillThere(info: InfoMap, w: InfoMap, n: Id, m: Id)
    requires LessOne(info, w, m) && n in info && n != m
    ensures n in w
  {
  }

  lemma EnteredAlready(info: InfoMap, buckets: NewBuckets, n: Id, b: nat)
    requires n in info && b < |buckets| && n in buckets[b]
    ensures Entered(info, info, buckets, buckets, n, b, None)
  {
  }

  lemma EnteredRoom(info: InfoMap, w: InfoMap, buckets: NewBuckets, after: NewBuckets, n: Id, b: nat)
    requires n in info && b < |buckets| && n !in buckets[b] && |buckets[b]| < NEW_BUCKET_SIZE
    requires w == info[n := info[n].(nRefCount := info[n].nRefCount + 1)] && after == buckets[b := buckets[b] + {n}]
    ensures Entered(info, w, buckets, after, n, b, None)
  {
  }

  lemma EnteredFull(info: InfoMap, counted: InfoMap, w: InfoMap, buckets: NewBuckets, middle: NewBuckets, after: NewBuckets, n: Id, b: nat, gone: Id)
    requires n in info && b < |buckets| && n !in buckets[b] && |buckets[b]| == NEW_BUCKET_SIZE && gone in buckets[b]
    requires counted == info[n := info[n].(nRefCount := info[n].nRefCount + 1)] && LessOne(counted, w, gone)
    requires middle == buckets[b := buckets[b] - {gone}] && after == middle[b := middle[b] + {n}]
    ensures Entered(info, w, buckets, after, n, b, Some(gone))
    ensures n in w && |middle[b]| < NEW_BUCKET_SIZE && n !in middle[b]
  {
    hide LessOne;
    StillThere(counted, w, n, gone);
  }

  lemma CountsMore(info: InfoMap, w: InfoMap, nTried: int, nNew: int, n: Id)
    requires CountsOk(info, nTried, nNew) && TriedIds(w) == TriedIds(info) && NewIds(w) == NewIds(info) + {n} && n !in info
    ensures CountsOk(w, nTried, nNew + 1)
  {
    assert n !in NewIds(info);
  }

  /** An entry with no references is in no bucket. */
  lemma Unreferenced(info: InfoMap, new_: NewBuckets, n: Id)
    requires NewOk(info, new_) && n in info && info[n].nRefCount == 0
    ensures forall b | 0 <= b < |new_| :: n !in new_[b]
  {
    RefsZero(new_, n, |new_|);
  }

  // ---------------------------------------------------------------- news about a known address

  /** The time after which a report is worth recording. */
  function UpdateInterval(addr: Address, nNow: int): int {
    if nNow - addr.nTime < 24 * 60 * 60 then 60 * 60 else 24 * 60 * 60
  }

  /** What a report of `addr` changes in the entry that is there. */
  function Refreshed(e: AddrInfo, addr: Address, nTimePenalty: int, nNow: int): AddrInfo {
    var newer := addr.nTime != 0 && (e.nTime == 0 || e.nTime < addr.nTime - UpdateInterval(addr, nNow) - nTimePenalty);
    e.(nTime := if newer then Max(0, addr.nTime - nTimePenalty) else e.nTime, nServices := Union(e.nServices, addr.nServices))
  }

  /** Service bits offered by either report. */
  function Union(a: bv64, b: bv64): bv64 {
    a | b
  }

  function Max(a: int, b: int): int {
    if a < b then b else a
  }

  /** May this entry go into one more bucket on account of the report? */
  predicate Welcome(e: AddrInfo, addr: Address) {
    && addr.nTime != 0 && (e.nTime == 0 || addr.nTime > e.nTime)
    && !e.fInTried && e.nRefCount != NEW_BUCKETS_PER_ADDRESS
  }

  /** A report moves the time of an entry only if it has one and is newer by more than an hour, or a day when the report is older than that, and
  the penalty; and then never back. Services are added, nothing else changes. */
  lemma RefreshMeans(e: AddrInfo, addr: Address, nTimePenalty: int, nNow: int)
    ensures var r := Refreshed(e, addr, nTimePenalty, nNow);
            var wait := if addr.nTime > nNow - 86_400 then 3_600 else 86_400;
            && r == e.(nTime := r.nTime, nServices := e.nServices | addr.nServices)
            && (addr.nTime != 0 && (e.nTime == 0 || addr.nTime - e.nTime > wait + nTimePenalty) ==>
                  r.nTime == if addr.nTime >= nTimePenalty then addr.nTime - nTimePenalty else 0)
            && (addr.nTime == 0 || (e.nTime != 0 && addr.nTime - e.nTime <= wait + nTimePenalty) ==> r.nTime == e.nTime)
            && (e.nTime >= 0 ==> r.nTime >= e.nTime)
  {
  }

  /** A sound entry is welcome in one more bucket exactly when it is new, is in fewer than four, and the report is newer than what is known. */
  lemma WelcomeMeans(e: AddrInfo, addr: Address)
    requires EntryOk(e)
    ensures Welcome(e, addr) <==> !e.fInTried && e.nRefCount < 4 && addr.nTime != 0 && (e.nTime == 0 || e.nTime < addr.nTime)
  {
  }

  // ---------------------------------------------------------------- iteration in ascending order

  ghost predicate Increasing(q: seq<Id>) {
    forall i, j | 0 <= i < j < |q| :: q[i] < q[j]
  }

  ghost predicate Least(s: set<Id>, m: Id) {
    m in s && forall n | n in s :: m <= n
  }

  lemma {:induction false} LeastFrom(s: set<Id>, k: Id)
    requires k in s
    ensures exists m :: Least(s, m)
  {
    if n :| n in s && n < k {
      LeastFrom(s, n);
    } else {
      assert Least(s, k);
    }
  }

  /** The elements of a set in ascending order. */
  function Ascending(s: set<Id>): (q: seq<Id>)
    ensures Increasing(q) && |q| == |s| && forall n :: n in q <==> n in s
    decreases |s|
  {
    if s == {} then []
    else
      assert exists m :: Least(s, m) by {
        var k :| k in s;
        LeastFrom(s, k);
      }
      var m :| m in s && forall n | n in s :: m <= n;
      var rest := Ascending(s - {m});
      LeastFirst(s, m, rest);
      [m] + rest
  }

  lemma LeastFirst(s: set<Id>, m: Id, rest: seq<Id>)
    requires m in s && (forall n | n in s :: m <= n)
    requires Increasing(rest) && |rest| == |s - {m}| && forall n :: n in rest <==> n in s - {m}
    ensures Increasing([m] + rest) && |[m] + rest| == |s| && forall n :: n in [m] + rest <==> n in s
  {
    forall i | 0 <= i < |rest| ensures m < rest[i] {
      assert rest[i] in rest;
    }
  }
}

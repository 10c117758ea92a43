/** Loading any file: which entries end in which bucket, and exactly when the tables agree afterwards. A file that was written with
another number of new buckets puts each new entry into the one bucket that its address and source determine; otherwise the lists in the
file say where it goes, and it stops going anywhere once it is in four buckets. */
module AddrLoad {
  import opened Wrappers
  import opened AddrTables
  import opened AddrStore
  import opened AddrMan
  import opened AddrCheck

  // ---------------------------------------------------------------- files

  function AddrAt(s: Saved, i: nat): NetAddr
    requires i < |s.newInfos| + |s.triedInfos|
  {
    if i < |s.newInfos| then s.newInfos[i].addr else s.triedInfos[i - |s.newInfos|].addr
  }

  ghost predicate AddressesDiffer(s: Saved) {
    forall i, j | 0 <= i < j < |s.newInfos| + |s.triedInfos| :: AddrAt(s, i) != AddrAt(s, j)
  }

  /** What every file has that some address manager wrote: different addresses, a success for each tried entry, and lists without repetition. */
  ghost predicate Sound(s: Saved) {
    && s.WellFormed() && AddressesDiffer(s)
    && (forall i | 0 <= i < |s.newInfos| :: s.newInfos[i].nLastSuccess >= 0)
    && (forall i | 0 <= i < |s.triedInfos| :: s.triedInfos[i].nLastSuccess > 0)
    && (forall b | 0 <= b < |s.buckets| :: NoDup(s.buckets[b]))
  }

  function Min(a: nat, b: nat): (m: nat)
    ensures m <= a && m <= b && (m == a || m == b)
  {
    if a < b then a else b
  }

  /** How many of the first `b` lists name new entry `i`. */
  function Lists(s: Saved, i: Id, b: nat): nat
    requires b <= |s.buckets|
  {
    if b == 0 then 0 else Lists(s, i, b - 1) + if i in s.buckets[b - 1] then 1 else 0
  }

  /** Does new entry `i` end in bucket `b`? */
  predicate GetsIn(h: Hashing, s: Saved, i: Id, b: nat) {
    && i < |s.newInfos|
    && if s.OwnBuckets() then h.NewBucket(s.newInfos[i].addr, s.newInfos[i].source) == b
       else b < |s.buckets| && i in s.buckets[b] && Lists(s, i, b) < NEW_BUCKETS_PER_ADDRESS
  }

  /** In how many buckets does it end? */
  function Kept(s: Saved, i: Id): nat {
    if s.OwnBuckets() then 1 else Min(NEW_BUCKETS_PER_ADDRESS, Lists(s, i, |s.buckets|))
  }

  // ---------------------------------------------------------------- reading the entries

  ghost predicate NewEntry(s: Saved, e: AddrInfo, n: Id) {
    n < |s.newInfos| && e == FromSaved(s.newInfos[n]).(nRefCount := e.nRefCount, nRandomPos := e.nRandomPos)
  }

  ghost predicate TriedEntry(s: Saved, e: AddrInfo) {
    exists i :: 0 <= i < |s.triedInfos| && e == FromSaved(s.triedInfos[i]).(fInTried := true, nRandomPos := e.nRandomPos)
  }

  ghost predicate Known(s: Saved, a: NetAddr, k: nat)
    requires k <= |s.newInfos| + |s.triedInfos|
  {
    exists i :: 0 <= i < k && AddrAt(s, i) == a
  }

  /** The entries with ids below `c`, after `k` of those in the file have been read. */
  ghost predicate EntriesRead(s: Saved, info: InfoMap, c: nat) {
    && (forall n: Id :: n in info <==> n < c)
    && (forall n: Id | n < c && n < |s.newInfos| :: NewEntry(s, info[n], n) && info[n].nRefCount == if s.OwnBuckets() then 1 else 0)
    && (forall n: Id | |s.newInfos| <= n < c :: TriedEntry(s, info[n]))
  }

  /** New entries are in their own buckets, if they are in any. */
  ghost predicate OwnOnly(h: Hashing, s: Saved, new_: NewBuckets, k: nat) {
    && |new_| == NEW_BUCKET_COUNT
    && forall b, n: Id | 0 <= b < |new_| :: n in new_[b] <==> s.OwnBuckets() && n < k && GetsIn(h, s, n, b)
  }

  ghost predicate Reading(h: Hashing, s: Saved, t: Tables, k: nat, c: nat) {
    && k <= |s.newInfos| + |s.triedInfos| && c + t.lost == k && |t.rnd| == c && (if k <= |s.newInfos| then t.lost == 0 else c >= |s.newInfos|)
    && LinksOk(h, t.info, t.addr, t.rnd, t.tried, c) && EntriesRead(s, t.info, c)
    && (forall a | a in t.addr :: Known(s, a, k))
    && OwnOnly(h, s, t.new_, k)
  }

  lemma NothingRead(h: Hashing, s: Saved)
    ensures Reading(h, s, NoTables(), 0, 0)
  {
  }

  lemma NextUnknown(s: Saved, addr: AddrMap, k: nat)
    requires AddressesDiffer(s) && k < |s.newInfos| + |s.triedInfos| && forall a | a in addr :: Known(s, a, k)
    ensures AddrAt(s, k) !in addr
    ensures forall a | a in addr || a == AddrAt(s, k) :: Known(s, a, k + 1)
  {
    forall a | a in addr ensures Known(s, a, k + 1) && a != AddrAt(s, k) {
      var i :| 0 <= i < k && AddrAt(s, i) == a;
    }
    assert AddrAt(s, k) == AddrAt(s, k);
  }

  lemma OwnMore(h: Hashing, s: Saved, new_: NewBuckets, k: nat)
    requires k < |s.newInfos| && OwnOnly(h, s, new_, k)
    ensures var b := h.NewBucket(s.newInfos[k].addr, s.newInfos[k].source);
            OwnOnly(h, s, if s.OwnBuckets() then new_[b := new_[b] + {k}] else new_, k + 1)
  {
    hide Hashing.NewBucket;
  }

  lemma ReadNew(h: Hashing, s: Saved, t: Tables, k: nat)
    requires AddressesDiffer(s) && k < |s.newInfos| && Reading(h, s, t, k, k)
    ensures |t.new_| == NEW_BUCKET_COUNT && Reading(h, s, AddNew(h, t, k, s.newInfos[k], s.OwnBuckets()), k + 1, k + 1)
  {
    hide RandomOk, AddrOk, TriedOk, AddressesDiffer, Hashing.NewBucket, Known, OwnOnly, TriedIds, NewIds;
    var e := FromSaved(s.newInfos[k]).(nRandomPos := |t.rnd|, nRefCount := if s.OwnBuckets() then 1 else 0);
    NextUnknown(s, t.addr, k);
    AddEntry(h, t.info, t.addr, t.rnd, t.tried, k, e);
    OwnMore(h, s, t.new_, k);
    assert |t.new_| == NEW_BUCKET_COUNT by { OwnSize(h, s, t.new_, k); }
  }

  lemma OwnSize(h: Hashing, s: Saved, new_: NewBuckets, k: nat)
    requires OwnOnly(h, s, new_, k)
    ensures |new_| == NEW_BUCKET_COUNT
    ensures k >= |s.newInfos| ==> OwnOnly(h, s, new_, k + 1)
  {
  }

  lemma {:induction false} ReadAllNew(h: Hashing, s: Saved, k: nat)
    requires AddressesDiffer(s) && k <= |s.newInfos|
    ensures Reading(h, s, LoadNew(h, s, k), k, k)
  {
    hide Reading, AddressesDiffer, AddNew;
    if k == 0 {
      NothingRead(h, s);
    } else {
      ReadAllNew(h, s, k - 1);
      ReadNew(h, s, LoadNew(h, s, k - 1), k - 1);
    }
  }

  /** A tried entry with room in its bucket. */
  lemma ReadTried(h: Hashing, s: Saved, t: Tables, j: nat, c: nat)
    requires AddressesDiffer(s) && j < |s.triedInfos| && Reading(h, s, t, |s.newInfos| + j, c) && t.nIdCount == c
    ensures |t.tried| == TRIED_BUCKET_COUNT
    ensures var u := AddTried(h, t, s.triedInfos[j]); Reading(h, s, u, |s.newInfos| + j + 1, u.nIdCount)
  {
    hide RandomOk, AddrOk, TriedOk, AddressesDiffer, Hashing.TriedBucket, Hashing.NewBucket, Known, OwnOnly, TriedIds, NewIds, EntriesRead;
    var k := |s.newInfos| + j;
    var e := FromSaved(s.triedInfos[j]).(nRandomPos := |t.rnd|, fInTried := true);
    var b := h.TriedBucket(e.addr, e.port);
    TriedCounts(h, t);
    NextUnknown(s, t.addr, k);
    OwnSize(h, s, t.new_, k);
    if |t.tried[b]| < TRIED_BUCKET_SIZE {
      NewTried(h, t.info, t.addr, t.rnd, t.tried, c, e, b);
      OneTried(s, t.info, c, e, j);
    }
  }

  lemma OneTried(s: Saved, info: InfoMap, c: nat, e: AddrInfo, j: nat)
    requires EntriesRead(s, info, c) && |s.newInfos| <= c && j < |s.triedInfos|
    requires e == FromSaved(s.triedInfos[j]).(fInTried := true, nRandomPos := e.nRandomPos)
    ensures EntriesRead(s, info[c := e], c + 1)
  {
    hide NewEntry;
    assert TriedEntry(s, e);
  }

  lemma {:induction false} ReadAllTried(h: Hashing, s: Saved, j: nat)
    requires AddressesDiffer(s) && j <= |s.triedInfos|
    ensures Reading(h, s, LoadTried(h, s, j), |s.newInfos| + j, LoadTried(h, s, j).nIdCount)
  {
    hide Reading, AddressesDiffer, AddTried;
    if j == 0 {
      ReadAllNew(h, s, |s.newInfos|);
      CountSet(h, s, LoadNew(h, s, |s.newInfos|));
    } else {
      ReadAllTried(h, s, j - 1);
      var t := LoadTried(h, s, j - 1);
      ReadTried(h, s, t, j - 1, t.nIdCount);
    }
  }

  lemma CountSet(h: Hashing, s: Saved, t: Tables)
    requires Reading(h, s, t, |s.newInfos|, |s.newInfos|)
    ensures Reading(h, s, t.(nIdCount := |s.newInfos|), |s.newInfos|, |s.newInfos|)
  {
  }

  // ---------------------------------------------------------------- reading the lists

  /** The count of new entry `i` after the first `b` lists and `k` indices of the next. */
  function CountAt(s: Saved, i: Id, b: nat, k: nat): nat
    requires b <= |s.buckets| && (b < |s.buckets| ==> k <= |s.buckets[b]|)
  {
    Min(NEW_BUCKETS_PER_ADDRESS, Lists(s, i, b) + if b < |s.buckets| && i in s.buckets[b][..k] then 1 else 0)
  }

  /** And is it in bucket `c` then? */
  predicate InAt(s: Saved, i: Id, b: nat, k: nat, c: nat)
    requires b <= |s.buckets| && (b < |s.buckets| ==> k <= |s.buckets[b]|)
  {
    && c < |s.buckets| && Lists(s, i, c) < NEW_BUCKETS_PER_ADDRESS
    && if c < b then i in s.buckets[c] else c == b && i in s.buckets[b][..k]
  }

  /** The state then: nothing but counts and buckets has changed since the entries were read. */
  ghost predicate ListsRead(s: Saved, t0: Tables, t: Tables, b: nat, k: nat)
    requires b <= |s.buckets| && (b < |s.buckets| ==> k <= |s.buckets[b]|)
  {
    && t == t0.(info := t.info, new_ := t.new_) && t.info.Keys == t0.info.Keys && |t.new_| == NEW_BUCKET_COUNT
    && (forall n | n in t.info :: t.info[n] == t0.info[n].(nRefCount := if n < |s.newInfos| then CountAt(s, n, b, k) else t0.info[n].nRefCount))
    && forall c, n: Id | 0 <= c < |t.new_| :: n in t.new_[c] <==> n < |s.newInfos| && InAt(s, n, b, k, c)
  }

  lemma NoneRead(s: Saved, t: Tables)
    requires s.WellFormed() && !s.OwnBuckets() && EntriesRead(s, t.info, t.nIdCount) && t.new_ == NoTables().new_
    ensures ListsRead(s, t, t, 0, 0)
  {
    forall n | n in t.info ensures t.info[n] == t.info[n].(nRefCount := if n < |s.newInfos| then CountAt(s, n, 0, 0) else t.info[n].nRefCount) {
    }
  }

  /** Reading one index more changes the prefix for that entry only. */
  lemma PrefixGrows(list: seq<Id>, k: nat)
    requires NoDup(list) && k < |list|
    ensures forall m :: m in list[..k + 1] <==> m in list[..k] || m == list[k]
    ensures list[k] !in list[..k]
  {
    assert list[..k + 1] == list[..k] + [list[k]];
  }

  lemma TakeCount(s: Saved, b: nat, k: nat, m: Id)
    requires b < |s.buckets| && k < |s.buckets[b]| && NoDup(s.buckets[b])
    ensures var before := CountAt(s, m, b, k);
            CountAt(s, m, b, k + 1) == if m == s.buckets[b][k] && before < NEW_BUCKETS_PER_ADDRESS then before + 1 else before
  {
    hide NoDup, Lists;
    PrefixGrows(s.buckets[b], k);
  }

  lemma TakeMember(s: Saved, b: nat, k: nat, c: nat, m: Id)
    requires b < |s.buckets| && k < |s.buckets[b]| && NoDup(s.buckets[b])
    ensures InAt(s, m, b, k + 1, c) <==> InAt(s, m, b, k, c) || (c == b && m == s.buckets[b][k] && CountAt(s, m, b, k) < NEW_BUCKETS_PER_ADDRESS)
  {
    hide NoDup, Lists;
    PrefixGrows(s.buckets[b], k);
  }

  lemma TakeIndex(s: Saved, t0: Tables, t: Tables, b: nat, k: nat)
    requires s.WellFormed() && !s.OwnBuckets() && b < |s.buckets| && k < |s.buckets[b]| && NoDup(s.buckets[b]) && ListsRead(s, t0, t, b, k)
    requires s.buckets[b][k] in t.info
    ensures ListsRead(s, t0, AddRef(t, b, s.buckets[b][k]), b, k + 1)
  {
    hide NoDup, CountAt, InAt;
    var n := s.buckets[b][k];
    var u := AddRef(t, b, n);
    forall m | m in u.info
      ensures u.info[m] == t0.info[m].(nRefCount := if m < |s.newInfos| then CountAt(s, m, b, k + 1) else t0.info[m].nRefCount)
    {
      TakeCount(s, b, k, m);
    }
    forall c, m: Id | 0 <= c < |u.new_| ensures m in u.new_[c] <==> m < |s.newInfos| && InAt(s, m, b, k + 1, c) {
      TakeMember(s, b, k, c, m);
    }
  }

  lemma NextList(s: Saved, t0: Tables, t: Tables, b: nat)
    requires s.WellFormed() && !s.OwnBuckets() && b < |s.buckets| && ListsRead(s, t0, t, b, |s.buckets[b]|)
    ensures ListsRead(s, t0, t, b + 1, 0)
  {
    assert s.buckets[b][..|s.buckets[b]|] == s.buckets[b];
    forall n | n in t.info && n < |s.newInfos| ensures CountAt(s, n, b, |s.buckets[b]|) == CountAt(s, n, b + 1, 0) {
    }
    forall c, n: Id | 0 <= c < |t.new_| ensures InAt(s, n, b, |s.buckets[b]|, c) <==> InAt(s, n, b + 1, 0, c) {
    }
  }

  lemma {:induction false} ReadList(s: Saved, t0: Tables, t: Tables, b: nat, k: nat)
    requires s.WellFormed() && !s.OwnBuckets() && b < |s.buckets| && k <= |s.buckets[b]| && NoDup(s.buckets[b]) && ListsRead(s, t0, t, b, 0)
    requires forall i | 0 <= i < |s.buckets[b]| :: s.buckets[b][i] in t.info
    requires b < |t.new_|
    ensures ListsRead(s, t0, LoadBucket(t, b, s.buckets[b], k), b, k)
  {
    hide ListsRead, AddRef;
    if k > 0 {
      ReadList(s, t0, t, b, k - 1);
      TakeIndex(s, t0, LoadBucket(t, b, s.buckets[b], k - 1), b, k - 1);
    }
  }

  lemma {:induction false} ReadAllLists(h: Hashing, s: Saved, b: nat)
    requires Sound(s) && !s.OwnBuckets() && b <= |s.buckets|
    ensures ListsRead(s, LoadTried(h, s, |s.triedInfos|), LoadBuckets(h, s, b), b, 0)
  {
    hide ListsRead, LoadBucket, LoadTried, Reading;
    var t0 := LoadTried(h, s, |s.triedInfos|);
    if b == 0 {
      ReadAllTried(h, s, |s.triedInfos|);
      EmptyBuckets(h, s, t0, |s.newInfos| + |s.triedInfos|);
      NoneRead(s, t0);
    } else {
      ReadAllLists(h, s, b - 1);
      ReadList(s, t0, LoadBuckets(h, s, b - 1), b - 1, |s.buckets[b - 1]|);
      NextList(s, t0, LoadBucket(LoadBuckets(h, s, b - 1), b - 1, s.buckets[b - 1], |s.buckets[b - 1]|), b - 1);
    }
  }

  lemma EmptyBuckets(h: Hashing, s: Saved, t: Tables, k: nat)
    requires Reading(h, s, t, k, t.nIdCount) && !s.OwnBuckets()
    ensures t.new_ == NoTables().new_ && EntriesRead(s, t.info, t.nIdCount)
  {
    var none := NoTables().new_;
    forall b | 0 <= b < |t.new_| ensures t.new_[b] == none[b] {
      assert forall n: Id :: n !in t.new_[b];
    }
  }

  // ---------------------------------------------------------------- what has been loaded

  /** Entries, counts and buckets of the loaded tables. */
  ghost predicate Filled(h: Hashing, s: Saved, t: Tables) {
    && LinksOk(h, t.info, t.addr, t.rnd, t.tried, t.nIdCount) && |s.newInfos| <= t.nIdCount && t.nIdCount + t.lost == |s.newInfos| + |s.triedInfos|
    && (forall n: Id :: n in t.info <==> n < t.nIdCount)
    && (forall n: Id | n < |s.newInfos| :: NewEntry(s, t.info[n], n) && t.info[n].nRefCount == Kept(s, n))
    && (forall n: Id | |s.newInfos| <= n < t.nIdCount :: TriedEntry(s, t.info[n]))
    && |t.new_| == NEW_BUCKET_COUNT && forall b, n: Id | 0 <= b < |t.new_| :: n in t.new_[b] <==> GetsIn(h, s, n, b)
  }

  /** Counts do not matter to positions, addresses and tried buckets. */
  lemma CountsAside(h: Hashing, info: InfoMap, w: InfoMap, addr: AddrMap, rnd: seq<Id>, tried: TriedBuckets, c: nat)
    requires LinksOk(h, info, addr, rnd, tried, c) && w.Keys == info.Keys
    requires forall n | n in w :: w[n] == info[n].(nRefCount := w[n].nRefCount)
    ensures LinksOk(h, w, addr, rnd, tried, c)
  {
    assert TriedIds(w) == TriedIds(info);
    TriedSame(h, info, w, tried);
  }

  lemma LoadedTables(h: Hashing, s: Saved)
    requires Sound(s)
    ensures Filled(h, s, Loaded(h, s))
  {
    hide LinksOk, LoadTried, LoadBuckets, AddressesDiffer, Known, Lists, TriedEntry, NewEntry;
    var t0 := LoadTried(h, s, |s.triedInfos|);
    ReadAllTried(h, s, |s.triedInfos|);
    if s.OwnBuckets() {
      OwnLoaded(h, s);
    } else {
      ReadAllLists(h, s, |s.buckets|);
      Recounted(h, s, t0, Loaded(h, s));
    }
  }

  lemma OwnLoaded(h: Hashing, s: Saved)
    requires s.WellFormed() && s.OwnBuckets()
    ensures Loaded(h, s) == LoadTried(h, s, |s.triedInfos|)
  {
  }

  lemma Recounted(h: Hashing, s: Saved, t0: Tables, t: Tables)
    requires Sound(s) && !s.OwnBuckets() && Reading(h, s, t0, |s.newInfos| + |s.triedInfos|, t0.nIdCount) && ListsRead(s, t0, t, |s.buckets|, 0)
    ensures Filled(h, s, t)
  {
    hide LinksOk, AddressesDiffer, Known, Lists;
    CountsAside(h, t0.info, t.info, t0.addr, t0.rnd, t0.tried, t0.nIdCount);
    forall b, n: Id | 0 <= b < |t.new_| ensures n in t.new_[b] <==> GetsIn(h, s, n, b) {
      assert n < |s.newInfos| ==> (InAt(s, n, |s.buckets|, 0, b) <==> GetsIn(h, s, n, b));
    }
  }

  lemma {:induction false} RefsListed(h: Hashing, s: Saved, new_: NewBuckets, i: Id, c: nat)
    requires !s.OwnBuckets() && i < |s.newInfos| && |new_| == NEW_BUCKET_COUNT && c <= NEW_BUCKET_COUNT
    requires forall b | 0 <= b < |new_| :: i in new_[b] <==> GetsIn(h, s, i, b)
    ensures Refs(new_, i, c) == Min(NEW_BUCKETS_PER_ADDRESS, Lists(s, i, c))
  {
    if c > 0 {
      RefsListed(h, s, new_, i, c - 1);
    }
  }

  lemma {:induction false} RefsOwn(h: Hashing, s: Saved, new_: NewBuckets, i: Id, c: nat)
    requires s.OwnBuckets() && i < |s.newInfos| && |new_| == NEW_BUCKET_COUNT && c <= NEW_BUCKET_COUNT
    requires forall b | 0 <= b < |new_| :: i in new_[b] <==> GetsIn(h, s, i, b)
    ensures Refs(new_, i, c) == if h.NewBucket(s.newInfos[i].addr, s.newInfos[i].source) < c then 1 else 0
  {
    hide Hashing.NewBucket;
    if c > 0 {
      RefsOwn(h, s, new_, i, c - 1);
    }
  }

  lemma KindOf(h: Hashing, s: Saved, t: Tables, n: Id)
    requires Filled(h, s, t) && n in t.info
    ensures t.info[n].fInTried <==> n >= |s.newInfos|
    ensures n >= |s.newInfos| ==> t.info[n].nRefCount == 0
    ensures Sound(s) ==> t.info[n].nLastTry == 0 && t.info[n].nLastSuccess >= (if t.info[n].fInTried then 1 else 0)
  {
    hide LinksOk, AddressesDiffer;
    if n >= |s.newInfos| {
      assert TriedEntry(s, t.info[n]);
    } else {
      assert NewEntry(s, t.info[n], n);
    }
  }

  /** Reference counts are always exact, and so are the two counters. */
  lemma LoadedCounts(h: Hashing, s: Saved, t: Tables)
    requires Sound(s) && Filled(h, s, t)
    ensures RefsOk(t.info, t.new_, -1, 0) && CountsOk(t.info, s.nTried - t.lost, s.nNew)
  {
    hide LinksOk, AddressesDiffer, Hashing.NewBucket, GetsIn, NewEntry, TriedEntry, Lists, Refs;
    forall n | n in t.info ensures t.info[n].nRefCount == Refs(t.new_, n, |t.new_|) && (t.info[n].fInTried <==> n >= |s.newInfos|) {
      KindOf(h, s, t, n);
      if n >= |s.newInfos| {
        RefsZero(t.new_, n, |t.new_|);
        NoneGetsIn(h, s, n);
      } else if s.OwnBuckets() {
        RefsOwn(h, s, t.new_, n, NEW_BUCKET_COUNT);
      } else {
        RefsListed(h, s, t.new_, n, NEW_BUCKET_COUNT);
      }
    }
    IntervalSize(TriedIds(t.info), |s.newInfos|, t.nIdCount);
    IntervalSize(NewIds(t.info), 0, |s.newInfos|);
  }

  lemma NoneGetsIn(h: Hashing, s: Saved, n: Id)
    requires n >= |s.newInfos|
    ensures forall b: nat :: !GetsIn(h, s, n, b)
  {
  }

  // ---------------------------------------------------------------- when the tables agree

  ghost predicate OnList(s: Saved, i: Id) {
    exists b :: 0 <= b < |s.buckets| && i in s.buckets[b]
  }

  /** Every new entry is on some list; not asked of a file with another number of buckets. */
  ghost predicate Referenced(s: Saved) {
    s.OwnBuckets() || forall i: Id | i < |s.newInfos| :: OnList(s, i)
  }

  /** The entries that end in bucket `b`. */
  function Gets(h: Hashing, s: Saved, b: nat): set<Id> {
    set i: Id | i < |s.newInfos| && GetsIn(h, s, i, b)
  }

  /** No bucket gets more entries than it may have. */
  ghost predicate Roomy(h: Hashing, s: Saved) {
    forall b: nat | b < NEW_BUCKET_COUNT :: |Gets(h, s, b)| <= NEW_BUCKET_SIZE
  }

  lemma {:induction false} ListsZero(s: Saved, i: Id, b: nat)
    requires b <= |s.buckets|
    ensures Lists(s, i, b) == 0 <==> forall c | 0 <= c < b :: i !in s.buckets[c]
  {
    if b > 0 {
      ListsZero(s, i, b - 1);
    }
  }

  lemma KeptIsReferenced(s: Saved)
    ensures Referenced(s) <==> forall i: Id | i < |s.newInfos| :: Kept(s, i) > 0
  {
    hide Lists;
    forall i: Id | i < |s.newInfos| ensures Kept(s, i) > 0 <==> s.OwnBuckets() || OnList(s, i) {
      ListsZero(s, i, |s.buckets|);
    }
  }

  lemma LoadedEntries(h: Hashing, s: Saved, t: Tables)
    requires Sound(s) && Filled(h, s, t)
    ensures EntriesOk(t.info) <==> Referenced(s)
  {
    hide LinksOk, AddressesDiffer, GetsIn, Kept, Referenced, NewEntry, TriedEntry;
    KeptIsReferenced(s);
    forall n | n in t.info ensures EntryOk(t.info[n]) <==> n >= |s.newInfos| || Kept(s, n) > 0 {
      KindOf(h, s, t, n);
      AtMostFour(s, n);
    }
    if EntriesOk(t.info) {
      forall i: Id | i < |s.newInfos| ensures Kept(s, i) > 0 {
        assert EntryOk(t.info[i]);
      }
    }
  }

  lemma AtMostFour(s: Saved, n: Id)
    ensures 0 <= Kept(s, n) <= NEW_BUCKETS_PER_ADDRESS
  {
  }

  lemma LoadedBuckets(h: Hashing, s: Saved, t: Tables)
    requires Filled(h, s, t)
    ensures forall b | 0 <= b < |t.new_| :: t.new_[b] == Gets(h, s, b) && t.new_[b] <= t.info.Keys
    ensures BucketsOk(t.info, t.new_) <==> Roomy(h, s)
  {
    hide LinksOk, NewEntry, TriedEntry, Kept;
    forall b | 0 <= b < |t.new_| ensures t.new_[b] == Gets(h, s, b) && t.new_[b] <= t.info.Keys {
      assert forall n: Id :: n in t.new_[b] <==> GetsIn(h, s, n, b);
    }
    if BucketsOk(t.info, t.new_) {
      forall b: nat | b < NEW_BUCKET_COUNT ensures |Gets(h, s, b)| <= NEW_BUCKET_SIZE {
        assert t.new_[b] == Gets(h, s, b);
      }
    }
  }

  /** A loaded manager is consistent if and only if every new entry was on some list, unless lists did not count, and no bucket got too many. */
  lemma LoadedConsistent(h: Hashing, s: Saved)
    requires Sound(s)
    ensures var t := Loaded(h, s);
            && CountsOk(t.info, s.nTried - t.lost, s.nNew)
            && (Consistent(h, t) <==> Referenced(s) && Roomy(h, s))
  {
    hide AddressesDiffer, Referenced, Roomy, LinksOk, BucketsOk, RefsOk, EntriesOk, Loaded, CountsOk;
    var t := Loaded(h, s);
    LoadedTables(h, s);
    LoadedCounts(h, s, t);
    LoadedEntries(h, s, t);
    LoadedBuckets(h, s, t);
  }

  /** The check of the manager passes if and only if every new entry was on some list: it does not look at the sizes of buckets. */
  lemma LoadedPasses(h: Hashing, s: Saved)
    requires Sound(s)
    ensures var t := Loaded(h, s);
            Passes(t.info, t.addr, t.rnd, s.nTried - t.lost, t.tried, s.nNew, t.new_) <==> Referenced(s)
  {
    hide AddressesDiffer, Referenced, Roomy, LinksOk, BucketsOk, RefsOk, Loaded, CountsOk, TriedPasses, NewPasses;
    var t := Loaded(h, s);
    LoadedTables(h, s);
    LoadedCounts(h, s, t);
    LoadedEntries(h, s, t);
    LoadedBuckets(h, s, t);
    if Referenced(s) {
      TablesPass(h, t.info, t.addr, t.rnd, s.nTried - t.lost, t.tried, s.nNew, t.new_, t.nIdCount);
    }
    if Passes(t.info, t.addr, t.rnd, s.nTried - t.lost, t.tried, s.nNew, t.new_) {
      forall n | n in t.info ensures EntryOk(t.info[n]) {
        assert EntryPasses(t.info, t.addr, t.rnd, n);
      }
    }
  }

  lemma SavedEntry(o: Tables, s: Saved, newIds: seq<Id>, triedIds: seq<Id>, i: nat)
    requires SavedAs(o, s, newIds, triedIds) && EntriesOk(o.info) && i < |newIds| + |triedIds|
    ensures |newIds| == |s.newInfos| && |triedIds| == |s.triedInfos|
    ensures var n := Original(newIds, triedIds, i);
            && n in o.info && AddrAt(s, i) == o.info[n].addr
            && (if i < |s.newInfos| then s.newInfos[i].nLastSuccess >= 0 else s.triedInfos[i - |s.newInfos|].nLastSuccess > 0)
  {
    OriginalKind(o.info, newIds, triedIds, i);
    assert EntryOk(o.info[Original(newIds, triedIds, i)]);
  }

  /** What a consistent manager saves is such a file. */
  lemma SavedIsSound(h: Hashing, o: Tables, s: Saved, newIds: seq<Id>, triedIds: seq<Id>)
    requires Consistent(h, o) && SavedAs(o, s, newIds, triedIds)
    ensures Sound(s)
  {
    hide Original, EntriesOk, TriedOk, RandomOk, NewOk;
    forall i | 0 <= i < |s.newInfos| + |s.triedInfos| ensures i < |s.newInfos| ==> s.newInfos[i].nLastSuccess >= 0 {
      SavedEntry(o, s, newIds, triedIds, i);
    }
    forall j | 0 <= j < |s.triedInfos| ensures s.triedInfos[j].nLastSuccess > 0 {
      SavedEntry(o, s, newIds, triedIds, |s.newInfos| + j);
    }
    forall i, j | 0 <= i < j < |s.newInfos| + |s.triedInfos| ensures AddrAt(s, i) != AddrAt(s, j) {
      SavedEntry(o, s, newIds, triedIds, i);
      SavedEntry(o, s, newIds, triedIds, j);
      OriginalsDiffer(o.info, newIds, triedIds, i, j);
    }
    forall b | 0 <= b < |s.buckets| ensures NoDup(s.buckets[b]) {
      assert BucketAs(o.new_[b], s.buckets[b], newIds);
    }
  }
}

/** The file form of the address manager: what saving writes, what loading builds from it, and why
the one undoes the other up to a renumbering of the ids. */
module AddrStore {
  import opened Wrappers
  import opened AddrTables

  datatype SavedInfo = SavedInfo(addr: NetAddr, port: nat, nServices: bv64, nTime: int, source: NetAddr, nLastSuccess: int, nAttempts: int)

  /** The values in the file, in order; the number of buckets is the length of `buckets`. */
  datatype Saved = Saved(nKey: seq<nat>, nNew: int, nTried: int, newInfos: seq<SavedInfo>, triedInfos: seq<SavedInfo>, buckets: seq<seq<Id>>)
  {
    /** Was it written with another number of new buckets than there are now? */
    predicate OwnBuckets() {
      |buckets| != NEW_BUCKET_COUNT
    }

    /** Counts match, and buckets refer to new entries. */
    ghost predicate WellFormed() {
      && nNew == |newInfos| && nTried == |triedInfos|
      && forall b, i | 0 <= b < |buckets| && 0 <= i < |buckets[b]| :: buckets[b][i] < |newInfos|
    }
  }

  function ToSaved(e: AddrInfo): SavedInfo {
    SavedInfo(e.addr, e.port, e.nServices, e.nTime, e.source, e.nLastSuccess, e.nAttempts)
  }

  /** What is not in the file starts afresh. */
  function FromSaved(e: SavedInfo): AddrInfo {
    AddrInfo(e.addr, e.port, e.nServices, e.nTime, e.source, e.nLastSuccess, 0, e.nAttempts, 0, false, -1)
  }

  lemma Afresh(e: SavedInfo)
    ensures FromSaved(e).nRefCount == 0 && !FromSaved(e).fInTried
  {
  }

  datatype Tables = Tables(nIdCount: nat, info: InfoMap, addr: AddrMap, rnd: seq<Id>, tried: TriedBuckets, new_: NewBuckets, lost: nat)

  function NoTables(): Tables {
    Tables(0, map[], map[], [], seq(TRIED_BUCKET_COUNT, _ => []), seq(NEW_BUCKET_COUNT, _ => {}), 0)
  }

  // ---------------------------------------------------------------- loading

  /** A new entry is in no bucket yet, or, with `own`, in the one that its address and source determine. */
  function AddNew(h: Hashing, t: Tables, n: Id, s: SavedInfo, own: bool): Tables
    requires |t.new_| == NEW_BUCKET_COUNT
  {
    var e := FromSaved(s).(nRandomPos := |t.rnd|, nRefCount := if own then 1 else 0);
    var b := h.NewBucket(e.addr, e.source);
    t.(info := t.info[n := e], addr := t.addr[e.addr := n], rnd := t.rnd + [n], new_ := if own then t.new_[b := t.new_[b] + {n}] else t.new_)
  }

  function LoadNew(h: Hashing, s: Saved, k: nat): (t: Tables)
    requires k <= |s.newInfos|
    ensures |t.tried| == TRIED_BUCKET_COUNT && |t.new_| == NEW_BUCKET_COUNT
  {
    if k == 0 then NoTables() else AddNew(h, LoadNew(h, s, k - 1), k - 1, s.newInfos[k - 1], s.OwnBuckets())
  }

  /** A tried entry takes the next id if its bucket has room, and is lost otherwise. */
  function AddTried(h: Hashing, t: Tables, s: SavedInfo): Tables
    requires |t.tried| == TRIED_BUCKET_COUNT
  {
    var e := FromSaved(s).(nRandomPos := |t.rnd|, fInTried := true);
    var b := h.TriedBucket(e.addr, e.port);
    var n := t.nIdCount;
    if |t.tried[b]| < TRIED_BUCKET_SIZE then
      t.(nIdCount := n + 1, info := t.info[n := e], addr := t.addr[e.addr := n], rnd := t.rnd + [n], tried := t.tried[b := t.tried[b] + [n]])
    else t.(lost := t.lost + 1)
  }

  function LoadTried(h: Hashing, s: Saved, k: nat): (t: Tables)
    requires k <= |s.triedInfos|
    ensures |t.tried| == TRIED_BUCKET_COUNT && |t.new_| == NEW_BUCKET_COUNT
  {
    if k == 0 then LoadNew(h, s, |s.newInfos|).(nIdCount := |s.newInfos|)
    else AddTried(h, LoadTried(h, s, k - 1), s.triedInfos[k - 1])
  }

  /** A bucket takes an entry that is not yet in too many of them. */
  function AddRef(t: Tables, b: nat, n: Id): (r: Tables)
    requires b < |t.new_| && n in t.info
    ensures r.info.Keys == t.info.Keys && |r.new_| == |t.new_| && r.lost == t.lost
  {
    if t.info[n].nRefCount < NEW_BUCKETS_PER_ADDRESS then
      t.(info := t.info[n := t.info[n].(nRefCount := t.info[n].nRefCount + 1)], new_ := t.new_[b := t.new_[b] + {n}])
    else t
  }

  function LoadBucket(t: Tables, b: nat, indices: seq<Id>, k: nat): (r: Tables)
    requires b < |t.new_| && k <= |indices| && forall i | 0 <= i < |indices| :: indices[i] in t.info
    ensures r.info.Keys == t.info.Keys && |r.new_| == |t.new_| && r.lost == t.lost
  {
    if k == 0 then t else AddRef(LoadBucket(t, b, indices, k - 1), b, indices[k - 1])
  }

  lemma TakeRef(t: Tables, b: nat, n: Id)
    requires b < |t.new_| && n in t.info
    ensures AddRef(t, b, n) == if t.info[n].nRefCount < NEW_BUCKETS_PER_ADDRESS then
                                 t.(info := t.info[n := t.info[n].(nRefCount := t.info[n].nRefCount + 1)], new_ := t.new_[b := t.new_[b] + {n}])
                               else t
  {
  }

  lemma {:induction false} LoadNewKeys(h: Hashing, s: Saved, k: nat)
    requires k <= |s.newInfos|
    ensures forall i: Id | i < k :: i in LoadNew(h, s, k).info
  {
    if k > 0 {
      LoadNewKeys(h, s, k - 1);
    }
  }

  lemma {:induction false} LoadTriedKeys(h: Hashing, s: Saved, k: nat)
    requires k <= |s.triedInfos|
    ensures forall i: Id | i < |s.newInfos| :: i in LoadTried(h, s, k).info
  {
    if k == 0 {
      LoadNewKeys(h, s, |s.newInfos|);
    } else {
      LoadTriedKeys(h, s, k - 1);
    }
  }

  /** The buckets of the file count only if there are as many as there are now. */
  function LoadBuckets(h: Hashing, s: Saved, b: nat): (t: Tables)
    requires s.WellFormed() && b <= |s.buckets|
    ensures |t.new_| == NEW_BUCKET_COUNT && t.lost == LoadTried(h, s, |s.triedInfos|).lost && forall i: Id | i < |s.newInfos| :: i in t.info
  {
    if b == 0 || s.OwnBuckets() then LoadTriedKeys(h, s, |s.triedInfos|); LoadTried(h, s, |s.triedInfos|)
    else LoadBucket(LoadBuckets(h, s, b - 1), b - 1, s.buckets[b - 1], |s.buckets[b - 1]|)
  }

  /** What loading builds. */
  function Loaded(h: Hashing, s: Saved): Tables
    requires s.WellFormed()
  {
    LoadBuckets(h, s, |s.buckets|)
  }

  lemma LoadSteps(h: Hashing, s: Saved)
    requires s.WellFormed()
    ensures LoadTried(h, s, 0) == LoadNew(h, s, |s.newInfos|).(nIdCount := |s.newInfos|)
    ensures LoadBuckets(h, s, 0) == LoadTried(h, s, |s.triedInfos|)
  {
  }

  // ---------------------------------------------------------------- what saving writes

  /** The tables a file is saved from. */
  ghost predicate Consistent(h: Hashing, t: Tables) {
    && LinksOk(h, t.info, t.addr, t.rnd, t.tried, t.nIdCount)
    && NewOk(t.info, t.new_) && EntriesOk(t.info)
  }

  /** The two lists name the new and the tried ids, each once. */
  ghost predicate IdLists(info: InfoMap, newIds: seq<Id>, triedIds: seq<Id>) {
    && NoDup(newIds) && (forall n :: n in newIds <==> n in NewIds(info))
    && NoDup(triedIds) && (forall n :: n in triedIds <==> n in TriedIds(info))
  }

  /** `s` lists the new entries in the order `newIds`, the tried ones in the order `triedIds`, and new
  buckets by position in `newIds`. */
  ghost predicate SavedAs(o: Tables, s: Saved, newIds: seq<Id>, triedIds: seq<Id>) {
    && s.WellFormed() && !s.OwnBuckets() && |newIds| == |s.newInfos| && |triedIds| == |s.triedInfos| && |o.new_| == NEW_BUCKET_COUNT
    && IdLists(o.info, newIds, triedIds)
    && (forall i | 0 <= i < |newIds| :: newIds[i] in o.info && s.newInfos[i] == ToSaved(o.info[newIds[i]]))
    && (forall i | 0 <= i < |triedIds| :: triedIds[i] in o.info && s.triedInfos[i] == ToSaved(o.info[triedIds[i]]))
    && (forall b | 0 <= b < NEW_BUCKET_COUNT :: BucketAs(o.new_[b], s.buckets[b], newIds))
  }

  ghost predicate BucketAs(bucket: set<Id>, indices: seq<Id>, newIds: seq<Id>) {
    && NoDup(indices) && |indices| == |bucket|
    && (forall i: Id :: i in indices <==> i < |newIds| && newIds[i] in bucket)
  }

  // ---------------------------------------------------------------- the entries

  /** The id that id `i` of the loaded tables stands for. */
  function Original(newIds: seq<Id>, triedIds: seq<Id>, i: Id): Id
    requires i < |newIds| + |triedIds|
  {
    if i < |newIds| then newIds[i] else triedIds[i - |newIds|]
  }

  /** Ids below `c` carry what was saved for the ids they stand for. */
  ghost predicate EntriesFrom(o: Tables, t: Tables, newIds: seq<Id>, triedIds: seq<Id>, c: nat) {
    && c <= |newIds| + |triedIds|
    && (forall i: Id :: i in t.info <==> i < c)
    && forall i: Id | i < c ::
         var n := Original(newIds, triedIds, i);
         && n in o.info
         && t.info[i] == FromSaved(ToSaved(o.info[n])).(fInTried := o.info[n].fInTried, nRefCount := t.info[i].nRefCount, nRandomPos := t.info[i].nRandomPos)
  }

  lemma OriginalKind(info: InfoMap, newIds: seq<Id>, triedIds: seq<Id>, i: Id)
    requires IdLists(info, newIds, triedIds) && i < |newIds| + |triedIds|
    ensures var n := Original(newIds, triedIds, i); n in info && (info[n].fInTried <==> i >= |newIds|)
  {
    var n := Original(newIds, triedIds, i);
    assert if i < |newIds| then n in newIds else n in triedIds;
  }

  lemma OriginalsDiffer(info: InfoMap, newIds: seq<Id>, triedIds: seq<Id>, i: Id, j: Id)
    requires IdLists(info, newIds, triedIds) && i < j < |newIds| + |triedIds|
    ensures Original(newIds, triedIds, i) != Original(newIds, triedIds, j)
  {
    OriginalKind(info, newIds, triedIds, i);
    OriginalKind(info, newIds, triedIds, j);
  }

  lemma EveryOriginal(info: InfoMap, newIds: seq<Id>, triedIds: seq<Id>, n: Id) returns (i: Id)
    requires IdLists(info, newIds, triedIds) && n in info
    ensures i < |newIds| + |triedIds| && Original(newIds, triedIds, i) == n
  {
    if info[n].fInTried {
      assert n in TriedIds(info);
      assert n in triedIds;
      var k :| 0 <= k < |triedIds| && triedIds[k] == n;
      i := |newIds| + k;
    } else {
      assert n in NewIds(info);
      assert n in newIds;
      i :| 0 <= i < |newIds| && newIds[i] == n;
    }
  }

  /** Different ids stand for different addresses. */
  lemma FreshAddress(h: Hashing, o: Tables, t: Tables, newIds: seq<Id>, triedIds: seq<Id>, c: nat)
    requires AddrOk(o.info, o.addr) && EntriesFrom(o, t, newIds, triedIds, c) && c < |newIds| + |triedIds|
    requires IdLists(o.info, newIds, triedIds) && AddrOk(t.info, t.addr)
    ensures Original(newIds, triedIds, c) in o.info && o.info[Original(newIds, triedIds, c)].addr !in t.addr
  {
    hide IdLists;
    OriginalKind(o.info, newIds, triedIds, c);
    forall i: Id | i < c ensures t.info[i].addr != o.info[Original(newIds, triedIds, c)].addr {
      OriginalKind(o.info, newIds, triedIds, i);
      OriginalsDiffer(o.info, newIds, triedIds, i, c);
    }
  }

  // ---------------------------------------------------------------- loading new and tried entries

  /** The state of loading once the entries below `c` are in and no bucket of new ids yet is. */
  ghost predicate HalfLoaded(h: Hashing, o: Tables, t: Tables, newIds: seq<Id>, triedIds: seq<Id>, c: nat) {
    && LinksOk(h, t.info, t.addr, t.rnd, t.tried, c) && EntriesFrom(o, t, newIds, triedIds, c) && |t.rnd| == c
    && t.new_ == NoTables().new_ && t.lost == 0
    && forall i | i in t.info :: t.info[i].nRefCount == 0
  }

  lemma Nothing(h: Hashing, o: Tables, newIds: seq<Id>, triedIds: seq<Id>)
    ensures HalfLoaded(h, o, NoTables(), newIds, triedIds, 0)
  {
  }

  lemma AddNewKeeps(h: Hashing, o: Tables, s: Saved, t: Tables, newIds: seq<Id>, triedIds: seq<Id>, c: nat)
    requires AddrOk(o.info, o.addr) && SavedAs(o, s, newIds, triedIds) && HalfLoaded(h, o, t, newIds, triedIds, c) && c < |newIds|
    ensures HalfLoaded(h, o, AddNew(h, t, c, s.newInfos[c], false), newIds, triedIds, c + 1)
  {
    hide RandomOk, AddrOk, TriedOk, IdLists, BucketAs, Saved.WellFormed;
    FreshAddress(h, o, t, newIds, triedIds, c);
    OriginalKind(o.info, newIds, triedIds, c);
    var e := FromSaved(s.newInfos[c]).(nRandomPos := |t.rnd|);
    AddEntry(h, t.info, t.addr, t.rnd, t.tried, c, e);
  }

  lemma {:induction false} LoadNewKeeps(h: Hashing, o: Tables, s: Saved, newIds: seq<Id>, triedIds: seq<Id>, k: nat)
    requires AddrOk(o.info, o.addr) && SavedAs(o, s, newIds, triedIds) && k <= |newIds| == |s.newInfos|
    ensures HalfLoaded(h, o, LoadNew(h, s, k), newIds, triedIds, k)
  {
    hide HalfLoaded, AddrOk, SavedAs;
    if k == 0 {
      Nothing(h, o, newIds, triedIds);
    } else {
      SavedLengths(o, s, newIds, triedIds);
      LoadNewKeeps(h, o, s, newIds, triedIds, k - 1);
      AddNewKeeps(h, o, s, LoadNew(h, s, k - 1), newIds, triedIds, k - 1);
    }
  }

  lemma SavedLengths(o: Tables, s: Saved, newIds: seq<Id>, triedIds: seq<Id>)
    requires SavedAs(o, s, newIds, triedIds)
    ensures |newIds| == |s.newInfos| && |triedIds| == |s.triedInfos| && s.WellFormed() && !s.OwnBuckets()
  {
  }

  // ---------------------------------------------------------------- nothing is lost

  lemma {:induction false} Injects(a: seq<Id>, c: seq<Id>)
    requires NoDup(a) && forall i | 0 <= i < |a| :: a[i] in c
    ensures |a| <= |c|
  {
    if a != [] {
      var last := a[|a| - 1];
      var j :| 0 <= j < |c| && c[j] == last;
      var rest := a[..|a| - 1];
      var c' := c[..j] + c[j + 1..];
      forall i | 0 <= i < |rest| ensures rest[i] in c' {
        var k :| 0 <= k < |c| && c[k] == a[i];
        assert k != j;
        assert c'[if k < j then k else k - 1] == a[i];
      }
      Injects(rest, c');
    }
  }

  /** What is in a loaded tried bucket stands for something in the same bucket of the original. */
  lemma TriedFrom(h: Hashing, o: Tables, t: Tables, newIds: seq<Id>, triedIds: seq<Id>, c: nat, b: nat, i: nat)
    requires TriedOk(h, o.info, o.tried) && TriedOk(h, t.info, t.tried) && EntriesFrom(o, t, newIds, triedIds, c)
    requires b < |t.tried| && i < |t.tried[b]|
    ensures t.tried[b][i] < c && Original(newIds, triedIds, t.tried[b][i]) in o.tried[b]
  {
    hide Original;
    assert TriedHere(h, t.info, t.tried[b][i], b);
  }

  lemma RoomInTried(h: Hashing, o: Tables, t: Tables, newIds: seq<Id>, triedIds: seq<Id>, c: nat, b: nat)
    requires TriedOk(h, o.info, o.tried) && TriedOk(h, t.info, t.tried) && EntriesFrom(o, t, newIds, triedIds, c)
    requires IdLists(o.info, newIds, triedIds) && |newIds| <= c < |newIds| + |triedIds|
    requires var n := Original(newIds, triedIds, c); n in o.info && b == h.TriedBucket(o.info[n].addr, o.info[n].port)
    ensures |t.tried[b]| < TRIED_BUCKET_SIZE
  {
    var n := Original(newIds, triedIds, c);
    OriginalKind(o.info, newIds, triedIds, c);
    assert n in o.tried[b] && |o.tried[b]| <= TRIED_BUCKET_SIZE;
    forall i | 0 <= i < |t.tried[b]| ensures t.tried[b][i] < c && Original(newIds, triedIds, t.tried[b][i]) in o.tried[b] {
      TriedFrom(h, o, t, newIds, triedIds, c, b, i);
    }
    var a := seq(|t.tried[b]|, i requires 0 <= i < |t.tried[b]| => Original(newIds, triedIds, t.tried[b][i])) + [n];
    assert NoDup(t.tried[b]);
    DifferFrom(o, t.tried[b], newIds, triedIds, c, a);
    Injects(a, o.tried[b]);
  }

  lemma DifferFrom(o: Tables, s: seq<Id>, newIds: seq<Id>, triedIds: seq<Id>, c: nat, a: seq<Id>)
    requires IdLists(o.info, newIds, triedIds) && c < |newIds| + |triedIds| && NoDup(s)
    requires |a| == |s| + 1 && a[|s|] == Original(newIds, triedIds, c)
    requires forall i | 0 <= i < |s| :: s[i] < c && a[i] == Original(newIds, triedIds, s[i])
    ensures NoDup(a)
  {
    hide IdLists, Original;
    forall i, j | 0 <= i < j < |a| ensures a[i] != a[j] {
      var x, y := s[i], if j == |s| then c else s[j];
      if x < y {
        OriginalsDiffer(o.info, newIds, triedIds, x, y);
      } else {
        OriginalsDiffer(o.info, newIds, triedIds, y, x);
      }
    }
  }

  /** An unknown tried entry takes the next id. */
  lemma NewTried(h: Hashing, info: InfoMap, addr: AddrMap, rnd: seq<Id>, tried: TriedBuckets, c: nat, e: AddrInfo, b: nat)
    requires LinksOk(h, info, addr, rnd, tried, c) && |rnd| == c
    requires e.addr !in addr && e.nRandomPos == c && e.fInTried && b == h.TriedBucket(e.addr, e.port) && |tried[b]| < TRIED_BUCKET_SIZE
    ensures LinksOk(h, info[c := e], addr[e.addr := c], rnd + [c], tried[b := tried[b] + [c]], c + 1)
  {
    hide RandomOk, AddrOk, TriedOk, Hashing.TriedBucket, TriedIds, NewIds;
    var f := e.(fInTried := false);
    AddEntry(h, info, addr, rnd, tried, c, f);
    var w := info[c := f];
    EnterTried(h, w, tried, c);
    assert w[c := w[c].(fInTried := true)] == info[c := e];
    FlagsKeep(w, info[c := e], addr[e.addr := c], rnd + [c]);
  }

  lemma OneMoreEntry(o: Tables, t: Tables, u: Tables, newIds: seq<Id>, triedIds: seq<Id>, c: nat, e: AddrInfo)
    requires EntriesFrom(o, t, newIds, triedIds, c) && c < |newIds| + |triedIds| && u.info == t.info[c := e]
    requires var n := Original(newIds, triedIds, c);
             n in o.info && e == FromSaved(ToSaved(o.info[n])).(fInTried := o.info[n].fInTried, nRandomPos := e.nRandomPos)
    requires forall i | i in t.info :: t.info[i].nRefCount == 0
    ensures EntriesFrom(o, u, newIds, triedIds, c + 1)
    ensures forall i | i in u.info :: u.info[i].nRefCount == 0
  {
    hide Original;
  }

  lemma TriedCounts(h: Hashing, t: Tables)
    requires TriedOk(h, t.info, t.tried)
    ensures |t.tried| == TRIED_BUCKET_COUNT
  {
  }

  lemma SavedTried(o: Tables, s: Saved, newIds: seq<Id>, triedIds: seq<Id>, j: nat)
    requires SavedAs(o, s, newIds, triedIds) && j < |triedIds|
    ensures IdLists(o.info, newIds, triedIds) && triedIds[j] in o.info && j < |s.triedInfos| && s.triedInfos[j] == ToSaved(o.info[triedIds[j]])
    ensures o.info[triedIds[j]].fInTried && Original(newIds, triedIds, |newIds| + j) == triedIds[j]
  {
    OriginalKind(o.info, newIds, triedIds, |newIds| + j);
  }

  lemma AddTriedKeeps(h: Hashing, o: Tables, s: Saved, t: Tables, newIds: seq<Id>, triedIds: seq<Id>, j: nat)
    requires AddrOk(o.info, o.addr) && TriedOk(h, o.info, o.tried) && SavedAs(o, s, newIds, triedIds)
    requires j < |triedIds| == |s.triedInfos| && t.nIdCount == |newIds| + j && HalfLoaded(h, o, t, newIds, triedIds, |newIds| + j)
    ensures |t.tried| == TRIED_BUCKET_COUNT
    ensures var u := AddTried(h, t, s.triedInfos[j]);
            u.nIdCount == |newIds| + j + 1 && HalfLoaded(h, o, u, newIds, triedIds, |newIds| + j + 1)
  {
    hide RandomOk, AddrOk, TriedOk, SavedAs, EntriesFrom, IdLists, Original, Hashing.TriedBucket;
    var c := |newIds| + j;
    TriedCounts(h, t);
    SavedTried(o, s, newIds, triedIds, j);
    FreshAddress(h, o, t, newIds, triedIds, c);
    var e := FromSaved(s.triedInfos[j]).(nRandomPos := |t.rnd|, fInTried := true);
    var b := h.TriedBucket(e.addr, e.port);
    RoomInTried(h, o, t, newIds, triedIds, c, b);
    NewTried(h, t.info, t.addr, t.rnd, t.tried, c, e, b);
    OneMoreEntry(o, t, AddTried(h, t, s.triedInfos[j]), newIds, triedIds, c, e);
  }

  lemma {:induction false} LoadTriedKeeps(h: Hashing, o: Tables, s: Saved, newIds: seq<Id>, triedIds: seq<Id>, k: nat)
    requires AddrOk(o.info, o.addr) && TriedOk(h, o.info, o.tried) && SavedAs(o, s, newIds, triedIds)
    requires k <= |triedIds| == |s.triedInfos|
    ensures LoadTried(h, s, k).nIdCount == |newIds| + k && HalfLoaded(h, o, LoadTried(h, s, k), newIds, triedIds, |newIds| + k)
  {
    hide AddrOk, SavedAs, TriedOk, LinksOk, EntriesFrom, LoadNew, AddTried;
    SavedLengths(o, s, newIds, triedIds);
    if k == 0 {
      LoadNewKeeps(h, o, s, newIds, triedIds, |newIds|);
      var t := LoadNew(h, s, |newIds|);
      CountAside(h, o, t, newIds, triedIds, |newIds|);
    } else {
      LoadTriedKeeps(h, o, s, newIds, triedIds, k - 1);
      AddTriedKeeps(h, o, s, LoadTried(h, s, k - 1), newIds, triedIds, k - 1);
    }
  }

  lemma CountAside(h: Hashing, o: Tables, t: Tables, newIds: seq<Id>, triedIds: seq<Id>, c: nat)
    requires HalfLoaded(h, o, t, newIds, triedIds, c)
    ensures HalfLoaded(h, o, t.(nIdCount := c), newIds, triedIds, c)
  {
  }

  // ---------------------------------------------------------------- loading the buckets

  /** What has been read of bucket `c` once `k` indices of bucket `b` have been. */
  function Read(s: Saved, b: nat, k: nat, c: nat): seq<Id>
    requires c < |s.buckets| && (b < |s.buckets| ==> k <= |s.buckets[b]|)
  {
    if c < b then s.buckets[c] else if c == b then s.buckets[b][..k] else []
  }

  /** The state of loading at that point. */
  ghost predicate Filling(h: Hashing, o: Tables, s: Saved, t: Tables, newIds: seq<Id>, triedIds: seq<Id>, b: nat, k: nat) {
    && LinksOk(h, t.info, t.addr, t.rnd, t.tried, |newIds| + |triedIds|) && EntriesFrom(o, t, newIds, triedIds, |newIds| + |triedIds|)
    && t.nIdCount == |newIds| + |triedIds| && t.lost == 0
    && NewOk(t.info, t.new_) && Holding(s, t.new_, b, k)
  }

  ghost predicate Holding(s: Saved, new_: NewBuckets, b: nat, k: nat) {
    && |s.buckets| == |new_| && (b < |s.buckets| ==> k <= |s.buckets[b]|)
    && (forall c | 0 <= c < |new_| :: |new_[c]| == |Read(s, b, k, c)|)
    && (forall c, i: Id | 0 <= c < |new_| :: i in new_[c] <==> i in Read(s, b, k, c))
  }

  lemma {:induction false} RefsBelow(a: NewBuckets, c: NewBuckets, n: Id, m: Id, k: nat)
    requires k <= |a| && k <= |c| && forall b | 0 <= b < k && n in a[b] :: m in c[b]
    ensures Refs(a, n, k) <= Refs(c, m, k)
    ensures (exists b :: 0 <= b < k && n !in a[b] && m in c[b]) ==> Refs(a, n, k) < Refs(c, m, k)
    ensures (forall b | 0 <= b < k && m in c[b] :: n in a[b]) ==> Refs(a, n, k) == Refs(c, m, k)
  {
    if k > 0 {
      RefsBelow(a, c, n, m, k - 1);
    }
  }

  /** What a bucket holds so far stands for things the original bucket holds. */
  lemma HeldFrom(o: Tables, s: Saved, new_: NewBuckets, newIds: seq<Id>, triedIds: seq<Id>, b: nat, k: nat, c: nat, i: Id)
    requires SavedAs(o, s, newIds, triedIds) && Holding(s, new_, b, k) && c < |new_| && i in new_[c]
    ensures i < |newIds| && newIds[i] in o.new_[c]
  {
    assert i in Read(s, b, k, c);
    assert i in s.buckets[c];
    assert BucketAs(o.new_[c], s.buckets[c], newIds);
  }

  /** The next index to read is a new entry, not in the bucket yet, and not in too many others. */
  lemma NextIndex(o: Tables, s: Saved, t: Tables, newIds: seq<Id>, triedIds: seq<Id>, b: nat, k: nat)
    requires NewOk(o.info, o.new_) && EntriesOk(o.info) && SavedAs(o, s, newIds, triedIds)
    requires NewOk(t.info, t.new_) && Holding(s, t.new_, b, k) && b < |s.buckets| && k < |s.buckets[b]|
    requires forall i: Id | i < |newIds| :: i in t.info
    ensures var n := s.buckets[b][k];
            && n < |newIds| && n !in t.new_[b] && |t.new_[b]| < NEW_BUCKET_SIZE && t.info[n].nRefCount < NEW_BUCKETS_PER_ADDRESS
  {
    hide IdLists, Saved.WellFormed;
    var n := s.buckets[b][k];
    assert BucketAs(o.new_[b], s.buckets[b], newIds);
    assert n in s.buckets[b];
    var m := newIds[n];
    NotReadYet(s, b, k);
    forall c | 0 <= c < |t.new_| && n in t.new_[c] ensures m in o.new_[c] {
      HeldFrom(o, s, t.new_, newIds, triedIds, b, k, c, n);
    }
    RefsBelow(t.new_, o.new_, n, m, NEW_BUCKET_COUNT);
    RefsZero(o.new_, m, NEW_BUCKET_COUNT);
    assert EntryOk(o.info[m]);
  }

  lemma NotReadYet(s: Saved, b: nat, k: nat)
    requires b < |s.buckets| && k < |s.buckets[b]| && NoDup(s.buckets[b])
    ensures s.buckets[b][k] !in Read(s, b, k, b)
  {
  }

  lemma HoldMore(s: Saved, new_: NewBuckets, b: nat, k: nat)
    requires Holding(s, new_, b, k) && b < |s.buckets| && k < |s.buckets[b]| && s.buckets[b][k] !in new_[b]
    ensures Holding(s, new_[b := new_[b] + {s.buckets[b][k]}], b, k + 1)
  {
    var after := new_[b := new_[b] + {s.buckets[b][k]}];
    assert Read(s, b, k + 1, b) == Read(s, b, k, b) + [s.buckets[b][k]];
    forall c | 0 <= c < |new_| ensures |after[c]| == |Read(s, b, k + 1, c)| && forall i: Id :: i in after[c] <==> i in Read(s, b, k + 1, c) {
      assert c != b ==> Read(s, b, k + 1, c) == Read(s, b, k, c);
    }
  }

  lemma HoldNext(s: Saved, new_: NewBuckets, b: nat)
    requires b < |s.buckets| && Holding(s, new_, b, |s.buckets[b]|)
    ensures Holding(s, new_, b + 1, 0)
  {
    forall c | 0 <= c < |new_| ensures Read(s, b + 1, 0, c) == Read(s, b, |s.buckets[b]|, c) {
    }
  }

  lemma CountedIn(h: Hashing, info: InfoMap, addr: AddrMap, rnd: seq<Id>, tried: TriedBuckets, new_: NewBuckets, b: nat, n: Id, c: nat)
    requires LinksOk(h, info, addr, rnd, tried, c) && NewOk(info, new_)
    requires n in info && b < |new_| && n !in new_[b] && |new_[b]| < NEW_BUCKET_SIZE
    ensures var w := info[n := info[n].(nRefCount := info[n].nRefCount + 1)];
            LinksOk(h, w, addr, rnd, tried, c) && NewOk(w, new_[b := new_[b] + {n}])
  {
    hide RandomOk, AddrOk, TriedOk, TriedIds, NewIds, Refs;
    Recounted(h, info, addr, rnd, tried, n, info[n].nRefCount + 1);
    EnterBucket(info[n := info[n].(nRefCount := info[n].nRefCount + 1)], new_, b, n);
  }

  lemma EntriesRecounted(o: Tables, t: Tables, u: Tables, newIds: seq<Id>, triedIds: seq<Id>, c: nat, n: Id, x: int)
    requires EntriesFrom(o, t, newIds, triedIds, c) && n in t.info && u.info == t.info[n := t.info[n].(nRefCount := x)]
    ensures EntriesFrom(o, u, newIds, triedIds, c)
  {
    hide Original;
  }

  lemma AddRefKeeps(h: Hashing, o: Tables, s: Saved, t: Tables, newIds: seq<Id>, triedIds: seq<Id>, b: nat, k: nat)
    requires NewOk(o.info, o.new_) && EntriesOk(o.info) && SavedAs(o, s, newIds, triedIds)
    requires Filling(h, o, s, t, newIds, triedIds, b, k) && b < |s.buckets| && k < |s.buckets[b]|
    ensures s.buckets[b][k] in t.info && b < |t.new_| && Filling(h, o, s, AddRef(t, b, s.buckets[b][k]), newIds, triedIds, b, k + 1)
  {
    hide LinksOk, EntriesFrom, NewOk, Holding, SavedAs;
    var n := s.buckets[b][k];
    KeysFrom(o, t, newIds, triedIds);
    SameCount(s, t.new_, b, k);
    NextIndex(o, s, t, newIds, triedIds, b, k);
    CountedIn(h, t.info, t.addr, t.rnd, t.tried, t.new_, b, n, |newIds| + |triedIds|);
    EntriesRecounted(o, t, AddRef(t, b, n), newIds, triedIds, |newIds| + |triedIds|, n, t.info[n].nRefCount + 1);
    HoldMore(s, t.new_, b, k);
  }

  lemma KeysFrom(o: Tables, t: Tables, newIds: seq<Id>, triedIds: seq<Id>)
    requires EntriesFrom(o, t, newIds, triedIds, |newIds| + |triedIds|)
    ensures forall i: Id | i < |newIds| :: i in t.info
  {
  }

  lemma SameCount(s: Saved, new_: NewBuckets, b: nat, k: nat)
    requires Holding(s, new_, b, k)
    ensures |s.buckets| == |new_|
  {
  }

  lemma {:induction false} LoadBucketKeeps(h: Hashing, o: Tables, s: Saved, t: Tables, newIds: seq<Id>, triedIds: seq<Id>, b: nat, k: nat)
    requires NewOk(o.info, o.new_) && EntriesOk(o.info) && SavedAs(o, s, newIds, triedIds)
    requires Filling(h, o, s, t, newIds, triedIds, b, 0) && b < |s.buckets| && k <= |s.buckets[b]|
    requires b < |t.new_| && forall i | 0 <= i < |s.buckets[b]| :: s.buckets[b][i] in t.info
    ensures Filling(h, o, s, LoadBucket(t, b, s.buckets[b], k), newIds, triedIds, b, k)
  {
    hide Filling, NewOk, EntriesOk, SavedAs, AddRef;
    if k > 0 {
      LoadBucketKeeps(h, o, s, t, newIds, triedIds, b, k - 1);
      AddRefKeeps(h, o, s, LoadBucket(t, b, s.buckets[b], k - 1), newIds, triedIds, b, k - 1);
    }
  }

  lemma {:induction false} NoRefs(new_: NewBuckets, n: Id, k: nat)
    requires k <= |new_| && forall b | 0 <= b < k :: new_[b] == {}
    ensures Refs(new_, n, k) == 0
  {
    RefsZero(new_, n, k);
  }

  lemma StartFilling(h: Hashing, o: Tables, s: Saved, t: Tables, newIds: seq<Id>, triedIds: seq<Id>)
    requires HalfLoaded(h, o, t, newIds, triedIds, |newIds| + |triedIds|) && t.nIdCount == |newIds| + |triedIds|
    requires !s.OwnBuckets()
    ensures Filling(h, o, s, t, newIds, triedIds, 0, 0)
  {
    hide LinksOk, EntriesFrom;
    assert forall b | 0 <= b < |t.new_| :: t.new_[b] == {};
    forall n | n in t.info ensures Refs(t.new_, n, |t.new_|) == 0 {
      NoRefs(t.new_, n, |t.new_|);
    }
    forall c | 0 <= c < |t.new_| ensures Read(s, 0, 0, c) == [] {
    }
  }

  lemma {:induction false} LoadBucketsKeeps(h: Hashing, o: Tables, s: Saved, newIds: seq<Id>, triedIds: seq<Id>, b: nat)
    requires Consistent(h, o) && SavedAs(o, s, newIds, triedIds) && s.WellFormed() && b <= |s.buckets|
    ensures Filling(h, o, s, LoadBuckets(h, s, b), newIds, triedIds, b, 0)
  {
    hide Filling, RandomOk, AddrOk, TriedOk, NewOk, EntriesOk, SavedAs, HalfLoaded, LoadBucket, LoadTried;
    SavedLengths(o, s, newIds, triedIds);
    if b == 0 {
      LoadTriedKeeps(h, o, s, newIds, triedIds, |triedIds|);
      StartFilling(h, o, s, LoadTried(h, s, |triedIds|), newIds, triedIds);
    } else {
      LoadBucketsKeeps(h, o, s, newIds, triedIds, b - 1);
      var t := LoadBuckets(h, s, b - 1);
      LoadBucketKeeps(h, o, s, t, newIds, triedIds, b - 1, |s.buckets[b - 1]|);
      NextBucket(h, o, s, LoadBucket(t, b - 1, s.buckets[b - 1], |s.buckets[b - 1]|), newIds, triedIds, b - 1);
    }
  }

  lemma NextBucket(h: Hashing, o: Tables, s: Saved, t: Tables, newIds: seq<Id>, triedIds: seq<Id>, b: nat)
    requires b < |s.buckets| && Filling(h, o, s, t, newIds, triedIds, b, |s.buckets[b]|)
    ensures Filling(h, o, s, t, newIds, triedIds, b + 1, 0)
  {
    hide LinksOk, EntriesFrom, NewOk, Holding;
    HoldNext(s, t.new_, b);
  }

  // ---------------------------------------------------------------- the round trip

  /** `t` is `o` with ids renumbered as positions in `order`. Only what memory alone keeps may differ:
  positions in vRandom, the order inside tried buckets, and the time of the last try. */
  ghost predicate SameUpTo(o: Tables, t: Tables, order: seq<Id>) {
    && NoDup(order) && (forall n :: n in order <==> n in o.info)
    && (forall i: Id :: i in t.info <==> i < |order|)
    && (forall i: Id | i < |order| :: order[i] in o.info && i in t.info && SameEntry(o.info[order[i]], t.info[i]))
    && |o.new_| == |t.new_| && (forall b, i: Id | 0 <= b < |o.new_| && i < |order| :: i in t.new_[b] <==> order[i] in o.new_[b])
    && |o.tried| == |t.tried| && (forall b, i: Id | 0 <= b < |o.tried| && i < |order| :: i in t.tried[b] <==> order[i] in o.tried[b])
  }

  predicate SameEntry(e: AddrInfo, f: AddrInfo) {
    f == e.(nLastTry := 0, nRandomPos := f.nRandomPos)
  }

  /** All buckets have been read: they hold exactly what they should. */
  lemma BucketsMatch(o: Tables, s: Saved, t: Tables, newIds: seq<Id>, triedIds: seq<Id>)
    requires SavedAs(o, s, newIds, triedIds) && Holding(s, t.new_, NEW_BUCKET_COUNT, 0) && NewOk(o.info, o.new_) && EntriesOk(o.info)
    ensures |t.new_| == |o.new_| == NEW_BUCKET_COUNT
    ensures forall b, i: Id | 0 <= b < |o.new_| && i < |newIds| + |triedIds| :: i in t.new_[b] <==> Original(newIds, triedIds, i) in o.new_[b]
  {
    forall b, i: Id | 0 <= b < |o.new_| && i < |newIds| + |triedIds| ensures i in t.new_[b] <==> Original(newIds, triedIds, i) in o.new_[b] {
      assert BucketAs(o.new_[b], s.buckets[b], newIds);
      assert Read(s, NEW_BUCKET_COUNT, 0, b) == s.buckets[b];
      if i >= |newIds| {
        OriginalKind(o.info, newIds, triedIds, i);
        assert EntryOk(o.info[Original(newIds, triedIds, i)]);
        Unreferenced(o.info, o.new_, Original(newIds, triedIds, i));
      }
    }
  }

  /** Then every reference count is the original one. */
  lemma CountsMatch(o: Tables, t: Tables, newIds: seq<Id>, triedIds: seq<Id>, i: Id)
    requires NewOk(o.info, o.new_) && NewOk(t.info, t.new_) && IdLists(o.info, newIds, triedIds) && i < |newIds| + |triedIds| && i in t.info
    requires forall b | 0 <= b < |o.new_| :: i in t.new_[b] <==> Original(newIds, triedIds, i) in o.new_[b]
    ensures Original(newIds, triedIds, i) in o.info && t.info[i].nRefCount == o.info[Original(newIds, triedIds, i)].nRefCount
  {
    OriginalKind(o.info, newIds, triedIds, i);
    RefsBelow(t.new_, o.new_, i, Original(newIds, triedIds, i), NEW_BUCKET_COUNT);
  }

  lemma TriedMatch(h: Hashing, o: Tables, t: Tables, newIds: seq<Id>, triedIds: seq<Id>, b: nat, i: Id)
    requires TriedOk(h, o.info, o.tried) && TriedOk(h, t.info, t.tried) && EntriesFrom(o, t, newIds, triedIds, |newIds| + |triedIds|)
    requires b < TRIED_BUCKET_COUNT && i < |newIds| + |triedIds|
    ensures |o.tried| == |t.tried| == TRIED_BUCKET_COUNT && (i in t.tried[b] <==> Original(newIds, triedIds, i) in o.tried[b])
  {
    TriedWhere(h, t.info, t.tried, b, i);
    TriedWhere(h, o.info, o.tried, b, Original(newIds, triedIds, i));
  }

  lemma TriedWhere(h: Hashing, info: InfoMap, tried: TriedBuckets, b: nat, n: Id)
    requires TriedOk(h, info, tried) && b < |tried| && n in info
    ensures n in tried[b] <==> info[n].fInTried && h.TriedBucket(info[n].addr, info[n].port) == b
  {
    if n in tried[b] {
      var i :| 0 <= i < |tried[b]| && tried[b][i] == n;
      assert TriedHere(h, info, tried[b][i], b);
    }
  }

  lemma {:induction false} IntervalSize(s: set<Id>, lo: nat, hi: nat)
    requires lo <= hi && forall i: Id :: i in s <==> lo <= i < hi
    ensures |s| == hi - lo
    decreases hi
  {
    if lo < hi {
      IntervalSize(s - {hi - 1}, lo, hi - 1);
    }
  }

  /** The counters in the file are right for the loaded tables too. */
  lemma CountsLoaded(o: Tables, t: Tables, newIds: seq<Id>, triedIds: seq<Id>)
    requires EntriesFrom(o, t, newIds, triedIds, |newIds| + |triedIds|) && IdLists(o.info, newIds, triedIds)
    ensures CountsOk(t.info, |triedIds|, |newIds|)
  {
    var nNew, n := |newIds|, |newIds| + |triedIds|;
    forall i: Id | i < n ensures t.info[i].fInTried <==> i >= nNew {
      OriginalKind(o.info, newIds, triedIds, i);
    }
    IntervalSize(TriedIds(t.info), nNew, n);
    IntervalSize(NewIds(t.info), 0, nNew);
  }

  lemma Order(o: Tables, newIds: seq<Id>, triedIds: seq<Id>)
    requires IdLists(o.info, newIds, triedIds)
    ensures NoDup(newIds + triedIds) && forall n :: n in newIds + triedIds <==> n in o.info
    ensures forall i: Id | i < |newIds| + |triedIds| :: Original(newIds, triedIds, i) == (newIds + triedIds)[i]
  {
    var order := newIds + triedIds;
    forall i, j | 0 <= i < j < |order| ensures order[i] != order[j] {
      OriginalsDiffer(o.info, newIds, triedIds, i, j);
    }
    forall n | n in o.info ensures n in order {
      var i := EveryOriginal(o.info, newIds, triedIds, n);
      assert order[i] == n;
    }
    forall n | n in order ensures n in o.info {
      assert n in newIds || n in triedIds;
    }
  }

  lemma EntriesMatch(o: Tables, t: Tables, newIds: seq<Id>, triedIds: seq<Id>, i: Id)
    requires EntriesFrom(o, t, newIds, triedIds, |newIds| + |triedIds|) && i < |newIds| + |triedIds|
    requires var n := Original(newIds, triedIds, i); n in o.info && t.info[i].nRefCount == o.info[n].nRefCount
    ensures SameEntry(o.info[Original(newIds, triedIds, i)], t.info[i])
  {
  }

  lemma SameEntries(o: Tables, t: Tables, order: seq<Id>)
    requires EntriesOk(o.info) && SameUpTo(o, t, order)
    ensures EntriesOk(t.info)
  {
    forall i | i in t.info ensures EntryOk(t.info[i]) {
      assert EntryOk(o.info[order[i]]);
    }
  }

  /** Loading what a consistent manager saved gives a consistent manager that is the same up to a
  renumbering; nothing is lost, and the saved counters fit. */
  lemma RoundTrip(h: Hashing, o: Tables, s: Saved, newIds: seq<Id>, triedIds: seq<Id>)
    requires Consistent(h, o) && SavedAs(o, s, newIds, triedIds)
    ensures s.WellFormed()
    ensures var t := Loaded(h, s);
            Consistent(h, t) && SameUpTo(o, t, newIds + triedIds) && t.lost == 0 && CountsOk(t.info, s.nTried, s.nNew)
  {
    LoadBucketsKeeps(h, o, s, newIds, triedIds, NEW_BUCKET_COUNT);
    FilledUp(h, o, s, Loaded(h, s), newIds, triedIds);
  }

  lemma FilledUp(h: Hashing, o: Tables, s: Saved, t: Tables, newIds: seq<Id>, triedIds: seq<Id>)
    requires Consistent(h, o) && SavedAs(o, s, newIds, triedIds) && Filling(h, o, s, t, newIds, triedIds, NEW_BUCKET_COUNT, 0)
    ensures Consistent(h, t) && SameUpTo(o, t, newIds + triedIds) && t.lost == 0 && CountsOk(t.info, s.nTried, s.nNew)
  {
    hide RandomOk, AddrOk, TriedOk, NewOk, EntriesOk, IdLists, BucketAs, Holding, Original, SameEntry, CountsOk, Saved.WellFormed;
    BucketsMatch(o, s, t, newIds, triedIds);
    forall i: Id | i < |newIds| + |triedIds|
      ensures Original(newIds, triedIds, i) in o.info && SameEntry(o.info[Original(newIds, triedIds, i)], t.info[i])
    {
      CountsMatch(o, t, newIds, triedIds, i);
      EntriesMatch(o, t, newIds, triedIds, i);
    }
    forall b, i: Id | 0 <= b < TRIED_BUCKET_COUNT && i < |newIds| + |triedIds|
      ensures |o.tried| == |t.tried| == TRIED_BUCKET_COUNT && (i in t.tried[b] <==> Original(newIds, triedIds, i) in o.tried[b])
    {
      TriedMatch(h, o, t, newIds, triedIds, b, i);
    }
    Order(o, newIds, triedIds);
    TriedCounts(h, o);
    TriedCounts(h, t);
    assert SameUpTo(o, t, newIds + triedIds);
    SameEntries(o, t, newIds + triedIds);
    CountsLoaded(o, t, newIds, triedIds);
    CountsInFile(o, s, newIds, triedIds);
  }

  lemma CountsInFile(o: Tables, s: Saved, newIds: seq<Id>, triedIds: seq<Id>)
    requires SavedAs(o, s, newIds, triedIds)
    ensures s.nNew == |newIds| && s.nTried == |triedIds|
  {
  }
}

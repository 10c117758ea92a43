/** The stochastic address manager, with its tables updated in place. Random choices are arbitrary. */
module AddrMan {
  import opened Wrappers
  import opened AddrStore
  import opened AddrTables

  /** Any number below `n`. */
  method GetRandInt(n: nat) returns (r: nat)
    requires n > 0
    ensures r < n
  {
    assert 0 < n;
    r :| 0 <= r < n;
  }

  lemma WrapsOnce(a: nat, m: nat)
    requires a < 2 * m
    ensures a % m == if a < m then a else a - m
  {
  }

  class AddrManager {
    var h: Hashing
    var nIdCount: nat
    var mapInfo: InfoMap
    var mapAddr: AddrMap
    var vRandom: seq<Id>
    var nTried: int
    var vvTried: TriedBuckets
    var nNew: int
    var vvNew: NewBuckets

    /** Positions, addresses and tried buckets agree. */
    ghost predicate Linked()
      reads this
    {
      LinksOk(h, mapInfo, mapAddr, vRandom, vvTried, nIdCount)
    }

    /** All tables agree, as Check_ demands. */
    ghost predicate Valid()
      reads this
    {
      && Linked() && NewOk(mapInfo, vvNew) && CountsOk(mapInfo, nTried, nNew)
      && EntriesOk(mapInfo)
    }

    constructor (h: Hashing)
      ensures Valid() && this.h == h && mapInfo == map[] && nIdCount == 0
    {
      this.h := h;
      nIdCount, nTried, nNew := 0, 0, 0;
      mapInfo, mapAddr, vRandom := map[], map[], [];
      vvTried := seq(TRIED_BUCKET_COUNT, _ => []);
      vvNew := seq(NEW_BUCKET_COUNT, _ => {});
    }

    /** The id of a network address. */
    function Find(addr: NetAddr): (r: Option<Id>)
      requires Linked()
      reads this
      ensures r.Some? ==> r.value in mapInfo && mapInfo[r.value].addr == addr
      ensures r.Some? ==> addr in mapAddr && mapAddr[addr] == r.value && forall n | n in mapInfo && mapInfo[n].addr == addr :: n == r.value
      ensures r.None? <==> forall n | n in mapInfo :: mapInfo[n].addr != addr
      ensures r.None? <==> addr !in mapAddr
    {
      if addr in mapAddr && mapAddr[addr] in mapInfo then Some(mapAddr[addr]) else None
    }

    /** Enter a new address; it is in no bucket yet. */
    method Create(addr: Address, source: NetAddr) returns (nId: Id)
      requires Linked() && NewOk(mapInfo, vvNew) && addr.addr !in mapAddr
      modifies this`nIdCount, this`mapInfo, this`mapAddr, this`vRandom
      ensures Linked() && NewOk(mapInfo, vvNew)
      ensures nId == old(nIdCount) && nIdCount == nId + 1 && nId !in old(mapInfo)
      ensures mapInfo == old(mapInfo)[nId := AddrInfo(addr.addr, addr.port, addr.nServices, addr.nTime, source, 0, 0, 0, 0, false, |old(vRandom)|)]
      ensures TriedIds(mapInfo) == old(TriedIds(mapInfo)) && NewIds(mapInfo) == old(NewIds(mapInfo)) + {nId}
    {
      nId := nIdCount;
      nIdCount := nIdCount + 1;
      var e := AddrInfo(addr.addr, addr.port, addr.nServices, addr.nTime, source, 0, 0, 0, 0, false, |vRandom|);
      AddEntry(h, mapInfo, mapAddr, vRandom, vvTried, nId, e);
      AddEntryRefs(mapInfo, vvNew, nId, e);
      mapInfo := mapInfo[nId := e];
      mapAddr := mapAddr[addr.addr := nId];
      vRandom := vRandom + [nId];
    }

    method SwapRandom(nRndPos1: nat, nRndPos2: nat)
      requires RandomOk(mapInfo, vRandom) && nRndPos1 < |vRandom| && nRndPos2 < |vRandom|
      modifies this`mapInfo, this`vRandom
      ensures RandomOk(mapInfo, vRandom) && Moved(old(mapInfo), mapInfo)
      ensures vRandom == old(vRandom)[nRndPos1 := old(vRandom)[nRndPos2]][nRndPos2 := old(vRandom)[nRndPos1]]
    {
      if nRndPos1 == nRndPos2 {
        return;
      }
      SwapKeeps(mapInfo, vRandom, nRndPos1, nRndPos2);
      var nId1, nId2 := vRandom[nRndPos1], vRandom[nRndPos2];
      mapInfo := mapInfo[nId1 := mapInfo[nId1].(nRandomPos := nRndPos2)];
      mapInfo := mapInfo[nId2 := mapInfo[nId2].(nRandomPos := nRndPos1)];
      vRandom := vRandom[nRndPos1 := nId2][nRndPos2 := nId1];
    }

    /** Forget a new entry that is in no bucket any more. */
    method Delete(nId: Id, ghost x: int, ghost d: int)
      requires Linked() && BucketsOk(mapInfo, vvNew) && RefsOk(mapInfo, vvNew, x, d)
      requires nId in mapInfo && !mapInfo[nId].fInTried && Refs(vvNew, nId, |vvNew|) == 0
      modifies this`mapInfo, this`mapAddr, this`vRandom, this`nNew
      ensures Linked() && BucketsOk(mapInfo, vvNew) && RefsOk(mapInfo, vvNew, x, d)
      ensures Moved(old(mapInfo) - {nId}, mapInfo) && nNew == old(nNew) - 1
      ensures old(CountsOk(mapInfo, nTried, nNew)) ==> CountsOk(mapInfo, nTried, nNew)
      ensures TriedIds(mapInfo) == old(TriedIds(mapInfo)) && NewIds(mapInfo) == old(NewIds(mapInfo)) - {nId} && nId in old(NewIds(mapInfo))
    {
      hide RandomOk, AddrOk, TriedOk, BucketsOk, RefsOk, TriedIds, NewIds, Moved, IdsBelow, Refs, CountsOk;
      ghost var before := mapInfo;
      InRandom(mapInfo, vRandom, nId);
      SwapRandom(mapInfo[nId].nRandomPos, |vRandom| - 1);
      Forget(h, before, mapInfo, mapAddr, vRandom, vvTried, vvNew, nId, x, d, nIdCount);
      vRandom := vRandom[..|vRandom| - 1];
      mapAddr := mapAddr - {mapInfo[nId].addr};
      mapInfo := mapInfo - {nId};
      nNew := nNew - 1;
      if old(CountsOk(mapInfo, nTried, nNew)) {
        CountsLess(before, mapInfo, nTried, nNew + 1, nId);
      }
    }

    /** Take a new entry out of one bucket; forget it when that was the last one. */
    method Dereference(nUBucket: nat, nId: Id, ghost x: int, ghost d: int)
      requires Linked() && BucketsOk(mapInfo, vvNew) && RefsOk(mapInfo, vvNew, x, d) && CountsOk(mapInfo, nTried, nNew) && EntriesOk(mapInfo)
      requires nUBucket < |vvNew| && nId in vvNew[nUBucket] && nId != x && d >= 0
      modifies this`mapInfo, this`mapAddr, this`vRandom, this`nNew, this`vvNew
      ensures Linked() && BucketsOk(mapInfo, vvNew) && RefsOk(mapInfo, vvNew, x, d) && CountsOk(mapInfo, nTried, nNew) && EntriesOk(mapInfo)
      ensures vvNew == old(vvNew)[nUBucket := old(vvNew)[nUBucket] - {nId}]
      ensures LessOne(old(mapInfo), mapInfo, nId)
    {
      hide LinksOk, BucketsOk, RefsOk, TriedIds, NewIds, Moved, EntriesOk, CountsOk, Refs, LessOne;
      ghost var before, oldBuckets := mapInfo, vvNew;
      NotTried(nUBucket, nId, x, d);
      mapInfo := mapInfo[nId := mapInfo[nId].(nRefCount := mapInfo[nId].nRefCount - 1)];
      vvNew := vvNew[nUBucket := vvNew[nUBucket] - {nId}];
      LoseReference(h, before, mapInfo, mapAddr, vRandom, vvTried, oldBuckets, vvNew, nUBucket, nId, x, d, nIdCount);
      CountsSame(before, mapInfo, nTried, nNew);
      ghost var mid := mapInfo;
      if mapInfo[nId].nRefCount == 0 {
        Delete(nId, x, d);
      }
      LostOne(before, mid, mapInfo, nId);
      EntriesLess(before, mapInfo, nId);
    }

    lemma NotTried(b: nat, n: Id, x: int, d: int)
      requires BucketsOk(mapInfo, vvNew) && RefsOk(mapInfo, vvNew, x, d) && EntriesOk(mapInfo)
      requires b < |vvNew| && n in vvNew[b] && d >= 0
      ensures n in mapInfo && !mapInfo[n].fInTried && mapInfo[n].nRefCount >= 1
    {
      InBucket(mapInfo, vvNew, b, n, x, d);
    }

    // ---------------------------------------------------------------- eviction

    method FirstTerrible(vNew: seq<Id>, nNow: int) returns (r: Option<Id>)
      requires forall n | n in vNew :: n in mapInfo
      ensures r.None? ==> forall n | n in vNew :: !mapInfo[n].IsTerrible(nNow)
      ensures r.Some? ==> exists i :: 0 <= i < |vNew| && vNew[i] == r.value && mapInfo[r.value].IsTerrible(nNow)
                                      && forall j | 0 <= j < i :: !mapInfo[vNew[j]].IsTerrible(nNow)
    {
      var i := 0;
      while i < |vNew|
        invariant 0 <= i <= |vNew| && forall j | 0 <= j < i :: !mapInfo[vNew[j]].IsTerrible(nNow)
      {
        if mapInfo[vNew[i]].IsTerrible(nNow) {
          return Some(vNew[i]);
        }
        i := i + 1;
      }
      r := None;
    }

    method OldestDrawn(vNew: seq<Id>, n0: nat, n1: nat, n2: nat, n3: nat) returns (r: Id)
      requires (forall n | n in vNew :: n in mapInfo) && n0 < |vNew| && n1 < |vNew| && n2 < |vNew| && n3 < |vNew|
      ensures r in mapInfo && (exists k :: k in [n0, n1, n2, n3] && r == vNew[k] && FirstOldest(mapInfo, vNew, [n0, n1, n2, n3], k))
    {
      ghost var draws := [n0, n1, n2, n3];
      ghost var k: nat := 0;
      var nOldest: Option<Id> := None;
      var nI: nat := 0;
      while nI < |vNew|
        invariant 0 <= nI <= |vNew|
        invariant nOldest.Some? ==> k in draws && k < nI && vNew[k] == nOldest.value && nOldest.value in mapInfo
        invariant forall d | d in draws && d < nI :: nOldest.Some?
                    && (mapInfo[vNew[k]].nTime < mapInfo[vNew[d]].nTime || (mapInfo[vNew[k]].nTime == mapInfo[vNew[d]].nTime && k <= d))
      {
        if nI == n0 || nI == n1 || nI == n2 || nI == n3 {
          assert nI in draws;
          if nOldest.None? || mapInfo[vNew[nI]].nTime < mapInfo[nOldest.value].nTime {
            nOldest := Some(vNew[nI]);
            k := nI;
          }
        }
        nI := nI + 1;
      }
      assert draws[0] in draws;
      r := nOldest.value;
    }

    /** Take one entry out of a full bucket: the first terrible one, else the oldest of those drawn. */
    method ShrinkNew(nUBucket: nat, nNow: int, ghost x: int, ghost d: int) returns (r: int, ghost gone: Id, ghost draws: seq<nat>)
      requires Linked() && BucketsOk(mapInfo, vvNew) && RefsOk(mapInfo, vvNew, x, d) && CountsOk(mapInfo, nTried, nNew) && EntriesOk(mapInfo)
      requires nUBucket < |vvNew| && vvNew[nUBucket] != {} && (forall n | n in vvNew[nUBucket] :: n != x) && d >= 0
      modifies this`mapInfo, this`mapAddr, this`vRandom, this`nNew, this`vvNew
      ensures Linked() && BucketsOk(mapInfo, vvNew) && RefsOk(mapInfo, vvNew, x, d) && CountsOk(mapInfo, nTried, nNew) && EntriesOk(mapInfo)
      ensures gone in old(vvNew)[nUBucket] && vvNew == old(vvNew)[nUBucket := old(vvNew)[nUBucket] - {gone}]
      ensures LessOne(old(mapInfo), mapInfo, gone) && Shrunk(old(mapInfo), old(vvNew)[nUBucket], nNow, r, gone, draws)
    {
      hide *;
      Known(nUBucket);
      var vNew := Ascending(vvNew[nUBucket]);
      var terrible := FirstTerrible(vNew, nNow);
      if terrible.Some? {
        gone, draws := terrible.value, [];
        ShrunkTerrible(mapInfo, vvNew[nUBucket], nNow, gone);
        Dereference(nUBucket, terrible.value, x, d);
        return 0, gone, draws;
      }
      var n0 := GetRandInt(|vNew|);
      var n1 := GetRandInt(|vNew|);
      var n2 := GetRandInt(|vNew|);
      var n3 := GetRandInt(|vNew|);
      var nOldest := OldestDrawn(vNew, n0, n1, n2, n3);
      gone, draws := nOldest, [n0, n1, n2, n3];
      ShrunkOldest(mapInfo, vvNew[nUBucket], nNow, gone, draws);
      Dereference(nUBucket, nOldest, x, d);
      return 1, gone, draws;
    }

    /** Shuffle the first few entries of a tried bucket and pick a position to evict. */
    method SelectTried(nKBucket: nat) returns (pos: nat, ghost draws: seq<nat>)
      requires TriedOk(h, mapInfo, vvTried) && nKBucket < |vvTried| && vvTried[nKBucket] != []
      modifies this`vvTried
      ensures TriedOk(h, mapInfo, vvTried) && TriedKnown(mapInfo, old(vvTried)[nKBucket])
      ensures var s := old(vvTried)[nKBucket];
              && |draws| == (if |s| < TRIED_ENTRIES_INSPECT_ON_EVICT then |s| else TRIED_ENTRIES_INSPECT_ON_EVICT) && DrawsOk(s, draws)
              && vvTried == old(vvTried)[nKBucket := Inspect(mapInfo, s, draws).bucket] && pos == Inspect(mapInfo, s, draws).nOldestPos
    {
      hide TriedOk, Inspect, SwapAt, NoDup;
      TriedIsKnown(h, mapInfo, vvTried, nKBucket);
      ghost var s := vvTried[nKBucket];
      var vTried := vvTried[nKBucket];
      var nOldest: int, nOldestPos: int := -1, -1;
      var i: nat := 0;
      draws := [];
      ghost var seen := Inspection(s, -1, -1, -1);
      NoDraws(mapInfo, s);
      while i < TRIED_ENTRIES_INSPECT_ON_EVICT && i < |vTried|
        invariant 0 <= i <= TRIED_ENTRIES_INSPECT_ON_EVICT && i <= |s| && |draws| == i && DrawsOk(s, draws)
        invariant vvTried == old(vvTried)
        invariant seen == Inspect(mapInfo, s, draws) && vTried == seen.bucket && nOldest == seen.nOldest && nOldestPos == seen.nOldestPos
      {
        var r := GetRandInt(|vTried| - i);
        var nPos := r + i;
        OneMoreDraw(mapInfo, s, draws, nPos);
        draws, seen := draws + [nPos], InspectOne(mapInfo, seen, i, nPos);
        assert vTried[nPos] in vTried;
        var nTemp := vTried[nPos];
        vTried := SwapAt(vTried, i, nPos);
        if nOldest == -1 || mapInfo[nTemp].nLastSuccess < mapInfo[nOldest].nLastSuccess {
          nOldest, nOldestPos := nTemp, nPos;
        }
        i := i + 1;
      }
      ShuffleKeeps(h, mapInfo, vvTried, nKBucket, vTried);
      vvTried := vvTried[nKBucket := vTried];
      pos := nOldestPos;
    }

    // ---------------------------------------------------------------- promotion

    /** Take an entry out of every new bucket. */
    method LeaveNewBuckets(nId: Id)
      requires Linked() && NewOk(mapInfo, vvNew) && CountsOk(mapInfo, nTried, nNew)
      requires nId in mapInfo && !mapInfo[nId].fInTried && OthersOk(mapInfo, nId)
      modifies this`mapInfo, this`vvNew
      ensures Linked() && NewOk(mapInfo, vvNew) && CountsOk(mapInfo, nTried, nNew)
      ensures mapInfo == old(mapInfo)[nId := old(mapInfo)[nId].(nRefCount := 0)] && OthersOk(mapInfo, nId)
      ensures |vvNew| == |old(vvNew)| == NEW_BUCKET_COUNT && Purged(old(vvNew), vvNew, nId, |vvNew|)
    {
      hide LinksOk, BucketsOk, RefsOk, NewOk, TriedIds, NewIds, CountsOk, OthersOk, Refs, Purged, CountOnly;
      ghost var info, buckets := mapInfo, vvNew;
      PurgeStart(info, buckets, nId);
      BucketCount(mapInfo, vvNew);
      var i: nat := 0;
      while i < |vvNew|
        invariant 0 <= i <= |vvNew| == |buckets| && Purged(buckets, vvNew, nId, i)
        invariant Linked() && NewOk(mapInfo, vvNew) && CountsOk(mapInfo, nTried, nNew)
        invariant nId in mapInfo && CountOnly(info, mapInfo, nId)
      {
        ghost var before, oldBuckets := mapInfo, vvNew;
        if nId in vvNew[i] {
          vvNew := vvNew[i := vvNew[i] - {nId}];
          mapInfo := mapInfo[nId := mapInfo[nId].(nRefCount := mapInfo[nId].nRefCount - 1)];
          NewLoseReference(h, before, mapInfo, mapAddr, vRandom, vvTried, oldBuckets, vvNew, i, nId, nTried, nNew, nIdCount);
          CountStep(info, before, mapInfo, nId, mapInfo[nId].nRefCount);
        }
        PurgeStep(buckets, oldBuckets, vvNew, nId, i);
        i := i + 1;
      }
      PurgedAll(info, mapInfo, buckets, vvNew, nId);
      OthersSame(info, mapInfo, nId);
    }

    /** Move an entry from new bucket `nOrigin` to the tried table, perhaps displacing another. */
    method MakeTried(nId: Id, nOrigin: nat) returns (ghost gone: Option<Id>, ghost draws: seq<nat>)
      requires Linked() && NewOk(mapInfo, vvNew) && CountsOk(mapInfo, nTried, nNew)
      requires nId in mapInfo && !mapInfo[nId].fInTried && OthersOk(mapInfo, nId) && nOrigin < |vvNew| && nId in vvNew[nOrigin]
      modifies this`mapInfo, this`nTried, this`nNew, this`vvTried, this`vvNew
      ensures Linked() && NewOk(mapInfo, vvNew) && CountsOk(mapInfo, nTried, nNew) && OthersOk(mapInfo, nId)
      ensures MovedToTried(h, old(mapInfo), mapInfo, old(vvTried), vvTried, old(vvNew), vvNew, nId, nOrigin, gone, draws)
    {
      hide LinksOk, TriedOk, NewOk, CountsOk, OthersOk, Refs, Purged, MovedToTried, Put, Inspect, Hashing.TriedBucket, Hashing.NewBucket;
      ghost var info, buckets, tried := mapInfo, vvNew, vvTried;
      BucketCount(mapInfo, vvNew);
      LeaveNewBuckets(nId);
      LinksTried(nId);
      PurgedRoom(buckets, vvNew, nId, nOrigin);
      nNew := nNew - 1;
      var nKBucket := h.TriedBucket(mapInfo[nId].addr, mapInfo[nId].port);
      ghost var middle, purged := mapInfo, vvNew;

      // a bucket with room takes the entry
      if |vvTried[nKBucket]| < TRIED_BUCKET_SIZE {
        vvTried := vvTried[nKBucket := vvTried[nKBucket] + [nId]];
        nTried := nTried + 1;
        mapInfo := mapInfo[nId := mapInfo[nId].(fInTried := true)];
        Promote(h, middle, mapInfo, mapAddr, vRandom, tried, vvTried, vvNew, nTried - 1, nNew + 1, nId, nIdCount);
        Promoted(h, info, mapInfo, tried, vvTried, buckets, vvNew, nId, nOrigin);
        return None, [];
      }

      // a full one gives one up, which returns to the new bucket it hashes to
      var nPos;
      nPos, draws := SelectTried(nKBucket);
      LinksShuffled(h, mapInfo, mapAddr, vRandom, tried, vvTried, nIdCount);
      TriedEntry(h, mapInfo, vvTried, nId, nKBucket, nPos);
      var nOld := vvTried[nKBucket][nPos];
      var nUBucket := h.NewBucket(mapInfo[nOld].addr, mapInfo[nOld].source);
      mapInfo := mapInfo[nOld := mapInfo[nOld].(fInTried := false, nRefCount := 1)];
      if |vvNew[nUBucket]| >= NEW_BUCKET_SIZE {
        nUBucket := nOrigin;
      }
      vvNew := vvNew[nUBucket := vvNew[nUBucket] + {nOld}];
      nNew := nNew + 1;
      ghost var shuffled := vvTried;
      vvTried := vvTried[nKBucket := Put(vvTried[nKBucket], nPos, nId)];
      mapInfo := mapInfo[nId := mapInfo[nId].(fInTried := true)];
      Exchange(h, middle, mapInfo, mapAddr, vRandom, shuffled, vvTried, purged, vvNew, nTried, nNew, nId, nOld, nKBucket, nPos, nUBucket, nIdCount);
      SelectedFrom(info, middle, tried[nKBucket], nId, nOld, draws);
      Displaced(h, info, mapInfo, tried, vvTried[nKBucket], vvTried, buckets, purged, vvNew, nId, nOrigin, nOld, draws, nUBucket);
      gone := Some(nOld);
    }

    /** A new bucket that holds an entry, searching from a random one; -1 if there is none. */
    method FindBucket(nId: Id) returns (nUBucket: int)
      requires |vvNew| > 0
      ensures -1 <= nUBucket < |vvNew|
      ensures if nUBucket == -1 then forall b | 0 <= b < |vvNew| :: nId !in vvNew[b] else nId in vvNew[nUBucket]
    {
      var nRnd := GetRandInt(|vvNew|);
      nUBucket := -1;
      var n: nat := 0;
      while n < |vvNew|
        invariant n <= |vvNew|
        invariant forall b | nRnd <= b < nRnd + n && b < |vvNew| :: nId !in vvNew[b]
        invariant forall b | 0 <= b < nRnd + n - |vvNew| && b < |vvNew| :: nId !in vvNew[b]
      {
        var nB := (n + nRnd) % |vvNew|;
        WrapsOnce(n + nRnd, |vvNew|);
        if nId in vvNew[nB] {
          return nB;
        }
        n := n + 1;
      }
    }

    /** An address answered: update its entry and move it to the tried table. */
    method Good(addr: NetAddr, port: nat, nTime: int) returns (ghost nUBucket: int, ghost gone: Option<Id>, ghost draws: seq<nat>)
      requires Valid()
      modifies this`mapInfo, this`nTried, this`nNew, this`vvTried, this`vvNew
      ensures Linked() && NewOk(mapInfo, vvNew) && CountsOk(mapInfo, nTried, nNew)
      ensures Valid() <==> nTime > 0 || !Holds(old(mapInfo), addr, port)
      ensures if Holds(old(mapInfo), addr, port) then Bettered(h, old(mapInfo), mapInfo, old(mapAddr)[addr], nTime, old(vvTried), vvTried, old(vvNew), vvNew, nUBucket, gone, draws)
              else mapInfo == old(mapInfo) && vvTried == old(vvTried) && vvNew == old(vvNew)
    {
      hide LinksOk, NewOk, CountsOk, OthersOk, EntriesOk, MovedToTried, Holds, Bettered;
      nUBucket, gone, draws := -1, None, [];
      var pnId := Find(addr);
      HoldsFound(mapInfo, addr, port, pnId);
      if pnId.None? {
        return;
      }
      var nId := pnId.value;
      if mapInfo[nId].port != port {
        return;
      }
      ghost var info, tried, buckets := mapInfo, vvTried, vvNew;
      mapInfo := mapInfo[nId := mapInfo[nId].(nLastSuccess := nTime, nLastTry := nTime, nTime := nTime, nAttempts := 0)];
      StatsKeep(h, info, mapInfo, mapAddr, vRandom, vvTried, vvNew, nTried, nNew, nId, nIdCount);
      OthersKeep(info, mapInfo, nId);
      FoundId(nId);
      EntryInOrder(info, nId);
      BucketCount(mapInfo, vvNew);
      if mapInfo[nId].fInTried {
        BetteredTried(h, info, mapInfo, nId, nTime, tried, buckets, gone, draws);
        AllEntries(mapInfo, nId);
        return;
      }
      NewIsSomewhere(mapInfo, vvNew, nId);
      var nB := FindBucket(nId);
      if nB == -1 {
        assert false;
      }
      ghost var middle := mapInfo;
      gone, draws := MakeTried(nId, nB);
      nUBucket := nB;
      BetteredNew(h, info, middle, mapInfo, nId, nTime, tried, vvTried, buckets, vvNew, nB, gone, draws);
      AllEntries(mapInfo, nId);
    }

    // ---------------------------------------------------------------- new addresses

    /** Put an entry into a new bucket, making room if need be. */
    method EnterNewBucket(nId: Id, nUBucket: nat, nNow: int) returns (ghost dropped: Option<Id>)
      requires Linked() && NewOk(mapInfo, vvNew) && CountsOk(mapInfo, nTried, nNew) && OthersOk(mapInfo, nId)
      requires nId in mapInfo && !mapInfo[nId].fInTried && nUBucket < |vvNew|
      requires EntryOk(mapInfo[nId].(nRefCount := mapInfo[nId].nRefCount + 1)) && (nId in vvNew[nUBucket] ==> EntryOk(mapInfo[nId]))
      modifies this`mapInfo, this`mapAddr, this`vRandom, this`nNew, this`vvNew
      ensures Valid() && |vvNew| == |old(vvNew)| && nId in vvNew[nUBucket]
      ensures Entered(old(mapInfo), mapInfo, old(vvNew), vvNew, nId, nUBucket, dropped)
    {
      hide LinksOk, NewOk, BucketsOk, RefsOk, CountsOk, OthersOk, EntriesOk, Entered, LessOne, EntryOk, Shrunk;
      ghost var info, buckets := mapInfo, vvNew;
      dropped := None;
      BucketCount(mapInfo, vvNew);
      if nId in vvNew[nUBucket] {
        AllEntries(mapInfo, nId);
        EnteredAlready(mapInfo, vvNew, nId, nUBucket);
        return;
      }
      mapInfo := mapInfo[nId := mapInfo[nId].(nRefCount := mapInfo[nId].nRefCount + 1)];
      CountAhead(h, info, mapInfo, mapAddr, vRandom, vvTried, vvNew, nTried, nNew, nId, nIdCount);
      ghost var middle := mapInfo;
      if |vvNew[nUBucket]| == NEW_BUCKET_SIZE {
        var r, gone, draws := ShrinkNew(nUBucket, nNow, nId, 1);
        dropped := Some(gone);
        EnteredFull(info, middle, mapInfo, buckets, vvNew, vvNew[nUBucket := vvNew[nUBucket] + {nId}], nId, nUBucket, gone);
      } else {
        EnteredRoom(info, mapInfo, buckets, vvNew[nUBucket := vvNew[nUBucket] + {nId}], nId, nUBucket);
      }
      TakesPlace(mapInfo, vvNew, vvNew[nUBucket := vvNew[nUBucket] + {nId}], nUBucket, nId);
      vvNew := vvNew[nUBucket := vvNew[nUBucket] + {nId}];
    }

    /** Record the time and services that a report of a known address brings. */
    method Refresh(id: Id, addr: Address, nTimePenalty: int, nNow: int) returns (pinfo: AddrInfo)
      requires Valid() && id in mapInfo
      modifies this`mapInfo
      ensures Valid() && id in mapInfo && mapInfo[id] == pinfo == Refreshed(old(mapInfo)[id], addr, nTimePenalty, nNow)
      ensures mapInfo == old(mapInfo)[id := pinfo] && EntryOk(old(mapInfo)[id]) && SameLinks(old(mapInfo)[id], pinfo)
    {
      hide LinksOk, NewOk, CountsOk, OthersOk, EntriesOk, Refreshed, Max, Union;
      ghost var info := mapInfo;
      EntryInOrder(info, id);
      var fCurrentlyOnline := nNow - addr.nTime < 24 * 60 * 60;
      var nUpdateInterval := if fCurrentlyOnline then 60 * 60 else 24 * 60 * 60;
      pinfo := mapInfo[id];
      if addr.nTime != 0 && (pinfo.nTime == 0 || pinfo.nTime < addr.nTime - nUpdateInterval - nTimePenalty) {
        pinfo := pinfo.(nTime := Max(0, addr.nTime - nTimePenalty));
      }
      pinfo := pinfo.(nServices := Union(pinfo.nServices, addr.nServices));
      mapInfo := mapInfo[id := pinfo];
      RefreshedIs(info[id], pinfo, addr, nTimePenalty, nNow);
      StatsKeep(h, info, mapInfo, mapAddr, vRandom, vvTried, vvNew, nTried, nNew, id, nIdCount);
      OthersKeep(info, mapInfo, id);
      AllEntries(mapInfo, id);
    }

    /** Hear of a known address again: refresh its entry, perhaps put it into one more bucket. */
    method AddKnown(id: Id, addr: Address, source: NetAddr, nTimePenalty: int, nNow: int, nRand: nat)
      returns (ghost entered: bool, ghost dropped: Option<Id>)
      requires Valid() && id in mapInfo && mapInfo[id].addr == addr.addr
      modifies this`mapInfo, this`mapAddr, this`vRandom, this`nNew, this`vvNew
      ensures Valid()
      ensures AddedKnown(h, old(mapInfo), mapInfo, old(vvNew), vvNew, id, addr, source, nTimePenalty, nNow, entered, dropped)
      ensures old(mapInfo)[id].nRefCount >= 0
      ensures entered <==> Welcome(Refreshed(old(mapInfo)[id], addr, nTimePenalty, nNow), addr) && nRand % Power2(old(mapInfo)[id].nRefCount) == 0
    {
      hide LinksOk, NewOk, BucketsOk, RefsOk, CountsOk, OthersOk, EntriesOk, Entered, Refreshed, Max, TriedIds, NewIds, Hashing.NewBucket, AddedKnown;
      entered, dropped := false, None;
      ghost var info, buckets := mapInfo, vvNew;
      BucketCount(mapInfo, vvNew);
      var pinfo := Refresh(id, addr, nTimePenalty, nNow);
      EntryInOrder(mapInfo, id);
      OthersKeep(mapInfo, mapInfo, id);
      KnownOnly(h, info, mapInfo, vvNew, id, addr, source, nTimePenalty, nNow);

      // nothing new: no later time than the one on record
      if addr.nTime == 0 || (pinfo.nTime != 0 && addr.nTime <= pinfo.nTime) {
        return;
      }
      if pinfo.fInTried {
        return;
      }
      if pinfo.nRefCount == NEW_BUCKETS_PER_ADDRESS {
        return;
      }
      // each reference makes one more twice as hard to get
      var fLucky := Lucky(pinfo.nRefCount, nRand);
      if !fLucky {
        return;
      }
      ghost var middle := mapInfo;
      entered := true;
      var nUBucket := h.NewBucket(pinfo.addr, source);
      dropped := EnterNewBucket(id, nUBucket, nNow);
      KnownEntered(h, info, middle, mapInfo, buckets, vvNew, id, addr, source, nTimePenalty, nNow, dropped);
    }

    /** One chance in 2 to the power of `nRefCount`: is the random number `nRand` zero modulo that power? */
    static method Lucky(nRefCount: nat, nRand: nat) returns (r: bool)
      ensures r <==> nRand % Power2(nRefCount) == 0
    {
      var nFactor: nat := 1;
      var n := 0;
      while n < nRefCount
        invariant n <= nRefCount && nFactor == Power2(n)
      {
        nFactor := nFactor * 2;
        n := n + 1;
      }
      r := nFactor == 1 || nRand % nFactor == 0;
    }

    /** Hear of an address for the first time. */
    method AddNew(addr: Address, source: NetAddr, nTimePenalty: int, nNow: int) returns (id: Id, ghost dropped: Option<Id>)
      requires Valid() && addr.addr !in mapAddr
      modifies this`nIdCount, this`mapInfo, this`mapAddr, this`vRandom, this`nNew, this`vvNew
      ensures Valid() && id == old(nIdCount)
      ensures AddedNew(h, old(mapInfo), mapInfo, old(vvNew), vvNew, id, |old(vRandom)|, addr, source, nTimePenalty, dropped)
    {
      hide LinksOk, NewOk, BucketsOk, RefsOk, CountsOk, OthersOk, EntriesOk, Entered, Refreshed, Max, TriedIds, NewIds, Hashing.NewBucket, AddedNew;
      ghost var info, buckets := mapInfo, vvNew;
      BucketCount(mapInfo, vvNew);
      id := Create(addr, source);
      ghost var created := mapInfo;
      CountsMore(info, created, nTried, nNew, id);
      mapInfo := mapInfo[id := mapInfo[id].(nTime := Max(0, mapInfo[id].nTime - nTimePenalty))];
      nNew := nNew + 1;
      StatsKeep(h, created, mapInfo, mapAddr, vRandom, vvTried, vvNew, nTried, nNew, id, nIdCount);
      OthersKeep(info, mapInfo, id);
      Unreferenced(mapInfo, vvNew, id);
      ghost var middle := mapInfo;
      var nUBucket := h.NewBucket(mapInfo[id].addr, source);
      dropped := EnterNewBucket(id, nUBucket, nNow);
      NewEntered(h, info, middle, mapInfo, buckets, vvNew, id, |old(vRandom)|, addr, source, nTimePenalty, dropped);
    }

    /** Hear of an address from `source`. Says whether the address is new. */
    method Add(addr: Address, source: NetAddr, nTimePenalty: int, nNow: int, nRand: nat)
      returns (fNew: bool, ghost entered: bool, ghost dropped: Option<Id>)
      requires Valid()
      modifies this`nIdCount, this`mapInfo, this`mapAddr, this`vRandom, this`nNew, this`vvNew
      ensures Valid()
      ensures fNew <==> h.isRoutable(addr.addr) && addr.addr !in old(mapAddr)
      ensures !h.isRoutable(addr.addr) ==> mapInfo == old(mapInfo) && mapAddr == old(mapAddr) && vvNew == old(vvNew)
      ensures fNew ==> AddedNew(h, old(mapInfo), mapInfo, old(vvNew), vvNew, old(nIdCount), |old(vRandom)|, addr, source, nTimePenalty, dropped)
      ensures h.isRoutable(addr.addr) && !fNew ==>
                AddedKnown(h, old(mapInfo), mapInfo, old(vvNew), vvNew, old(mapAddr)[addr.addr], addr, source, nTimePenalty, nNow, entered, dropped)
                && old(mapInfo)[old(mapAddr)[addr.addr]].nRefCount >= 0
                && (entered <==> Welcome(Refreshed(old(mapInfo)[old(mapAddr)[addr.addr]], addr, nTimePenalty, nNow), addr)
                                 && nRand % Power2(old(mapInfo)[old(mapAddr)[addr.addr]].nRefCount) == 0)
    {
      hide LinksOk, NewOk, CountsOk, EntriesOk, AddedKnown, AddedNew, Welcome, Refreshed, Power2;
      fNew, entered, dropped := false, false, None;
      if !h.isRoutable(addr.addr) {
        return;
      }
      var pinfo := Find(addr.addr);
      if pinfo.Some? {
        entered, dropped := AddKnown(pinfo.value, addr, source, nTimePenalty, nNow, nRand);
      } else {
        var id;
        id, dropped := AddNew(addr, source, nTimePenalty, nNow);
        fNew := true;
      }
    }

    /** A connection to an address is attempted. */
    method Attempt(addr: NetAddr, port: nat, nTime: int)
      requires Valid()
      modifies this`mapInfo
      ensures Linked() && NewOk(mapInfo, vvNew) && CountsOk(mapInfo, nTried, nNew)
      ensures Valid() <==> nTime >= 0 || !Holds(old(mapInfo), addr, port)
      ensures if Holds(old(mapInfo), addr, port) then
                var n := old(mapAddr)[addr];
                n in old(mapInfo) && mapInfo == old(mapInfo)[n := old(mapInfo)[n].(nLastTry := nTime, nAttempts := old(mapInfo)[n].nAttempts + 1)]
              else mapInfo == old(mapInfo)
    {
      hide LinksOk, NewOk, CountsOk, OthersOk, EntriesOk, Holds;
      var pinfo := Find(addr);
      HoldsFound(mapInfo, addr, port, pinfo);
      if pinfo.None? {
        return;
      }
      var id := pinfo.value;
      if mapInfo[id].port != port {
        return;
      }
      ghost var info := mapInfo;
      EntryInOrder(info, id);
      mapInfo := mapInfo[id := mapInfo[id].(nLastTry := nTime, nAttempts := mapInfo[id].nAttempts + 1)];
      StatsKeep(h, info, mapInfo, mapAddr, vRandom, vvTried, vvNew, nTried, nNew, id, nIdCount);
      OthersKeep(info, mapInfo, id);
      AllEntries(mapInfo, id);
    }

    /** We are connected to an address now. */
    method Connected(addr: NetAddr, port: nat, nTime: int)
      requires Valid()
      modifies this`mapInfo
      ensures Valid()
      ensures if Holds(old(mapInfo), addr, port) && nTime - old(mapInfo)[old(mapAddr)[addr]].nTime > 20 * 60 then
                mapInfo == old(mapInfo)[old(mapAddr)[addr] := old(mapInfo)[old(mapAddr)[addr]].(nTime := nTime)]
              else mapInfo == old(mapInfo)
    {
      hide LinksOk, NewOk, CountsOk, OthersOk, EntriesOk, Holds;
      var pinfo := Find(addr);
      HoldsFound(mapInfo, addr, port, pinfo);
      if pinfo.None? {
        return;
      }
      var id := pinfo.value;
      if mapInfo[id].port != port {
        return;
      }
      ghost var info := mapInfo;
      EntryInOrder(info, id);
      var nUpdateInterval := 20 * 60;
      if nTime - mapInfo[id].nTime > nUpdateInterval {
        mapInfo := mapInfo[id := mapInfo[id].(nTime := nTime)];
        StatsKeep(h, info, mapInfo, mapAddr, vRandom, vvTried, vvNew, nTried, nNew, id, nIdCount);
        OthersKeep(info, mapInfo, id);
        AllEntries(mapInfo, id);
      }
    }

    /** Some addresses, drawn at random without repetition. */
    method GetAddr() returns (vAddr: seq<Address>)
      requires Valid()
      modifies this`mapInfo, this`vRandom
      ensures Valid() && Moved(old(mapInfo), mapInfo) && multiset(vRandom) == multiset(old(vRandom))
      ensures |vAddr| == (if 23 * |vRandom| / 100 > 2500 then 2500 else 23 * |vRandom| / 100)
      ensures Drawn(mapInfo, vRandom, vAddr)
      ensures forall i, j | 0 <= i < j < |vAddr| :: vAddr[i].addr != vAddr[j].addr
    {
      hide LinksOk, RandomOk, NewOk, CountsOk, EntriesOk, Moved, Drawn;
      ghost var info, ids := mapInfo, vRandom;
      var nNodes := 23 * |vRandom| / 100;
      if nNodes > 2500 {
        nNodes := 2500;
      }
      vAddr := [];
      DrawnNone(mapInfo, vRandom);
      LinksRandom();
      var n: nat := 0;
      while n < nNodes
        invariant 0 <= n <= nNodes <= |vRandom| && |vRandom| == |ids| && multiset(vRandom) == multiset(ids)
        invariant RandomOk(mapInfo, vRandom) && Moved(info, mapInfo) && |vAddr| == n && Drawn(info, vRandom, vAddr)
      {
        ghost var before, oldRandom, oldAddr := mapInfo, vRandom, vAddr;
        var r := DrawOne(n);
        MovedTwice(info, before, mapInfo);
        vAddr := vAddr + [r];
        DrawnMore(info, mapInfo, oldRandom, vRandom, oldAddr, vAddr);
        n := n + 1;
      }
      MovedAll(h, info, mapInfo, mapAddr, ids, vRandom, vvTried, vvNew, nTried, nNew, nIdCount);
      DrawnMoved(info, mapInfo, vRandom, vAddr);
      DrawnDistinct(vAddr);
    }

    /** Move a random later id to position `n` and report its address. */
    method DrawOne(n: nat) returns (r: Address)
      requires RandomOk(mapInfo, vRandom) && n < |vRandom|
      modifies this`mapInfo, this`vRandom
      ensures RandomOk(mapInfo, vRandom) && Moved(old(mapInfo), mapInfo)
      ensures |vRandom| == |old(vRandom)| && multiset(vRandom) == multiset(old(vRandom)) && vRandom[..n] == old(vRandom)[..n]
      ensures vRandom[n] in mapInfo && r == AddressOf(mapInfo[vRandom[n]])
    {
      hide RandomOk, Moved;
      ghost var oldRandom := vRandom;
      var k := GetRandInt(|vRandom| - n);
      SwapRandom(n, k + n);
      Exchanged(oldRandom, n, k + n);
      assert vRandom == SwapAt(oldRandom, n, k + n);
      RandomKnown(mapInfo, vRandom, n);
      r := AddressOf(mapInfo[vRandom[n]]);
    }

    lemma LinksRandom()
      requires Linked()
      ensures RandomOk(mapInfo, vRandom)
    {
    }

    lemma DrawnDistinct(vAddr: seq<Address>)
      requires Linked() && |vAddr| <= |vRandom|
      requires Drawn(mapInfo, vRandom, vAddr)
      ensures forall i, j | 0 <= i < j < |vAddr| :: vAddr[i].addr != vAddr[j].addr
    {
    }

    lemma FoundId(n: Id)
      requires Linked() && n in mapInfo
      ensures mapInfo[n].addr in mapAddr && mapAddr[mapInfo[n].addr] == n && |vvTried| == TRIED_BUCKET_COUNT
    {
    }

    // ---------------------------------------------------------------- file form

    ghost function TablesOf(): Tables
      reads this
    {
      Tables(nIdCount, mapInfo, mapAddr, vRandom, vvTried, vvNew, 0)
    }

    /** List the new entries, giving each an index. */
    method SaveNew(q: seq<Id>) returns (infos: seq<SavedInfo>, mapUnkIds: map<Id, Id>, ghost newIds: seq<Id>)
      requires EntriesOk(mapInfo) && CountsOk(mapInfo, nTried, nNew) && Increasing(q) && forall n :: n in q <==> n in mapInfo
      ensures Listed(mapInfo, infos, newIds) && NoDup(newIds) && forall n :: n in newIds <==> n in NewIds(mapInfo)
      ensures forall i | 0 <= i < |newIds| :: newIds[i] in mapUnkIds && mapUnkIds[newIds[i]] == i
    {
      infos, mapUnkIds, newIds := [], map[], [];
      var nIds, i := 0, 0;
      while i < |q| && nIds != nNew
        invariant 0 <= i <= |q| && nIds == |newIds| && Listed(mapInfo, infos, newIds) && NoDup(newIds)
        invariant forall n :: n in newIds <==> n in q[..i] && n in NewIds(mapInfo)
        invariant forall j | 0 <= j < |newIds| :: newIds[j] in mapUnkIds && mapUnkIds[newIds[j]] == j
      {
        assert q[i] in q && q[..i + 1] == q[..i] + [q[i]];
        assert EntryOk(mapInfo[q[i]]);
        assert q[i] !in q[..i];
        mapUnkIds := mapUnkIds[q[i] := nIds];
        if mapInfo[q[i]].nRefCount != 0 {
          infos := infos + [ToSaved(mapInfo[q[i]])];
          newIds := newIds + [q[i]];
          nIds := nIds + 1;
        }
        i := i + 1;
      }
      if i == |q| {
        assert q[..i] == q;
      } else {
        AllListed(newIds, NewIds(mapInfo));
      }
    }

    /** List the tried entries. */
    method SaveTried(q: seq<Id>) returns (infos: seq<SavedInfo>, ghost triedIds: seq<Id>)
      requires CountsOk(mapInfo, nTried, nNew) && Increasing(q) && forall n :: n in q <==> n in mapInfo
      ensures Listed(mapInfo, infos, triedIds) && NoDup(triedIds) && forall n :: n in triedIds <==> n in TriedIds(mapInfo)
    {
      infos, triedIds := [], [];
      var nIds, i := 0, 0;
      while i < |q| && nIds != nTried
        invariant 0 <= i <= |q| && nIds == |triedIds| && Listed(mapInfo, infos, triedIds) && NoDup(triedIds)
        invariant forall n :: n in triedIds <==> n in q[..i] && n in TriedIds(mapInfo)
      {
        assert q[i] in q && q[..i + 1] == q[..i] + [q[i]];
        assert q[i] !in q[..i];
        if mapInfo[q[i]].fInTried {
          infos := infos + [ToSaved(mapInfo[q[i]])];
          triedIds := triedIds + [q[i]];
          nIds := nIds + 1;
        }
        i := i + 1;
      }
      if i == |q| {
        assert q[..i] == q;
      } else {
        AllListed(triedIds, TriedIds(mapInfo));
      }
    }

    /** Write the whole state. */
    method Save() returns (s: Saved, ghost newIds: seq<Id>, ghost triedIds: seq<Id>)
      requires Valid()
      ensures s.nKey == h.nKey && SavedAs(TablesOf(), s, newIds, triedIds)
    {
      hide LinksOk, NewOk, CountsOk, EntriesOk, Listed, Increasing, NoDup, BucketAs, TriedIds, NewIds;
      var q := Ascending(mapInfo.Keys);
      var newInfos, mapUnkIds, triedInfos;
      newInfos, mapUnkIds, newIds := SaveNew(q);
      triedInfos, triedIds := SaveTried(q);
      BucketCount(mapInfo, vvNew);
      var buckets: seq<seq<Id>> := [];
      var b: nat := 0;
      while b < |vvNew|
        invariant 0 <= b <= |vvNew| && |buckets| == b
        invariant forall c | 0 <= c < b :: BucketAs(vvNew[c], buckets[c], newIds)
      {
        BucketListed(b, newIds);
        var indices := SaveBucket(vvNew[b], mapUnkIds, newIds);
        buckets := buckets + [indices];
        b := b + 1;
      }
      s := Saved(h.nKey, nNew, nTried, newInfos, triedInfos, buckets);
      CountsListed(mapInfo, nTried, nNew, newIds, triedIds);
      AllSaved(TablesOf(), s, newIds, triedIds);
    }

    /** Read the new entries; each goes into its own bucket if the number of buckets in the file is not the present one. */
    method LoadNewEntries(s: Saved, nUBuckets: nat)
      requires s.WellFormed() && nUBuckets == |s.buckets| && nNew == s.nNew && TablesOf() == NoTables()
      modifies this`mapInfo, this`mapAddr, this`vRandom, this`vvNew
      ensures TablesOf() == LoadNew(h, s, |s.newInfos|)
    {
      hide FromSaved, Hashing.NewBucket;
      var n: nat := 0;
      while n < nNew
        invariant 0 <= n <= nNew == s.nNew && TablesOf() == LoadNew(h, s, n)
      {
        var info := FromSaved(s.newInfos[n]);
        Afresh(s.newInfos[n]);
        mapAddr := mapAddr[info.addr := n];
        info := info.(nRandomPos := |vRandom|);
        vRandom := vRandom + [n];
        if nUBuckets != NEW_BUCKET_COUNT {
          var b := h.NewBucket(info.addr, info.source);
          vvNew := vvNew[b := vvNew[b] + {n}];
          info := info.(nRefCount := info.nRefCount + 1);
        }
        mapInfo := mapInfo[n := info];
        n := n + 1;
      }
    }

    /** Read the tried entries, counting those whose bucket has no room. */
    method LoadTriedEntries(s: Saved) returns (nLost: nat)
      requires s.WellFormed() && TablesOf() == LoadTried(h, s, 0)
      modifies this`nIdCount, this`mapInfo, this`mapAddr, this`vRandom, this`vvTried
      ensures nLost == LoadTried(h, s, |s.triedInfos|).lost && TablesOf() == LoadTried(h, s, |s.triedInfos|).(lost := 0)
    {
      hide LoadNew, FromSaved, Hashing.TriedBucket;
      nLost := 0;
      var n: nat := 0;
      while n < s.nTried
        invariant n <= |s.triedInfos| && TablesOf().(lost := nLost) == LoadTried(h, s, n)
      {
        var info := FromSaved(s.triedInfos[n]);
        var b := h.TriedBucket(info.addr, info.port);
        if |vvTried[b]| < TRIED_BUCKET_SIZE {
          info := info.(nRandomPos := |vRandom|, fInTried := true);
          vRandom := vRandom + [nIdCount];
          mapInfo := mapInfo[nIdCount := info];
          mapAddr := mapAddr[info.addr := nIdCount];
          vvTried := vvTried[b := vvTried[b] + [nIdCount]];
          nIdCount := nIdCount + 1;
        } else {
          nLost := nLost + 1;
        }
        n := n + 1;
      }
    }

    /** Read the buckets of new entries; nothing is done with them if their number is not the present one. */
    method LoadNewBuckets(s: Saved, nUBuckets: nat)
      requires s.WellFormed() && nUBuckets == |s.buckets| && TablesOf() == LoadBuckets(h, s, 0).(lost := 0)
      modifies this`mapInfo, this`vvNew
      ensures TablesOf() == Loaded(h, s).(lost := 0)
    {
      hide LoadTried, AddRef;
      ghost var lost := LoadBuckets(h, s, 0).lost;
      var b: nat := 0;
      while b < nUBuckets
        invariant b <= nUBuckets && TablesOf().(lost := lost) == LoadBuckets(h, s, b)
      {
        ghost var t := LoadBuckets(h, s, b);
        var n: nat := 0;
        while n < |s.buckets[b]|
          invariant n <= |s.buckets[b]| && TablesOf().(lost := lost) == if s.OwnBuckets() then t else LoadBucket(t, b, s.buckets[b], n)
        {
          var nIndex := s.buckets[b][n];
          if nUBuckets == NEW_BUCKET_COUNT {
            TakeRef(TablesOf().(lost := lost), b, nIndex);
          }
          if nUBuckets == NEW_BUCKET_COUNT && mapInfo[nIndex].nRefCount < NEW_BUCKETS_PER_ADDRESS {
            mapInfo := mapInfo[nIndex := mapInfo[nIndex].(nRefCount := mapInfo[nIndex].nRefCount + 1)];
            vvNew := vvNew[b := vvNew[b] + {nIndex}];
          }
          n := n + 1;
        }
        b := b + 1;
      }
    }

    /** After loading what a consistent manager saved, this one is consistent, and the same up to a
    renumbering of the ids; no address is lost. */
    lemma LoadsWhatWasSaved(o: Tables, s: Saved, newIds: seq<Id>, triedIds: seq<Id>)
      requires Consistent(h, o) && SavedAs(o, s, newIds, triedIds)
      requires TablesOf() == Loaded(h, s).(lost := 0) && nNew == s.nNew && nTried == s.nTried - Loaded(h, s).lost
      ensures Valid() && SameUpTo(o, TablesOf(), newIds + triedIds)
    {
      hide LinksOk, NewOk, EntriesOk, CountsOk, SavedAs, LoadBuckets;
      RoundTrip(h, o, s, newIds, triedIds);
    }

    /** Replace the whole state by what a file holds, whatever its number of new buckets. */
    method Load(s: Saved)
      requires s.WellFormed()
      modifies this
      ensures h == old(h).(nKey := s.nKey) && nNew == s.nNew
      ensures TablesOf() == Loaded(h, s).(lost := 0) && nTried == s.nTried - Loaded(h, s).lost
    {
      hide LoadTried, LoadNew, LoadBuckets;
      h := h.(nKey := s.nKey);
      nNew, nTried := s.nNew, s.nTried;
      var nUBuckets := |s.buckets|;
      nIdCount, mapInfo, mapAddr, vRandom := 0, map[], map[], [];
      vvTried := seq(TRIED_BUCKET_COUNT, _ => []);
      vvNew := seq(NEW_BUCKET_COUNT, _ => {});
      LoadNewEntries(s, nUBuckets);
      nIdCount := nNew;
      LoadSteps(h, s);
      var nLost := LoadTriedEntries(s);
      nTried := nTried - nLost;
      LoadNewBuckets(s, nUBuckets);
    }

    lemma BucketListed(b: nat, newIds: seq<Id>)
      requires NewOk(mapInfo, vvNew) && EntriesOk(mapInfo) && b < |vvNew| && forall n :: n in newIds <==> n in NewIds(mapInfo)
      ensures forall n | n in vvNew[b] :: n in newIds
    {
      forall n | n in vvNew[b] ensures n in newIds {
        InBucket(mapInfo, vvNew, b, n, -1, 0);
        assert EntryOk(mapInfo[n]);
        assert n in NewIds(mapInfo);
      }
    }

    lemma LinksTried(n: Id)
      requires Linked() && n in mapInfo
      ensures TriedOk(h, mapInfo, vvTried) && |vvTried| == TRIED_BUCKET_COUNT
      ensures |vvTried[h.TriedBucket(mapInfo[n].addr, mapInfo[n].port)]| <= TRIED_BUCKET_SIZE
    {
      TriedCount(h, mapInfo, vvTried, n);
    }

    lemma Known(b: nat)
      requires BucketsOk(mapInfo, vvNew) && b < |vvNew|
      ensures vvNew[b] <= mapInfo.Keys
    {
    }
  }

  function AddressOf(e: AddrInfo): Address {
    Address(e.addr, e.port, e.nServices, e.nTime)
  }

  /** `vAddr` lists the addresses of the first ids in `rnd`. */
  ghost predicate Drawn(info: InfoMap, rnd: seq<Id>, vAddr: seq<Address>) {
    && |vAddr| <= |rnd|
    && forall i | 0 <= i < |vAddr| :: rnd[i] in info && vAddr[i] == AddressOf(info[rnd[i]])
  }

  lemma DrawnNone(info: InfoMap, rnd: seq<Id>)
    ensures Moved(info, info) && Drawn(info, rnd, [])
  {
  }

  lemma DrawnMore(info: InfoMap, w: InfoMap, rnd: seq<Id>, after: seq<Id>, vAddr: seq<Address>, longer: seq<Address>)
    requires Drawn(info, rnd, vAddr) && Moved(info, w) && |vAddr| < |after| == |rnd| && after[..|vAddr|] == rnd[..|vAddr|]
    requires after[|vAddr|] in w && longer == vAddr + [AddressOf(w[after[|vAddr|]])]
    ensures Drawn(info, after, longer)
  {
    forall i | 0 <= i < |vAddr| ensures after[i] == rnd[i] {
      assert after[..|vAddr|][i] == rnd[..|vAddr|][i];
    }
  }

  lemma DrawnMoved(info: InfoMap, w: InfoMap, rnd: seq<Id>, vAddr: seq<Address>)
    requires Drawn(info, rnd, vAddr) && Moved(info, w)
    ensures Drawn(w, rnd, vAddr)
  {
  }

  lemma RandomKnown(info: InfoMap, rnd: seq<Id>, k: nat)
    requires RandomOk(info, rnd) && k < |rnd|
    ensures rnd[k] in info
  {
  }

  /** Is this service (address and port) known? */
  ghost predicate Holds(info: InfoMap, addr: NetAddr, port: nat) {
    exists n :: n in info && info[n].addr == addr && info[n].port == port
  }

  lemma HoldsFound(info: InfoMap, addr: NetAddr, port: nat, r: Option<Id>)
    requires if r.Some? then r.value in info && info[r.value].addr == addr && forall n | n in info && info[n].addr == addr :: n == r.value
             else forall n | n in info :: info[n].addr != addr
    ensures Holds(info, addr, port) <==> r.Some? && info[r.value].port == port
  {
  }

  /** What an answer from the address of entry `n` changes. */
  ghost predicate Bettered(h: Hashing, info: InfoMap, w: InfoMap, n: Id, nTime: int, tried: TriedBuckets, after: TriedBuckets,
                           new_: NewBuckets, newAfter: NewBuckets, origin: int, gone: Option<Id>, draws: seq<nat>)
  {
    && n in info && |tried| == TRIED_BUCKET_COUNT && |new_| == NEW_BUCKET_COUNT
    && var middle := info[n := info[n].(nLastSuccess := nTime, nLastTry := nTime, nTime := nTime, nAttempts := 0)];
       if info[n].fInTried then w == middle && after == tried && newAfter == new_
       else 0 <= origin < |new_| && n in new_[origin] && MovedToTried(h, middle, w, tried, after, new_, newAfter, n, origin, gone, draws)
  }

  /** Leaving the new buckets does not touch what inspecting looks at. */
  lemma SelectedFrom(info: InfoMap, w: InfoMap, s: seq<Id>, n: Id, gone: Id, draws: seq<nat>)
    requires n in info && w == info[n := info[n].(nRefCount := 0)] && TriedKnown(w, s)
    requires DrawsOk(s, draws) && |draws| == TRIED_ENTRIES_INSPECT_ON_EVICT
    requires var r := Inspect(w, s, draws); 0 <= r.nOldestPos < |r.bucket| && gone == r.bucket[r.nOldestPos]
    ensures Selected(info, s, Put(Inspect(w, s, draws).bucket, Inspect(w, s, draws).nOldestPos, n), n, gone, draws)
  {
    hide Inspect, Put;
    InspectSame(info, w, s, draws);
  }

  lemma BetteredTried(h: Hashing, info: InfoMap, w: InfoMap, n: Id, nTime: int, tried: TriedBuckets, new_: NewBuckets, gone: Option<Id>, draws: seq<nat>)
    requires n in info && info[n].fInTried && |tried| == TRIED_BUCKET_COUNT && |new_| == NEW_BUCKET_COUNT
    requires w == info[n := info[n].(nLastSuccess := nTime, nLastTry := nTime, nTime := nTime, nAttempts := 0)]
    ensures Bettered(h, info, w, n, nTime, tried, tried, new_, new_, -1, gone, draws)
    ensures EntryOk(info[n]) ==> (EntryOk(w[n]) <==> nTime > 0)
  {
  }

  lemma BetteredNew(h: Hashing, info: InfoMap, middle: InfoMap, w: InfoMap, n: Id, nTime: int, tried: TriedBuckets, after: TriedBuckets,
                    new_: NewBuckets, newAfter: NewBuckets, origin: nat, gone: Option<Id>, draws: seq<nat>)
    requires n in info && !info[n].fInTried && |tried| == TRIED_BUCKET_COUNT && |new_| == NEW_BUCKET_COUNT
    requires middle == info[n := info[n].(nLastSuccess := nTime, nLastTry := nTime, nTime := nTime, nAttempts := 0)]
    requires origin < |new_| && n in new_[origin] && MovedToTried(h, middle, w, tried, after, new_, newAfter, n, origin, gone, draws)
    ensures Bettered(h, info, w, n, nTime, tried, after, new_, newAfter, origin, gone, draws)
    ensures n in w && (EntryOk(w[n]) <==> nTime > 0)
  {
  }

  /** What hearing of an unknown address changes. */
  ghost predicate AddedNew(h: Hashing, info: InfoMap, w: InfoMap, buckets: NewBuckets, after: NewBuckets, n: Id, pos: nat,
                           addr: Address, source: NetAddr, nTimePenalty: int, dropped: Option<Id>)
  {
    && n !in info && |buckets| == |after| == NEW_BUCKET_COUNT
    && var e := AddrInfo(addr.addr, addr.port, addr.nServices, Max(0, addr.nTime - nTimePenalty), source, 0, 0, 0, 0, false, pos);
       var b := h.NewBucket(addr.addr, source);
       n !in buckets[b] && n in after[b] && Entered(info[n := e], w, buckets, after, n, b, dropped)
  }

  /** What hearing of a known address changes; `entered` says whether it was considered for one more bucket. */
  ghost predicate AddedKnown(h: Hashing, info: InfoMap, w: InfoMap, buckets: NewBuckets, after: NewBuckets, n: Id,
                             addr: Address, source: NetAddr, nTimePenalty: int, nNow: int, entered: bool, dropped: Option<Id>)
  {
    && n in info && |buckets| == |after| == NEW_BUCKET_COUNT
    && var e := Refreshed(info[n], addr, nTimePenalty, nNow);
       var b := h.NewBucket(addr.addr, source);
       if entered then Welcome(e, addr) && n in after[b] && Entered(info[n := e], w, buckets, after, n, b, dropped)
       else w == info[n := e] && after == buckets && dropped == None && (Welcome(e, addr) ==> e.nRefCount > 0)
  }

  lemma RefreshedIs(e: AddrInfo, f: AddrInfo, addr: Address, nTimePenalty: int, nNow: int)
    requires f == e.(nTime := f.nTime, nServices := Union(e.nServices, addr.nServices))
    requires var online := nNow - addr.nTime < 24 * 60 * 60;
             var interval := if online then 60 * 60 else 24 * 60 * 60;
             f.nTime == if addr.nTime != 0 && (e.nTime == 0 || e.nTime < addr.nTime - interval - nTimePenalty) then Max(0, addr.nTime - nTimePenalty) else e.nTime
    ensures f == Refreshed(e, addr, nTimePenalty, nNow)
  {
  }

  lemma KnownOnly(h: Hashing, info: InfoMap, w: InfoMap, buckets: NewBuckets, n: Id, addr: Address, source: NetAddr, nTimePenalty: int, nNow: int)
    requires n in info && |buckets| == NEW_BUCKET_COUNT && w == info[n := Refreshed(info[n], addr, nTimePenalty, nNow)] && EntryOk(info[n])
    ensures AddedKnown(h, info, w, buckets, buckets, n, addr, source, nTimePenalty, nNow, false, None)
  {
  }

  lemma KnownEntered(h: Hashing, info: InfoMap, middle: InfoMap, w: InfoMap, buckets: NewBuckets, after: NewBuckets, n: Id,
                     addr: Address, source: NetAddr, nTimePenalty: int, nNow: int, dropped: Option<Id>)
    requires n in info && info[n].addr == addr.addr && |buckets| == |after| == NEW_BUCKET_COUNT
    requires middle == info[n := Refreshed(info[n], addr, nTimePenalty, nNow)] && Welcome(middle[n], addr)
    requires var b := h.NewBucket(addr.addr, source); n in after[b] && Entered(middle, w, buckets, after, n, b, dropped)
    ensures AddedKnown(h, info, w, buckets, after, n, addr, source, nTimePenalty, nNow, true, dropped)
  {
  }

  lemma NewEntered(h: Hashing, info: InfoMap, middle: InfoMap, w: InfoMap, buckets: NewBuckets, after: NewBuckets, n: Id, pos: nat,
                   addr: Address, source: NetAddr, nTimePenalty: int, dropped: Option<Id>)
    requires n !in info && |buckets| == |after| == NEW_BUCKET_COUNT
    requires middle == info[n := AddrInfo(addr.addr, addr.port, addr.nServices, Max(0, addr.nTime - nTimePenalty), source, 0, 0, 0, 0, false, pos)]
    requires var b := h.NewBucket(addr.addr, source); n !in buckets[b] && n in after[b] && Entered(middle, w, buckets, after, n, b, dropped)
    ensures AddedNew(h, info, w, buckets, after, n, pos, addr, source, nTimePenalty, dropped)
  {
  }

  // ---------------------------------------------------------------- listing for the file

  ghost predicate Listed(info: InfoMap, infos: seq<SavedInfo>, ids: seq<Id>) {
    |infos| == |ids| && forall i | 0 <= i < |ids| :: ids[i] in info && infos[i] == ToSaved(info[ids[i]])
  }

  /** A list without repetition that is as long as the set it is drawn from has all of it. */
  lemma AllListed(ids: seq<Id>, s: set<Id>)
    requires NoDup(ids) && |ids| == |s| && forall n | n in ids :: n in s
    ensures forall n :: n in ids <==> n in s
  {
    var t := set n | n in ids;
    NoDupSize(ids, t);
    if n :| n in s && n !in ids {
      assert t <= s - {n};
      SubsetSize(t, s - {n});
    }
  }

  lemma {:induction false} NoDupSize(ids: seq<Id>, t: set<Id>)
    requires NoDup(ids) && forall n :: n in t <==> n in ids
    ensures |t| == |ids|
  {
    if ids != [] {
      var last := ids[|ids| - 1];
      assert ids == ids[..|ids| - 1] + [last];
      NoDupSize(ids[..|ids| - 1], t - {last});
    }
  }

  lemma CountsListed(info: InfoMap, nTried: int, nNew: int, newIds: seq<Id>, triedIds: seq<Id>)
    requires CountsOk(info, nTried, nNew) && IdLists(info, newIds, triedIds)
    ensures nNew == |newIds| && nTried == |triedIds|
  {
    NoDupSize(newIds, NewIds(info));
    NoDupSize(triedIds, TriedIds(info));
  }

  /** Write one bucket as indices. */
  method SaveBucket(bucket: set<Id>, mapUnkIds: map<Id, Id>, ghost newIds: seq<Id>) returns (indices: seq<Id>)
    requires NoDup(newIds) && (forall n | n in bucket :: n in newIds)
    requires forall i | 0 <= i < |newIds| :: newIds[i] in mapUnkIds && mapUnkIds[newIds[i]] == i
    ensures BucketAs(bucket, indices, newIds)
  {
    var ids := Ascending(bucket);
    indices := [];
    var k: nat := 0;
    while k < |ids|
      invariant 0 <= k <= |ids| && |indices| == k
      invariant forall j | 0 <= j < k :: indices[j] < |newIds| && newIds[indices[j]] == ids[j]
    {
      assert ids[k] in ids;
      indices := indices + [mapUnkIds[ids[k]]];
      k := k + 1;
    }
    Indexed(bucket, ids, indices, newIds);
  }

  lemma Indexed(bucket: set<Id>, ids: seq<Id>, indices: seq<Id>, newIds: seq<Id>)
    requires NoDup(newIds) && Increasing(ids) && |ids| == |bucket| == |indices| && forall n :: n in ids <==> n in bucket
    requires forall j | 0 <= j < |ids| :: indices[j] < |newIds| && newIds[indices[j]] == ids[j]
    ensures BucketAs(bucket, indices, newIds)
  {
    forall i: Id ensures i in indices <==> i < |newIds| && newIds[i] in bucket {
      if i in indices {
        var j :| 0 <= j < |indices| && indices[j] == i;
        assert ids[j] in ids;
      }
      if i < |newIds| && newIds[i] in bucket {
        assert newIds[i] in ids;
        var j :| 0 <= j < |ids| && ids[j] == newIds[i];
        assert indices[j] == i;
      }
    }
    assert NoDup(indices);
  }

  lemma AllSaved(o: Tables, s: Saved, newIds: seq<Id>, triedIds: seq<Id>)
    requires IdLists(o.info, newIds, triedIds) && s.nNew == |newIds| && s.nTried == |triedIds|
    requires Listed(o.info, s.newInfos, newIds) && Listed(o.info, s.triedInfos, triedIds)
    requires |o.new_| == |s.buckets| == NEW_BUCKET_COUNT && forall b | 0 <= b < |s.buckets| :: BucketAs(o.new_[b], s.buckets[b], newIds)
    ensures SavedAs(o, s, newIds, triedIds)
  {
    forall b, i | 0 <= b < |s.buckets| && 0 <= i < |s.buckets[b]| ensures s.buckets[b][i] < |s.newInfos| {
      assert BucketAs(o.new_[b], s.buckets[b], newIds);
      assert s.buckets[b][i] in s.buckets[b];
    }
  }

  lemma ShrunkTerrible(info: InfoMap, s: set<Id>, nNow: int, gone: Id)
    requires s <= info.Keys && gone in info
    requires exists i :: 0 <= i < |s| && Ascending(s)[i] == gone && info[gone].IsTerrible(nNow)
                         && forall j | 0 <= j < i :: Ascending(s)[j] in info && !info[Ascending(s)[j]].IsTerrible(nNow)
    ensures Shrunk(info, s, nNow, 0, gone, [])
  {
    hide AddrInfo.IsTerrible, Ascending;
    var q := Ascending(s);
    var i :| 0 <= i < |s| && q[i] == gone && info[gone].IsTerrible(nNow) && forall j | 0 <= j < i :: q[j] in info && !info[q[j]].IsTerrible(nNow);
    forall n | n in s && n < gone ensures !info[n].IsTerrible(nNow) {
      assert n in q;
      var j :| 0 <= j < |q| && q[j] == n;
      assert j < i;
    }
  }

  lemma ShrunkOldest(info: InfoMap, s: set<Id>, nNow: int, gone: Id, draws: seq<nat>)
    requires s <= info.Keys && |draws| == 4 && (forall d | d in draws :: d < |s|)
    requires forall n | n in Ascending(s) :: n in info && !info[n].IsTerrible(nNow)
    requires gone in info && (exists k :: k in draws && gone == Ascending(s)[k] && FirstOldest(info, Ascending(s), draws, k))
    ensures Shrunk(info, s, nNow, 1, gone, draws)
  {
    hide AddrInfo.IsTerrible, Ascending, Increasing;
    var q := Ascending(s);
    var k :| k in draws && gone == q[k] && FirstOldest(info, q, draws, k);
    assert q[k] in q;
  }

  /** The entry at position `k` is the first one of the oldest of those drawn. */
  ghost predicate FirstOldest(info: InfoMap, q: seq<Id>, draws: seq<nat>, k: nat)
    requires k < |q| && (forall n | n in q :: n in info) && (forall d | d in draws :: d < |q|)
  {
    forall d | d in draws :: info[q[k]].nTime < info[q[d]].nTime || (info[q[k]].nTime == info[q[d]].nTime && k <= d)
  }

  /** Why `gone` was the entry to drop from bucket `s`. */
  ghost predicate Shrunk(info: InfoMap, s: set<Id>, nNow: int, r: int, gone: Id, draws: seq<nat>)
    requires s <= info.Keys
  {
    && gone in s
    && if r == 0 then
         && info[gone].IsTerrible(nNow)
         && forall n | n in s && n < gone :: !info[n].IsTerrible(nNow)
       else
         && r == 1 && |draws| == 4 && (forall n | n in s :: !info[n].IsTerrible(nNow))
         && (forall d | d in draws :: d < |s|)
         && (exists k :: k in draws && gone == Ascending(s)[k] && FirstOldest(info, Ascending(s), draws, k))
  }
}

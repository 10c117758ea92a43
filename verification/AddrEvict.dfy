/** Which entry a full tried bucket loses, and when that is one of the least recently good entries inspected. */
module AddrEvict {
  import opened Wrappers
  import opened AddrTables

  // ---------------------------------------------------------------- the shuffle, position by position

  /** What stands at position `p` after the given draws. */
  function Standing(s: seq<Id>, draws: seq<nat>, p: nat): (n: Id)
    requires DrawsOk(s, draws) && p < |s|
    ensures n in s
    decreases |draws|
  {
    if draws == [] then s[p] else
      var i := |draws| - 1;
      Standing(s, draws[..i], if p == i then draws[i] else if p == draws[i] then i else p)
  }

  /** The entry inspected in step `i`: what stood at the position drawn. */
  function Drawn(s: seq<Id>, draws: seq<nat>, i: nat): (n: Id)
    requires DrawsOk(s, draws) && i < |draws|
    ensures n in s
  {
    Standing(s, draws[..i], draws[i])
  }

  /** The entry that step `i` moves away from position `i`. */
  function Ousted(s: seq<Id>, draws: seq<nat>, i: nat): (n: Id)
    requires DrawsOk(s, draws) && i < |draws|
    ensures n in s
  {
    Standing(s, draws[..i], i)
  }

  /** The first of the inspected entries that were good longest ago. */
  function FirstOldest(info: InfoMap, s: seq<Id>, draws: seq<nat>): (m: nat)
    requires DrawsOk(s, draws) && draws != [] && TriedKnown(info, s)
    ensures m < |draws|
    decreases |draws|
  {
    var i := |draws| - 1;
    if i == 0 then 0 else
      var m := FirstOldest(info, s, draws[..i]);
      if info[Drawn(s, draws, i)].nLastSuccess < info[Drawn(s, draws, m)].nLastSuccess then i else m
  }

  /** The last step that draws position `p`; -1 if none does. */
  function LastDraw(draws: seq<nat>, p: nat): (j: int)
    ensures -1 <= j < |draws| && (j >= 0 ==> draws[j] == p)
    ensures forall i | j < i < |draws| :: draws[i] != p
  {
    if draws == [] then -1
    else if draws[|draws| - 1] == p then |draws| - 1
    else LastDraw(draws[..|draws| - 1], p)
  }

  lemma {:induction false} FirstOldestIs(info: InfoMap, s: seq<Id>, draws: seq<nat>)
    requires DrawsOk(s, draws) && draws != [] && TriedKnown(info, s)
    ensures var m := FirstOldest(info, s, draws);
            && (forall i | 0 <= i < |draws| :: info[Drawn(s, draws, m)].nLastSuccess <= info[Drawn(s, draws, i)].nLastSuccess)
            && (forall i | 0 <= i < m :: info[Drawn(s, draws, m)].nLastSuccess < info[Drawn(s, draws, i)].nLastSuccess)
    decreases |draws|
  {
    var i := |draws| - 1;
    if i > 0 {
      FirstOldestIs(info, s, draws[..i]);
      forall j | 0 <= j < i ensures Drawn(s, draws[..i], j) == Drawn(s, draws, j) {
        assert draws[..i][..j] == draws[..j];
      }
    }
  }

  /** An inspected entry stays at the position of its step. */
  lemma {:induction false} Stays(s: seq<Id>, draws: seq<nat>, i: nat)
    requires DrawsOk(s, draws) && i < |draws|
    ensures Standing(s, draws, i) == Drawn(s, draws, i)
    decreases |draws|
  {
    var l := |draws| - 1;
    if i < l {
      Stays(s, draws[..l], i);
      assert draws[..l][..i] == draws[..i];
    }
  }

  /** A position behind those of the steps holds what the last step that drew it moved there. */
  lemma {:induction false} Behind(s: seq<Id>, draws: seq<nat>, p: nat)
    requires DrawsOk(s, draws) && |draws| <= p < |s|
    ensures var j := LastDraw(draws, p); Standing(s, draws, p) == if j < 0 then s[p] else Ousted(s, draws, j)
    decreases |draws|
  {
    if draws != [] {
      var l := |draws| - 1;
      if draws[l] != p {
        Behind(s, draws[..l], p);
        var j := LastDraw(draws, p);
        if j >= 0 {
          assert draws[..l][..j] == draws[..j];
        }
      }
    }
  }

  // ---------------------------------------------------------------- inspecting is that shuffle

  lemma {:induction false} InspectIs(info: InfoMap, s: seq<Id>, draws: seq<nat>)
    requires DrawsOk(s, draws) && TriedKnown(info, s)
    ensures var r := Inspect(info, s, draws);
            && (forall p | 0 <= p < |s| :: r.bucket[p] == Standing(s, draws, p))
            && (draws != [] ==>
                  var m := FirstOldest(info, s, draws);
                  r.step == m && r.nOldestPos == draws[m] && r.nOldest == Drawn(s, draws, m))
    decreases |draws|
  {
    hide Inspect, Standing, Drawn, FirstOldest;
    if draws == [] {
      NoDraws(info, s);
      forall p | 0 <= p < |s| ensures Standing(s, draws, p) == s[p] {
        Untouched(s, draws, p);
      }
    } else {
      var i := |draws| - 1;
      InspectIs(info, s, draws[..i]);
      InspectStep(info, s, draws, Inspect(info, s, draws[..i]));
    }
  }

  lemma OneIs(info: InfoMap, p: Inspection, i: nat, nPos: nat)
    requires i <= nPos < |p.bucket| && TriedKnown(info, p.bucket)
    requires p.nOldest == -1 || (0 <= p.step < i && p.bucket[p.step] == p.nOldest)
    ensures var r := InspectOne(info, p, i, nPos);
            && (forall q | 0 <= q < |p.bucket| :: r.bucket[q] == p.bucket[if q == i then nPos else if q == nPos then i else q])
            && p.bucket[nPos] in info && (p.nOldest != -1 ==> p.nOldest in info)
            && if p.nOldest == -1 || info[p.bucket[nPos]].nLastSuccess < info[p.nOldest].nLastSuccess
               then r.nOldest == p.bucket[nPos] && r.nOldestPos == nPos && r.step == i
               else r.nOldest == p.nOldest && r.nOldestPos == p.nOldestPos && r.step == p.step
  {
    assert p.bucket[nPos] in p.bucket;
    assert p.nOldest != -1 ==> p.nOldest in p.bucket;
  }

  lemma InspectStep(info: InfoMap, s: seq<Id>, draws: seq<nat>, p: Inspection)
    requires DrawsOk(s, draws) && draws != [] && TriedKnown(info, s)
    requires p == Inspect(info, s, draws[..|draws| - 1])
    requires forall q | 0 <= q < |s| :: p.bucket[q] == Standing(s, draws[..|draws| - 1], q)
    requires |draws| > 1 ==> var front := draws[..|draws| - 1]; var m := FirstOldest(info, s, front);
                             p.step == m && p.nOldestPos == front[m] && p.nOldest == Drawn(s, front, m)
    ensures var r, m := Inspect(info, s, draws), FirstOldest(info, s, draws);
            && (forall q | 0 <= q < |s| :: r.bucket[q] == Standing(s, draws, q))
            && r.step == m && r.nOldestPos == draws[m] && r.nOldest == Drawn(s, draws, m)
  {
    hide Inspect, InspectOne, Standing, Drawn, FirstOldest, NoDup;
    var i := |draws| - 1;
    OneIs(info, p, i, draws[i]);
    assert draws == draws[..i] + [draws[i]];
    OneMoreDraw(info, s, draws[..i], draws[i]);
    StandingStep(s, draws);
    OldestStep(info, s, draws);
    if i == 0 {
      assert draws[..0] == [];
      NoDraws(info, s);
    }
  }

  lemma StandingStep(s: seq<Id>, draws: seq<nat>)
    requires DrawsOk(s, draws) && draws != []
    ensures var i := |draws| - 1;
            && Standing(s, draws, i) == Standing(s, draws[..i], draws[i]) == Drawn(s, draws, i)
            && Standing(s, draws, draws[i]) == Standing(s, draws[..i], i)
            && forall p | 0 <= p < |s| && p != i && p != draws[i] :: Standing(s, draws, p) == Standing(s, draws[..i], p)
  {
  }

  lemma OldestStep(info: InfoMap, s: seq<Id>, draws: seq<nat>)
    requires DrawsOk(s, draws) && draws != [] && TriedKnown(info, s)
    ensures var i, m := |draws| - 1, FirstOldest(info, s, draws);
            if i == 0 then m == 0 else
              var k := FirstOldest(info, s, draws[..i]);
              && Drawn(s, draws[..i], k) == Drawn(s, draws, k)
              && m == if info[Drawn(s, draws, i)].nLastSuccess < info[Drawn(s, draws, k)].nLastSuccess then i else k
  {
    var i := |draws| - 1;
    if i > 0 {
      var k := FirstOldest(info, s, draws[..i]);
      assert draws[..i][..k] == draws[..k];
    }
  }

  /** Is the entry that leaves one of the least recently good among those inspected? It is when its draw left it in
  place; when the position drawn belongs to a later step, if that step's entry is as old; when it lies behind, if
  what was last moved there is no younger than the oldest. */
  ghost predicate OldOneLeaves(info: InfoMap, s: seq<Id>, draws: seq<nat>)
    requires DrawsOk(s, draws) && draws != [] && TriedKnown(info, s)
  {
    var m := FirstOldest(info, s, draws);
    var oldest := info[Drawn(s, draws, m)].nLastSuccess;
    if draws[m] == m then true
    else if draws[m] < |draws| then info[Drawn(s, draws, draws[m])].nLastSuccess == oldest
    else info[Ousted(s, draws, LastDraw(draws, draws[m]))].nLastSuccess <= oldest
  }

  /** Exactly then is the entry at the position returned at most as recently good as every entry inspected. */
  lemma EvictsOldest(info: InfoMap, s: seq<Id>, draws: seq<nat>)
    requires DrawsOk(s, draws) && draws != [] && TriedKnown(info, s)
    ensures var r := Inspect(info, s, draws);
            && 0 <= r.nOldestPos < |s|
            && ((forall i | 0 <= i < |draws| :: info[r.bucket[r.nOldestPos]].nLastSuccess <= info[Drawn(s, draws, i)].nLastSuccess)
                <==> OldOneLeaves(info, s, draws))
  {
    hide Inspect, FirstOldest, LastDraw, Standing, Drawn, Ousted;
    InspectIs(info, s, draws);
    FirstOldestIs(info, s, draws);
    var m := FirstOldest(info, s, draws);
    if draws[m] < |draws| {
      Stays(s, draws, draws[m]);
    } else {
      Behind(s, draws, draws[m]);
    }
  }

  /** When all draws are different and lie behind the steps, as most do in a full bucket, it is the entry that stood at
  position m of the bucket, whatever its age, where m is the step that drew the oldest. */
  lemma FarDraws(info: InfoMap, s: seq<Id>, draws: seq<nat>)
    requires DrawsOk(s, draws) && draws != [] && TriedKnown(info, s)
    requires forall i | 0 <= i < |draws| :: draws[i] >= |draws|
    requires forall i, j | 0 <= i < j < |draws| :: draws[i] != draws[j]
    ensures var r, m := Inspect(info, s, draws), FirstOldest(info, s, draws);
            && 0 <= r.nOldestPos < |s| && r.bucket[r.nOldestPos] == s[m]
            && forall i | 0 <= i < |draws| :: Drawn(s, draws, i) == s[draws[i]]
  {
    hide Inspect, FirstOldest, LastDraw, Standing;
    InspectIs(info, s, draws);
    var m := FirstOldest(info, s, draws);
    Behind(s, draws, draws[m]);
    Untouched(s, draws[..m], m);
    forall i | 0 <= i < |draws| ensures Drawn(s, draws, i) == s[draws[i]] {
      Untouched(s, draws[..i], draws[i]);
    }
  }

  lemma {:induction false} Untouched(s: seq<Id>, draws: seq<nat>, p: nat)
    requires DrawsOk(s, draws) && |draws| <= p < |s| && forall i | 0 <= i < |draws| :: draws[i] != p
    ensures Standing(s, draws, p) == s[p]
    decreases |draws|
  {
    if draws != [] {
      Untouched(s, draws[..|draws| - 1], p);
    }
  }

  /** A full bucket in which the second entry is the oldest of the first four, and draws that take it first: the
  first entry leaves, and the oldest stays. */
  lemma EvictionCanMiss(info: InfoMap, s: seq<Id>)
    requires |s| == TRIED_BUCKET_SIZE && TriedKnown(info, s)
    requires forall i | 0 <= i < 4 && i != 1 :: info[s[1]].nLastSuccess < info[s[i]].nLastSuccess
    ensures var draws := [1, 1, 2, 3];
            && DrawsOk(s, draws) && !OldOneLeaves(info, s, draws)
            && var r := Inspect(info, s, draws);
               0 <= r.nOldestPos < |s| && r.bucket[r.nOldestPos] == s[0] && s[1] in r.bucket[..4]
  {
    hide Inspect, FirstOldest, LastDraw, Standing;
    var draws := [1, 1, 2, 3];
    assert draws[..0] == [] && draws[..1] == [1] && draws[..2] == [1, 1] && draws[..3] == [1, 1, 2];
    assert [1][..0] == [];
    Untouched(s, [], 1);
    Untouched(s, [], 0);
    StandingStep(s, [1]);
    Untouched(s, [1, 1], 2);
    Untouched(s, [1, 1, 2], 3);
    assert Drawn(s, draws, 0) == s[1] && Drawn(s, draws, 1) == s[0] && Drawn(s, draws, 2) == s[2] && Drawn(s, draws, 3) == s[3];
    InspectIs(info, s, draws);
    FirstOldestIs(info, s, draws);
    Stays(s, draws, 0);
    Stays(s, draws, 1);
    assert Inspect(info, s, draws).bucket[0] == s[1];
  }

  // ---------------------------------------------------------------- promotion

  /** So the entry that a promotion displaces is one of the least recently good inspected under exactly that condition. */
  lemma PromotionEvicts(h: Hashing, info: InfoMap, w: InfoMap, tried: TriedBuckets, after: TriedBuckets,
                        new_: NewBuckets, newAfter: NewBuckets, n: Id, origin: nat, gone: Option<Id>, draws: seq<nat>)
    requires n in info && |tried| == TRIED_BUCKET_COUNT && |new_| == NEW_BUCKET_COUNT && origin < |new_|
    requires MovedToTried(h, info, w, tried, after, new_, newAfter, n, origin, gone, draws) && gone.Some?
    ensures var s := tried[h.TriedBucket(info[n].addr, info[n].port)];
            && DrawsOk(s, draws) && |draws| == TRIED_ENTRIES_INSPECT_ON_EVICT && TriedKnown(info, s) && gone.value in info
            && ((forall i | 0 <= i < |draws| :: info[gone.value].nLastSuccess <= info[Drawn(s, draws, i)].nLastSuccess)
                <==> OldOneLeaves(info, s, draws))
  {
    hide Inspect, OldOneLeaves;
    EvictsOldest(info, tried[h.TriedBucket(info[n].addr, info[n].port)], draws);
  }
}

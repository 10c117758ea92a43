/** The median time past of a block. */
module MedianTime {
  const MEDIAN_TIME_SPAN: nat := 11

  ghost predicate Sorted(s: seq<int>) {
    forall i, j | 0 <= i < j < |s| :: s[i] <= s[j]
  }

  /** How many elements are below `m`. */
  function CountLess(s: seq<int>, m: int): nat {
    if s == [] then 0 else CountLess(s[..|s| - 1], m) + if s[|s| - 1] < m then 1 else 0
  }

  function Insert(s: seq<int>, x: int): (r: seq<int>)
    requires Sorted(s)
    ensures Sorted(r) && multiset(r) == multiset(s) + multiset{x}
  {
    if s == [] then [x]
    else if s[|s| - 1] <= x then s + [x]
    else
      var rest, last := s[..|s| - 1], s[|s| - 1];
      assert s == rest + [last];
      var r := Insert(rest, x);
      AppendLargest(r, multiset(rest) + multiset{x}, last);
      r + [last]
  }

  lemma AppendLargest(r: seq<int>, m: multiset<int>, last: int)
    requires Sorted(r) && multiset(r) == m && forall x | x in m :: x <= last
    ensures Sorted(r + [last])
  {
    forall i | 0 <= i < |r| ensures r[i] <= last {
      assert r[i] in multiset(r);
    }
  }

  function Sort(s: seq<int>): (r: seq<int>)
    ensures Sorted(r) && multiset(r) == multiset(s) && |r| == |multiset(s)| == |s|
  {
    if s == [] then []
    else
      assert s == s[..|s| - 1] + [s[|s| - 1]];
      Insert(Sort(s[..|s| - 1]), s[|s| - 1])
  }

  lemma {:induction false} CountInsert(s: seq<int>, x: int, m: int)
    requires Sorted(s)
    ensures CountLess(Insert(s, x), m) == CountLess(s, m) + if x < m then 1 else 0
  {
    if s != [] && s[|s| - 1] > x {
      var rest, last := s[..|s| - 1], s[|s| - 1];
      CountInsert(rest, x, m);
      var r := Insert(rest, x);
      assert |r| == |multiset(r)| == |s|;
      assert (r + [last])[..|s|] == r;
    } else if s != [] {
      assert (s + [x])[..|s|] == s;
    }
  }

  lemma {:induction false} CountSort(s: seq<int>, m: int)
    ensures CountLess(Sort(s), m) == CountLess(s, m)
  {
    if s != [] {
      CountSort(s[..|s| - 1], m);
      CountInsert(Sort(s[..|s| - 1]), s[|s| - 1], m);
    }
  }

  /** Position `j` of a sorted sequence is at least `m` exactly when at most `j` elements are below `m`. */
  lemma {:induction false} CountAt(s: seq<int>, j: nat, m: int)
    requires Sorted(s) && j < |s|
    ensures s[j] >= m <==> CountLess(s, m) <= j
  {
    var rest := s[..|s| - 1];
    if j < |s| - 1 {
      CountAt(rest, j, m);
    } else if s[j] >= m {
      CountAtMost(rest, m);
    } else {
      CountAll(rest, m);
    }
  }

  lemma {:induction false} CountAtMost(s: seq<int>, m: int)
    ensures CountLess(s, m) <= |s|
  {
    if s != [] {
      CountAtMost(s[..|s| - 1], m);
    }
  }

  lemma {:induction false} CountAll(s: seq<int>, m: int)
    requires forall i | 0 <= i < |s| :: s[i] < m
    ensures CountLess(s, m) == |s|
  {
    if s != [] {
      CountAll(s[..|s| - 1], m);
    }
  }

  lemma {:induction false} CountConcat(s: seq<int>, t: seq<int>, m: int)
    ensures CountLess(s + t, m) == CountLess(s, m) + CountLess(t, m)
  {
    if t == [] {
      assert s + t == s;
    } else {
      assert (s + t)[..|s + t| - 1] == s + t[..|t| - 1];
      CountConcat(s, t[..|t| - 1], m);
    }
  }

  // ---------------------------------------------------------------- the median time past

  /** The times of up to eleven blocks ending with block `i`. */
  function Recent(times: seq<int>, i: nat): (w: seq<int>)
    requires i < |times|
    ensures |w| == if i < MEDIAN_TIME_SPAN then i + 1 else MEDIAN_TIME_SPAN
  {
    if i < MEDIAN_TIME_SPAN then times[..i + 1] else times[i - (MEDIAN_TIME_SPAN - 1)..i + 1]
  }

  /** The window is the last eleven blocks up to `i`, or all of them when there are fewer. */
  lemma RecentMeans(times: seq<int>, i: nat, k: nat)
    requires i < |times| && k < |Recent(times, i)|
    ensures |Recent(times, i)| <= 11 && (|Recent(times, i)| < 11 ==> |Recent(times, i)| == i + 1)
    ensures Recent(times, i)[|Recent(times, i)| - 1 - k] == times[i - k]
  {
  }

  function Median(w: seq<int>): int
    requires w != []
  {
    Sort(w)[|w| / 2]
  }

  /** At most half of the window lies below the median, and more than half not above it; and it is one of the window. */
  lemma MedianHalves(w: seq<int>)
    requires w != []
    ensures var m := Median(w); m in w && 2 * CountLess(w, m) <= |w| < 2 * CountLess(w, m + 1)
  {
    hide Sort, CountLess;
    var m := Median(w);
    assert m in multiset(Sort(w));
    CountSort(w, m);
    CountSort(w, m + 1);
    CountAt(Sort(w), |w| / 2, m);
    CountAt(Sort(w), |w| / 2, m + 1);
  }

  lemma MedianAtMost(w: seq<int>, m: int)
    requires w != [] && forall i | 0 <= i < |w| :: w[i] <= m
    ensures Median(w) <= m
  {
    assert Median(w) in multiset(Sort(w));
  }

  /** The chain is given by its block times from the genesis block on. */
  method GetMedianTimePast(times: seq<int>, i: nat) returns (m: int)
    requires i < |times|
    ensures m == Median(Recent(times, i))
  {
    hide Sort, Recent;
    var pmedian := Collect(times, i);
    pmedian := Sort(pmedian);
    m := pmedian[|pmedian| / 2];
  }

  /** Walk back from block `i` over up to eleven blocks. */
  method Collect(times: seq<int>, i: nat) returns (pmedian: seq<int>)
    requires i < |times|
    ensures pmedian == Recent(times, i)
  {
    pmedian := [];
    var k: nat := 0;
    while k < MEDIAN_TIME_SPAN && k <= i
      invariant k <= MEDIAN_TIME_SPAN && k <= i + 1 && |pmedian| == k
      invariant forall j | 0 <= j < k :: pmedian[j] == times[i + 1 - k + j]
    {
      pmedian := [times[i - k]] + pmedian;
      k := k + 1;
    }
  }

  /** No more elements of the window are below `m` once it has moved to a later block. */
  lemma WindowCount(times: seq<int>, i: nat, m: int)
    requires i + 1 < |times| && times[i + 1] >= m
    ensures CountLess(Recent(times, i + 1), m) <= CountLess(Recent(times, i), m)
  {
    hide CountLess;
    var x := times[i + 1];
    CountOne(x, m);
    if i + 1 < MEDIAN_TIME_SPAN {
      assert times[..i + 2] == times[..i + 1] + [x];
      CountConcat(times[..i + 1], [x], m);
    } else {
      var middle := times[i - 9..i + 1];
      OneIn(times, i, m);
      CountConcat([times[i - 10]], middle, m);
      CountConcat(middle, [x], m);
    }
  }

  lemma OneIn(times: seq<int>, i: nat, m: int)
    requires 10 <= i && i + 1 < |times|
    ensures Recent(times, i) == [times[i - 10]] + times[i - 9..i + 1]
    ensures Recent(times, i + 1) == times[i - 9..i + 1] + [times[i + 1]]
  {
  }

  /** A block later than the median time past does not lower it. */
  lemma MedianStep(times: seq<int>, i: nat)
    requires i + 1 < |times| && times[i + 1] > Median(Recent(times, i))
    ensures Median(Recent(times, i)) <= Median(Recent(times, i + 1))
  {
    hide CountLess, Sort, Recent;
    var w, v := Recent(times, i), Recent(times, i + 1);
    var m := Median(w);
    WindowCount(times, i, m);
    CountSort(w, m);
    CountSort(v, m);
    CountAt(Sort(w), |w| / 2, m);
    CountAt(Sort(v), |v| / 2, m);
  }

  lemma CountOne(x: int, m: int)
    ensures CountLess([x], m) == if x < m then 1 else 0
  {
    assert [x][..0] == [];
  }

  /** Along a chain of blocks that each passed the time check the median time past never decreases. */
  lemma {:induction false} MedianNeverDecreases(times: seq<int>, i: nat, j: nat)
    requires i <= j < |times|
    requires forall k | 0 <= k && k + 1 < |times| :: times[k + 1] > Median(Recent(times, k))
    ensures Median(Recent(times, i)) <= Median(Recent(times, j))
  {
    hide Median, Recent;
    if i < j {
      MedianNeverDecreases(times, i, j - 1);
      MedianStep(times, j - 1);
    }
  }
}

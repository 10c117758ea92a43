/** The difficulty of the next block. */
module Retarget {
  import opened Wrappers
  import opened Numerals
  import opened Bignum

  const POW_LIMIT: nat := 0xFFFF_FFFF_FFFF_FFFF_FFFF_FFFF_FFFF_FFFF_FFFF_FFFF_FFFF_FFFF_FFFF_FFFF_FFFF
  const POS_LIMIT: nat := 0x0FFF_FFFF_FFFF_FFFF_FFFF_FFFF_FFFF_FFFF_FFFF_FFFF_FFFF_FFFF_FFFF_FFFF_FFFF

  const TWO256: nat := 0x1_0000_0000_0000_0000_0000_0000_0000_0000_0000_0000_0000_0000_0000_0000_0000_0000

  const TARGET_TIMESPAN: int := 60 * 60 * 5
  const TARGET_SPACING: int := 60 * 2

  /** What retargeting reads in a block index; the chain runs from the genesis block on. */
  datatype Index = Index(nTime: nat, nBits: nat, fProofOfStake: bool)

  function Limit(fProofOfStake: bool): nat {
    if fProofOfStake then POS_LIMIT else POW_LIMIT
  }

  lemma LimitPositive(fProofOfStake: bool)
    ensures Limit(fProofOfStake) > 0
  {
  }

  // ---------------------------------------------------------------- arithmetic

  /** Division as the big number library does it, towards zero. */
  function Truncate(a: int, b: int): int
    requires b > 0
  {
    if a >= 0 then a / b else -(-a / b)
  }

  /** The target before clamping, when `nActualInterval` blocks took `nActualSpacing`. */
  function Scaled(bnOld: int, nActualSpacing: int, nActualInterval: nat): int
    requires nActualInterval > 0
  {
    var nInterval := TARGET_TIMESPAN / TARGET_SPACING;
    var nTargetSpacing := TARGET_SPACING * nActualInterval;
    Truncate(bnOld * ((nInterval - 1) * nTargetSpacing + nActualSpacing + nActualSpacing), (nInterval + 1) * nTargetSpacing)
  }

  function Clamped(bnNew: int, limit: nat): int {
    if bnNew <= 0 || bnNew > limit then limit else bnNew
  }

  lemma DivideBounds(n: int, d: int, q: int)
    requires d > 0 && n >= 0
    ensures n / d * d <= n < n / d * d + d && (q * d <= n ==> q <= n / d) && (n < (q + 1) * d ==> n / d <= q)
  {
    var r := n / d;
    assert r * d <= n < r * d + d;
    assert q > r ==> q * d >= (r + 1) * d;
    assert r > q ==> r * d >= (q + 1) * d;
  }

  /** On schedule the target stays as it is. */
  lemma OnSchedule(bnOld: nat, nActualInterval: nat)
    requires nActualInterval > 0
    ensures Scaled(bnOld, TARGET_SPACING * nActualInterval, nActualInterval) == bnOld
  {
    var t := TARGET_SPACING * nActualInterval;
    var d := 151 * t;
    assert bnOld * (149 * t + t + t) == bnOld * d;
    DivideBounds(bnOld * d, d, bnOld);
    assert bnOld * d < (bnOld + 1) * d;
  }

  /** Slower blocks never give a smaller target. */
  lemma Monotone(bnOld: nat, s1: nat, s2: nat, nActualInterval: nat)
    requires nActualInterval > 0 && s1 <= s2
    ensures Scaled(bnOld, s1, nActualInterval) <= Scaled(bnOld, s2, nActualInterval)
  {
    var t := TARGET_SPACING * nActualInterval;
    var d := 151 * t;
    var n1, n2 := bnOld * (149 * t + s1 + s1), bnOld * (149 * t + s2 + s2);
    Times(bnOld, 149 * t + s1 + s1, 149 * t + s2 + s2);
    DivideBounds(n1, d, 0);
    DivideBounds(n2, d, n1 / d);
  }

  /** However fast the blocks came, the target falls by no more than 2 parts in 151. */
  lemma LowerBound(bnOld: nat, s: nat, nActualInterval: nat)
    requires nActualInterval > 0
    ensures Scaled(bnOld, s, nActualInterval) >= bnOld * 149 / 151
  {
    var t := TARGET_SPACING * nActualInterval;
    var d := 151 * t;
    var q := bnOld * 149 / 151;
    var n := bnOld * (149 * t + s + s);
    assert q * 151 <= bnOld * 149;
    assert q * d == (q * 151) * t <= (bnOld * 149) * t;
    assert (bnOld * 149) * t == bnOld * (149 * t) <= n;
    DivideBounds(n, d, q);
  }

  // ---------------------------------------------------------------- which blocks are measured

  /** The last block up to `i` of the wanted kind, or the first block of all. */
  function LastIndex(chain: seq<Index>, i: nat, fProofOfStake: bool): (r: nat)
    requires i < |chain|
    ensures r <= i && (r > 0 ==> chain[r].fProofOfStake == fProofOfStake)
    ensures forall j | r < j <= i :: chain[j].fProofOfStake != fProofOfStake
  {
    if i == 0 || chain[i].fProofOfStake == fProofOfStake then i else LastIndex(chain, i - 1, fProofOfStake)
  }

  method GetLastBlockIndex(chain: seq<Index>, i: nat, fProofOfStake: bool) returns (r: nat)
    requires i < |chain|
    ensures r == LastIndex(chain, i, fProofOfStake)
  {
    r := i;
    while r > 0 && chain[r].fProofOfStake != fProofOfStake
      invariant r <= i && LastIndex(chain, r, fProofOfStake) == LastIndex(chain, i, fProofOfStake)
    {
      r := r - 1;
    }
  }

  /** The block at the far end of the window and the number of intervals in it: 120, or as many as there are. */
  function Window(chain: seq<Index>, i: nat, n: nat, fProofOfStake: bool): (w: (nat, nat))
    requires i < |chain| && 0 < n <= 120
    ensures w.0 <= i && n <= w.1 <= 120 && (w.1 < 120 ==> w.0 == 0)
  {
    if i == 0 || n >= 120 then (i, n) else Window(chain, LastIndex(chain, i - 1, fProofOfStake), n + 1, fProofOfStake)
  }

  /** The blocks of the wanted kind from `lo` up to but not including `hi`; the first block of all counts as one. */
  function Kinds(chain: seq<Index>, lo: nat, hi: nat, fProofOfStake: bool): set<nat>
    requires hi <= |chain|
  {
    set j: nat | lo <= j < hi && (j == 0 || chain[j].fProofOfStake == fProofOfStake)
  }

  lemma KindsStep(chain: seq<Index>, lo: nat, i: nat, fProofOfStake: bool)
    requires 0 < i < |chain| && lo <= LastIndex(chain, i - 1, fProofOfStake)
    ensures var r := LastIndex(chain, i - 1, fProofOfStake);
            |Kinds(chain, lo, i, fProofOfStake)| == |Kinds(chain, lo, r, fProofOfStake)| + 1
  {
    var r := LastIndex(chain, i - 1, fProofOfStake);
    assert Kinds(chain, lo, i, fProofOfStake) == Kinds(chain, lo, r, fProofOfStake) + {r};
  }

  /** Whatever the mix of kinds, the window goes back over blocks of the wanted kind and no others: it ends at one of them or at
  the first block, counts just those, and holds fewer than 120 intervals only when there are no more. */
  lemma {:induction false} WindowCounts(chain: seq<Index>, i: nat, n: nat, fProofOfStake: bool)
    requires i < |chain| && 0 < n <= 120
    ensures var w := Window(chain, i, n, fProofOfStake);
            && (w.0 == i || w.0 == 0 || chain[w.0].fProofOfStake == fProofOfStake)
            && w.1 - n == |Kinds(chain, w.0, i, fProofOfStake)|
            && (w.1 < 120 ==> w.0 == 0)
  {
    if i == 0 || n >= 120 {
      assert Kinds(chain, i, i, fProofOfStake) == {};
    } else {
      var r := LastIndex(chain, i - 1, fProofOfStake);
      WindowCounts(chain, r, n + 1, fProofOfStake);
      KindsStep(chain, Window(chain, i, n, fProofOfStake).0, i, fProofOfStake);
    }
  }

  /** That leaves one window only. */
  lemma WindowIs(chain: seq<Index>, i: nat, fProofOfStake: bool, first: nat, n: nat)
    requires first <= i < |chain| && (i == 0 || chain[i].fProofOfStake == fProofOfStake)
    requires (first == 0 || chain[first].fProofOfStake == fProofOfStake) && n <= 120 && (n < 120 ==> first == 0)
    requires n == 1 + |Kinds(chain, first, i, fProofOfStake)|
    ensures Window(chain, i, 1, fProofOfStake) == (first, n)
  {
    var w := Window(chain, i, 1, fProofOfStake);
    WindowCounts(chain, i, 1, fProofOfStake);
    KindsShrink(chain, w.0, first, i, fProofOfStake);
    KindsShrink(chain, first, w.0, i, fProofOfStake);
  }

  lemma KindsShrink(chain: seq<Index>, lo: nat, lo': nat, hi: nat, fProofOfStake: bool)
    requires hi < |chain| && lo < |chain| && (lo == 0 || chain[lo].fProofOfStake == fProofOfStake)
    ensures lo < lo' <= hi ==> |Kinds(chain, lo', hi, fProofOfStake)| < |Kinds(chain, lo, hi, fProofOfStake)|
  {
    if lo < lo' <= hi {
      var more, less := Kinds(chain, lo, hi, fProofOfStake), Kinds(chain, lo', hi, fProofOfStake);
      assert lo in more && lo !in less && less <= more - {lo};
      SubsetSize(less, more - {lo});
    }
  }

  /** Is there nothing to measure yet? */
  predicate TooShort(chain: seq<Index>, fProofOfStake: bool) {
    || chain == []
    || var prev := LastIndex(chain, |chain| - 1, fProofOfStake);
       prev == 0 || LastIndex(chain, prev - 1, fProofOfStake) == 0
  }

  /** The time the window took; one second when it ends before it starts. */
  function Spacing(chain: seq<Index>, fProofOfStake: bool): (s: (nat, nat))
    requires !TooShort(chain, fProofOfStake)
    ensures 0 < s.1 <= 120
  {
    var prev := LastIndex(chain, |chain| - 1, fProofOfStake);
    var w := Window(chain, LastIndex(chain, prev - 1, fProofOfStake), 1, fProofOfStake);
    (if chain[prev].nTime < chain[w.0].nTime then 1 else chain[prev].nTime - chain[w.0].nTime, w.1)
  }

  /** The target before it is clamped and rounded. */
  function Wanted(chain: seq<Index>, fProofOfStake: bool): int
    requires !TooShort(chain, fProofOfStake) && forall i | 0 <= i < |chain| :: chain[i].nBits < COMPACT_LIMIT
  {
    var prev := LastIndex(chain, |chain| - 1, fProofOfStake);
    var s := Spacing(chain, fProofOfStake);
    Scaled(FromCompact(chain[prev].nBits), s.0, s.1)
  }

  /** Step back over up to 120 blocks of the kind. */
  method MeasureWindow(chain: seq<Index>, i: nat, fProofOfStake: bool) returns (pindexPrevPrev: nat, nActualInterval: nat)
    requires i < |chain|
    ensures (pindexPrevPrev, nActualInterval) == Window(chain, i, 1, fProofOfStake)
    ensures pindexPrevPrev == i || pindexPrevPrev == 0 || chain[pindexPrevPrev].fProofOfStake == fProofOfStake
    ensures nActualInterval - 1 == |Kinds(chain, pindexPrevPrev, i, fProofOfStake)| < 120
    ensures nActualInterval < 120 ==> pindexPrevPrev == 0
  {
    WindowCounts(chain, i, 1, fProofOfStake);
    pindexPrevPrev, nActualInterval := i, 1;
    while pindexPrevPrev > 0 && nActualInterval < 120
      invariant pindexPrevPrev < |chain| && 0 < nActualInterval <= 120
      invariant Window(chain, pindexPrevPrev, nActualInterval, fProofOfStake) == Window(chain, i, 1, fProofOfStake)
      decreases 120 - nActualInterval
    {
      pindexPrevPrev := GetLastBlockIndex(chain, pindexPrevPrev - 1, fProofOfStake);
      nActualInterval := nActualInterval + 1;
    }
  }

  method ScaleTarget(bnOld: int, nActualSpacing: int, nActualInterval: nat) returns (bnNew: int)
    requires nActualInterval > 0
    ensures bnNew == Scaled(bnOld, nActualSpacing, nActualInterval)
  {
    var nTargetSpacing := TARGET_SPACING;
    var nInterval := TARGET_TIMESPAN / nTargetSpacing;
    nTargetSpacing := nTargetSpacing * nActualInterval;
    bnNew := bnOld * ((nInterval - 1) * nTargetSpacing + nActualSpacing + nActualSpacing);
    bnNew := Truncate(bnNew, (nInterval + 1) * nTargetSpacing);
  }

  /** The new target, unclamped, from the last block of the kind and the one before it. */
  method Measured(chain: seq<Index>, pindexPrev: nat, pindexPrevPrev: nat, fProofOfStake: bool) returns (bnNew: int)
    requires (forall i | 0 <= i < |chain| :: chain[i].nBits < COMPACT_LIMIT) && !TooShort(chain, fProofOfStake)
    requires pindexPrev == LastIndex(chain, |chain| - 1, fProofOfStake) && pindexPrevPrev == LastIndex(chain, pindexPrev - 1, fProofOfStake)
    ensures bnNew == Wanted(chain, fProofOfStake)
  {
    hide FromCompact, Scaled, LastIndex, Window;
    var first, nActualInterval := MeasureWindow(chain, pindexPrevPrev, fProofOfStake);
    var nActualSpacing: int := chain[pindexPrev].nTime - chain[first].nTime;
    if nActualSpacing < 0 {
      nActualSpacing := 1;
    }
    bnNew := ScaleTarget(FromCompact(chain[pindexPrev].nBits), nActualSpacing, nActualInterval);
  }

  /** The target that the next block must meet, before rounding. */
  function Target(chain: seq<Index>, fProofOfStake: bool): (v: int)
    requires forall i | 0 <= i < |chain| :: chain[i].nBits < COMPACT_LIMIT
    ensures 0 < v <= Limit(fProofOfStake)
  {
    LimitPositive(fProofOfStake);
    if TooShort(chain, fProofOfStake) then Limit(fProofOfStake) else Clamped(Wanted(chain, fProofOfStake), Limit(fProofOfStake))
  }

  /** There is when the chain has two blocks of the kind above the first block. */
  lemma TooShortMeans(chain: seq<Index>, fProofOfStake: bool)
    ensures TooShort(chain, fProofOfStake) <==>
              forall i, j | 0 < i < j < |chain| :: chain[i].fProofOfStake != fProofOfStake || chain[j].fProofOfStake != fProofOfStake
  {
    if chain != [] {
      var last := LastIndex(chain, |chain| - 1, fProofOfStake);
      if last > 0 {
        var before := LastIndex(chain, last - 1, fProofOfStake);
        assert before > 0 ==> chain[before].fProofOfStake == fProofOfStake && chain[last].fProofOfStake == fProofOfStake;
      }
    }
  }

  lemma {:induction false} LastIs(chain: seq<Index>, i: nat, fProofOfStake: bool, last: nat)
    requires 0 < last <= i < |chain| && chain[last].fProofOfStake == fProofOfStake
    requires forall j | last < j <= i :: chain[j].fProofOfStake != fProofOfStake
    ensures LastIndex(chain, i, fProofOfStake) == last
  {
    if i > last {
      LastIs(chain, i - 1, fProofOfStake, last);
    }
  }

  /** The whole rule: the bits of the last block of the kind, scaled by how long the blocks of the kind in the window before it took. */
  lemma TargetIs(chain: seq<Index>, fProofOfStake: bool, last: nat, before: nat, first: nat, n: nat)
    requires forall i | 0 <= i < |chain| :: chain[i].nBits < COMPACT_LIMIT
    requires 0 < before < last < |chain| && chain[before].fProofOfStake == fProofOfStake && chain[last].fProofOfStake == fProofOfStake
    requires forall j | before < j < |chain| && j != last :: chain[j].fProofOfStake != fProofOfStake
    requires first <= before && (first == 0 || chain[first].fProofOfStake == fProofOfStake) && n <= 120 && (n < 120 ==> first == 0)
    requires n == 1 + |Kinds(chain, first, before, fProofOfStake)| && FromCompact(chain[last].nBits) >= 0
    ensures var took := if chain[last].nTime < chain[first].nTime then 1 else chain[last].nTime - chain[first].nTime;
            var wanted := FromCompact(chain[last].nBits) * (149 * 120 * n + 2 * took) / (151 * 120 * n);
            Target(chain, fProofOfStake) == if wanted <= 0 || wanted > Limit(fProofOfStake) then Limit(fProofOfStake) else wanted
  {
    hide FromCompact, Window, LastIndex;
    LastIs(chain, |chain| - 1, fProofOfStake, last);
    LastIs(chain, last - 1, fProofOfStake, before);
    WindowIs(chain, before, fProofOfStake, first, n);
    var bnOld: nat := FromCompact(chain[last].nBits);
    var took: nat := if chain[last].nTime < chain[first].nTime then 1 else chain[last].nTime - chain[first].nTime;
    ScaledIs(bnOld, took, n);
  }

  lemma ScaledIs(bnOld: nat, took: nat, n: nat)
    requires n > 0
    ensures Scaled(bnOld, took, n) == bnOld * (149 * 120 * n + 2 * took) / (151 * 120 * n)
  {
    assert 149 * (120 * n) + took + took == 149 * 120 * n + 2 * took;
    Times(bnOld, 0, 149 * 120 * n + 2 * took);
  }

  method GetNextTargetRequired(chain: seq<Index>, fProofOfStake: bool) returns (nCompact: nat)
    requires forall i | 0 <= i < |chain| :: chain[i].nBits < COMPACT_LIMIT
    ensures nCompact == ToCompact(Target(chain, fProofOfStake))
    ensures 0 < FromCompact(nCompact) <= Limit(fProofOfStake)
  {
    hide ToCompact, FromCompact, Wanted, Limit, LastIndex;
    var bnTargetLimit := Limit(fProofOfStake);
    LimitPositive(fProofOfStake);
    InRange(bnTargetLimit, fProofOfStake);
    if chain == [] {
      return ToCompact(bnTargetLimit);
    }
    var pindexPrev := GetLastBlockIndex(chain, |chain| - 1, fProofOfStake);
    if pindexPrev == 0 {
      return ToCompact(bnTargetLimit);
    }
    var pindexPrevPrev := GetLastBlockIndex(chain, pindexPrev - 1, fProofOfStake);
    if pindexPrevPrev == 0 {
      return ToCompact(bnTargetLimit);
    }
    var bnNew := Measured(chain, pindexPrev, pindexPrevPrev, fProofOfStake);
    if bnNew <= 0 || bnNew > bnTargetLimit {
      bnNew := bnTargetLimit;
    }
    InRange(bnNew, fProofOfStake);
    nCompact := ToCompact(bnNew);
  }

  // ---------------------------------------------------------------- the range of a target

  lemma Power30()
    ensures Power(256, 30) == POW_LIMIT + 1
  {
    assert Power(256, 8) == 0x1_0000_0000_0000_0000;
    assert Power(256, 16) == 0x1_0000_0000_0000_0000_0000_0000_0000_0000;
    assert Power(256, 24) == 0x1_0000_0000_0000_0000_0000_0000_0000_0000_0000_0000_0000_0000;
  }

  lemma Power28()
    ensures Power(256, 28) == 0x1_0000_0000_0000_0000_0000_0000_0000_0000_0000_0000_0000_0000_0000_0000
  {
    assert Power(256, 8) == 0x1_0000_0000_0000_0000;
    assert Power(256, 16) == 0x1_0000_0000_0000_0000_0000_0000_0000_0000;
    assert Power(256, 24) == 0x1_0000_0000_0000_0000_0000_0000_0000_0000_0000_0000_0000_0000;
  }

  lemma {:induction false} PowerGrows(k: nat, j: nat)
    requires k <= j
    ensures Power(256, k) <= Power(256, j)
  {
    if k < j {
      PowerGrows(k, j - 1);
      PowerPositive(256, j - 1);
    }
  }

  lemma SizeOf(v: nat)
    requires 0 < v <= POW_LIMIT
    ensures |ToMpi(v)| <= 31
  {
    hide Power, Value;
    BytesAre(v);
    ValueDigits(256, v);
    var m := Digits(256, v);
    ValueAtLeast(256, m);
    Power30();
    if |m| > 30 {
      PowerGrows(30, |m| - 1);
    }
  }

  /** A target in range is still in range after rounding. */
  lemma InRange(v: nat, fProofOfStake: bool)
    requires 0 < v <= Limit(fProofOfStake)
    ensures 0 < FromCompact(ToCompact(v)) <= v
  {
    SizeOf(v);
    CompactKeeps(v);
    KeptBounds(v);
  }

  /** Blocks on schedule leave a target that is within the limit as it was. */
  lemma SameTarget(chain: seq<Index>, fProofOfStake: bool, bnOld: nat)
    requires !TooShort(chain, fProofOfStake) && forall i | 0 <= i < |chain| :: chain[i].nBits < COMPACT_LIMIT
    requires 0 < bnOld <= Limit(fProofOfStake)
    requires chain[LastIndex(chain, |chain| - 1, fProofOfStake)].nBits == ToCompact(bnOld)
    requires Spacing(chain, fProofOfStake).0 == TARGET_SPACING * Spacing(chain, fProofOfStake).1
    ensures ToCompact(Target(chain, fProofOfStake)) == ToCompact(bnOld)
  {
    hide ToCompact, FromCompact, Scaled;
    InRange(bnOld, fProofOfStake);
    OnSchedule(FromCompact(ToCompact(bnOld)), Spacing(chain, fProofOfStake).1);
    SizeOf(bnOld);
    CompactTwice(bnOld);
  }

  /** When all blocks are of the kind the window steps back one by one. */
  lemma {:induction false} WindowSteps(chain: seq<Index>, i: nat, n: nat, fProofOfStake: bool)
    requires i < |chain| && 0 < n <= 120 && forall j | 0 <= j < |chain| :: chain[j].fProofOfStake == fProofOfStake
    ensures Window(chain, i, n, fProofOfStake) == if i + n <= 120 then (0, i + n) else (i + n - 120, 120)
    decreases i
  {
    if i > 0 && n < 120 {
      WindowSteps(chain, i - 1, n + 1, fProofOfStake);
    }
  }

  /** A chain of one kind that starts at the limit and is always on schedule stays at the limit. */
  lemma Steady(chain: seq<Index>, t0: nat, fProofOfStake: bool)
    requires forall i | 0 <= i < |chain| ::
               && chain[i].fProofOfStake == fProofOfStake && chain[i].nTime == t0 + TARGET_SPACING * i
               && chain[i].nBits == ToCompact(Limit(fProofOfStake)) < COMPACT_LIMIT
    ensures ToCompact(Target(chain, fProofOfStake)) == ToCompact(Limit(fProofOfStake))
  {
    hide ToCompact, FromCompact, Scaled, Window;
    LimitPositive(fProofOfStake);
    if !TooShort(chain, fProofOfStake) {
      WindowSteps(chain, |chain| - 2, 1, fProofOfStake);
      SameTarget(chain, fProofOfStake, Limit(fProofOfStake));
    }
  }

  // ---------------------------------------------------------------- proof of work

  /** Whatever the history, a block whose bits are what is required never fails for the range of its target: the check
  is passed by exactly the hashes up to the required target, less what rounding takes off. */
  lemma RequiredIsMet(chain: seq<Index>, fProofOfStake: bool, hash: nat)
    requires forall i | 0 <= i < |chain| :: chain[i].nBits < COMPACT_LIMIT
    ensures var v := Target(chain, fProofOfStake);
            && (Met(hash, ToCompact(v)) <==> hash <= Kept(v))
            && 0 < Kept(v) <= v && Met(0, ToCompact(v))
  {
    hide ToCompact, FromCompact, Target, Kept;
    var v := Target(chain, fProofOfStake);
    SizeOf(v);
    CompactKeeps(v);
    KeptBounds(v);
  }

  /** Does the hash meet the target that the bits stand for? */
  predicate Met(hash: nat, nBits: nat)
    requires nBits < COMPACT_LIMIT
  {
    0 < FromCompact(nBits) <= POW_LIMIT && hash <= FromCompact(nBits)
  }

  /** Bits that are what some history requires are never refused for their range. */
  method CheckProofOfWork(hash: nat, nBits: nat) returns (ok: bool)
    requires nBits < COMPACT_LIMIT
    ensures ok <==> Met(hash, nBits)
    ensures ok <==> FromCompact(nBits) > 0 && FromCompact(nBits) <= POW_LIMIT && hash <= FromCompact(nBits)
    ensures forall v: nat {:trigger ToCompact(v)} | 0 < v <= POW_LIMIT && nBits == ToCompact(v) :: ok <==> hash <= Kept(v)
  {
    forall v: nat {:trigger ToCompact(v)} | 0 < v <= POW_LIMIT && nBits == ToCompact(v) ensures FromCompact(nBits) == Kept(v) && 0 < Kept(v) <= v {
      SizeOf(v);
      CompactKeeps(v);
      KeptBounds(v);
    }
    var bnTarget := FromCompact(nBits);
    if bnTarget <= 0 || bnTarget > POW_LIMIT {
      return false;
    }
    if hash > bnTarget {
      return false;
    }
    ok := true;
  }

  // ---------------------------------------------------------------- trust

  /** What a block adds to the trust of its chain. */
  function BlockTrust(nBits: nat, fProofOfStake: bool): (t: nat)
    requires nBits < COMPACT_LIMIT
    ensures FromCompact(nBits) > 0 && (!fProofOfStake || FromCompact(nBits) <= POS_LIMIT) ==> t > 0
  {
    var bnTarget := FromCompact(nBits);
    if bnTarget <= 0 then 0
    else if fProofOfStake then TWO256 / (bnTarget + 1)
    else
      var bnPoWTrust := POW_LIMIT / (bnTarget + 1);
      if bnPoWTrust > 1 then bnPoWTrust else 1
  }

  /** The trust of a proof-of-stake block: how often its target plus one goes into 2 to the 256. */
  lemma StakeTrust(nBits: nat)
    requires nBits < COMPACT_LIMIT && FromCompact(nBits) > 0
    ensures var target, t := FromCompact(nBits), BlockTrust(nBits, true);
            t * (target + 1) <= Power(256, 32) < (t + 1) * (target + 1)
  {
    hide FromCompact;
    Power32();
    DivideBounds(TWO256, FromCompact(nBits) + 1, 0);
    Distributes(BlockTrust(nBits, true), FromCompact(nBits) + 1);
  }

  lemma Power32()
    ensures Power(256, 32) == TWO256
  {
    Power30();
    assert Power(256, 31) == 256 * Power(256, 30);
  }

  lemma Distributes(t: nat, d: nat)
    ensures (t + 1) * d == t * d + d
  {
  }

  /** The trust of a proof-of-work block: the same with the limit, but at least one. */
  lemma WorkTrust(nBits: nat)
    requires nBits < COMPACT_LIMIT && FromCompact(nBits) > 0
    ensures var target, t := FromCompact(nBits), BlockTrust(nBits, false);
            && t >= 1 && (t == 1 || t * (target + 1) <= POW_LIMIT) && POW_LIMIT < (t + 1) * (target + 1)
  {
    hide FromCompact;
    var d := FromCompact(nBits) + 1;
    DivideBounds(POW_LIMIT, d, 0);
    Distributes(POW_LIMIT / d, d);
    Distributes(BlockTrust(nBits, false), d);
  }

  /** A block adds nothing exactly when its target is not positive, or so high that it does not fit into 256 bits for proof of stake. */
  lemma NoTrust(nBits: nat, fProofOfStake: bool)
    requires nBits < COMPACT_LIMIT
    ensures BlockTrust(nBits, fProofOfStake) == 0 <==> FromCompact(nBits) <= 0 || (fProofOfStake && FromCompact(nBits) >= Power(256, 32))
  {
    hide FromCompact, Power;
    if FromCompact(nBits) > 0 {
      if fProofOfStake {
        StakeTrust(nBits);
      } else {
        WorkTrust(nBits);
      }
    }
  }

  /** A harder target never adds less. */
  lemma HarderAddsMore(nBits: nat, nBits': nat, fProofOfStake: bool)
    requires nBits < COMPACT_LIMIT && nBits' < COMPACT_LIMIT && 0 < FromCompact(nBits) <= FromCompact(nBits')
    ensures BlockTrust(nBits, fProofOfStake) >= BlockTrust(nBits', fProofOfStake)
  {
    hide FromCompact;
    QuotientFalls(if fProofOfStake then TWO256 else POW_LIMIT, FromCompact(nBits) + 1, FromCompact(nBits') + 1);
  }

  lemma QuotientFalls(a: nat, d: nat, d': nat)
    requires 0 < d <= d'
    ensures a / d >= a / d'
  {
    var q := a / d';
    DivideBounds(a, d', 0);
    assert q * d <= q * d';
    DivideBounds(a, d, q);
  }

  /** The example in compact form: difficulty one. */
  lemma DifficultyOne()
    ensures FromCompact(0x1D00_FFFF) == 0xFFFF * Power(256, 26)
    ensures BlockTrust(0x1D00_FFFF, true) == 4_295_032_833
  {
    assert 0x1D00_FFFF / 0x100_0000 == 29 && 0x1D00_FFFF % 0x80_0000 == 0xFFFF && 0x1D00_FFFF / 0x80_0000 % 2 == 0;
    assert Power(256, 8) == 0x1_0000_0000_0000_0000;
    assert Power(256, 16) == 0x1_0000_0000_0000_0000_0000_0000_0000_0000;
    assert Power(256, 24) == 0x1_0000_0000_0000_0000_0000_0000_0000_0000_0000_0000_0000_0000;
  }

  /** A proof-of-work block with the easiest target adds one. */
  lemma LeastTrust()
    ensures BlockTrust(ToCompact(POW_LIMIT), false) == 1
  {
    hide ToCompact, FromCompact, Kept, Power;
    SizeOf(POW_LIMIT);
    CompactKeeps(POW_LIMIT);
    KeptBounds(POW_LIMIT);
    PowerGrows(|ToMpi(POW_LIMIT)| - 3, 28);
    Power28();
  }
}

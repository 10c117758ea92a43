/** What a block must agree on with the blocks before it, and what its index derives from them: the rules for difficulty, time
and stake modifiers applied to the path of a block in the tree. */
module BlockContext {
  import opened Wrappers
  import opened Ledger
  import opened BlockTree
  import Numerals
  import Bignum
  import Retarget
  import MedianTime
  import StakeModifier

  const MAX_CLOCK_DRIFT: nat := 2 * 60 * 60

  // ---------------------------------------------------------------- what the rules read along a path

  function IndexOf(b: BlockIndex): Retarget.Index {
    Retarget.Index(b.block.nTime, b.block.nBits, b.IsProofOfStake())
  }

  function StakeOf(b: BlockIndex): StakeModifier.Block {
    StakeModifier.Block(b.hash, b.block.nTime, b.IsProofOfStake(), b.derived.hashProofOfStake, b.derived.nEntropyBit,
                        b.derived.fGeneratedStakeModifier, b.derived.nStakeModifier)
  }

  function Indices(path: seq<BlockIndex>): (s: seq<Retarget.Index>)
    ensures |s| == |path| && forall i | 0 <= i < |path| :: s[i] == IndexOf(path[i])
    ensures forall i | 0 <= i < |path| :: s[i].nBits < Bignum.COMPACT_LIMIT
  {
    seq(|path|, i requires 0 <= i < |path| => IndexOf(path[i]))
  }

  function Times(path: seq<BlockIndex>): (s: seq<int>)
    ensures |s| == |path| && forall i | 0 <= i < |path| :: s[i] == path[i].block.nTime
  {
    seq(|path|, i requires 0 <= i < |path| => path[i].block.nTime)
  }

  function Stakes(path: seq<BlockIndex>): (s: seq<StakeModifier.Block>)
    ensures |s| == |path| && forall i | 0 <= i < |path| :: s[i] == StakeOf(path[i])
  {
    seq(|path|, i requires 0 <= i < |path| => StakeOf(path[i]))
  }

  /** The blocks met on the way down from `b`, lowest first. */
  method Walk(b: BlockIndex) returns (path: seq<BlockIndex>)
    requires b.Wf()
    ensures path == b.Path()
  {
    hide BlockIndex.Wf;
    WfLength(b);
    path := [b];
    var p: BlockIndex := b;
    GenesisHeight(b);
    while p.pprev != null
      invariant p.Wf() && IsAncestor(p, b) && path == b.Path()[p.nHeight..]
      decreases p.nHeight
    {
      ParentWf(p);
      AncestorTransitive(p.pprev, p, b);
      path := [p.pprev] + path;
      p := p.pprev;
    }
    GenesisHeight(p);
  }

  lemma GenesisHeight(p: BlockIndex)
    requires p.Wf()
    ensures p.pprev == null <==> p.nHeight == 0
  {
  }

  // ---------------------------------------------------------------- the height in the coinbase

  /** What pushing a number on a script appends: an opcode for 1 to 16, else a length and the bytes of the number. */
  function Pushed(n: nat): (s: Script)
    ensures s != []
  {
    if 1 <= n <= 16 then [0x50 + n] else var v := Numerals.Reverse(Bignum.ToMpi(n)); [|v|] + ToScript(v)
  }

  function ToScript(v: seq<Bignum.Byte>): (s: Script)
    ensures |s| == |v| && forall i | 0 <= i < |v| :: s[i] == v[i]
  {
    seq(|v|, i requires 0 <= i < |v| => v[i])
  }

  /** Does the script of the coinbase start with the height? */
  predicate NamesHeight(block: Block, nHeight: nat) {
    block.vtx != [] && block.vtx[0].vin != [] && Pushed(nHeight) <= block.vtx[0].vin[0].scriptSig
  }

  /** The script is the pushed height, with anything behind it. */
  lemma NamesMeans(block: Block, nHeight: nat)
    ensures NamesHeight(block, nHeight) <==> block.vtx != [] && block.vtx[0].vin != [] && exists rest :: block.vtx[0].vin[0].scriptSig == Pushed(nHeight) + rest
  {
    hide Pushed;
    if NamesHeight(block, nHeight) {
      var s := block.vtx[0].vin[0].scriptSig;
      assert s == Pushed(nHeight) + s[|Pushed(nHeight)|..];
    }
  }

  lemma SmallSize(n: nat)
    requires n < 0x8000_0000
    ensures |Bignum.ToMpi(n)| <= 5
  {
    hide Numerals.Power, Numerals.Value;
    Bignum.BytesAre(n);
    Numerals.ValueDigits(256, n);
    var m := Numerals.Digits(256, n);
    if |m| > 4 {
      Numerals.ValueAtLeast(256, m);
      Retarget.PowerGrows(4, |m| - 1);
      FourBytes();
    }
  }

  lemma FourBytes()
    ensures Numerals.Power(256, 4) == 0x1_0000_0000
  {
    assert Numerals.Power(256, 2) == 0x1_0000;
  }

  lemma PushedShape(n: nat)
    requires n < 0x8000_0000 && !(1 <= n <= 16)
    ensures Pushed(n) == [|Numerals.Reverse(Bignum.ToMpi(n))|] + ToScript(Numerals.Reverse(Bignum.ToMpi(n)))
    ensures |Numerals.Reverse(Bignum.ToMpi(n))| <= 5
  {
    hide Bignum.ToMpi, Numerals.Reverse;
    SmallSize(n);
  }

  lemma SameNumber(m: nat, n: nat, v: seq<Bignum.Byte>)
    requires v == Numerals.Reverse(Bignum.ToMpi(m)) == Numerals.Reverse(Bignum.ToMpi(n))
    ensures m == n
  {
    hide Bignum.ToMpi, Bignum.FromMpi, Numerals.Reverse;
    Numerals.ReverseTwice(Bignum.ToMpi(m));
    Numerals.ReverseTwice(Bignum.ToMpi(n));
    Bignum.MpiRoundTrip(m);
    Bignum.MpiRoundTrip(n);
  }

  lemma SameBytes(s: Script, v: seq<Bignum.Byte>, w: seq<Bignum.Byte>)
    requires [|v|] + ToScript(v) <= s && [|w|] + ToScript(w) <= s
    ensures v == w
  {
    assert |v| == ([|v|] + ToScript(v))[0] == s[0] == ([|w|] + ToScript(w))[0] == |w|;
    forall i | 0 <= i < |v| ensures v[i] == w[i] {
      assert ([|v|] + ToScript(v))[i + 1] == s[i + 1] == ([|w|] + ToScript(w))[i + 1];
    }
  }

  /** What was pushed reads back: an opcode for 1 to 16, else a little-endian number behind its length. */
  lemma PushReadsBack(n: nat)
    requires n < 0x8000_0000
    ensures var s := Pushed(n);
            if 1 <= n <= 16 then s == [0x50 + n]
            else exists v: seq<Bignum.Byte> :: |v| == s[0] == |s| - 1 <= 5 && (forall i | 0 <= i < |v| :: s[i + 1] == v[i]) && Bignum.FromMpi(Numerals.Reverse(v)) == n
  {
    hide Bignum.ToMpi, Bignum.FromMpi, Numerals.Reverse;
    if !(1 <= n <= 16) {
      PushedShape(n);
      Numerals.ReverseTwice(Bignum.ToMpi(n));
      Bignum.MpiRoundTrip(n);
      var v := Numerals.Reverse(Bignum.ToMpi(n));
      assert |v| == Pushed(n)[0] == |Pushed(n)| - 1 <= 5 && Bignum.FromMpi(Numerals.Reverse(v)) == n;
    }
  }

  /** A script that starts with one height starts with no other, so coinbases at different heights differ. */
  lemma HeightsDiffer(s: Script, m: nat, n: nat)
    requires m < 0x8000_0000 && n < 0x8000_0000 && Pushed(m) <= s && Pushed(n) <= s
    ensures m == n
  {
    hide Bignum.ToMpi, Numerals.Reverse;
    assert s[0] == Pushed(m)[0] == Pushed(n)[0];
    if !(1 <= m <= 16) {
      PushedShape(m);
    }
    if !(1 <= n <= 16) {
      PushedShape(n);
    }
    if !(1 <= m <= 16) && !(1 <= n <= 16) {
      var v, w := Numerals.Reverse(Bignum.ToMpi(m)), Numerals.Reverse(Bignum.ToMpi(n));
      SameBytes(s, v, w);
      SameNumber(m, n, v);
    }
  }

  // ---------------------------------------------------------------- the checks of a block against its parent

  /** The bits are what is required after `prev`, the time is later than the median time past and no more than the drift before
  the time of `prev`, and the coinbase names the height. */
  ghost predicate FitsParent(block: Block, prev: BlockIndex) {
    && block.nBits == Bignum.ToCompact(Retarget.Target(Indices(prev.Path()), block.IsProofOfStake()))
    && block.nTime > MedianTime.Median(MedianTime.Recent(Times(prev.Path()), |prev.ancestors|))
    && block.nTime + MAX_CLOCK_DRIFT >= prev.block.nTime
    && NamesHeight(block, prev.nHeight + 1)
  }

  method CheckParent(block: Block, pindexPrev: BlockIndex) returns (ok: bool)
    requires pindexPrev.Wf()
    ensures ok <==> FitsParent(block, pindexPrev)
  {
    hide BlockIndex.Wf, Bignum.ToCompact, Bignum.FromCompact, Retarget.Target, MedianTime.Median, MedianTime.Recent, Pushed;
    WfLength(pindexPrev);
    var path := Walk(pindexPrev);
    var nBits := Retarget.GetNextTargetRequired(Indices(path), block.IsProofOfStake());
    if block.nBits != nBits {
      return false;
    }
    var median := MedianTime.GetMedianTimePast(Times(path), pindexPrev.nHeight);
    if block.nTime <= median || block.nTime + MAX_CLOCK_DRIFT < pindexPrev.block.nTime {
      return false;
    }
    return NamesHeight(block, pindexPrev.nHeight + 1);
  }

  // ---------------------------------------------------------------- what the index of a block derives

  /** The values of the genesis block, which has no parent. */
  function FirstDerived(block: Block): Derived {
    Derived(0, Retarget.BlockTrust(block.nBits, block.IsProofOfStake()), block.hash % 2, true, 0, 0)
  }

  /** The values of a block on top of `prev`. */
  ghost predicate DerivedFrom(f: StakeModifier.HashFunction, block: Block, prev: BlockIndex, d: Derived) {
    && d.nPOWHeight == prev.derived.nPOWHeight + (if prev.IsProofOfStake() then 0 else 1)
    && d.bnChainTrust == prev.derived.bnChainTrust + Retarget.BlockTrust(block.nBits, block.IsProofOfStake())
    && d.nEntropyBit == block.hash % 2
    && (!block.IsProofOfStake() ==> d.hashProofOfStake == 0)
    && exists last: StakeModifier.Block, picks: seq<nat> ::
         StakeModifier.Computed(f, Stakes(prev.Path()), d.nStakeModifier, d.fGeneratedStakeModifier, last, picks)
  }

  lemma NoLessTrust(f: StakeModifier.HashFunction, block: Block, prev: BlockIndex, d: Derived)
    requires DerivedFrom(f, block, prev, d)
    ensures d.bnChainTrust >= prev.derived.bnChainTrust
  {
  }

  ghost predicate DerivedOk(f: StakeModifier.HashFunction, b: BlockIndex) {
    if b.pprev == null then b.derived == FirstDerived(b.block) else DerivedFrom(f, b.block, b.pprev, b.derived)
  }

  /** The values of a new block; `proof` is what the map of proof hashes holds for it. Fails exactly when a proof-of-stake
  block has no proof hash, as the genesis block has always generated a modifier. */
  method Derive(f: StakeModifier.HashFunction, block: Block, pindexPrev: BlockIndex, proof: Option<Hash>) returns (d: Option<Derived>)
    requires pindexPrev.Wf() && StakeModifier.Distinct(Stakes(pindexPrev.Path()))
    requires pindexPrev.Path()[0].derived.fGeneratedStakeModifier
    ensures d.Some? <==> block.IsProofOfStake() ==> proof.Some?
    ensures d.Some? ==> DerivedFrom(f, block, pindexPrev, d.value)
    ensures d.Some? && block.IsProofOfStake() ==> d.value.hashProofOfStake == proof.value
  {
    hide BlockIndex.Wf, StakeModifier.Distinct, StakeModifier.Computed, Retarget.BlockTrust;
    var nPOWHeight := pindexPrev.derived.nPOWHeight;
    if !pindexPrev.IsProofOfStake() {
      nPOWHeight := nPOWHeight + 1;
    }
    var bnChainTrust := pindexPrev.derived.bnChainTrust + Retarget.BlockTrust(block.nBits, block.IsProofOfStake());
    var nEntropyBit := block.hash % 2;
    var hashProofOfStake := 0;
    if block.IsProofOfStake() {
      if proof.None? {
        return None;
      }
      hashProofOfStake := proof.value;
    }
    var path := Walk(pindexPrev);
    assert Stakes(path)[0].fGenerated;
    var ok, nStakeModifier, fGeneratedStakeModifier;
    ghost var last, picks, stop;
    ok, nStakeModifier, fGeneratedStakeModifier, last, picks, stop := StakeModifier.ComputeNextStakeModifier(f, Stakes(path));
    if !ok {
      return None;
    }
    d := Some(Derived(nPOWHeight, bnChainTrust, nEntropyBit, fGeneratedStakeModifier, nStakeModifier, hashProofOfStake));
  }

  /** Blocks of one path have different hashes, as each hash is that of one block and no two of them have the same height. */
  lemma StakesDistinct(path: seq<BlockIndex>, m: map<Hash, BlockIndex>)
    requires forall i | 0 <= i < |path| :: path[i].nHeight == i && path[i].hash in m && m[path[i].hash] == path[i]
    ensures StakeModifier.Distinct(Stakes(path))
  {
  }

  // ---------------------------------------------------------------- along a path whose blocks fit

  /** Every block of the path but the first fits its parent. */
  ghost predicate FitPath(path: seq<BlockIndex>) {
    forall i | 1 <= i < |path| :: path[i].pprev != null && FitsParent(path[i].block, path[i].pprev)
  }

  /** The bits of a block that fits stand for a target in range, so the block adds trust to its chain. */
  lemma FittingAddsTrust(block: Block, prev: BlockIndex)
    requires FitsParent(block, prev)
    ensures 0 < Bignum.FromCompact(block.nBits) <= Retarget.Limit(block.IsProofOfStake())
    ensures Retarget.BlockTrust(block.nBits, block.IsProofOfStake()) > 0
  {
    hide Bignum.ToCompact, Bignum.FromCompact, Retarget.Target, MedianTime.Median, MedianTime.Recent, NamesHeight;
    Retarget.InRange(Retarget.Target(Indices(prev.Path()), block.IsProofOfStake()), block.IsProofOfStake());
  }

  lemma ParentPath(b: BlockIndex, k: nat)
    requires b.Wf() && 1 <= k <= b.nHeight
    ensures |b.Path()| == b.nHeight + 1
    ensures var prev := b.Path()[k].pprev; prev != null && prev.Wf() && prev.nHeight == k - 1 && prev.Path() == b.Path()[..k]
  {
    hide BlockIndex.Wf;
    WfLength(b);
    PathWf(b, k);
    GenesisHeight(b.Path()[k]);
    ParentWf(b.Path()[k]);
    assert b.Path()[..k + 1][..k] == b.Path()[..k];
  }

  lemma RecentPrefix(path: seq<BlockIndex>, k: nat)
    requires 1 <= k <= |path|
    ensures MedianTime.Recent(Times(path[..k]), k - 1) == MedianTime.Recent(Times(path), k - 1)
  {
  }

  lemma LaterThanMedian(b: BlockIndex, k: nat)
    requires b.Wf() && 1 <= k <= b.nHeight && FitPath(b.Path())
    ensures |b.Path()| == b.nHeight + 1
    ensures Times(b.Path())[k] > MedianTime.Median(MedianTime.Recent(Times(b.Path()), k - 1))
  {
    hide MedianTime.Median, MedianTime.Recent, BlockIndex.Wf, Bignum.ToCompact, Retarget.Target, NamesHeight;
    ParentPath(b, k);
    RecentPrefix(b.Path(), k);
    WfLength(b.Path()[k].pprev);
    assert FitsParent(b.Path()[k].block, b.Path()[k].pprev);
  }

  /** On the way up to `b` the median time past never decreases. */
  lemma MedianAlong(b: BlockIndex, i: nat, j: nat)
    requires b.Wf() && i <= j <= b.nHeight && FitPath(b.Path())
    ensures var times := Times(b.Path());
            && |times| == b.nHeight + 1
            && MedianTime.Median(MedianTime.Recent(times, i)) <= MedianTime.Median(MedianTime.Recent(times, j))
  {
    hide MedianTime.Median, MedianTime.Recent, BlockIndex.Wf, FitPath;
    WfLength(b);
    var times := Times(b.Path());
    forall k | 0 <= k && k + 1 < |times| ensures times[k + 1] > MedianTime.Median(MedianTime.Recent(times, k)) {
      LaterThanMedian(b, k + 1);
    }
    MedianTime.MedianNeverDecreases(times, i, j);
  }

  lemma MedianAbove(a: BlockIndex, b: BlockIndex)
    requires b.Wf() && IsAncestor(a, b) && |b.Path()| == b.nHeight + 1 && FitPath(b.Path())
    ensures |Times(a.Path())| == a.nHeight + 1 && |Times(b.Path())| == b.nHeight + 1
    ensures MedianTime.Median(MedianTime.Recent(Times(a.Path()), a.nHeight)) <= MedianTime.Median(MedianTime.Recent(Times(b.Path()), b.nHeight))
  {
    hide BlockIndex.Wf, FitPath, MedianTime.Median, MedianTime.Recent;
    PathWf(b, a.nHeight);
    MedianAlong(b, a.nHeight, b.nHeight);
    RecentPrefix(b.Path(), a.nHeight + 1);
  }

  /** The values of every block of the path follow from those of its parent. */
  ghost predicate DerivedPath(f: StakeModifier.HashFunction, path: seq<BlockIndex>) {
    forall i | 0 <= i < |path| :: DerivedOk(f, path[i])
  }

  /** What the blocks of a path add up to. */
  function PathTrust(path: seq<BlockIndex>): nat {
    if path == [] then 0
    else
      var b := path[|path| - 1];
      PathTrust(path[..|path| - 1]) + Retarget.BlockTrust(b.block.nBits, b.IsProofOfStake())
  }

  /** The trust of a chain is the sum over its blocks. */
  lemma {:induction false} TrustIsSum(f: StakeModifier.HashFunction, b: BlockIndex)
    requires b.Wf() && DerivedPath(f, b.Path())
    ensures b.derived.bnChainTrust == PathTrust(b.Path())
    decreases b.nHeight
  {
    hide Retarget.BlockTrust, StakeModifier.Computed;
    var path := b.Path();
    assert DerivedOk(f, path[|path| - 1]);
    assert path[..|path| - 1] == b.ancestors;
    if b.pprev != null {
      assert forall i | 0 <= i < |b.pprev.Path()| :: b.pprev.Path()[i] == path[i];
      TrustIsSum(f, b.pprev);
    }
  }

  /** How many of the blocks below the last one of a path are proof of work. */
  function WorkBelow(path: seq<BlockIndex>): set<nat> {
    set i: nat | i < |path| - 1 && !path[i].IsProofOfStake()
  }

  /** The proof-of-work height of a block is the number of proof-of-work blocks below it. */
  lemma {:induction false} WorkHeightCounts(f: StakeModifier.HashFunction, b: BlockIndex)
    requires b.Wf() && DerivedPath(f, b.Path())
    ensures b.derived.nPOWHeight == |WorkBelow(b.Path())|
    decreases b.nHeight
  {
    hide Retarget.BlockTrust, StakeModifier.Computed;
    var path := b.Path();
    assert DerivedOk(f, path[|path| - 1]);
    if b.pprev != null {
      var below := b.pprev.Path();
      assert forall i | 0 <= i < |below| :: below[i] == path[i];
      WorkHeightCounts(f, b.pprev);
      assert WorkBelow(path) == WorkBelow(below) + if b.pprev.IsProofOfStake() then {} else {|below| - 1};
    }
  }

  /** A block has more trust than each block below it. */
  lemma {:induction false} TrustRises(f: StakeModifier.HashFunction, a: BlockIndex, b: BlockIndex)
    requires a.Wf() && b.Wf() && IsAncestor(a, b) && a != b && DerivedPath(f, b.Path()) && FitPath(b.Path())
    ensures a.derived.bnChainTrust < b.derived.bnChainTrust
    decreases b.nHeight
  {
    hide Retarget.BlockTrust, StakeModifier.Computed, FitsParent;
    var path := b.Path();
    assert DerivedOk(f, path[|path| - 1]);
    FittingAddsTrust(b.block, b.pprev);
    assert forall i | 0 <= i < |b.pprev.Path()| :: b.pprev.Path()[i] == path[i];
    if a != b.pprev {
      TrustRises(f, a, b.pprev);
    }
  }

  /** The entropy bit of a block is the last bit of its hash; the genesis block starts with the modifier zero. */
  lemma EntropyIsParity(f: StakeModifier.HashFunction, b: BlockIndex)
    requires DerivedOk(f, b)
    ensures b.derived.nEntropyBit < 2 && exists q: nat :: b.block.hash == 2 * q + b.derived.nEntropyBit
    ensures b.pprev == null ==> b.derived.fGeneratedStakeModifier && b.derived.nStakeModifier == 0 && b.derived.hashProofOfStake == 0
  {
    hide StakeModifier.Computed, Retarget.BlockTrust;
    assert b.block.hash == 2 * (b.block.hash / 2) + b.derived.nEntropyBit;
  }

  /** Bit r of a modifier that was generated is the last bit of the hash of a block below, the one picked in round r. */
  lemma ModifierBits(f: StakeModifier.HashFunction, b: BlockIndex, last: StakeModifier.Block, picks: seq<nat>, r: nat) returns (k: nat)
    requires b.Wf() && b.pprev != null && DerivedPath(f, b.pprev.Path()) && r < |picks|
    requires StakeModifier.Computed(f, Stakes(b.pprev.Path()), b.derived.nStakeModifier, true, last, picks)
    ensures picks[r] < |StakeModifier.Candidates(Stakes(b.pprev.Path()))|
    ensures k < |b.pprev.Path()| && StakeOf(b.pprev.Path()[k]) == StakeModifier.Candidates(Stakes(b.pprev.Path()))[picks[r]]
    ensures b.derived.nStakeModifier / Power2(r) % 2 == b.pprev.Path()[k].block.hash % 2
  {
    hide DerivedPath, BlockIndex.Path, StakeModifier.Candidates, StakeModifier.Entropy, StakeModifier.PickedInRound, StakeModifier.LastGenerated, Power2;
    var path := b.pprev.Path();
    WfLength(b.pprev);
    assert StakeModifier.Selection(f, StakeModifier.Candidates(Stakes(path)), StakeModifier.IntervalStart(Stakes(path)[|path| - 1]),
                                   last.nStakeModifier, picks);
    k := ParityBit(f, path, StakeModifier.Candidates(Stakes(path)), picks, r);
  }

  lemma ParityBit(f: StakeModifier.HashFunction, path: seq<BlockIndex>, s: seq<StakeModifier.Block>, picks: seq<nat>, r: nat) returns (k: nat)
    requires path != [] && DerivedPath(f, path) && s == StakeModifier.Candidates(Stakes(path))
    requires StakeModifier.InRange(s, picks) && r < |picks|
    ensures k < |path| && StakeOf(path[k]) == s[picks[r]]
    ensures StakeModifier.Entropy(s, picks) / Power2(r) % 2 == path[k].block.hash % 2
  {
    hide DerivedOk, BlockIndex.Wf, StakeModifier.Candidates, StakeModifier.Entropy, Power2;
    forall i | 0 <= i < |s| ensures s[i].nStakeEntropyBit < 2 {
      var j := CandidateFrom(path, i);
      EntropyIsParity(f, path[j]);
    }
    StakeModifier.EntropyBit(s, picks, r);
    k := CandidateFrom(path, picks[r]);
    EntropyIsParity(f, path[k]);
  }

  lemma CandidateFrom(path: seq<BlockIndex>, i: nat) returns (k: nat)
    requires path != [] && i < |StakeModifier.Candidates(Stakes(path))|
    ensures k < |path| && StakeOf(path[k]) == StakeModifier.Candidates(Stakes(path))[i]
  {
    hide StakeModifier.Sort, StakeModifier.Recent;
    var chain := Stakes(path);
    var recent := StakeModifier.Recent(chain, StakeModifier.IntervalStart(chain[|chain| - 1]));
    var s := StakeModifier.Sort(recent);
    assert s[i] in multiset(recent);
    var j :| 0 <= j < |recent| && recent[j] == s[i];
    var n := StakeModifier.RecentIsSuffix(chain, StakeModifier.IntervalStart(chain[|chain| - 1]));
    k := n + j;
  }
}

/** The proof-of-stake modifier: how 64 blocks are selected for a new one, and which one a kernel uses. */
module StakeModifier {
  import opened Wrappers

  type Hash = nat

  const MODIFIER_INTERVAL: int := 8 * 60
  const MODIFIER_INTERVAL_RATIO: int := 3

  /** What this protocol reads in a block index. A chain is a sequence of these from the genesis block on:
  the predecessor of an element is the one before it, and on the main chain the successor the one after. */
  datatype Block = Block(hash: Hash, nTime: nat, fProofOfStake: bool, hashProofOfStake: Hash, nStakeEntropyBit: nat,
                         fGenerated: bool, nStakeModifier: nat)

  /** The hash of a proof-hash with a modifier is left uninterpreted. */
  type HashFunction = (Hash, nat) -> Hash

  // ---------------------------------------------------------------- intervals

  function Section(nSection: nat): (a: int)
    requires nSection < 64
    ensures a > 0
  {
    MODIFIER_INTERVAL * 63 / (63 + (63 - nSection) * (MODIFIER_INTERVAL_RATIO - 1))
  }

  /** The first `n` sections together. */
  function Sections(n: nat): (a: int)
    requires n <= 64
    ensures a >= n
  {
    if n == 0 then 0 else Sections(n - 1) + Section(n - 1)
  }

  /** The length of the selection interval. */
  method SelectionInterval() returns (nSelectionInterval: int)
    ensures nSelectionInterval == Sections(64)
  {
    nSelectionInterval := 0;
    var nSection: nat := 0;
    while nSection < 64
      invariant nSection <= 64 && nSelectionInterval == Sections(nSection)
    {
      nSelectionInterval := nSelectionInterval + Section(nSection);
      nSection := nSection + 1;
    }
  }

  /** Sections never get shorter, and the last one is three times the first. */
  lemma SectionShape(n: nat, m: nat)
    requires n <= m < 64
    ensures Section(n) <= Section(m) && Section(0) == 160 && Section(63) == MODIFIER_INTERVAL == MODIFIER_INTERVAL_RATIO * Section(0)
  {
    var a, d, d' := MODIFIER_INTERVAL * 63, 63 + (63 - n) * (MODIFIER_INTERVAL_RATIO - 1), 63 + (63 - m) * (MODIFIER_INTERVAL_RATIO - 1);
    QuotientGrows(a, d, d');
  }

  lemma QuotientGrows(a: nat, d: nat, d': nat)
    requires 0 < d' <= d
    ensures a / d <= a / d'
  {
    var q, r := a / d, a / d';
    assert q * d <= a && a < (r + 1) * d';
    assert q * d' <= q * d;
    assert r < q ==> (r + 1) * d' <= q * d';
  }

  lemma {:induction false} SectionsGrow(i: nat, j: nat)
    requires i < j <= 64
    ensures Sections(i) < Sections(j)
  {
    if i < j - 1 {
      SectionsGrow(i, j - 1);
    }
  }

  // ---------------------------------------------------------------- the last modifier

  /** The last block that generated a modifier, searching back from the tip; none if even the first did not. */
  method GetLastStakeModifier(chain: seq<Block>) returns (r: Option<Block>)
    ensures r.None? <==> forall i | 0 <= i < |chain| :: !chain[i].fGenerated
    ensures r.Some? ==> exists i :: 0 <= i < |chain| && chain[i] == r.value && chain[i].fGenerated && forall j | i < j < |chain| :: !chain[j].fGenerated
  {
    if chain == [] {
      return None;
    }
    var i: nat := |chain| - 1;
    while i > 0 && !chain[i].fGenerated
      invariant i < |chain| && forall j | i < j < |chain| :: !chain[j].fGenerated
    {
      i := i - 1;
    }
    if !chain[i].fGenerated {
      return None;
    }
    r := Some(chain[i]);
  }

  // ---------------------------------------------------------------- candidates

  predicate Before(a: Block, b: Block) {
    a.nTime < b.nTime || (a.nTime == b.nTime && a.hash <= b.hash)
  }

  ghost predicate Sorted(s: seq<Block>) {
    forall i, j | 0 <= i < j < |s| :: Before(s[i], s[j])
  }

  ghost predicate Distinct(s: seq<Block>) {
    forall i, j | 0 <= i < j < |s| :: s[i].hash != s[j].hash
  }

  /** Insert into a sorted sequence. */
  function Insert(s: seq<Block>, b: Block): (r: seq<Block>)
    requires Sorted(s)
    ensures Sorted(r) && multiset(r) == multiset(s) + multiset{b}
  {
    if s == [] then [b]
    else if Before(s[|s| - 1], b) then
      s + [b]
    else
      var rest := s[..|s| - 1];
      var last := s[|s| - 1];
      assert s == rest + [last];
      var r := Insert(rest, b);
      AppendLargest(r, multiset(rest) + multiset{b}, last);
      r + [last]
  }

  lemma AppendLargest(r: seq<Block>, m: multiset<Block>, last: Block)
    requires Sorted(r) && multiset(r) == m && forall x | x in m :: Before(x, last)
    ensures Sorted(r + [last])
  {
    forall i | 0 <= i < |r| ensures Before(r[i], last) {
      assert r[i] in multiset(r);
    }
  }

  /** The blocks in order of time and hash. */
  function Sort(s: seq<Block>): (r: seq<Block>)
    ensures Sorted(r) && multiset(r) == multiset(s)
  {
    if s == [] then []
    else
      assert s == s[..|s| - 1] + [s[|s| - 1]];
      Insert(Sort(s[..|s| - 1]), s[|s| - 1])
  }

  /** The latest blocks, back to the last one before `start`. */
  function Recent(chain: seq<Block>, start: int): seq<Block> {
    if chain == [] || chain[|chain| - 1].nTime < start then [] else Recent(chain[..|chain| - 1], start) + [chain[|chain| - 1]]
  }

  lemma RecentStep(chain: seq<Block>, i: nat, start: int)
    requires 0 < i <= |chain|
    ensures Recent(chain[..i], start) == if chain[i - 1].nTime < start then [] else Recent(chain[..i - 1], start) + [chain[i - 1]]
  {
    assert chain[..i][..i - 1] == chain[..i - 1];
  }

  /** Collect the candidates, walking back from the tip. */
  method Collect(chain: seq<Block>, start: int) returns (vSortedByTimestamp: seq<Block>)
    ensures vSortedByTimestamp == Sort(Recent(chain, start))
  {
    var v: seq<Block> := [];
    var i: nat := |chain|;
    assert chain[..i] == chain && Recent(chain[..i], start) + v == Recent(chain, start);
    hide Sort, Recent;
    while i > 0 && chain[i - 1].nTime >= start
      invariant i <= |chain| && Recent(chain, start) == Recent(chain[..i], start) + v
    {
      RecentStep(chain, i, start);
      assert (Recent(chain[..i - 1], start) + [chain[i - 1]]) + v == Recent(chain[..i - 1], start) + ([chain[i - 1]] + v);
      v := [chain[i - 1]] + v;
      i := i - 1;
    }
    if i > 0 {
      RecentStep(chain, i, start);
    } else {
      assert chain[..0] == [];
    }
    assert [] + v == v;
    vSortedByTimestamp := Sort(v);
  }

  // ---------------------------------------------------------------- selecting one block

  function SelectionHash(f: HashFunction, b: Block, nStakeModifierPrev: nat): nat {
    if b.fProofOfStake then f(b.hashProofOfStake, nStakeModifierPrev) / 0x1_0000_0000 else f(b.hash, nStakeModifierPrev)
  }

  /** Candidate `i` may be selected: it has not been, and it is either the first such or within the time limit. */
  ghost predicate Eligible(s: seq<Block>, selected: set<Hash>, stop: int, i: nat)
    requires i < |s|
  {
    && s[i].hash !in selected
    && (s[i].nTime <= stop || forall j | 0 <= j < i :: s[j].hash in selected)
  }

  /** Candidate `k` is the first of least selection hash among the eligible ones. */
  ghost predicate Chosen(f: HashFunction, s: seq<Block>, selected: set<Hash>, stop: int, nStakeModifierPrev: nat, k: nat) {
    && k < |s| && Eligible(s, selected, stop, k)
    && forall i | 0 <= i < |s| && Eligible(s, selected, stop, i) ::
         if i < k then SelectionHash(f, s[k], nStakeModifierPrev) < SelectionHash(f, s[i], nStakeModifierPrev)
         else SelectionHash(f, s[k], nStakeModifierPrev) <= SelectionHash(f, s[i], nStakeModifierPrev)
  }

  /** The pick in terms of the hashes: within a kind the least one, for proof of stake without its last 32 bits; and across kinds a
  proof-of-stake hash counts without its last 32 bits against a whole proof-of-work hash. */
  lemma PickIs(f: HashFunction, s: seq<Block>, selected: set<Hash>, stop: int, nStakeModifierPrev: nat, k: nat, i: nat)
    requires Chosen(f, s, selected, stop, nStakeModifierPrev, k) && i < |s|
    requires s[i].hash !in selected && (s[i].nTime <= stop || forall j | 0 <= j < i :: s[j].hash in selected)
    ensures var (a, b) := (s[k], s[i]);
            && a.hash !in selected && (a.nTime <= stop || forall j | 0 <= j < k :: s[j].hash in selected)
            && (a.fProofOfStake && b.fProofOfStake ==>
                  f(a.hashProofOfStake, nStakeModifierPrev) / 0x1_0000_0000 <= f(b.hashProofOfStake, nStakeModifierPrev) / 0x1_0000_0000)
            && (!a.fProofOfStake && !b.fProofOfStake ==> f(a.hash, nStakeModifierPrev) <= f(b.hash, nStakeModifierPrev))
            && (a.fProofOfStake && !b.fProofOfStake ==>
                  f(a.hashProofOfStake, nStakeModifierPrev) / 0x1_0000_0000 <= f(b.hash, nStakeModifierPrev))
            && (!a.fProofOfStake && b.fProofOfStake ==>
                  f(a.hash, nStakeModifierPrev) <= f(b.hashProofOfStake, nStakeModifierPrev) / 0x1_0000_0000)
  {
  }

  const TWO224: nat := 0x1_0000_0000_0000_0000_0000_0000_0000_0000_0000_0000_0000_0000_0000_0000
  const TWO256: nat := 0x1_0000_0000_0000_0000_0000_0000_0000_0000_0000_0000_0000_0000_0000_0000_0000_0000

  /** With hashes of 256 bits a proof-of-stake candidate is preferred to every proof-of-work one whose selection hash is at least 2 to the
  224: a proof-of-work block is picked over it only with a smaller one. */
  lemma StakeFavoured(f: HashFunction, s: seq<Block>, selected: set<Hash>, stop: int, nStakeModifierPrev: nat, k: nat, i: nat)
    requires Chosen(f, s, selected, stop, nStakeModifierPrev, k)
    requires i < |s| && Eligible(s, selected, stop, i) && s[i].fProofOfStake && f(s[i].hashProofOfStake, nStakeModifierPrev) < TWO256
    ensures s[k].fProofOfStake || f(s[k].hash, nStakeModifierPrev) < TWO224
  {
    hide Chosen;
    assert TWO256 == TWO224 * 0x1_0000_0000;
    PickIs(f, s, selected, stop, nStakeModifierPrev, k, i);
  }

  method SelectBlockFromCandidates(f: HashFunction, vSortedByTimestamp: seq<Block>, mapSelectedBlocks: set<Hash>, nSelectionIntervalStop: int, nStakeModifierPrev: nat)
      returns (r: Option<Block>, ghost k: nat)
    requires Sorted(vSortedByTimestamp)
    ensures r.None? <==> forall i | 0 <= i < |vSortedByTimestamp| :: vSortedByTimestamp[i].hash in mapSelectedBlocks
    ensures r.Some? ==> Chosen(f, vSortedByTimestamp, mapSelectedBlocks, nSelectionIntervalStop, nStakeModifierPrev, k) && vSortedByTimestamp[k] == r.value
  {
    hide SelectionHash;
    r, k := None, 0;
    var hashBest := 0;
    var i: nat := 0;
    while i < |vSortedByTimestamp|
      invariant i <= |vSortedByTimestamp|
      invariant r.None? ==> forall j | 0 <= j < i :: vSortedByTimestamp[j].hash in mapSelectedBlocks
      invariant r.Some? ==> k < i && vSortedByTimestamp[k] == r.value && Eligible(vSortedByTimestamp, mapSelectedBlocks, nSelectionIntervalStop, k)
                            && hashBest == SelectionHash(f, r.value, nStakeModifierPrev)
      invariant r.Some? ==> forall j | 0 <= j < i && Eligible(vSortedByTimestamp, mapSelectedBlocks, nSelectionIntervalStop, j) ::
                              if j < k then hashBest < SelectionHash(f, vSortedByTimestamp[j], nStakeModifierPrev)
                              else hashBest <= SelectionHash(f, vSortedByTimestamp[j], nStakeModifierPrev)
    {
      var pindex := vSortedByTimestamp[i];
      if r.Some? && pindex.nTime > nSelectionIntervalStop {
        break;
      }
      if pindex.hash !in mapSelectedBlocks {
        var hashSelection := SelectionHash(f, pindex, nStakeModifierPrev);
        if r.Some? && hashSelection < hashBest {
          hashBest := hashSelection;
          r, k := Some(pindex), i;
        } else if r.None? {
          hashBest := hashSelection;
          r, k := Some(pindex), i;
        }
      }
      i := i + 1;
    }
  }

  // ---------------------------------------------------------------- a new modifier

  function Hashes(s: seq<Block>): set<Hash> {
    set b | b in s :: b.hash
  }

  lemma {:induction false} HashCount(s: seq<Block>)
    requires Distinct(s)
    ensures |Hashes(s)| == |s|
  {
    if s != [] {
      var rest, last := s[..|s| - 1], s[|s| - 1];
      assert s == rest + [last];
      HashCount(rest);
      assert Hashes(s) == Hashes(rest) + {last.hash};
      assert last.hash !in Hashes(rest);
    }
  }

  lemma {:induction false} RecentIsSuffix(chain: seq<Block>, start: int) returns (k: nat)
    ensures k <= |chain| && Recent(chain, start) == chain[k..]
  {
    if chain != [] && chain[|chain| - 1].nTime >= start {
      k := RecentIsSuffix(chain[..|chain| - 1], start);
    } else {
      k := |chain|;
    }
  }

  /** The recent blocks are those behind the last one from before the start. */
  lemma {:induction false} RecentMeans(chain: seq<Block>, start: int, k: nat)
    requires k <= |chain| && (k > 0 ==> chain[k - 1].nTime < start) && forall i | k <= i < |chain| :: chain[i].nTime >= start
    ensures Recent(chain, start) == chain[k..]
  {
    if k < |chain| {
      RecentMeans(chain[..|chain| - 1], start, k);
      assert chain[k..] == chain[..|chain| - 1][k..] + [chain[|chain| - 1]];
    }
  }

  /** With fewer selected than candidates, one is left. */
  lemma OneLeft(chain: seq<Block>, start: int, s: seq<Block>, selected: set<Hash>)
    requires Distinct(chain) && s == Sort(Recent(chain, start)) && |selected| < |s|
    ensures exists i :: 0 <= i < |s| && s[i].hash !in selected
  {
    var recent := Recent(chain, start);
    var k := RecentIsSuffix(chain, start);
    HashCount(recent);
    assert |s| == |multiset(s)| == |recent|;
    if forall i | 0 <= i < |s| :: s[i].hash in selected {
      forall h | h in Hashes(recent) ensures h in selected {
        var b :| b in recent && b.hash == h;
        assert b in multiset(recent);
        assert b in s;
      }
      SubsetSize(Hashes(recent), selected);
    }
  }

  predicate InRange(s: seq<Block>, picks: seq<nat>) {
    forall r | 0 <= r < |picks| :: picks[r] < |s|
  }

  /** The hashes of the picked candidates. */
  function Picked(s: seq<Block>, picks: seq<nat>): set<Hash>
    requires InRange(s, picks)
  {
    set r | 0 <= r < |picks| :: s[picks[r]].hash
  }

  /** Round r picks the eligible candidate of least selection hash; its time limit lies r + 1 sections after the start. */
  ghost predicate Selection(f: HashFunction, s: seq<Block>, start: int, nStakeModifierPrev: nat, picks: seq<nat>) {
    && |picks| <= 64 && InRange(s, picks)
    && forall r | 0 <= r < |picks| :: PickedInRound(f, s, start, nStakeModifierPrev, picks, r)
  }

  ghost predicate PickedInRound(f: HashFunction, s: seq<Block>, start: int, nStakeModifierPrev: nat, picks: seq<nat>, r: nat)
    requires r < |picks| <= 64 && InRange(s, picks)
  {
    Chosen(f, s, Picked(s, picks[..r]), start + Sections(r + 1), nStakeModifierPrev, picks[r])
  }

  /** No block is selected twice. */
  lemma PicksDiffer(f: HashFunction, s: seq<Block>, start: int, nStakeModifierPrev: nat, picks: seq<nat>, q: nat, r: nat)
    requires Selection(f, s, start, nStakeModifierPrev, picks) && q < r < |picks|
    ensures picks[q] != picks[r] && s[picks[q]].hash != s[picks[r]].hash
  {
    assert PickedInRound(f, s, start, nStakeModifierPrev, picks, r);
    assert picks[..r][q] == picks[q];
    assert s[picks[q]].hash in Picked(s, picks[..r]);
  }

  lemma PickedMore(s: seq<Block>, picks: seq<nat>, k: nat)
    requires InRange(s, picks) && k < |s|
    ensures InRange(s, picks + [k]) && Picked(s, picks + [k]) == Picked(s, picks) + {s[k].hash}
  {
    var more := picks + [k];
    assert more[|picks|] == k;
    forall h | h in Picked(s, picks) ensures h in Picked(s, more) {
      var r :| 0 <= r < |picks| && s[picks[r]].hash == h;
      assert more[r] == picks[r];
    }
  }

  lemma PickOne(f: HashFunction, s: seq<Block>, start: int, nStakeModifierPrev: nat, picks: seq<nat>, k: nat)
    requires Selection(f, s, start, nStakeModifierPrev, picks) && |picks| < 64
    requires k < |s| && Chosen(f, s, Picked(s, picks), start + Sections(|picks| + 1), nStakeModifierPrev, k)
    ensures Selection(f, s, start, nStakeModifierPrev, picks + [k])
    ensures Picked(s, picks + [k]) == Picked(s, picks) + {s[k].hash}
  {
    hide Chosen, Picked;
    var more := picks + [k];
    PickedMore(s, picks, k);
    forall r | 0 <= r < |more| ensures PickedInRound(f, s, start, nStakeModifierPrev, more, r) {
      if r < |picks| {
        assert PickedInRound(f, s, start, nStakeModifierPrev, picks, r);
        assert more[..r] == picks[..r];
      } else {
        assert more[..r] == picks;
      }
    }
  }

  /** The number whose binary digits are the entropy bits of the picks, the first lowest. */
  function Entropy(s: seq<Block>, picks: seq<nat>): nat
    requires InRange(s, picks)
  {
    if picks == [] then 0 else Entropy(s, picks[..|picks| - 1]) + s[picks[|picks| - 1]].nStakeEntropyBit * Power2(|picks| - 1)
  }

  /** Bit r of the modifier is the entropy bit of the block selected in round r. */
  lemma {:induction false} EntropyBit(s: seq<Block>, picks: seq<nat>, r: nat)
    requires InRange(s, picks) && (forall i | 0 <= i < |s| :: s[i].nStakeEntropyBit < 2) && r < |picks|
    ensures Entropy(s, picks) < Power2(|picks|)
    ensures Entropy(s, picks) / Power2(r) % 2 == s[picks[r]].nStakeEntropyBit
  {
    var n := |picks| - 1;
    var rest, b := picks[..n], s[picks[n]].nStakeEntropyBit;
    EntropyBound(s, picks);
    EntropyBound(s, rest);
    if r < n {
      EntropyBit(s, rest, r);
      LowDigit(Entropy(s, rest), b, n, r);
    } else {
      TopDigit(Entropy(s, rest), b, n);
    }
  }

  lemma LowDigit(x: nat, b: nat, n: nat, r: nat)
    requires r < n
    ensures (x + b * Power2(n)) / Power2(r) % 2 == x / Power2(r) % 2
  {
    hide Power2;
    var p, q := Power2(r), Power2(n - r - 1);
    PowerSplit(r, n);
    Regroup(b, p, q);
    DivideSum(x, 2 * (b * q), p);
    EvenStep(x / p, b * q);
  }

  lemma Regroup(b: nat, p: nat, q: nat)
    ensures b * (p * (2 * q)) == p * (2 * (b * q))
  {
    assert b * (p * (2 * q)) == (b * p) * (2 * q) == (p * b) * (2 * q) == p * (b * (2 * q));
  }

  lemma EvenStep(y: nat, z: nat)
    ensures (y + 2 * z) % 2 == y % 2
  {
  }

  lemma TopDigit(x: nat, b: nat, n: nat)
    requires x < Power2(n) && b < 2
    ensures (x + b * Power2(n)) / Power2(n) % 2 == b
  {
    hide Power2;
    DivideSum(x, b, Power2(n));
    assert x / Power2(n) == 0;
  }

  lemma {:induction false} EntropyBound(s: seq<Block>, picks: seq<nat>)
    requires InRange(s, picks) && forall i | 0 <= i < |s| :: s[i].nStakeEntropyBit < 2
    ensures Entropy(s, picks) < Power2(|picks|)
  {
    if picks != [] {
      EntropyBound(s, picks[..|picks| - 1]);
      assert s[picks[|picks| - 1]].nStakeEntropyBit * Power2(|picks| - 1) <= Power2(|picks| - 1);
    }
  }

  lemma {:induction false} PowerSplit(r: nat, n: nat)
    requires r < n
    ensures Power2(n) == Power2(r) * (2 * Power2(n - r - 1))
  {
    if r > 0 {
      PowerSplit(r - 1, n - 1);
    }
  }

  lemma DivideSum(x: nat, m: nat, p: nat)
    requires p > 0
    ensures (x + p * m) / p == x / p + m
  {
    var d: int := (x + p * m) / p - (x / p + m);
    assert x + p * m == (x + p * m) / p * p + (x + p * m) % p;
    assert x == x / p * p + x % p;
    assert d * p == (x % p) as int - (x + p * m) % p;
    assert d >= 1 ==> d * p >= p;
    assert d <= -1 ==> d * p <= -(p as int);
  }

  /** Where the selection interval of a modifier computed after `tip` starts. */
  function IntervalStart(tip: Block): int {
    tip.nTime / MODIFIER_INTERVAL * MODIFIER_INTERVAL - Sections(64)
  }

  /** The candidates for a modifier computed after the chain. */
  function Candidates(chain: seq<Block>): seq<Block>
    requires chain != []
  {
    Sort(Recent(chain, IntervalStart(chain[|chain| - 1])))
  }

  /** They come in order of time, and of hash at the same time. */
  lemma CandidateOrder(chain: seq<Block>, i: nat, j: nat)
    requires chain != [] && i < j < |Candidates(chain)|
    ensures var s := Candidates(chain); s[i].nTime < s[j].nTime || (s[i].nTime == s[j].nTime && s[i].hash <= s[j].hash)
  {
    hide Sort;
    assert Sorted(Candidates(chain));
  }

  /** The last block that generated a modifier. */
  ghost predicate LastGenerated(chain: seq<Block>, b: Block) {
    exists i :: 0 <= i < |chain| && chain[i] == b && chain[i].fGenerated && forall j | i < j < |chain| :: !chain[j].fGenerated
  }

  /** What a modifier computed after `chain` is: zero at the start, kept from `last` within its interval, and else the entropy
  bits of the blocks picked. */
  ghost predicate Computed(f: HashFunction, chain: seq<Block>, nStakeModifier: nat, fGenerated: bool, last: Block, picks: seq<nat>) {
    if chain == [] then nStakeModifier == 0 && fGenerated
    else
      var tip := chain[|chain| - 1];
      && LastGenerated(chain, last)
      && (fGenerated <==> last.nTime / MODIFIER_INTERVAL < tip.nTime / MODIFIER_INTERVAL)
      && (!fGenerated ==> nStakeModifier == last.nStakeModifier)
      && (fGenerated ==>
            && |picks| == Min(64, |Candidates(chain)|)
            && Selection(f, Candidates(chain), IntervalStart(tip), last.nStakeModifier, picks)
            && nStakeModifier == Entropy(Candidates(chain), picks))
  }

  /** The modifier for the block after `chain`. Fails exactly when no block of the chain has generated one. */
  method ComputeNextStakeModifier(f: HashFunction, chain: seq<Block>)
      returns (ok: bool, nStakeModifier: nat, fGeneratedStakeModifier: bool, ghost last: Block, ghost picks: seq<nat>, ghost stop: int)
    requires Distinct(chain)
    ensures ok <==> chain == [] || exists i :: 0 <= i < |chain| && chain[i].fGenerated
    ensures ok ==> Computed(f, chain, nStakeModifier, fGeneratedStakeModifier, last, picks)
    ensures ok && chain != [] && fGeneratedStakeModifier && |picks| == 64 ==>
              stop == chain[|chain| - 1].nTime / MODIFIER_INTERVAL * MODIFIER_INTERVAL
  {
    hide Selection, Sort, Recent, Entropy, Sections, Section, Picked;
    nStakeModifier, fGeneratedStakeModifier, picks, stop := 0, false, [], 0;
    last := Block(0, 0, false, 0, 0, false, 0);
    if chain == [] {
      return true, 0, true, last, [], 0;
    }
    var tip := chain[|chain| - 1];
    var found := GetLastStakeModifier(chain);
    if found.None? {
      ok := false;
      return;
    }
    last := found.value;
    nStakeModifier := found.value.nStakeModifier;
    if found.value.nTime / MODIFIER_INTERVAL >= tip.nTime / MODIFIER_INTERVAL {
      ok := true;
      return;
    }
    var nSelectionInterval := SelectionInterval();
    var nSelectionIntervalStart := tip.nTime / MODIFIER_INTERVAL * MODIFIER_INTERVAL - nSelectionInterval;
    var vSortedByTimestamp := Collect(chain, nSelectionIntervalStart);
    var nStakeModifierNew: nat;
    nStakeModifierNew, stop, picks := SelectRounds(f, chain, vSortedByTimestamp, nSelectionIntervalStart, nStakeModifier);
    nStakeModifier := nStakeModifierNew;
    fGeneratedStakeModifier := true;
    ok := true;
  }

  function Min(a: nat, b: nat): (m: nat)
    ensures m <= a && m <= b && (m == a || m == b)
  {
    if a < b then a else b
  }

  /** Up to 64 rounds of selection. No round comes away empty. */
  method SelectRounds(f: HashFunction, ghost chain: seq<Block>, vSortedByTimestamp: seq<Block>, start: int, nStakeModifier: nat)
      returns (nStakeModifierNew: nat, nSelectionIntervalStop: int, ghost picks: seq<nat>)
    requires Distinct(chain) && vSortedByTimestamp == Sort(Recent(chain, start))
    ensures |picks| == Min(64, |vSortedByTimestamp|) && Selection(f, vSortedByTimestamp, start, nStakeModifier, picks)
    ensures nStakeModifierNew == Entropy(vSortedByTimestamp, picks) && nSelectionIntervalStop == start + Sections(|picks|)
  {
    hide Sort, Recent, Section, Picked, Chosen, PickedInRound, Power2;
    nStakeModifierNew, picks := 0, [];
    nSelectionIntervalStop := start;
    var mapSelectedBlocks: set<Hash> := {};
    NonePicked(vSortedByTimestamp);
    var nRound: nat := 0;
    while nRound < Min(64, |vSortedByTimestamp|)
      invariant nRound <= Min(64, |vSortedByTimestamp|) && |picks| == nRound == |mapSelectedBlocks|
      invariant Selection(f, vSortedByTimestamp, start, nStakeModifier, picks) && mapSelectedBlocks == Picked(vSortedByTimestamp, picks)
      invariant nSelectionIntervalStop == start + Sections(nRound) && nStakeModifierNew == Entropy(vSortedByTimestamp, picks)
    {
      nSelectionIntervalStop := nSelectionIntervalStop + Section(nRound);
      OneLeft(chain, start, vSortedByTimestamp, mapSelectedBlocks);
      var pindex, k := SelectBlockFromCandidates(f, vSortedByTimestamp, mapSelectedBlocks, nSelectionIntervalStop, nStakeModifier);
      ChosenLeft(f, vSortedByTimestamp, mapSelectedBlocks, nSelectionIntervalStop, nStakeModifier, k);
      PickOne(f, vSortedByTimestamp, start, nStakeModifier, picks, k);
      nStakeModifierNew := nStakeModifierNew + pindex.value.nStakeEntropyBit * Power2(nRound);
      mapSelectedBlocks := mapSelectedBlocks + {pindex.value.hash};
      assert (picks + [k])[..nRound] == picks;
      picks := picks + [k];
      nRound := nRound + 1;
    }
  }

  lemma NonePicked(s: seq<Block>)
    ensures Picked(s, []) == {} && Entropy(s, []) == 0 && Sections(0) == 0
  {
  }

  lemma ChosenLeft(f: HashFunction, s: seq<Block>, selected: set<Hash>, stop: int, nStakeModifierPrev: nat, k: nat)
    requires Chosen(f, s, selected, stop, nStakeModifierPrev, k)
    ensures k < |s| && s[k].hash !in selected
  {
  }

  /** The time limit of a round lies before the start of the modifier interval that the tip is in, and reaches it in
  the last round: what is picked from the tip's own interval is picked for want of anything earlier. */
  lemma LastLimit(f: HashFunction, chain: seq<Block>, nStakeModifierPrev: nat, picks: seq<nat>, r: nat)
    requires chain != [] && Selection(f, Candidates(chain), IntervalStart(chain[|chain| - 1]), nStakeModifierPrev, picks) && r < |picks|
    ensures var tip, s := chain[|chain| - 1], Candidates(chain);
            var limit, start := IntervalStart(tip) + Sections(r + 1), tip.nTime / MODIFIER_INTERVAL * MODIFIER_INTERVAL;
            && limit <= start <= tip.nTime && (limit == start <==> r == 63)
            && (s[picks[r]].nTime > start ==> forall i | 0 <= i < picks[r] :: s[i].hash in Picked(s, picks[..r]))
  {
    hide Sections, Sort, Recent, Picked;
    if r < 63 {
      SectionsGrow(r + 1, 64);
    }
    assert PickedInRound(f, Candidates(chain), IntervalStart(chain[|chain| - 1]), nStakeModifierPrev, picks, r);
  }

  // ---------------------------------------------------------------- the modifier for a kernel

  /** Block `j` is the first after `i` to generate a modifier a selection interval later. */
  ghost predicate KernelBlock(main: seq<Block>, i: nat, j: nat) {
    && i < j < |main| && GeneratesLater(main, i, j)
    && forall k | i < k < j :: !GeneratesLater(main, i, k)
  }

  ghost predicate GeneratesLater(main: seq<Block>, i: nat, k: nat)
    requires i < |main| && k < |main|
  {
    main[k].fGenerated && main[k].nTime >= main[i].nTime + Sections(64)
  }

  /** The block a kernel comes from: one that is not indexed, one off the main chain, or block `i` of it. */
  datatype Origin = Unindexed | OffMain(b: Block) | OnMain(i: nat)

  /** The modifier for a kernel, if its block is on the main chain and that is long enough. */
  method GetKernelStakeModifier(main: seq<Block>, from: Origin) returns (r: Option<nat>, nStakeModifierTime: nat, ghost j: nat)
    requires from.OnMain? ==> from.i < |main|
    ensures r.Some? ==> from.OnMain? && KernelBlock(main, from.i, j) && r.value == main[j].nStakeModifier && nStakeModifierTime == main[j].nTime
    ensures r.None? <==> (from.OnMain? ==> forall k | from.i < k < |main| :: !GeneratesLater(main, from.i, k))
  {
    hide Sections;
    nStakeModifierTime, j := 0, 0;
    if from.Unindexed? {
      return None, nStakeModifierTime, j;
    }
    var pindexFrom := if from.OffMain? then from.b else main[from.i];
    nStakeModifierTime := pindexFrom.nTime;
    var nStakeModifierSelectionInterval := SelectionInterval();
    var pindex: nat := if from.OnMain? then from.i else 0;
    while nStakeModifierTime < pindexFrom.nTime + nStakeModifierSelectionInterval
      invariant from.OnMain? ==> from.i <= pindex < |main|
      invariant from.OffMain? ==> nStakeModifierTime == pindexFrom.nTime
      invariant from.OnMain? && nStakeModifierTime >= pindexFrom.nTime + nStakeModifierSelectionInterval ==>
                  KernelBlock(main, from.i, pindex) && nStakeModifierTime == main[pindex].nTime
      invariant from.OnMain? && nStakeModifierTime < pindexFrom.nTime + nStakeModifierSelectionInterval ==>
                  forall k | from.i < k <= pindex :: !GeneratesLater(main, from.i, k)
      decreases |main| - pindex
    {
      // a block off the main chain has no successor
      if from.OffMain? || pindex + 1 == |main| {
        return None, nStakeModifierTime, j;
      }
      pindex := pindex + 1;
      if main[pindex].fGenerated {
        nStakeModifierTime := main[pindex].nTime;
      }
    }
    r, j := Some(main[pindex].nStakeModifier), pindex;
  }

  lemma KernelStays(main: seq<Block>, longer: seq<Block>, i: nat, j: nat)
    requires main <= longer && KernelBlock(main, i, j)
    ensures KernelBlock(longer, i, j) && longer[j].nStakeModifier == main[j].nStakeModifier
  {
    forall k | i < k <= j ensures GeneratesLater(main, i, k) == GeneratesLater(longer, i, k) {
      assert longer[i] == main[i] && longer[k] == main[k];
    }
  }

  /** Extending the main chain does not change which block a kernel uses. */
  lemma KernelStable(main: seq<Block>, longer: seq<Block>, i: nat, j: nat, k: nat)
    requires main <= longer && KernelBlock(main, i, j) && KernelBlock(longer, i, k)
    ensures j == k && longer[k].nStakeModifier == main[j].nStakeModifier
  {
    KernelStays(main, longer, i, j);
  }
}

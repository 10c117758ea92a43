/** Stacked page locks on top of a system whose page locks do not stack. */
module LockedPages {
  const ADDRESS_LIMIT: nat := 0x1_0000_0000_0000_0000

  /** A range of memory. */
  datatype Range = Range(p: nat, size: nat)
  {
    /** Does the range touch the page at this address? */
    predicate Touches(page: nat, page_size: nat) {
      p < page + page_size && page < p + size
    }
  }

  /** How many of the ranges touch a page. */
  function Count(live: seq<Range>, page: nat, page_size: nat): nat {
    if live == [] then 0
    else Count(live[..|live| - 1], page, page_size) + if live[|live| - 1].Touches(page, page_size) then 1 else 0
  }

  lemma {:induction false} CountConcat(a: seq<Range>, b: seq<Range>, page: nat, page_size: nat)
    ensures Count(a + b, page, page_size) == Count(a, page, page_size) + Count(b, page, page_size)
  {
    if b == [] {
      assert a + b == a;
    } else {
      assert (a + b)[..|a + b| - 1] == a + b[..|b| - 1];
      CountConcat(a, b[..|b| - 1], page, page_size);
    }
  }

  lemma CountOne(r: Range, page: nat, page_size: nat)
    ensures Count([r], page, page_size) == if r.Touches(page, page_size) then 1 else 0
  {
    assert [r][..0] == [];
  }

  /** Counts when a range comes, and when range `i` goes. */
  lemma CountMore(live: seq<Range>, r: Range, page: nat, page_size: nat)
    ensures Count(live + [r], page, page_size) == Count(live, page, page_size) + if r.Touches(page, page_size) then 1 else 0
  {
    CountConcat(live, [r], page, page_size);
    CountOne(r, page, page_size);
  }

  lemma CountFewer(live: seq<Range>, i: nat, page: nat, page_size: nat)
    requires i < |live|
    ensures Count(live, page, page_size) == Count(live[..i] + live[i + 1..], page, page_size) + if live[i].Touches(page, page_size) then 1 else 0
  {
    assert live == live[..i] + ([live[i]] + live[i + 1..]);
    CountConcat(live[..i], [live[i]] + live[i + 1..], page, page_size);
    CountConcat([live[i]], live[i + 1..], page, page_size);
    CountConcat(live[..i], live[i + 1..], page, page_size);
    CountOne(live[i], page, page_size);
  }

  /** The base address of the page of an address; for a power of two this is what the mask leaves. */
  function Base(a: nat, page_size: nat): (b: nat)
    requires page_size > 0
    ensures b <= a
  {
    a - a % page_size
  }

  lemma BaseAligned(a: nat, page_size: nat)
    requires page_size > 0
    ensures Base(a, page_size) % page_size == 0 && a < Base(a, page_size) + page_size
  {
    var q := a / page_size;
    assert Base(a, page_size) == q * page_size;
    Multiple(q, page_size);
  }

  lemma Multiple(q: nat, d: nat)
    requires d > 0
    ensures q * d % d == 0
  {
    var e: int := q * d / d - q;
    assert e * d == -(q * d % d);
    assert e >= 1 ==> e * d >= d;
    assert e <= -1 ==> e * d <= -(d as int);
  }

  lemma NextPage(a: nat, d: nat)
    requires d > 0 && a % d == 0
    ensures (a + d) % d == 0
  {
    Multiple(a / d + 1, d);
    assert a + d == (a / d + 1) * d;
  }

  /** Of two multiples the larger is at least one page further on. */
  lemma Apart(a: nat, b: nat, d: nat)
    requires d > 0 && a % d == 0 && b % d == 0 && a < b
    ensures a + d <= b
  {
    var x, y := a / d, b / d;
    assert a == x * d && b == y * d;
    assert x >= y ==> x * d >= y * d;
    assert (x + 1) * d <= y * d;
  }

  /** A range touches just the pages from that of its first byte to that of its last. */
  lemma TouchesBetween(r: Range, page: nat, page_size: nat)
    requires page_size > 0 && page % page_size == 0 && r.size > 0
    ensures r.Touches(page, page_size) <==> Base(r.p, page_size) <= page <= Base(r.p + r.size - 1, page_size)
  {
    var first, last := Base(r.p, page_size), Base(r.p + r.size - 1, page_size);
    BaseAligned(r.p, page_size);
    BaseAligned(r.p + r.size - 1, page_size);
    if page < first {
      Apart(page, first, page_size);
    }
    if last < page {
      Apart(last, page, page_size);
    }
  }

  // ---------------------------------------------------------------- the histogram

  type Histogram = map<nat, nat>

  function At(h: Histogram, page: nat): nat {
    if page in h then h[page] else 0
  }

  ghost predicate Aligned(h: Histogram, page_size: nat)
    requires page_size > 0
  {
    forall q | q in h :: q % page_size == 0 && h[q] > 0
  }

  /** Every page is counted as often as ranges touch it, and once more between `lo` and `hi`. */
  ghost predicate Counts(h: Histogram, live: seq<Range>, page_size: nat, lo: nat, hi: nat)
    requires page_size > 0
  {
    && Aligned(h, page_size)
    && forall q: nat | q % page_size == 0 :: At(h, q) == Count(live, q, page_size) + if lo <= q < hi then 1 else 0
  }

  /** Counting one page more, or one page less, moves a bound by a page. */
  lemma CountUp(h: Histogram, live: seq<Range>, page_size: nat, lo: nat, page: nat)
    requires page_size > 0 && page % page_size == 0 && lo <= page && Counts(h, live, page_size, lo, page)
    ensures Counts(h[page := At(h, page) + 1], live, page_size, lo, page + page_size)
  {
    hide Count;
    var w := h[page := At(h, page) + 1];
    forall q: nat | q % page_size == 0
      ensures At(w, q) == Count(live, q, page_size) + if lo <= q < page + page_size then 1 else 0
    {
      if page < q {
        Apart(page, q, page_size);
      }
    }
  }

  lemma CountDown(h: Histogram, live: seq<Range>, page_size: nat, page: nat, hi: nat)
    requires page_size > 0 && page % page_size == 0 && page < hi && Counts(h, live, page_size, page, hi)
    ensures At(h, page) > 0
    ensures var c := h[page] - 1;
            Counts(if c == 0 then h - {page} else h[page := c], live, page_size, page + page_size, hi)
  {
    hide Count;
    var c := At(h, page) - 1;
    var w := if c == 0 then h - {page} else h[page := c];
    forall q: nat | q % page_size == 0
      ensures At(w, q) == Count(live, q, page_size) + if page + page_size <= q < hi then 1 else 0
    {
      if page < q {
        Apart(page, q, page_size);
      }
    }
  }

  /** A finished range is one more live range; one about to be unlocked is one range less and still counted. */
  lemma RangeIn(h: Histogram, live: seq<Range>, page_size: nat, r: Range, hi: nat)
    requires page_size > 0 && r.size > 0 && Counts(h, live, page_size, Base(r.p, page_size), hi)
    requires hi == Base(r.p + r.size - 1, page_size) + page_size
    ensures Counts(h, live + [r], page_size, 0, 0)
  {
    hide Count, Range.Touches, Base;
    forall q: nat | q % page_size == 0 ensures At(h, q) == Count(live + [r], q, page_size) {
      CountMore(live, r, q, page_size);
      Between(r, q, page_size, hi);
    }
  }

  lemma RangeOut(h: Histogram, live: seq<Range>, page_size: nat, i: nat, hi: nat)
    requires page_size > 0 && i < |live| && live[i].size > 0 && Counts(h, live, page_size, 0, 0)
    requires hi == Base(live[i].p + live[i].size - 1, page_size) + page_size
    ensures Counts(h, live[..i] + live[i + 1..], page_size, Base(live[i].p, page_size), hi)
  {
    hide Count, Range.Touches, Base;
    var rest := live[..i] + live[i + 1..];
    forall q: nat | q % page_size == 0
      ensures At(h, q) == Count(rest, q, page_size) + if Base(live[i].p, page_size) <= q < hi then 1 else 0
    {
      CountFewer(live, i, q, page_size);
      Between(live[i], q, page_size, hi);
    }
  }

  lemma Between(r: Range, q: nat, page_size: nat, hi: nat)
    requires page_size > 0 && q % page_size == 0 && r.size > 0 && hi == Base(r.p + r.size - 1, page_size) + page_size
    ensures r.Touches(q, page_size) <==> Base(r.p, page_size) <= q < hi
  {
    hide Range.Touches, Base;
    var last := Base(r.p + r.size - 1, page_size);
    TouchesBetween(r, q, page_size);
    BaseAligned(r.p + r.size - 1, page_size);
    if last < q {
      Apart(last, q, page_size);
    }
  }

  lemma NothingBetween(h: Histogram, live: seq<Range>, page_size: nat, x: nat, y: nat)
    requires page_size > 0 && Counts(h, live, page_size, x, x)
    ensures Counts(h, live, page_size, y, y)
  {
  }

  ghost predicate PowerOfTwo(n: nat) {
    n == 1 || (n > 0 && n % 2 == 0 && PowerOfTwo(n / 2))
  }

  // ---------------------------------------------------------------- the manager

  class LockedPageManager {
    const page_size: nat
    var histogram: Histogram
    /** The pages the system has locked. */
    var locked: set<nat>
    /** The ranges locked and not unlocked since. */
    ghost var live: seq<Range>

    /** The range is empty or ends before the last page; from that the step to the next page would wrap around. */
    predicate InReach(p: nat, size: nat) {
      size > 0 ==> p + size + page_size <= ADDRESS_LIMIT
    }

    ghost predicate Valid()
      reads this
    {
      && page_size > 0 && Counts(histogram, live, page_size, 0, 0) && locked == histogram.Keys
      && forall i | 0 <= i < |live| :: live[i].size > 0 && InReach(live[i].p, live[i].size)
    }

    constructor (page_size: nat)
      requires PowerOfTwo(page_size)
      ensures Valid() && live == [] && this.page_size == page_size
    {
      this.page_size := page_size;
      histogram, locked, live := map[], {}, [];
    }

    /** Lock one page in the system; it must not be locked yet. */
    method Lock(page: nat)
      requires page !in locked
      modifies this`locked
      ensures locked == old(locked) + {page}
    {
      locked := locked + {page};
    }

    method Unlock(page: nat)
      requires page in locked
      modifies this`locked
      ensures locked == old(locked) - {page}
    {
      locked := locked - {page};
    }

    method LockRange(p: nat, size: nat)
      requires Valid() && InReach(p, size)
      modifies this
      ensures Valid() && live == if size == 0 then old(live) else old(live) + [Range(p, size)]
    {
      hide Counts, Base, PowerOfTwo;
      if size == 0 {
        return;
      }
      var start_page := Base(p, page_size);
      var end_page := Base(p + size - 1, page_size);
      BaseAligned(p, page_size);
      var page := start_page;
      NothingBetween(histogram, live, page_size, 0, page);
      BaseAligned(p + size - 1, page_size);
      BaseOrder(p, p + size - 1, page_size);
      while page <= end_page
        invariant page % page_size == 0 && start_page <= page <= end_page + page_size && live == old(live)
        invariant Counts(histogram, live, page_size, start_page, page) && locked == histogram.Keys
        decreases end_page + page_size - page
      {
        CountUp(histogram, live, page_size, start_page, page);
        if page !in histogram {
          Lock(page);
          histogram := histogram[page := 1];
        } else {
          histogram := histogram[page := histogram[page] + 1];
        }
        NextPage(page, page_size);
        page := page + page_size;
      }
      Apart(end_page, page, page_size);
      RangeIn(histogram, live, page_size, Range(p, size), page);
      live := live + [Range(p, size)];
    }

    /** Unlock a range that is locked; the `i`-th live one is such. */
    method UnlockRange(p: nat, size: nat, ghost i: nat)
      requires Valid()
      requires size > 0 ==> i < |live| && live[i] == Range(p, size)
      modifies this
      ensures Valid() && live == if size == 0 then old(live) else old(live)[..i] + old(live)[i + 1..]
    {
      hide Counts, Base, PowerOfTwo;
      if size == 0 {
        return;
      }
      var start_page := Base(p, page_size);
      var end_page := Base(p + size - 1, page_size);
      BaseAligned(p, page_size);
      BaseAligned(p + size - 1, page_size);
      BaseOrder(p, p + size - 1, page_size);
      ghost var hi := end_page + page_size;
      RangeOut(histogram, live, page_size, i, hi);
      live := live[..i] + live[i + 1..];
      ghost var rest := live;
      var page := start_page;
      while page <= end_page
        invariant page % page_size == 0 && start_page <= page <= hi && live == rest
        invariant Counts(histogram, live, page_size, page, hi) && locked == histogram.Keys
        decreases hi - page
      {
        CountDown(histogram, live, page_size, page, hi);
        var count := histogram[page] - 1;
        if count == 0 {
          Unlock(page);
          histogram := histogram - {page};
        } else {
          histogram := histogram[page := count];
        }
        NextPage(page, page_size);
        page := page + page_size;
      }
      Apart(end_page, page, page_size);
      NothingBetween(histogram, live, page_size, hi, 0);
    }

    method GetLockedPageCount() returns (n: nat)
      requires Valid()
      ensures n == |locked|
    {
      assert |histogram| == |histogram.Keys|;
      n := |histogram|;
    }

    /** The system has just those pages locked that a live range touches. */
    lemma LockedAreTouched(page: nat)
      requires Valid() && page % page_size == 0
      ensures page in locked <==> exists i :: 0 <= i < |live| && live[i].Touches(page, page_size)
      ensures At(histogram, page) == Count(live, page, page_size)
    {
      CountPositive(live, page, page_size);
    }
  }

  lemma {:induction false} CountPositive(live: seq<Range>, page: nat, page_size: nat)
    ensures Count(live, page, page_size) > 0 <==> exists i :: 0 <= i < |live| && live[i].Touches(page, page_size)
  {
    if live != [] {
      CountPositive(live[..|live| - 1], page, page_size);
    }
  }

  lemma BaseOrder(a: nat, b: nat, page_size: nat)
    requires page_size > 0 && a <= b
    ensures Base(a, page_size) <= Base(b, page_size)
  {
    BaseAligned(a, page_size);
    BaseAligned(b, page_size);
    if Base(b, page_size) < Base(a, page_size) {
      Apart(Base(b, page_size), Base(a, page_size), page_size);
    }
  }
}

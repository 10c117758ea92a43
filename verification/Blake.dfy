/** BLAKE with 64-bit words: buffering, the 128-bit counter and the close with its counter trick.
Compression is left uninterpreted. */
module Blake {
  import opened Words
  import opened Wrappers

  const TWO64: nat := 0x1_0000_0000_0000_0000
  const TWO128: nat := 0x1_0000_0000_0000_0000_0000_0000_0000_0000

  /** Compression of 1024 bits with the chaining value and a counter. */
  type Compression<!H> = (H, seq<bool>, nat) -> H

  /** The number in two words. */
  function Join(hi: nat, lo: nat): nat {
    hi * TWO64 + lo
  }

  // ---------------------------------------------------------------- the hash, on a whole message of bits

  /** The lowest `k` binary digits of `n`, highest first. */
  function BigEndian(n: nat, k: nat): (s: seq<bool>)
    ensures |s| == k
  {
    if k == 0 then [] else BigEndian(n / 2, k - 1) + [n % 2 == 1]
  }

  /** A one, zeros up to 895 modulo 1024, the bit that tells the 512-bit hash, and the length. */
  function Padded(m: seq<bool>, big: bool): seq<bool> {
    m + [true] + seq((894 - |m|) % 1024, _ => false) + [big] + BigEndian(|m|, 128)
  }

  lemma PaddedLength(m: seq<bool>, big: bool)
    ensures |Padded(m, big)| % 1024 == 0 && |Padded(m, big)| > |m|
  {
    hide BigEndian;
    var n := |m|;
    var pad := (894 - n) % 1024;
    assert n + pad + 130 == 1024 * ((n + pad + 130) / 1024) by {
      assert 894 - n == 1024 * ((894 - n) / 1024) + pad;
      assert n + pad + 130 == 1024 * (1 - (894 - n) / 1024);
    }
  }

  /** The message bits in the first blocks up to block `i`; zero for a block without message bits. */
  function Counter(bits: nat, i: nat): nat {
    if 1024 * i >= bits then 0 else if bits < 1024 * (i + 1) then bits else 1024 * (i + 1)
  }

  /** The chaining value after all blocks of `p`, the first of which is block `i` of the hash of `bits` bits. */
  function Run<H>(f: Compression<H>, h: H, p: seq<bool>, bits: nat, i: nat): H
    decreases |p|
  {
    if |p| < 1024 then h
    else Run(f, f(h, p[..1024], Counter(bits, i) % TWO128), p[1024..], bits, i + 1)
  }

  function Hash<H>(f: Compression<H>, iv: H, m: seq<bool>, big: bool): H {
    Run(f, iv, Padded(m, big), |m|, 0)
  }

  /** The first `k` words of a chaining value, highest bit first. */
  function Output<H>(word: (H, nat) -> nat, h: H, k: nat): (s: seq<bool>)
    ensures |s| == 64 * k
  {
    if k == 0 then [] else Output(word, h, k - 1) + BigEndian(word(h, k - 1), 64)
  }

  /** Each digit of a number, counted from the highest. */
  lemma {:induction false} DigitIs(n: nat, k: nat, i: nat)
    requires i < k
    ensures BigEndian(n, k)[i] <==> n / Power2(k - 1 - i) % 2 == 1
  {
    if i < k - 1 {
      DigitIs(n / 2, k - 1, i);
      QuotientTwice(n, Power2(k - 2 - i));
    }
  }

  lemma QuotientTwice(n: nat, p: nat)
    requires p > 0
    ensures n / 2 / p == n / (2 * p)
  {
    var q := n / 2 / p;
    var r := n / 2 - q * p;
    assert 0 <= r < p;
    assert n == q * (2 * p) + (2 * r + n % 2);
    QuotientIs(n, 2 * p, q, 2 * r + n % 2);
  }

  lemma QuotientIs(n: nat, p: nat, q: nat, r: nat)
    requires r < p && n == q * p + r
    ensures n / p == q
  {
    var c, d := n / p, n % p;
    assert n == c * p + d;
    AtMost(p, q, r, c, d);
    AtMost(p, c, d, q, r);
  }

  lemma AtMost(p: nat, q: nat, r: nat, c: nat, d: nat)
    requires d < p && q * p + r == c * p + d
    ensures q <= c
  {
    assert (q - c) * p == d - r;
    Grows(q - c, p);
  }

  lemma Grows(e: int, p: nat)
    ensures e >= 1 ==> e * p >= p
  {
    if e >= 1 {
      assert (e - 1) * p >= 0;
    }
  }

  /** The output is the words one after the other, each with its highest bit first. */
  lemma {:induction false} OutputBit<H>(word: (H, nat) -> nat, h: H, k: nat, j: nat, i: nat)
    requires j < k && i < 64
    ensures Output(word, h, k)[64 * j + i] <==> word(h, j) / Power2(63 - i) % 2 == 1
  {
    if j < k - 1 {
      OutputBit(word, h, k - 1, j, i);
    } else {
      DigitIs(word(h, j), 64, i);
    }
  }

  lemma RunBlock<H>(f: Compression<H>, h: H, block: seq<bool>, rest: seq<bool>, bits: nat, i: nat)
    requires |block| == 1024
    ensures Run(f, h, block + rest, bits, i) == Run(f, f(h, block, Counter(bits, i) % TWO128), rest, bits, i + 1)
  {
    var p := block + rest;
    assert p[..1024] == block && p[1024..] == rest;
  }

  // ---------------------------------------------------------------- bytes, highest bit first

  function BitsOf(s: seq<Byte>): (r: seq<bool>)
    ensures |r| == 8 * |s| && forall k | 0 <= k < |r| :: r[k] == s[k / 8][7 - k % 8]
  {
    seq(8 * |s|, k requires 0 <= k < 8 * |s| => s[k / 8][7 - k % 8])
  }

  lemma BitsOfConcat(a: seq<Byte>, b: seq<Byte>)
    ensures BitsOf(a + b) == BitsOf(a) + BitsOf(b)
  {
    forall k | 0 <= k < 8 * |a + b| ensures BitsOf(a + b)[k] == (BitsOf(a) + BitsOf(b))[k] {
      if k >= 8 * |a| {
        assert (k - 8 * |a|) / 8 == k / 8 - |a| && (k - 8 * |a|) % 8 == k % 8;
      }
    }
  }

  // ---------------------------------------------------------------- blocks with a running counter

  datatype Chain<H> = Chain(h: H, t: nat)

  /** One block: count it, then compress it. */
  function Step<H>(f: Compression<H>, c: Chain<H>, block: seq<Byte>): Chain<H> {
    var t := (c.t + 1024) % TWO128;
    Chain(f(c.h, BitsOf(block), t), t)
  }

  function Steps<H>(f: Compression<H>, c: Chain<H>, s: seq<Byte>): Chain<H>
    requires |s| % 128 == 0
  {
    if |s| == 0 then c else Step(f, Steps(f, c, s[..|s| - 128]), s[|s| - 128..])
  }

  lemma StepsOne<H>(f: Compression<H>, c: Chain<H>, s: seq<Byte>, block: seq<Byte>)
    requires |s| % 128 == 0 && |block| == 128
    ensures Steps(f, c, s + block) == Step(f, Steps(f, c, s), block)
  {
    assert (s + block)[..|s|] == s && (s + block)[|s|..] == block;
  }

  lemma {:induction false} StepsCount<H>(f: Compression<H>, c: Chain<H>, s: seq<Byte>)
    requires |s| % 128 == 0 && c.t < TWO128
    ensures Steps(f, c, s).t == (c.t + 8 * |s|) % TWO128
  {
    hide BitsOf;
    if |s| > 0 {
      var front := s[..|s| - 128];
      StepsCount(f, c, front);
      Wraps(c.t + 8 * |front|, 1024);
      assert 8 * |front| + 1024 == 8 * |s|;
    } else {
      assert c.t % TWO128 == c.t;
    }
  }

  /** Adding after wrapping around is wrapping around after adding. */
  lemma Wraps(x: nat, y: nat)
    ensures (x % TWO128 + y) % TWO128 == (x + y) % TWO128
  {
    var q, r := x / TWO128, x % TWO128;
    assert x + y == TWO128 * q + (r + y);
    assert (TWO128 * q + (r + y)) % TWO128 == (r + y) % TWO128;
  }

  /** Whole message blocks are compressed as the hash wants them, each with its own count. */
  lemma {:induction false} StepsRun<H>(f: Compression<H>, iv: H, full: seq<Byte>, rest: seq<bool>, bits: nat)
    requires |full| % 128 == 0 && 8 * |full| <= bits
    ensures Run(f, iv, BitsOf(full) + rest, bits, 0) == Run(f, Steps(f, Chain(iv, 0), full).h, rest, bits, |full| / 128)
  {
    hide Run, Counter;
    if |full| > 0 {
      var front, block := full[..|full| - 128], full[|full| - 128..];
      BitsOfConcat(front, block);
      assert front + block == full;
      StepsRun(f, iv, front, BitsOf(block) + rest, bits);
      assert BitsOf(full) + rest == BitsOf(front) + (BitsOf(block) + rest);
      StepsCount(f, Chain(iv, 0), full);
      FullCount(bits, |full| / 128);
      RunBlock(f, Steps(f, Chain(iv, 0), front).h, BitsOf(block), rest, bits, |full| / 128 - 1);
    } else {
      assert BitsOf(full) + rest == rest;
    }
  }

  lemma FullCount(bits: nat, n: nat)
    requires n > 0 && 1024 * n <= bits
    ensures Counter(bits, n - 1) == 1024 * n
  {
  }

  // ---------------------------------------------------------------- the closing bytes

  function NoBits(): Byte {
    seq(8, _ => false)
  }

  function ZeroBytes(n: nat): seq<Byte> {
    seq(n, _ => NoBits())
  }

  /** The top `n` bits of `ub`, a one and zeros: (ub & -z) | z for z = 0x80 >> n. */
  function LastByte(ub: Byte, n: nat): Byte
    requires n < 8
  {
    seq(8, i requires 0 <= i < 8 => if i > 7 - n then ub[i] else i == 7 - n)
  }

  function SetLow(b: Byte, on: bool): Byte {
    if on then b[0 := true] else b
  }

  function Enc64be(x: nat): (s: seq<Byte>)
    ensures |s| == 8 && BitsOf(s) == BigEndian(x, 64)
  {
    var s := seq(8, k requires 0 <= k < 8 => seq(8, i requires 0 <= i < 8 => BigEndian(x, 64)[8 * k + 7 - i]));
    assert forall k | 0 <= k < 64 :: 8 * (k / 8) + k % 8 == k;
    s
  }

  /** The extra bits, highest first. */
  function Extra(ub: Byte, n: nat): (s: seq<bool>)
    requires n < 8
  {
    seq(n, k requires 0 <= k < n => ub[7 - k])
  }

  function Front(ub: Byte, n: nat, zeros: nat): (s: seq<Byte>)
    requires n < 8
    ensures |s| == zeros + 1
  {
    [LastByte(ub, n)] + ZeroBytes(zeros)
  }

  lemma FrontBits(ub: Byte, n: nat, zeros: nat)
    requires n < 8
    ensures BitsOf(Front(ub, n, zeros)) == Extra(ub, n) + [true] + seq(8 * zeros + 7 - n, _ => false)
  {
    var u := Front(ub, n, zeros);
    forall k | 0 <= k < 8 * |u| ensures BitsOf(u)[k] == (Extra(ub, n) + [true] + seq(8 * zeros + 7 - n, _ => false))[k] {
      if k >= 8 {
        assert u[k / 8] == NoBits();
      }
    }
  }

  /** Setting the low bit of the last byte sets the last bit. */
  lemma LowBit(u: seq<Byte>, on: bool)
    requires |u| > 0 && !u[|u| - 1][0]
    ensures BitsOf(u[|u| - 1 := SetLow(u[|u| - 1], on)]) == BitsOf(u)[..8 * |u| - 1] + [on]
  {
    var v := u[|u| - 1 := SetLow(u[|u| - 1], on)];
    forall k | 0 <= k < 8 * |u| ensures BitsOf(v)[k] == (BitsOf(u)[..8 * |u| - 1] + [on])[k] {
    }
  }

  lemma ZeroBits(n: nat)
    ensures BitsOf(ZeroBytes(n)) == seq(8 * n, _ => false)
  {
  }

  lemma Powers()
    ensures Power2(64) == TWO64
  {
    assert Power2(8) == 0x100;
    assert Power2(16) == 0x10000;
    assert Power2(24) == 0x1000000;
    assert Power2(32) == 0x100000000;
    assert Power2(40) == 0x10000000000;
    assert Power2(48) == 0x1000000000000;
    assert Power2(56) == 0x100000000000000;
  }

  lemma Halves(x: nat, y: nat, p: nat, q: nat)
    requires p == 2 * q && y < p
    ensures y / 2 < q && (x * p + y) / 2 == x * q + y / 2 && (x * p + y) % 2 == y % 2
  {
    var z := x * q;
    assert x * p == 2 * z by { assert x * (2 * q) == 2 * (x * q); }
    assert x * p + y == 2 * (z + y / 2) + y % 2;
  }

  lemma {:induction false} BigEndianSplit(x: nat, y: nat, j: nat, k: nat, p: nat)
    requires p == Power2(k) && y < p
    ensures BigEndian(x * p + y, j + k) == BigEndian(x, j) + BigEndian(y, k)
  {
    if k > 0 {
      var q := Power2(k - 1);
      Halves(x, y, p, q);
      BigEndianSplit(x, y / 2, j, k - 1, q);
    } else {
      assert x * p + y == x;
    }
  }

  lemma NoDigits(n: nat)
    ensures BigEndian(n, 0) == []
  {
  }

  lemma WholeLength(c: nat, bits: nat)
    requires c == bits / TWO128
    ensures bits == c * TWO128 + bits % TWO128
  {
  }

  /** The two words written are the length modulo 2^128. */
  lemma LengthWords(bits: nat, th: nat, tl: nat)
    requires th < TWO64 && tl < TWO64 && bits % TWO128 == Join(th, tl)
    ensures BigEndian(bits, 128) == BigEndian(th, 64) + BigEndian(tl, 64)
  {
    hide BigEndian, Power2;
    Powers();
    var c := bits / TWO128;
    WholeLength(c, bits);
    assert BigEndian(c, 0) == [] by { NoDigits(c); }
    assert bits == (c * TWO64 + th) * TWO64 + tl;
    BigEndianSplit(c * TWO64 + th, tl, 64, 64, TWO64);
    BigEndianSplit(c, th, 0, 64, TWO64);
  }

  /** The closing bytes up to the length. */
  function Marked(ub: Byte, n: nat, zeros: nat, big: bool): (s: seq<Byte>)
    requires n < 8
    ensures |s| == zeros + 1
  {
    var front := Front(ub, n, zeros);
    front[zeros := SetLow(front[zeros], big)]
  }

  lemma MarkedBits(ub: Byte, n: nat, zeros: nat, big: bool)
    requires n < 8 && (zeros > 0 || n < 7)
    ensures BitsOf(Marked(ub, n, zeros, big)) == Extra(ub, n) + [true] + seq(8 * zeros + 6 - n, _ => false) + [big]
  {
    var front := Front(ub, n, zeros);
    FrontBits(ub, n, zeros);
    FrontLow(ub, n, zeros);
    LowBit(front, big);
    assert seq(8 * zeros + 7 - n, _ => false) == seq(8 * zeros + 6 - n, _ => false) + [false];
  }

  lemma FrontLow(ub: Byte, n: nat, zeros: nat)
    requires n < 8 && (zeros > 0 || n < 7)
    ensures !Front(ub, n, zeros)[zeros][0]
  {
  }

  /** A message of whole blocks, what is in the buffer and extra bits. */
  function Message(full: seq<Byte>, pend: seq<Byte>, ub: Byte, n: nat): (m: seq<bool>)
    requires n < 8
    ensures |m| == 8 * |full| + 8 * |pend| + n
  {
    BitsOf(full) + BitsOf(pend) + Extra(ub, n)
  }

  /** The padded message in one order of concatenation, and in another. */
  lemma Regroup(a: seq<bool>, b: seq<bool>, e: seq<bool>, z: seq<bool>, big: bool, l: seq<bool>)
    ensures (a + b + e) + [true] + z + [big] + l == a + (b + ((e + [true] + z + [big]) + l))
  {
  }

  lemma PadHere(full: nat, pend: nat, n: nat)
    requires full % 128 == 0 && 8 * pend + n <= 894
    ensures (894 - (8 * full + 8 * pend + n)) % 1024 == 894 - (8 * pend + n)
  {
  }

  lemma PadNext(full: nat, pend: nat, n: nat)
    requires full % 128 == 0 && 894 < 8 * pend + n < 1024
    ensures (894 - (8 * full + 8 * pend + n)) % 1024 == 1918 - (8 * pend + n)
  {
  }

  /** With at most 894 bits in the buffer, the padding ends in this block. */
  lemma ClosesHere(full: seq<Byte>, pend: seq<Byte>, ub: Byte, n: nat, big: bool, th: nat, tl: nat)
    requires |full| % 128 == 0 && |pend| <= 111 && n < 8 && 8 * |pend| + n <= 894
    requires th < TWO64 && tl < TWO64 && (8 * |full| + 8 * |pend| + n) % TWO128 == Join(th, tl)
    ensures var u := Marked(ub, n, 111 - |pend|, big) + (Enc64be(th) + Enc64be(tl));
            |pend + u| == 128 && Padded(Message(full, pend, ub, n), big) == BitsOf(full) + BitsOf(pend + u)
  {
    hide BitsOf, Marked, Enc64be, Extra, BigEndian;
    var m := Message(full, pend, ub, n);
    var marked, length := Marked(ub, n, 111 - |pend|, big), Enc64be(th) + Enc64be(tl);
    MarkedBits(ub, n, 111 - |pend|, big);
    LengthWords(|m|, th, tl);
    BitsOfConcat(Enc64be(th), Enc64be(tl));
    BitsOfConcat(marked, length);
    BitsOfConcat(pend, marked + length);
    PadHere(|full|, |pend|, n);
    Regroup(BitsOf(full), BitsOf(pend), Extra(ub, n), seq(894 - (8 * |pend| + n), _ => false), big, BigEndian(|m|, 128));
  }

  /** The block that holds nothing but the end of the padding. */
  function PaddingBlock(big: bool, th: nat, tl: nat): (s: seq<Byte>)
    ensures |s| == 128
  {
    ZeroBytes(112)[111 := SetLow(NoBits(), big)] + (Enc64be(th) + Enc64be(tl))
  }

  /** With more, the padding ends in the next one. */
  lemma ClosesNext(full: seq<Byte>, pend: seq<Byte>, ub: Byte, n: nat, big: bool, th: nat, tl: nat)
    requires |full| % 128 == 0 && |pend| < 128 && n < 8 && 8 * |pend| + n > 894
    requires th < TWO64 && tl < TWO64 && (8 * |full| + 8 * |pend| + n) % TWO128 == Join(th, tl)
    ensures var u := Front(ub, n, 127 - |pend|);
            var v := PaddingBlock(big, th, tl);
            |pend + u| == |v| == 128 && Padded(Message(full, pend, ub, n), big) == BitsOf(full) + (BitsOf(pend + u) + BitsOf(v))
  {
    hide BitsOf, Enc64be, Extra, BigEndian, Front, SetLow;
    var m := Message(full, pend, ub, n);
    var u, w, length := Front(ub, n, 127 - |pend|), ZeroBytes(112)[111 := SetLow(NoBits(), big)], Enc64be(th) + Enc64be(tl);
    FrontBits(ub, n, 127 - |pend|);
    LastZeros(big);
    LengthWords(|m|, th, tl);
    BitsOfConcat(Enc64be(th), Enc64be(tl));
    BitsOfConcat(w, length);
    BitsOfConcat(pend, u);
    PadNext(|full|, |pend|, n);
    var z1, z2: seq<bool> := seq(8 * (127 - |pend|) + 7 - n, _ => false), seq(895, _ => false);
    assert z1 + z2 == seq(1918 - (8 * |pend| + n), _ => false);
    RegroupNext(BitsOf(full), BitsOf(pend), Extra(ub, n), z1, z2, big, BigEndian(|m|, 128));
  }

  lemma LastZeros(big: bool)
    ensures BitsOf(ZeroBytes(112)[111 := SetLow(NoBits(), big)]) == seq(895, _ => false) + [big]
  {
    var u := ZeroBytes(112);
    ZeroBits(112);
    LowBit(u, big);
  }

  lemma RegroupNext(a: seq<bool>, b: seq<bool>, e: seq<bool>, z1: seq<bool>, z2: seq<bool>, big: bool, l: seq<bool>)
    ensures (a + b + e) + [true] + (z1 + z2) + [big] + l == a + ((b + (e + [true] + z1)) + ((z2 + [big]) + l))
  {
  }

  // ---------------------------------------------------------------- the counter trick

  /** Adding to the low word and carrying into the high one is adding to the two together. */
  lemma Carry(T0: nat, T1: nat)
    requires T0 < TWO64 && T1 < TWO64
    ensures var lo := (T0 + 1024) % TWO64; Join(if lo < 1024 then (T1 + 1) % TWO64 else T1, lo) == (Join(T1, T0) + 1024) % TWO128
  {
    if T0 + 1024 < TWO64 {
      assert (T0 + 1024) % TWO64 == T0 + 1024;
    } else {
      assert (T0 + 1024) % TWO64 == T0 + 1024 - TWO64;
    }
  }

  /** What the close puts into the counter so that counting the closing block makes it right. */
  lemma CountsRight(T0: nat, T1: nat, bit_len: nat)
    requires T0 < TWO64 && T1 < TWO64 && T0 % 1024 == 0 && bit_len < 1024
    ensures bit_len == 0 ==> (Join(0xFFFFFFFFFFFFFFFF, 0xFFFFFFFFFFFFFC00) + 1024) % TWO128 == 0
    ensures T0 == 0 ==> (Join((T1 + TWO64 - 1) % TWO64, 0xFFFFFFFFFFFFFC00 + bit_len) + 1024) % TWO128 == Join(T1, T0) + bit_len
    ensures T0 > 0 ==> Join(T1, T0 - (1024 - bit_len)) + 1024 == Join(T1, T0) + bit_len < TWO128
    ensures T0 + bit_len < TWO64
  {
    if T1 == 0 {
      assert (T1 + TWO64 - 1) % TWO64 == TWO64 - 1;
    } else {
      assert (T1 + TWO64 - 1) % TWO64 == T1 - 1;
    }
  }

  /** The count of the block that the message ends in. */
  lemma LastCount(full: nat, bit_len: nat, t: nat)
    requires full % 128 == 0 && bit_len < 1024 && t == 8 * full % TWO128 && t % 1024 == 0
    ensures t + bit_len < TWO128 && (8 * full + bit_len) % TWO128 == t + bit_len
    ensures Counter(8 * full + bit_len, full / 128) % TWO128 == if bit_len == 0 then 0 else t + bit_len
    ensures Counter(8 * full + bit_len, full / 128 + 1) == 0
  {
  }

  lemma MultipleOf1024(n: nat, t: nat)
    requires n % 1024 == 0 && t == n % TWO128
    ensures t % 1024 == 0
  {
    var q := n / TWO128;
    assert t == 1024 * (n / 1024 - q * (TWO128 / 1024));
  }

  lemma LowWord(T0: nat, T1: nat)
    requires T0 < TWO64 && Join(T1, T0) % 1024 == 0
    ensures T0 % 1024 == 0
  {
    assert T0 == 1024 * (Join(T1, T0) / 1024 - T1 * (TWO64 / 1024));
  }

  lemma LowWordGrows(T0: nat, T1: nat, bit_len: nat)
    requires T0 < TWO64 && T0 % 1024 == 0 && bit_len < 1024
    ensures T0 + bit_len < TWO64 && Join(T1, T0 + bit_len) == Join(T1, T0) + bit_len
  {
    assert TWO64 % 1024 == 0;
  }

  /** What the counter says about a message of whole blocks and `bit_len` bits more. */
  lemma Counts<H>(f: Compression<H>, iv: H, full: seq<Byte>, T0: nat, T1: nat, bit_len: nat)
    requires T0 < TWO64 && T1 < TWO64 && |full| % 128 == 0 && bit_len < 1024 && Join(T1, T0) == Steps(f, Chain(iv, 0), full).t
    ensures T0 % 1024 == 0 && T0 + bit_len < TWO64 && (8 * |full| + bit_len) % TWO128 == Join(T1, T0 + bit_len) == Join(T1, T0) + bit_len
    ensures Counter(8 * |full| + bit_len, |full| / 128) % TWO128 == if bit_len == 0 then 0 else Join(T1, T0) + bit_len
  {
    hide Steps, Counter, Join;
    StepsCount(f, Chain(iv, 0), full);
    CountsWords(|full|, T0, T1, bit_len);
  }

  lemma CountsWords(full: nat, T0: nat, T1: nat, bit_len: nat)
    requires T0 < TWO64 && full % 128 == 0 && bit_len < 1024 && Join(T1, T0) == 8 * full % TWO128
    ensures T0 % 1024 == 0 && T0 + bit_len < TWO64 && (8 * full + bit_len) % TWO128 == Join(T1, T0 + bit_len) == Join(T1, T0) + bit_len
    ensures Counter(8 * full + bit_len, full / 128) % TWO128 == if bit_len == 0 then 0 else Join(T1, T0) + bit_len
  {
    hide Counter, Join;
    MultipleOf1024(8 * full, Join(T1, T0));
    LowWord(T0, T1);
    LowWordGrows(T0, T1, bit_len);
    LastCount(full, bit_len, Join(T1, T0));
  }

  lemma NoSteps<H>(f: Compression<H>, c: Chain<H>)
    ensures Steps(f, c, []) == c
  {
  }

  lemma OneStep<H>(f: Compression<H>, c: Chain<H>, block: seq<Byte>)
    requires |block| == 128
    ensures Steps(f, c, block).h == f(c.h, BitsOf(block), (c.t + 1024) % TWO128)
  {
    StepsOne(f, c, [], block);
    assert [] + block == block;
  }

  /** Compressing the closing block with its count gives the hash of the message. */
  lemma HashHere<H>(f: Compression<H>, iv: H, full: seq<Byte>, pend: seq<Byte>, ub: Byte, n: nat, big: bool, th: nat, tl: nat, h: H, t: nat)
    requires |full| % 128 == 0 && |pend| <= 111 && n < 8 && 8 * |pend| + n <= 894
    requires th < TWO64 && tl < TWO64 && (8 * |full| + 8 * |pend| + n) % TWO128 == Join(th, tl)
    requires t == Counter(8 * |full| + 8 * |pend| + n, |full| / 128) % TWO128
    requires h == f(Steps(f, Chain(iv, 0), full).h, BitsOf(pend + (Marked(ub, n, 111 - |pend|, big) + (Enc64be(th) + Enc64be(tl)))), t)
    ensures h == Hash(f, iv, Message(full, pend, ub, n), big)
  {
    hide Steps, BitsOf, Padded, Run, Marked, Enc64be, Counter, Message;
    var m := Message(full, pend, ub, n);
    var block := BitsOf(pend + (Marked(ub, n, 111 - |pend|, big) + (Enc64be(th) + Enc64be(tl))));
    ClosesHere(full, pend, ub, n, big, th, tl);
    StepsRun(f, iv, full, block, |m|);
    LastBlock(f, Steps(f, Chain(iv, 0), full).h, block, |m|, |full| / 128);
  }

  lemma LastBlock<H>(f: Compression<H>, h: H, block: seq<bool>, bits: nat, i: nat)
    requires |block| == 1024
    ensures Run(f, h, block, bits, i) == f(h, block, Counter(bits, i) % TWO128)
  {
    hide Counter;
    assert block + [] == block;
    RunBlock(f, h, block, [], bits, i);
  }

  lemma HashNext<H>(f: Compression<H>, iv: H, full: seq<Byte>, pend: seq<Byte>, ub: Byte, n: nat, big: bool, th: nat, tl: nat, h: H, t: nat)
    requires |full| % 128 == 0 && |pend| < 128 && n < 8 && 8 * |pend| + n > 894
    requires th < TWO64 && tl < TWO64 && (8 * |full| + 8 * |pend| + n) % TWO128 == Join(th, tl)
    requires t == Counter(8 * |full| + 8 * |pend| + n, |full| / 128) % TWO128
    requires h == f(f(Steps(f, Chain(iv, 0), full).h, BitsOf(pend + Front(ub, n, 127 - |pend|)), t),
                    BitsOf(PaddingBlock(big, th, tl)), 0)
    ensures h == Hash(f, iv, Message(full, pend, ub, n), big)
  {
    hide Steps, BitsOf, Padded, Run, Front, PaddingBlock, Counter, Message;
    var m := Message(full, pend, ub, n);
    var block := BitsOf(pend + Front(ub, n, 127 - |pend|));
    var next := BitsOf(PaddingBlock(big, th, tl));
    ClosesNext(full, pend, ub, n, big, th, tl);
    StepsRun(f, iv, full, block + next, |m|);
    NoCount(|full|, 8 * |pend| + n);
    var h0 := Steps(f, Chain(iv, 0), full).h;
    RunBlock(f, h0, block, next, |m|, |full| / 128);
    LastBlock(f, f(h0, block, t), next, |m|, |full| / 128 + 1);
  }

  lemma NoCount(full: nat, bit_len: nat)
    requires full % 128 == 0 && bit_len < 1024
    ensures Counter(8 * full + bit_len, full / 128 + 1) == 0
  {
  }

  // ---------------------------------------------------------------- the context

  class BlakeContext<!H> {
    const f: Compression<H>
    /** The 64-bit words of a chaining value. */
    const word: (H, nat) -> nat
    const iv: H
    const buf: array<Byte>
    var H: H
    var T0: nat
    var T1: nat
    var ptr: nat
    /** Where the blocks in `full` started from. */
    ghost var start: Chain<H>
    ghost var full: seq<Byte>

    ghost predicate Valid()
      reads this, buf
    {
      && buf.Length == 128 && ptr < 128 && T0 < TWO64 && T1 < TWO64 && |full| % 128 == 0
      && Chain(H, Join(T1, T0)) == Steps(f, start, full)
    }

    ghost function Fed(): seq<Byte>
      requires Valid()
      reads this, buf
    {
      full + buf[..ptr]
    }

    constructor (f: Compression<H>, word: (H, nat) -> nat, iv: H)
      ensures Valid() && fresh(buf) && start == Chain(iv, 0) && Fed() == [] && this.f == f && this.word == word && this.iv == iv
    {
      this.f, this.word, this.iv := f, word, iv;
      buf := new Byte[128](_ => NoBits());
      H, T0, T1, ptr := iv, 0, 0, 0;
      start, full := Chain(iv, 0), [];
    }

    method Copy(piece: seq<Byte>)
      requires buf.Length == 128 && ptr + |piece| <= 128
      modifies this`ptr, buf
      ensures ptr == old(ptr) + |piece| && buf[..ptr] == old(buf[..ptr]) + piece
    {
      forall i | 0 <= i < |piece| {
        buf[ptr + i] := piece[i];
      }
      ptr := ptr + |piece|;
    }

    /** Count and compress the buffer. */
    method Compress()
      requires buf.Length == 128 && T0 < TWO64 && T1 < TWO64
      modifies this`H, this`T0, this`T1
      ensures T0 < TWO64 && T1 < TWO64
      ensures Chain(H, Join(T1, T0)) == Step(f, old(Chain(H, Join(T1, T0))), buf[..])
    {
      hide Join, BitsOf;
      Carry(T0, T1);
      T0 := (T0 + 1024) % TWO64;
      if T0 < 1024 {
        T1 := (T1 + 1) % TWO64;
      }
      H := f(H, BitsOf(buf[..]), Join(T1, T0));
    }

    /** Append to the buffer, and compress it when it is full. */
    method Append(piece: seq<Byte>)
      requires Valid() && ptr + |piece| <= 128
      modifies this`ptr, this`H, this`T0, this`T1, this`full, buf
      ensures Valid() && Fed() == old(Fed()) + piece
    {
      hide Steps, Step;
      Copy(piece);
      if ptr == 128 {
        assert buf[..ptr] == buf[..];
        StepsOne(f, start, full, buf[..]);
        Compress();
        full := full + buf[..];
        ptr := 0;
      }
    }

    /** Feed some bytes. */
    method Core(data: seq<Byte>)
      requires Valid()
      modifies this`ptr, this`H, this`T0, this`T1, this`full, buf
      ensures Valid() && Fed() == old(Fed()) + data
    {
      hide Steps, Join;
      if |data| < 128 - ptr {
        Copy(data);
        return;
      }
      var done: nat := 0;
      ghost var fed := Fed();
      while done < |data|
        invariant done <= |data| && Valid() && Fed() == fed + data[..done]
      {
        var clen := 128 - ptr;
        if clen > |data| - done {
          clen := |data| - done;
        }
        Append(data[done..done + clen]);
        assert data[..done] + data[done..done + clen] == data[..done + clen];
        done := done + clen;
      }
      assert data[..done] == data;
    }

    /** Fill the buffer up, with whatever the counter now says. */
    method Finish(data: seq<Byte>, ghost block: seq<Byte>, ghost t: nat)
      requires buf.Length == 128 && ptr < 128 && T0 < TWO64 && T1 < TWO64
      requires buf[..ptr] + data == block && |block| == 128 && t == (Join(T1, T0) + 1024) % TWO128
      modifies this`ptr, this`H, this`T0, this`T1, this`start, this`full, buf
      ensures ptr == 0 && T0 < TWO64 && T1 < TWO64 && H == f(old(H), BitsOf(block), t)
    {
      hide BitsOf, Steps, Join;
      start, full := Chain(H, Join(T1, T0)), [];
      NoSteps(f, start);
      Core(data);
      OneBlock(full, block, buf[..ptr]);
      OneStep(f, start, block);
    }

    /** Set the counter so that counting the block the message ends in makes it right. */
    method Aim(n: nat, bit_len: nat)
      requires T0 < TWO64 && T1 < TWO64 && T0 % 1024 == 0 && bit_len == 8 * ptr + n < 1024
      modifies this`T0, this`T1
      ensures T0 < TWO64 && T1 < TWO64
      ensures (Join(T1, T0) + 1024) % TWO128 == if bit_len == 0 then 0 else old(Join(T1, T0)) + bit_len
    {
      CountsRight(T0, T1, bit_len);
      if ptr == 0 && n == 0 {
        T0, T1 := 0xFFFFFFFFFFFFFC00, 0xFFFFFFFFFFFFFFFF;
      } else if T0 == 0 {
        T0 := 0xFFFFFFFFFFFFFC00 + bit_len;
        T1 := (T1 + TWO64 - 1) % TWO64;
      } else {
        T0 := T0 - (1024 - bit_len);
      }
    }

    /** The padding ends in the block that the message ends in. */
    method CloseHere(ub: Byte, n: nat, big: bool, th: nat, tl: nat, ghost pend: seq<Byte>, ghost t: nat)
      requires buf.Length == 128 && ptr <= 111 && T0 < TWO64 && T1 < TWO64 && n < 8
      requires buf[..ptr] == pend && t == (Join(T1, T0) + 1024) % TWO128
      modifies this`ptr, this`H, this`T0, this`T1, this`start, this`full, buf
      ensures H == f(old(H), BitsOf(pend + (Marked(ub, n, 111 - |pend|, big) + (Enc64be(th) + Enc64be(tl)))), t)
    {
      hide BitsOf, Front, Enc64be, SetLow;
      var u := Front(ub, n, 111 - ptr);
      u := u[111 - ptr := SetLow(u[111 - ptr], big)];
      Finish(u + (Enc64be(th) + Enc64be(tl)), pend + (u + (Enc64be(th) + Enc64be(tl))), t);
    }

    /** The padding needs a block of its own, which is not counted. */
    method CloseNext(ub: Byte, n: nat, big: bool, th: nat, tl: nat, ghost pend: seq<Byte>, ghost t: nat)
      requires buf.Length == 128 && ptr < 128 && T0 < TWO64 && T1 < TWO64 && n < 8
      requires buf[..ptr] == pend && t == (Join(T1, T0) + 1024) % TWO128
      modifies this`ptr, this`H, this`T0, this`T1, this`start, this`full, buf
      ensures H == f(f(old(H), BitsOf(pend + Front(ub, n, 127 - |pend|)), t), BitsOf(PaddingBlock(big, th, tl)), 0)
    {
      hide BitsOf, Front, PaddingBlock;
      Finish(Front(ub, n, 127 - ptr), pend + Front(ub, n, 127 - ptr), t);
      T0, T1 := 0xFFFFFFFFFFFFFC00, 0xFFFFFFFFFFFFFFFF;
      assert buf[..ptr] == [];
      Finish(PaddingBlock(big, th, tl), PaddingBlock(big, th, tl), 0);
    }

    /** Close the message with the top `n` bits of `ub`, and start afresh. */
    method Close(ub: Byte, n: nat, out_size_w64: nat) returns (dst: seq<Byte>)
      requires Valid() && start == Chain(iv, 0) && n < 8
      modifies this`ptr, this`H, this`T0, this`T1, this`start, this`full, buf
      ensures BitsOf(dst) == Output(word, Hash(f, iv, old(BitsOf(Fed())) + Extra(ub, n), out_size_w64 == 8), out_size_w64)
      ensures Valid() && start == Chain(iv, 0) && Fed() == []
    {
      hide Steps, Step, BitsOf, Hash, Marked, Front, Enc64be, SetLow, Counter, Extra, PaddingBlock, Join;
      var big := out_size_w64 == 8;
      ghost var pend, message := buf[..ptr], full;
      BitsOfConcat(full, pend);
      var bit_len := 8 * ptr + n;
      Counts(f, iv, full, T0, T1, bit_len);
      var tl := T0 + bit_len;
      var th := T1;
      Aim(n, bit_len);
      ghost var h, t := H, (Join(T1, T0) + 1024) % TWO128;
      if bit_len <= 894 {
        CloseHere(ub, n, big, th, tl, pend, t);
        HashHere(f, iv, message, pend, ub, n, big, th, tl, H, t);
      } else {
        CloseNext(ub, n, big, th, tl, pend, t);
        HashNext(f, iv, message, pend, ub, n, big, th, tl, H, t);
      }
      dst := Written(out_size_w64);
      Reset();
    }

    /** The first words of the chaining value as bytes. */
    method Written(out_size_w64: nat) returns (dst: seq<Byte>)
      ensures BitsOf(dst) == Output(word, H, out_size_w64)
    {
      hide BitsOf, Enc64be;
      dst := [];
      NoBytes();
      for k := 0 to out_size_w64
        invariant BitsOf(dst) == Output(word, H, k)
      {
        BitsOfConcat(dst, Enc64be(word(H, k)));
        dst := dst + Enc64be(word(H, k));
      }
    }

    method Reset()
      requires buf.Length == 128
      modifies this`ptr, this`H, this`T0, this`T1, this`start, this`full
      ensures Valid() && start == Chain(iv, 0) && Fed() == []
    {
      H, T0, T1, ptr := iv, 0, 0, 0;
      start, full := Chain(iv, 0), [];
    }
  }

  lemma NoBytes()
    ensures BitsOf([]) == []
  {
  }

  lemma OneBlock(full: seq<Byte>, block: seq<Byte>, pend: seq<Byte>)
    requires |full| % 128 == 0 && |pend| < 128 && |block| == 128 && full + pend == block
    ensures full == block && pend == []
  {
    assert |full| == 0 || |full| == 128;
  }
}

/** The byte formats of big numbers: the MPI format, little-endian vectors and the compact form. */
module Bignum {
  import opened Numerals

  type Byte = n: nat | n < 256

  // ---------------------------------------------------------------- the MPI format, without its length

  /** A big-endian magnitude whose highest bit is the sign. */
  function FromMpi(d: seq<Byte>): int {
    if d == [] then 0
    else if d[0] >= 0x80 then -(Value(256, [d[0] - 0x80] + d[1..]) as int)
    else Value(256, d)
  }

  function Abs(n: int): nat {
    if n < 0 then -n else n
  }

  function Bytes(n: nat): (s: seq<Byte>) {
    var d := Digits(256, n);
    seq(|d|, i requires 0 <= i < |d| => d[i] as Byte)
  }

  lemma BytesAre(n: nat)
    ensures Bytes(n) == Digits(256, n)
  {
  }

  /** The shortest form: a byte is added when the magnitude leaves no room for the sign. */
  function ToMpi(n: int): seq<Byte> {
    var m := Bytes(Abs(n));
    if m != [] && m[0] >= 0x80 then [if n < 0 then 0x80 else 0] + m
    else if n < 0 && m != [] then [m[0] + 0x80] + m[1..]
    else m
  }

  /** The two directions of the format. */
  lemma MpiRoundTrip(n: int)
    ensures FromMpi(ToMpi(n)) == n
  {
    var m := Bytes(Abs(n));
    BytesAre(Abs(n));
    ValueDigits(256, Abs(n));
    var d := ToMpi(n);
    if m != [] && m[0] >= 0x80 {
      LeadingZeros(256, 1, m);
      assert d[1..] == m && [0] + m == seq(1, _ => 0) + m;
    } else if n < 0 && m != [] {
      assert [d[0] - 0x80] + d[1..] == m;
    }
  }

  /** A non-negative value in the shortest form. */
  predicate Shortest(d: seq<Byte>) {
    d != [] ==> d[0] < 0x80 && (d[0] > 0 || (|d| > 1 && d[1] >= 0x80))
  }

  lemma ShortestForm(n: nat)
    ensures Shortest(ToMpi(n)) && Value(256, ToMpi(n)) == n && (n > 0 ==> ToMpi(n) != [])
  {
    var m := Bytes(n);
    BytesAre(n);
    ValueDigits(256, n);
    if m != [] && m[0] >= 0x80 {
      LeadingZeros(256, 1, m);
      assert [0] + m == seq(1, _ => 0) + m;
    }
  }

  lemma BytesValue(m: seq<Byte>)
    requires m != [] ==> m[0] > 0
    ensures Bytes(Value(256, m)) == m
  {
    DigitsValue(256, m);
    BytesAre(Value(256, m));
  }

  /** There is only one shortest form. */
  lemma ShortestUnique(d: seq<Byte>)
    requires Shortest(d)
    ensures ToMpi(Value(256, d)) == d
  {
    hide Value, Bytes;
    if d != [] && d[0] == 0 {
      var m := d[1..];
      LeadingZeros(256, 1, m);
      assert d == [0] + m && [0] + m == seq(1, _ => 0) + m;
      BytesValue(m);
    } else {
      BytesValue(d);
    }
  }

  // ---------------------------------------------------------------- the compact form

  const COMPACT_LIMIT: nat := 0x1_0000_0000

  /** A sign bit, 23 bits, and a size in bytes: what a compact number stands for. */
  function FromCompact(nCompact: nat): int
    requires nCompact < COMPACT_LIMIT
  {
    var nSize := nCompact / 0x100_0000;
    var nWord := nCompact % 0x80_0000;
    var v: int := if nSize == 0 then 0 else if nSize == 1 then nWord / 0x1_0000 else if nSize == 2 then nWord / 0x100
                  else nWord * Power(256, nSize - 3);
    if nCompact / 0x80_0000 % 2 == 1 then -v else v
  }

  /** Size and first three bytes of the shortest form. */
  function ToCompact(n: int): (c: nat)
    ensures c < COMPACT_LIMIT
  {
    var d := ToMpi(n);
    var b0: nat := if |d| >= 1 then d[0] else 0;
    var b1: nat := if |d| >= 2 then d[1] else 0;
    var b2: nat := if |d| >= 3 then d[2] else 0;
    (|d| * 0x100_0000 + b0 * 0x1_0000 + b1 * 0x100 + b2) % COMPACT_LIMIT
  }

  lemma ThreeBytes(a: Byte, b: Byte, c: Byte)
    ensures Value(256, [a]) == a && Value(256, [a, b]) == 256 * a + b && Value(256, [a, b, c]) == 65536 * a + 256 * b + c
  {
    assert [a][..0] == [] && [a, b][..1] == [a] && [a, b, c][..2] == [a, b];
  }

  lemma ZerosValue(s: seq<nat>, k: nat)
    ensures Value(256, s + seq(k, _ => 0)) == Value(256, s) * Power(256, k)
  {
    ValueConcat(256, s, seq(k, _ => 0));
    LeadingZeros(256, k, []);
    assert seq(k, _ => 0) + [] == seq(k, _ => 0);
  }

  /** The bytes that SetCompact lays out. */
  function CompactBytes(nCompact: nat): (d: seq<Byte>)
    requires nCompact < COMPACT_LIMIT
  {
    var nSize := nCompact / 0x100_0000;
    var b0, b1, b2 := nCompact / 0x1_0000 % 256, nCompact / 0x100 % 256, nCompact % 256;
    if nSize == 0 then [] else if nSize == 1 then [b0] else if nSize == 2 then [b0, b1]
    else [b0, b1, b2] + seq(nSize - 3, _ => 0)
  }

  /** A compact number taken apart. */
  lemma Parts(c: nat, s: nat, h: nat, a: nat, b1: nat, b2: nat)
    requires s < 256 && h < 2 && a < 0x80 && b1 < 256 && b2 < 256
    requires c == s * 0x100_0000 + h * 0x80_0000 + a * 0x1_0000 + b1 * 0x100 + b2
    ensures c < COMPACT_LIMIT && c / 0x100_0000 == s && c / 0x80_0000 % 2 == h && c % 0x80_0000 == a * 0x1_0000 + b1 * 0x100 + b2
    ensures c / 0x1_0000 % 256 == h * 0x80 + a && c / 0x100 % 256 == b1 && c % 256 == b2
    ensures c % 0x80_0000 / 0x100 == a * 0x100 + b1 && c % 0x80_0000 / 0x1_0000 == a
  {
    assert c / 0x80_0000 == s * 2 + h;
    assert c / 0x1_0000 == s * 256 + (h * 0x80 + a);
    assert c / 0x100 == (s * 256 + (h * 0x80 + a)) * 256 + b1;
  }

  lemma Apart(c: nat) returns (s: nat, h: nat, a: nat, b1: nat, b2: nat)
    requires c < COMPACT_LIMIT
    ensures s < 256 && h < 2 && a < 0x80 && b1 < 256 && b2 < 256
    ensures c == s * 0x100_0000 + h * 0x80_0000 + a * 0x1_0000 + b1 * 0x100 + b2
  {
    b2 := c % 256;
    var x := c / 256;
    b1 := x % 256;
    var y := x / 256;
    a := y % 0x80;
    var z := y / 0x80;
    h := z % 2;
    s := z / 2;
  }

  /** They stand for the compact number. */
  lemma CompactBytesAre(c: nat)
    requires c < COMPACT_LIMIT
    ensures FromMpi(CompactBytes(c)) == FromCompact(c)
  {
    var s, h, a, b1, b2 := Apart(c);
    Parts(c, s, h, a, b1, b2);
    MpiOfParts(CompactBytes(c), s, h, a, b1, b2);
  }

  lemma MpiOfParts(d: seq<Byte>, s: nat, h: nat, a: nat, b1: nat, b2: nat)
    requires h < 2 && a < 0x80 && b1 < 256 && b2 < 256
    requires d == if s == 0 then [] else if s == 1 then [h * 0x80 + a] else if s == 2 then [h * 0x80 + a, b1]
                  else [h * 0x80 + a, b1, b2] + seq(s - 3, _ => 0)
    ensures var v: int := if s == 0 then 0 else if s == 1 then a else if s == 2 then a * 0x100 + b1
                          else (a * 0x1_0000 + b1 * 0x100 + b2) * Power(256, s - 3);
            FromMpi(d) == if h == 1 then -v else v
  {
    hide Value, Power;
    ThreeBytes(a, b1, b2);
    if s == 1 {
      assert [a] + d[1..] == [a];
    } else if s == 2 {
      assert [a] + d[1..] == [a, b1];
    } else if s >= 3 {
      ZerosValue([a, b1, b2], s - 3);
      assert [a] + d[1..] == [a, b1, b2] + seq(s - 3, _ => 0);
    }
  }

  // ---------------------------------------------------------------- what the compact form keeps

  /** A number of at most three bytes is kept exactly. */
  lemma SmallCompact(n: nat)
    requires n > 0 && |ToMpi(n)| < 3
    ensures FromCompact(ToCompact(n)) == n
  {
    hide Value, ToMpi, Power;
    var d := ToMpi(n);
    ShortestForm(n);
    if |d| == 1 {
      assert d == [d[0]];
      ThreeBytes(d[0], 0, 0);
      Parts(ToCompact(n), 1, 0, d[0], 0, 0);
    } else {
      assert d == [d[0], d[1]];
      ThreeBytes(d[0], d[1], 0);
      Parts(ToCompact(n), 2, 0, d[0], d[1], 0);
    }
  }

  /** Of a larger number, the first three bytes. */
  lemma LargeCompact(n: nat)
    requires n > 0 && 3 <= |ToMpi(n)| < 256
    ensures FromCompact(ToCompact(n)) == Value(256, ToMpi(n)[..3]) * Power(256, |ToMpi(n)| - 3)
  {
    hide Value, ToMpi, Power;
    var d := ToMpi(n);
    ShortestForm(n);
    assert d[..3] == [d[0], d[1], d[2]];
    ThreeBytes(d[0], d[1], d[2]);
    Parts(ToCompact(n), |d|, 0, d[0], d[1], d[2]);
  }

  /** What the compact form keeps of a positive number: all of it, or its first three bytes. */
  function Kept(n: nat): nat {
    var d := ToMpi(n);
    if |d| < 3 then n else Value(256, d[..3]) * Power(256, |d| - 3)
  }

  /** The form of a negative number is that of its magnitude with the bit of the sign set. */
  lemma NegativeForm(n: int)
    requires n > 0
    ensures ToMpi(n) != [] && ToMpi(n)[0] < 0x80 && ToMpi(-n) == [ToMpi(n)[0] + 0x80] + ToMpi(n)[1..]
  {
    hide Value, Power, Digits;
    ShortestForm(n);
    var m := Bytes(n);
    if m[0] >= 0x80 {
      assert ToMpi(n) == [0] + m && ToMpi(n)[1..] == m;
    }
  }

  /** The compact code of a number that fits, without the wrap-around. */
  lemma CompactIs(n: int, b0: nat, b1: nat, b2: nat)
    requires 0 < |ToMpi(n)| < 256 && b0 == ToMpi(n)[0]
    requires b1 == (if |ToMpi(n)| >= 2 then ToMpi(n)[1] else 0) && b2 == (if |ToMpi(n)| >= 3 then ToMpi(n)[2] else 0)
    ensures ToCompact(n) == |ToMpi(n)| * 0x100_0000 + b0 * 0x1_0000 + b1 * 0x100 + b2
  {
    hide ToMpi;
  }

  /** The highest bit of the 24 is the sign. */
  lemma SignOf(c: nat, s: nat, a: nat, b1: nat, b2: nat)
    requires s < 256 && a < 0x80 && b1 < 256 && b2 < 256
    requires c == s * 0x100_0000 + a * 0x1_0000 + b1 * 0x100 + b2
    ensures c + 0x80_0000 < COMPACT_LIMIT && FromCompact(c + 0x80_0000) == -FromCompact(c)
  {
    hide Power;
    Parts(c, s, 0, a, b1, b2);
    Parts(c + 0x80_0000, s, 1, a, b1, b2);
  }

  /** A number and its negative differ in the bit of the sign alone. */
  lemma SignBit(n: int)
    requires n > 0 && |ToMpi(n)| < 256
    ensures ToCompact(-n) == ToCompact(n) + 0x80_0000 && FromCompact(ToCompact(-n)) == -FromCompact(ToCompact(n))
  {
    hide Value, ToMpi, ToCompact, FromCompact, Power;
    NegativeForm(n);
    var d := ToMpi(n);
    var b1: nat := if |d| >= 2 then d[1] else 0;
    var b2: nat := if |d| >= 3 then d[2] else 0;
    CompactIs(n, d[0], b1, b2);
    CompactIs(-n, ToMpi(-n)[0], b1, b2);
    SignOf(ToCompact(n), |d|, d[0], b1, b2);
  }

  lemma CompactKeeps(n: int)
    requires |ToMpi(n)| < 256
    ensures if n < 0 then -FromCompact(ToCompact(n)) == Kept(-n) else FromCompact(ToCompact(n)) == Kept(n)
  {
    hide *;
    if n == 0 {
      ZeroKept();
    } else if n < 0 {
      MpiLength(-n);
      SignBit(-n);
      PositiveKept(-n);
    } else {
      PositiveKept(n);
    }
  }

  lemma ZeroKept()
    ensures ToCompact(0) == 0 && FromCompact(0) == 0 && Kept(0) == 0
  {
    assert Digits(256, 0) == [];
  }

  lemma MpiLength(n: int)
    ensures |ToMpi(-n)| == |ToMpi(n)|
  {
  }

  lemma PositiveKept(n: nat)
    requires n > 0 && |ToMpi(n)| < 256
    ensures FromCompact(ToCompact(n)) == Kept(n)
  {
    hide ToMpi, ToCompact, FromCompact;
    if |ToMpi(n)| < 3 {
      SmallCompact(n);
    } else {
      LargeCompact(n);
    }
  }

  /** Never rounded up, never to zero, and by less than the last byte kept. */
  lemma KeptBounds(n: nat)
    requires n > 0
    ensures 0 < Kept(n) <= n
    ensures |ToMpi(n)| >= 3 ==> n < Kept(n) + Power(256, |ToMpi(n)| - 3)
  {
    hide ToMpi, Power, Value;
    var d := ToMpi(n);
    ShortestForm(n);
    if |d| >= 3 {
      var top, rest, p := d[..3], d[3..], Power(256, |d| - 3);
      assert d == top + rest;
      ValueConcat(256, top, rest);
      ValueBound(256, rest);
      PowerPositive(256, |d| - 3);
      assert top == [d[0], d[1], d[2]];
      ThreeBytes(d[0], d[1], d[2]);
      AtLeast(Value(256, top), p);
    }
  }

  lemma AtLeast(t: nat, p: nat)
    requires t > 0 && p > 0
    ensures t * p >= p > 0
  {
    assert t * p >= 1 * p;
  }

  /** What is kept encodes to the same compact number. */
  lemma CompactTwice(n: int)
    requires |ToMpi(n)| < 256
    ensures ToCompact(FromCompact(ToCompact(n))) == ToCompact(n)
  {
    hide ToMpi, FromCompact, Kept, ToCompact;
    CompactKeeps(n);
    if n < 0 {
      MpiLength(-n);
      KeptAgain(-n);
      KeptBounds(-n);
      SignBit(-n);
      SignBit(Kept(-n));
    } else {
      KeptAgain(n);
    }
  }

  lemma KeptAgain(n: nat)
    requires |ToMpi(n)| < 256
    ensures ToCompact(Kept(n)) == ToCompact(n) && |ToMpi(Kept(n))| == |ToMpi(n)|
  {
    hide ToMpi, FromCompact, Power, Value;
    var d := ToMpi(n);
    ShortestForm(n);
    if |d| >= 3 {
      var e: seq<Byte> := d[..3] + seq(|d| - 3, _ => 0);
      ZerosValue(d[..3], |d| - 3);
      ShortestUnique(e);
      assert ToMpi(Kept(n)) == e;
    }
  }

  // ---------------------------------------------------------------- the object

  class BigNum {
    var n: int

    constructor (n: int)
      ensures this.n == n
    {
      this.n := n;
    }

    /** Set from a little-endian vector. */
    method SetVch(vch: seq<Byte>)
      modifies this
      ensures n == FromMpi(Reverse(vch))
    {
      n := FromMpi(Reverse(vch));
    }

    /** Little-endian vector of the shortest form. */
    method GetVch() returns (vch: seq<Byte>)
      ensures vch == Reverse(ToMpi(n)) && FromMpi(Reverse(vch)) == n
    {
      var d := ToMpi(n);
      vch := Reverse(d);
      ReverseTwice(d);
      MpiRoundTrip(n);
    }

    method SetCompact(nCompact: nat)
      requires nCompact < COMPACT_LIMIT
      modifies this
      ensures n == FromCompact(nCompact)
    {
      var nSize := nCompact / 0x100_0000;
      var vch: seq<Byte> := seq(nSize, _ => 0);
      if nSize >= 1 {
        vch := vch[0 := nCompact / 0x1_0000 % 256];
      }
      if nSize >= 2 {
        vch := vch[1 := nCompact / 0x100 % 256];
      }
      if nSize >= 3 {
        vch := vch[2 := nCompact % 256];
      }
      assert vch == CompactBytes(nCompact);
      CompactBytesAre(nCompact);
      n := FromMpi(vch);
    }

    method GetCompact() returns (nCompact: nat)
      ensures nCompact == ToCompact(n)
    {
      var vch := ToMpi(n);
      var nSize := |vch|;
      nCompact := nSize * 0x100_0000;
      if nSize >= 1 {
        nCompact := nCompact + (vch[0] as nat) * 0x1_0000;
      }
      if nSize >= 2 {
        nCompact := nCompact + (vch[1] as nat) * 0x100;
      }
      if nSize >= 3 {
        nCompact := nCompact + vch[2];
      }
      nCompact := nCompact % COMPACT_LIMIT;
    }
  }
}

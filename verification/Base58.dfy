/** Base58 as base58.h encodes and decodes it, with and without a checksum. */
module Base58 {
  import opened Wrappers
  import opened Numerals
  import opened Bignum

  /** The alphabet, cut where characters are left out. */
  function Alphabet(): string {
    "123456789" + "ABCDEFGH" + "JKLMN" + "PQRSTUVWXYZ" + "abcdefghijk" + "mnopqrstuvwxyz"
  }

  /** The character of a digit. */
  function Char(d: nat): char
    requires d < 58
  {
    CharIs(d);
    Alphabet()[d]
  }

  /** Codes of consecutive characters. */
  predicate Consecutive(s: string, c: int) {
    forall i | 0 <= i < |s| :: s[i] as int == c + i
  }

  /** The code of the character of a digit. */
  function Code(d: nat): int {
    if d < 9 then 49 + d else if d < 17 then 65 + d - 9 else if d < 22 then 74 + d - 17
    else if d < 33 then 80 + d - 22 else if d < 44 then 97 + d - 33 else 109 + d - 44
  }

  lemma Consecutives()
    ensures Consecutive("123456789", 49) && Consecutive("ABCDEFGH", 65) && Consecutive("JKLMN", 74)
    ensures Consecutive("PQRSTUVWXYZ", 80) && Consecutive("abcdefghijk", 97) && Consecutive("mnopqrstuvwxyz", 109)
  {
  }

  lemma CharIs(d: nat)
    ensures |Alphabet()| == 58 && (d < 58 ==> Alphabet()[d] as int == Code(d))
  {
    Consecutives();
  }

  /** The digit of a character; none if it is not in the alphabet. */
  function Index(c: char): (r: Option<nat>)
    ensures r.Some? ==> r.value < 58 && Char(r.value) == c
  {
    Search(c, 0)
  }

  /** The first position of a character, from `d` on. */
  function Search(c: char, d: nat): (r: Option<nat>)
    requires d <= 58
    ensures r.Some? ==> d <= r.value < 58 && Char(r.value) == c
    ensures r.None? ==> forall e | d <= e < 58 :: Char(e) != c
    decreases 58 - d
  {
    if d == 58 then None else if Char(d) == c then Some(d) else Search(c, d + 1)
  }

  lemma CharsDiffer(d: nat, e: nat)
    requires d < e < 58
    ensures Char(d) != Char(e) && Code(d) < Code(e)
  {
    hide Alphabet;
    CharIs(d);
    CharIs(e);
  }

  lemma IndexOfChar(d: nat)
    requires d < 58
    ensures Index(Char(d)) == Some(d)
  {
    hide Char;
    var r := Index(Char(d));
    if r.Some? && r.value != d {
      CharsDiffer(if r.value < d then r.value else d, if r.value < d then d else r.value);
    }
  }

  predicate IsSpace(c: char) {
    c == ' ' || 9 <= c as int <= 13
  }

  // ---------------------------------------------------------------- leading zeros

  function Zeros(k: nat): seq<nat> {
    seq(k, _ => 0)
  }

  /** How many zeros there are at the front. */
  function Leading(s: seq<nat>): (k: nat)
    ensures k <= |s| && (forall i | 0 <= i < k :: s[i] == 0) && (k < |s| ==> s[k] > 0)
  {
    if s == [] || s[0] > 0 then 0 else 1 + Leading(s[1..])
  }

  lemma LeadingSplit(s: seq<nat>)
    ensures s == Zeros(Leading(s)) + s[Leading(s)..]
  {
  }

  lemma LeadingIs(k: nat, s: seq<nat>)
    requires s != [] ==> s[0] > 0
    ensures Leading(Zeros(k) + s) == k && (Zeros(k) + s)[k..] == s
  {
    var z := Zeros(k) + s;
    assert forall i | 0 <= i < k :: z[i] == 0;
    assert s != [] ==> z[k] == s[0];
  }

  // ---------------------------------------------------------------- what encoding and decoding compute

  predicate Digits58(d: seq<nat>) {
    forall i | 0 <= i < |d| :: d[i] < 58
  }

  function Text(d: seq<nat>): (s: string)
    requires Digits58(d)
    ensures |s| == |d| && forall i | 0 <= i < |d| :: s[i] == Char(d[i])
  {
    seq(|d|, i requires 0 <= i < |d| => Char(d[i]))
  }

  function Encode(b: seq<Byte>): string {
    Text(Zeros(Leading(b)) + Digits(58, Value(256, b)))
  }

  /** How many characters at the front are of the alphabet. */
  function Prefix(s: string): (k: nat)
    ensures k <= |s| && (forall i | 0 <= i < k :: Index(s[i]).Some?) && (k < |s| ==> Index(s[k]).None?)
  {
    if s == [] || Index(s[0]).None? then 0 else 1 + Prefix(s[1..])
  }

  function SkipSpaces(s: string): string {
    if s != [] && IsSpace(s[0]) then SkipSpaces(s[1..]) else s
  }

  function Numeral(s: string): (d: seq<nat>)
    requires forall i | 0 <= i < |s| :: Index(s[i]).Some?
    ensures |d| == |s| && Digits58(d) && forall i | 0 <= i < |s| :: s[i] == Char(d[i]) && Index(s[i]) == Some(d[i])
  {
    seq(|s|, i requires 0 <= i < |s| => Index(s[i]).value)
  }

  /** Spaces may stand before and after the numeral; anything else makes decoding fail. */
  function Decode(s: string): Option<seq<Byte>> {
    var t := SkipSpaces(s);
    var k := Prefix(t);
    if SkipSpaces(t[k..]) != [] then None
    else
      var d := Numeral(t[..k]);
      Some(Zeros(Leading(d)) + Bytes(Value(58, d)))
  }

  // ---------------------------------------------------------------- round trips

  lemma TextNumeral(d: seq<nat>)
    requires Digits58(d)
    ensures (forall i | 0 <= i < |d| :: Index(Text(d)[i]) == Some(d[i])) && Numeral(Text(d)) == d
  {
    hide Char, Index;
    forall i | 0 <= i < |d| ensures Index(Text(d)[i]) == Some(d[i]) {
      IndexOfChar(d[i]);
    }
  }

  lemma {:induction false} WholePrefix(s: string)
    requires forall i | 0 <= i < |s| :: Index(s[i]).Some?
    ensures Prefix(s) == |s|
  {
    hide Index;
    if s != [] {
      WholePrefix(s[1..]);
    }
  }

  lemma NoSpace(s: string)
    requires forall i | 0 <= i < |s| :: Index(s[i]).Some?
    ensures SkipSpaces(s) == s
  {
    hide Alphabet, Index;
    if s != [] {
      CharNotSpace(Index(s[0]).value);
    }
  }

  lemma CharNotSpace(d: nat)
    requires d < 58
    ensures !IsSpace(Char(d)) && Char(d) != '\0'
  {
    hide Alphabet;
    CharIs(d);
  }

  /** A text of alphabet characters is decoded as a whole. */
  lemma DecodeWhole(s: string)
    requires forall i | 0 <= i < |s| :: Index(s[i]).Some?
    ensures Decode(s) == Some(Zeros(Leading(Numeral(s))) + Bytes(Value(58, Numeral(s))))
  {
    hide Index, Char, Value, Bytes, Leading;
    NoSpace(s);
    WholePrefix(s);
    assert s[..|s|] == s && s[|s|..] == [];
  }

  /** Decoding undoes encoding, for every byte string. */
  lemma DecodeEncode(b: seq<Byte>)
    ensures Decode(Encode(b)) == Some(b)
  {
    hide Value, Bytes, Index, Char, Text, Decode;
    var k, v := Leading(b), Value(256, b);
    LeadingSplit(b);
    var d := Digits(58, v);
    var m := b[k..];
    LeadingZeros(256, k, m);
    BytesValue(m);
    LeadingZeros(58, k, d);
    ValueDigits(58, v);
    LeadingIs(k, d);
    TextNumeral(Zeros(k) + d);
    DecodeWhole(Text(Zeros(k) + d));
  }

  /** Encoding undoes decoding, for every text over the alphabet. */
  lemma EncodeDecode(s: string)
    requires forall i | 0 <= i < |s| :: Index(s[i]).Some?
    ensures Decode(s).Some? && Encode(Decode(s).value) == s
  {
    hide Value, Bytes, Index, Char, Decode;
    DecodeWhole(s);
    var d := Numeral(s);
    LeadingSplit(d);
    var k, v := Leading(d), Value(58, d);
    var e := d[k..];
    LeadingZeros(58, k, e);
    DigitsValue(58, e);
    BytesAre(v);
    ValueDigits(256, v);
    LeadingZeros(256, k, Bytes(v));
    LeadingIs(k, Bytes(v));
    assert Text(Zeros(k) + Digits(58, v)) == s;
  }

  // ---------------------------------------------------------------- which texts decode

  /** Spaces, tabs, line feeds, vertical tabs, form feeds and carriage returns only. */
  predicate White(s: string) {
    forall i | 0 <= i < |s| :: s[i] in " \t\n\U{000B}\U{000C}\r"
  }

  /** Digits and letters, but for the digit 0, the capitals I and O and the small l. */
  predicate Plain(s: string) {
    forall i | 0 <= i < |s| :: PlainChar(s[i])
  }

  predicate PlainChar(c: char) {
    '1' <= c <= '9' || ('A' <= c <= 'Z' && c != 'I' && c != 'O') || ('a' <= c <= 'z' && c != 'l')
  }

  lemma PlainCharIs(c: char)
    ensures PlainChar(c) <==> Index(c).Some?
  {
    hide Alphabet, Search;
    var k := c as int;
    if PlainChar(c) {
      var d: nat := if k < 65 then k - 49 else if k < 73 then k - 56 else if k < 79 then k - 57
                    else if k < 97 then k - 58 else if k < 108 then k - 64 else k - 65;
      CharIs(d);
      IndexOfChar(d);
    } else if Index(c).Some? {
      CharIs(Index(c).value);
    }
  }

  lemma SpaceIs(c: char)
    ensures IsSpace(c) <==> c in " \t\n\U{000B}\U{000C}\r"
  {
  }

  lemma PlainIs(s: string)
    ensures Plain(s) <==> forall i | 0 <= i < |s| :: Index(s[i]).Some?
  {
    hide Index, PlainChar;
    forall i | 0 <= i < |s| ensures PlainChar(s[i]) <==> Index(s[i]).Some? {
      PlainCharIs(s[i]);
    }
  }

  lemma {:induction false} SkipWhite(a: string, t: string)
    requires White(a) && (t != "" ==> !IsSpace(t[0]))
    ensures SkipSpaces(a + t) == t
  {
    if a == "" {
      assert a + t == t;
    } else {
      SpaceIs(a[0]);
      assert (a + t)[1..] == a[1..] + t;
      SkipWhite(a[1..], t);
    }
  }

  lemma {:induction false} SkippedIsWhite(s: string) returns (a: string)
    ensures White(a) && s == a + SkipSpaces(s)
  {
    if s == "" || !IsSpace(s[0]) {
      a := "";
    } else {
      SpaceIs(s[0]);
      a := SkippedIsWhite(s[1..]);
      a := [s[0]] + a;
    }
  }

  lemma {:induction false} PrefixOf(t: string, b: string)
    requires (forall i | 0 <= i < |t| :: Index(t[i]).Some?) && (b != "" ==> Index(b[0]).None?)
    ensures Prefix(t + b) == |t|
  {
    hide Index;
    if t != "" {
      assert (t + b)[1..] == t[1..] + b;
      PrefixOf(t[1..], b);
    }
  }

  lemma WhiteNotPlain(c: char)
    requires IsSpace(c)
    ensures Index(c).None?
  {
    hide Alphabet;
    if Index(c).Some? {
      CharNotSpace(Index(c).value);
    }
  }

  /** White space on either side changes nothing. */
  lemma DecodeAround(a: string, t: string, b: string)
    requires White(a) && Plain(t) && White(b)
    ensures Decode(a + t + b) == Decode(t) && Decode(t).Some?
  {
    hide Index, Alphabet, Char, Value, Bytes, Leading, Plain, White;
    PlainIs(t);
    DecodeWhole(t);
    if t == "" {
      assert a + t + b == a + b && a + b + "" == a + b;
      WhiteConcat(a, b);
      SkipWhite(a + b, "");
      assert Numeral("") == [];
    } else {
      CharNotSpace(Index(t[0]).value);
      assert a + t + b == a + (t + b) && (t + b)[0] == t[0];
      SkipWhite(a, t + b);
      WhiteFirst(b);
      PrefixOf(t, b);
      SkipWhite(b, "");
      assert b + "" == b && (t + b)[..|t|] == t && (t + b)[|t|..] == b;
    }
  }

  lemma WhiteConcat(a: string, b: string)
    requires White(a) && White(b)
    ensures White(a + b)
  {
  }

  lemma WhiteFirst(b: string)
    requires White(b)
    ensures b != "" ==> Index(b[0]).None?
  {
    if b != "" {
      SpaceIs(b[0]);
      WhiteNotPlain(b[0]);
    }
  }

  /** And a text that decodes is of that form. */
  lemma DecodableIs(s: string) returns (a: string, t: string, b: string)
    requires Decode(s).Some?
    ensures White(a) && Plain(t) && White(b) && s == a + t + b
  {
    hide *;
    a := SkippedIsWhite(s);
    var u := SkipSpaces(s);
    DecodableRest(s);
    var k := Prefix(u);
    t := u[..k];
    PlainIs(t);
    b := SkippedIsWhite(u[k..]);
    assert b + "" == b && u == t + b;
  }

  lemma DecodableRest(s: string)
    requires Decode(s).Some?
    ensures SkipSpaces(SkipSpaces(s)[Prefix(SkipSpaces(s))..]) == ""
  {
    hide SkipSpaces, Prefix, Numeral, Value, Bytes, Leading;
  }

  // ---------------------------------------------------------------- the algorithms

  /** With a zero byte in front the MPI format reads the plain magnitude. */
  lemma Unsigned(b: seq<Byte>)
    ensures Reverse(Reverse(b) + [0]) == [0] + b && FromMpi([0] + b) == Value(256, b)
  {
    var r := Reverse(Reverse(b) + [0]);
    assert forall i | 0 <= i < |r| :: r[i] == ([0] + b)[i];
    LeadingZeros(256, 1, b);
    assert [0] + b == seq(1, _ => 0) + b;
  }

  lemma ReverseAppend<T>(s: seq<T>, x: T)
    ensures Reverse(s + [x]) == [x] + Reverse(s)
  {
    assert forall i | 0 <= i < |s| + 1 :: Reverse(s + [x])[i] == ([x] + Reverse(s))[i];
  }

  lemma ReverseText(d: seq<nat>)
    requires Digits58(d)
    ensures Digits58(Reverse(d)) && Reverse(Text(d)) == Text(Reverse(d))
  {
    assert forall i | 0 <= i < |d| :: Reverse(Text(d))[i] == Text(Reverse(d))[i];
  }

  lemma ReverseZeros(d: seq<nat>, k: nat)
    ensures Reverse(d + Zeros(k)) == Zeros(k) + Reverse(d)
  {
    assert forall i | 0 <= i < |d| + k :: Reverse(d + Zeros(k))[i] == (Zeros(k) + Reverse(d))[i];
  }

  lemma OneDigit(n: nat, d: seq<nat>)
    requires n > 0
    ensures n / 58 < n && Digits(58, n) + Reverse(d) == Digits(58, n / 58) + Reverse(d + [n % 58])
  {
    hide Reverse;
    Smaller(58, n);
    ReverseAppend(d, n % 58);
  }

  lemma TextMore(d: seq<nat>, x: nat)
    requires Digits58(d) && x < 58
    ensures Digits58(d + [x]) && Text(d + [x]) == Text(d) + [Char(x)]
  {
    hide Char;
  }

  /** The digits of a number, lowest first; the number is used up. */
  method AppendDigits(bn: BigNum) returns (str: string, ghost d: seq<nat>)
    requires bn.n >= 0
    modifies bn
    ensures Digits58(d) && str == Text(d) && Reverse(d) == Digits(58, old(bn.n))
  {
    hide Text, Reverse, Digits, Digits58, Char;
    NoText();
    d := [];
    str := "";
    ghost var v: nat := bn.n;
    assert Digits(58, v) + [] == Digits(58, v);
    while bn.n > 0
      invariant bn.n >= 0 && Digits58(d) && str == Text(d) && Digits(58, v) == Digits(58, bn.n) + Reverse(d)
      decreases bn.n
    {
      var rem := bn.n % 58;
      OneDigit(bn.n, d);
      TextMore(d, rem);
      bn.n := bn.n / 58;
      str := str + [Char(rem)];
      d := d + [rem];
    }
    assert [] + Reverse(d) == Reverse(d);
  }

  lemma NoText()
    ensures Digits58([]) && Text([]) == "" && Reverse<nat>([]) == [] && Digits(58, 0) == []
  {
  }

  /** A zero character for each zero byte in front. */
  method AppendZeros(b: seq<Byte>, s: string, ghost d: seq<nat>) returns (str: string)
    requires Digits58(d) && s == Text(d)
    ensures Digits58(d + Zeros(Leading(b))) && str == Text(d + Zeros(Leading(b)))
  {
    hide Text, Digits58, Char;
    str := s;
    var p: nat := 0;
    ghost var e := d;
    while p < |b| && b[p] == 0
      invariant p <= |b| && (forall i | 0 <= i < p :: b[i] == 0)
      invariant e == d + Zeros(p) && Digits58(e) && str == Text(e)
    {
      TextMore(e, 0);
      str := str + [Char(0)];
      e := e + [0];
      p := p + 1;
    }
  }

  method EncodeBase58(b: seq<Byte>) returns (str: string)
    ensures str == Encode(b)
  {
    hide Text, Reverse, Digits, Digits58, Char, Value, Leading, FromMpi;
    // an extra zero at the end makes the number positive
    var vchTmp: seq<Byte> := Reverse(b) + [0];
    var bn := new BigNum(0);
    bn.SetVch(vchTmp);
    Unsigned(b);
    ghost var d;
    str, d := AppendDigits(bn);
    str := AppendZeros(b, str, d);
    ReverseText(d + Zeros(Leading(b)));
    ReverseZeros(d, Leading(b));
    str := Reverse(str);
  }

  lemma OneMoreDigit(t: string, i: nat)
    requires i < |t| && forall j | 0 <= j <= i :: Index(t[j]).Some?
    ensures Value(58, Numeral(t[..i + 1])) == 58 * Value(58, Numeral(t[..i])) + Index(t[i]).value
  {
    hide Index;
    var d := Numeral(t[..i + 1]);
    assert d[..i] == Numeral(t[..i]);
  }

  lemma PrefixIs(t: string, k: nat)
    requires k <= |t| && (forall j | 0 <= j < k :: Index(t[j]).Some?) && (k < |t| ==> Index(t[k]).None?)
    ensures Prefix(t) == k
  {
    hide Index;
  }

  /** Without its sign byte the little-endian vector is the magnitude. */
  function Trim(vch: seq<Byte>): seq<Byte> {
    if |vch| >= 2 && vch[|vch| - 1] == 0 && vch[|vch| - 2] >= 0x80 then vch[..|vch| - 1] else vch
  }

  lemma Trimmed(n: nat)
    ensures Reverse(Trim(Reverse(ToMpi(n)))) == Bytes(n)
  {
    BytesAre(n);
    var m := Bytes(n);
    ReverseTwice(m);
    if m != [] && m[0] >= 0x80 {
      SignByte(m);
    }
  }

  lemma SignByte(m: seq<Byte>)
    requires m != [] && m[0] >= 0x80
    ensures Trim(Reverse([0] + m)) == Reverse(m)
  {
    assert ([0] + m)[1..] == m;
    var v := Reverse(m) + [0];
    assert v[|v| - 2] == m[0] && v[..|m|] == Reverse(m);
  }

  /** Skip spaces, collect the number, and insist that nothing but spaces follows. */
  method ReadNumber(s: string) returns (psz: string, bn: nat, p: nat, ok: bool)
    ensures psz == SkipSpaces(s) && p == Prefix(psz) && bn == Value(58, Numeral(psz[..p]))
    ensures ok <==> SkipSpaces(psz[p..]) == []
  {
    hide Char, Value, Alphabet, Index, Bytes;
    psz := s;
    while psz != [] && IsSpace(psz[0])
      invariant SkipSpaces(psz) == SkipSpaces(s)
      decreases |psz|
    {
      psz := psz[1..];
    }
    bn, p := 0, 0;
    NoValue(psz);
    while p < |psz| && Index(psz[p]).Some?
      invariant p <= |psz| && (forall j | 0 <= j < p :: Index(psz[j]).Some?) && bn == Value(58, Numeral(psz[..p]))
    {
      OneMoreDigit(psz, p);
      bn := bn * 58 + Index(psz[p]).value;
      p := p + 1;
    }
    PrefixIs(psz, p);
    var rest := psz[p..];
    while rest != [] && IsSpace(rest[0])
      invariant SkipSpaces(rest) == SkipSpaces(psz[p..])
      decreases |rest|
    {
      rest := rest[1..];
    }
    ok := rest == [];
  }

  lemma NoValue(t: string)
    ensures Value(58, Numeral(t[..0])) == 0
  {
  }

  /** How many characters for zero there are in front. */
  method CountZeros(psz: string, p: nat) returns (n: nat)
    requires p == Prefix(psz)
    ensures n == Leading(Numeral(psz[..p]))
  {
    hide Char, Alphabet, Index;
    n := 0;
    while n < |psz| && psz[n] == Char(0)
      invariant n <= p && forall i | 0 <= i < n :: psz[i] == Char(0)
      decreases |psz| - n
    {
      IndexOfChar(0);
      n := n + 1;
    }
    ZerosLead(psz[..p], n);
  }

  lemma ZerosLead(t: string, n: nat)
    requires (forall i | 0 <= i < |t| :: Index(t[i]).Some?) && n <= |t|
    requires (forall i | 0 <= i < n :: t[i] == Char(0)) && (n < |t| ==> t[n] != Char(0))
    ensures Leading(Numeral(t)) == n
  {
    hide Char, Index;
    var d := Numeral(t);
    forall i | 0 <= i < n ensures d[i] == 0 {
      IndexOfChar(0);
    }
  }

  method DecodeBase58(s: string) returns (r: Option<seq<Byte>>)
    ensures r == Decode(s)
  {
    hide Char, Value, Alphabet, Index, Bytes, Leading, Numeral, Prefix, SkipSpaces, Reverse, Trim, ToMpi, FromMpi;
    var psz, n, p, ok := ReadNumber(s);
    if !ok {
      return None;
    }
    var bn := new BigNum(n);
    var vchTmp := bn.GetVch();
    vchTmp := Trim(vchTmp);
    Trimmed(n);
    var nLeadingZeros := CountZeros(psz, p);
    r := Some(Zeros(nLeadingZeros) + Reverse(vchTmp));
  }

  // ---------------------------------------------------------------- with a checksum

  /** The first four bytes of the hash of some bytes; left uninterpreted. */
  type Checksum = seq<Byte> -> (Byte, Byte, Byte, Byte)

  function Four(f: Checksum, b: seq<Byte>): (s: seq<Byte>)
    ensures |s| == 4
  {
    var c := f(b);
    [c.0, c.1, c.2, c.3]
  }

  function EncodeCheck(f: Checksum, b: seq<Byte>): string {
    Encode(b + Four(f, b))
  }

  /** The bytes before the last four, provided those are their checksum. */
  function DecodeCheck(f: Checksum, s: string): Option<seq<Byte>> {
    var r := Decode(s);
    if r.None? || |r.value| < 4 then None
    else
      var b := r.value[..|r.value| - 4];
      if Four(f, b) == r.value[|r.value| - 4..] then Some(b) else None
  }

  lemma DecodeEncodeCheck(f: Checksum, b: seq<Byte>)
    ensures DecodeCheck(f, EncodeCheck(f, b)) == Some(b)
  {
    hide Encode, Decode;
    DecodeEncode(b + Four(f, b));
    assert (b + Four(f, b))[..|b|] == b && (b + Four(f, b))[|b|..] == Four(f, b);
  }

  lemma EncodeDecodeCheck(f: Checksum, s: string)
    requires (forall i | 0 <= i < |s| :: Index(s[i]).Some?) && DecodeCheck(f, s).Some?
    ensures EncodeCheck(f, DecodeCheck(f, s).value) == s
  {
    hide Encode, Decode, Index;
    EncodeDecode(s);
    var r := Decode(s).value;
    assert r == r[..|r| - 4] + r[|r| - 4..];
  }

  /** A text decodes to `b` exactly when without the check it decodes to `b` and the checksum of `b`. */
  lemma DecodeCheckIs(f: Checksum, s: string, b: seq<Byte>)
    ensures DecodeCheck(f, s) == Some(b) <==> Decode(s) == Some(b + Four(f, b))
  {
    hide Decode;
    var r := Decode(s);
    if r.Some? && |r.value| >= 4 {
      assert r.value == r.value[..|r.value| - 4] + r.value[|r.value| - 4..];
    }
    assert (b + Four(f, b))[..|b|] == b && (b + Four(f, b))[|b|..] == Four(f, b);
  }

  /** The text of the bytes and their checksum, which decodes to the bytes again. */
  method EncodeBase58Check(f: Checksum, vchIn: seq<Byte>) returns (str: string)
    ensures str == EncodeCheck(f, vchIn)
    ensures Decode(str) == Some(vchIn + Four(f, vchIn)) && DecodeCheck(f, str) == Some(vchIn)
  {
    hide Encode, Decode;
    var vch := vchIn + Four(f, vchIn);
    str := EncodeBase58(vch);
    DecodeEncode(vch);
    DecodeEncodeCheck(f, vchIn);
  }

  /** Succeeds with just those bytes which the text holds together with their checksum. */
  method DecodeBase58Check(f: Checksum, s: string) returns (r: Option<seq<Byte>>)
    ensures r == DecodeCheck(f, s)
    ensures forall b {:trigger Four(f, b)} :: r == Some(b) <==> Decode(s) == Some(b + Four(f, b))
    ensures r.Some? && (forall i | 0 <= i < |s| :: Index(s[i]).Some?) ==> EncodeCheck(f, r.value) == s
  {
    hide Decode, Encode, Index;
    forall b: seq<Byte> {:trigger Four(f, b)} ensures DecodeCheck(f, s) == Some(b) <==> Decode(s) == Some(b + Four(f, b)) {
      DecodeCheckIs(f, s, b);
    }
    if DecodeCheck(f, s).Some? && forall i | 0 <= i < |s| :: Index(s[i]).Some? {
      EncodeDecodeCheck(f, s);
    }
    var vchRet := DecodeBase58(s);
    if vchRet.None? {
      return None;
    }
    if |vchRet.value| < 4 {
      return None;
    }
    var n := |vchRet.value| - 4;
    if Four(f, vchRet.value[..n]) != vchRet.value[n..] {
      return None;
    }
    r := Some(vchRet.value[..n]);
  }
}

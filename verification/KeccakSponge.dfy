/** The buffered sponge of keccak.c: feeding a message in pieces, and closing it. */
module KeccakSponge {
  import opened Words
  import opened Fips202
  import opened Keccak

  // ---------------------------------------------------------------- complemented lanes in the context

  /** The words of the context that are kept complemented. */
  predicate Complemented(i: nat) {
    i == 1 || i == 2 || i == 8 || i == 12 || i == 17 || i == 20
  }

  function Hidden(s: Lanes): Lanes {
    seq(25, i requires 0 <= i < 25 => Turn(Complemented(i), s[i]))
  }

  lemma HiddenGrid(s: Lanes)
    ensures ToGrid(Hidden(s)) == Flip(Marked(), ToGrid(s))
  {
    hide Turn;
  }

  lemma GridHidden(g: Grid<Word>, s: Lanes)
    requires g == Flip(Marked(), ToGrid(s))
    ensures ToLanes(g) == Hidden(s)
  {
    hide ToGrid, Flip, Hidden;
    HiddenGrid(s);
    FromGrid(Hidden(s));
  }

  /** Adding to a complemented lane complements the sum. */
  lemma AddHidden(s: Lanes, wide: Lanes, block: seq<Byte>)
    requires |block| % 8 == 0 && |block| <= 200
    requires forall i | 0 <= i < 25 :: wide[i] == if 8 * i < |block| then Xor(Hidden(s)[i], Dec64le(block, 8 * i)) else Hidden(s)[i]
    ensures wide == Hidden(AddBlock(s, Bits(block)))
  {
    forall i | 0 <= i < 25 ensures wide[i] == Hidden(AddBlock(s, Bits(block)))[i] {
      AddLane(s, block, i);
    }
  }

  lemma AddLane(s: Lanes, block: seq<Byte>, i: nat)
    requires |block| % 8 == 0 && |block| <= 200 && i < 25
    ensures (if 8 * i < |block| then Xor(Hidden(s)[i], Dec64le(block, 8 * i)) else Hidden(s)[i]) == Hidden(AddBlock(s, Bits(block)))[i]
  {
    var a, b := s[i], AddBlock(s, Bits(block))[i];
    forall z | 0 <= z < 64 ensures b[z] == (a[z] != (8 * i < |block| && block[8 * i + z / 8][z % 8])) {
      assert (64 * i + z) / 8 == 8 * i + z / 8 && (64 * i + z) % 8 == z % 8;
    }
  }

  // ---------------------------------------------------------------- bits of bytes

  lemma BitsConcat(a: seq<Byte>, b: seq<Byte>)
    ensures Bits(a + b) == Bits(a) + Bits(b)
  {
    forall k | 0 <= k < 8 * |a + b| ensures Bits(a + b)[k] == (Bits(a) + Bits(b))[k] {
      if k >= 8 * |a| {
        assert (k - 8 * |a|) / 8 == k / 8 - |a| && (k - 8 * |a|) % 8 == k % 8;
      }
    }
  }

  predicate Rate(lim: nat) {
    lim == 144 || lim == 136 || lim == 104 || lim == 72
  }

  lemma WholeBits(n: nat, lim: nat)
    requires Rate(lim) && n % lim == 0
    ensures 8 * n % (8 * lim) == 0
  {
    ModUnique(8 * n, n / lim, 0, 8 * lim);
  }

  /** The state after absorbing whole blocks of bytes. */
  function Absorbed(full: seq<Byte>, lim: nat): Lanes
    requires Rate(lim) && |full| % lim == 0
  {
    WholeBits(|full|, lim);
    Absorb(Bits(full), 8 * lim)
  }

  lemma AbsorbOne(full: seq<Byte>, block: seq<Byte>, lim: nat)
    requires Rate(lim) && |full| % lim == 0 && |block| == lim
    ensures |full + block| % lim == 0
    ensures Absorbed(full + block, lim) == KeccakF(AddBlock(Absorbed(full, lim), Bits(block)))
  {
    hide KeccakF, AddBlock;
    ModUnique(|full| + lim, |full| / lim + 1, 0, lim);
    WholeBits(|full|, lim);
    WholeBits(|full + block|, lim);
    var p := Bits(full + block);
    BitsConcat(full, block);
    assert p[..|p| - 8 * lim] == Bits(full) && p[|p| - 8 * lim..] == Bits(block);
  }

  // ---------------------------------------------------------------- padding

  function NoBits(): Byte {
    seq(8, _ => false)
  }

  function ZeroBytes(n: nat): seq<Byte> {
    seq(n, _ => NoBits())
  }

  /** Only the top bit. */
  function TopBit(): Byte {
    seq(8, i => i == 7)
  }

  /** The top `n` bits of `ub`, then a one: (0x100 | (ub & 0xFF)) >> (8 - n). */
  function ExtraByte(ub: Byte, n: nat): Byte
    requires n < 8
  {
    var nine := ub + [true];
    seq(8, i requires 0 <= i < 8 => i + 8 - n < 9 && nine[i + 8 - n])
  }

  function OrTop(b: Byte): Byte {
    b[7 := true]
  }

  /** The bytes that close a message with `ptr` bytes in the buffer. */
  function Closing(ub: Byte, n: nat, ptr: nat, lim: nat): (tmp: seq<Byte>)
    requires Rate(lim) && n < 8 && ptr < lim
    ensures (ptr + |tmp|) % lim == 0
  {
    var eb := ExtraByte(ub, n);
    if ptr == lim - 1 then
      if n == 7 then [eb] + ZeroBytes(lim - 1) + [TopBit()] else [OrTop(eb)]
    else [eb] + ZeroBytes(lim - ptr - 2) + [TopBit()]
  }

  /** They are the extra bits, a one, zeros and a one. */
  lemma ClosingBits(ub: Byte, n: nat, ptr: nat, lim: nat)
    requires Rate(lim) && n < 8 && ptr < lim
    ensures var tmp := Closing(ub, n, ptr, lim);
            && n + 2 <= 8 * |tmp| && 8 * |tmp| - n - 2 < 8 * lim
            && Bits(tmp) == ub[8 - n..] + ([true] + seq(8 * |tmp| - n - 2, _ => false) + [true])
  {
    var tmp := Closing(ub, n, ptr, lim);
    var bits := ub[8 - n..] + ([true] + seq(8 * |tmp| - n - 2, _ => false) + [true]);
    forall k | 0 <= k < 8 * |tmp| ensures Bits(tmp)[k] == bits[k] {
      ClosingBit(ub, n, ptr, lim, k);
    }
  }

  lemma ClosingBit(ub: Byte, n: nat, ptr: nat, lim: nat, k: nat)
    requires Rate(lim) && n < 8 && ptr < lim && k < 8 * |Closing(ub, n, ptr, lim)|
    ensures var tmp := Closing(ub, n, ptr, lim);
            tmp[k / 8][k % 8] == if k < n then ub[8 - n + k] else k == n || k == 8 * |tmp| - 1
  {
    var tmp := Closing(ub, n, ptr, lim);
    if k / 8 == 0 {
    } else if k / 8 < |tmp| - 1 {
      assert tmp[k / 8] == NoBits();
    } else {
      assert tmp[k / 8] == TopBit();
    }
  }

  /** Hence the message with these bytes is the padded message. */
  lemma ClosingPads(fed: seq<Byte>, full: nat, ub: Byte, n: nat, ptr: nat, lim: nat)
    requires Rate(lim) && n < 8 && ptr < lim && full % lim == 0 && |fed| == full + ptr
    ensures var m := Bits(fed) + ub[8 - n..];
            && |fed + Closing(ub, n, ptr, lim)| % lim == 0
            && Bits(fed + Closing(ub, n, ptr, lim)) == m + Pad10Star1(8 * lim, |m|)
  {
    var tmp := Closing(ub, n, ptr, lim);
    ClosingBits(ub, n, ptr, lim);
    BitsConcat(fed, tmp);
    var m := Bits(fed) + ub[8 - n..];
    var j := 8 * |tmp| - n - 2;
    PadLength(full, ptr, |tmp|, n, lim, j);
  }

  lemma PadLength(full: nat, ptr: nat, t: nat, n: nat, lim: nat, j: nat)
    requires Rate(lim) && full % lim == 0 && (ptr + t) % lim == 0 && j == 8 * t - n - 2 && j < 8 * lim
    ensures (full + ptr + t) % lim == 0
    ensures (-((8 * (full + ptr) + n) as int) - 2) % (8 * lim) == j
  {
    var q, p := full / lim, (ptr + t) / lim;
    ModUnique(full + ptr + t, q + p, 0, lim);
    assert -(8 * (full + ptr) + n) - 2 == (-q - p) * (8 * lim) + j;
    ModUnique(-(8 * (full + ptr) + n) - 2, -q - p, j, 8 * lim);
  }

  // ---------------------------------------------------------------- the context

  function Ones(): Word {
    seq(64, _ => true)
  }

  lemma InitialState(wide: Lanes)
    requires forall i | 0 <= i < 25 :: wide[i] == if Complemented(i) then Ones() else Zero()
    ensures wide == Hidden(Absorbed([], 144)) && wide == Hidden(Absorbed([], 136)) && wide == Hidden(Absorbed([], 104)) && wide == Hidden(Absorbed([], 72))
  {
    assert Not(Zero()) == Ones();
    forall lim | Rate(lim) ensures wide == Hidden(Absorbed([], lim)) {
      assert Absorbed([], lim) == seq(25, _ => Zero());
    }
    assert Rate(144) && Rate(136) && Rate(104) && Rate(72);
  }

  lemma PendingMod(full: nat, ptr: nat, lim: nat)
    requires Rate(lim) && full % lim == 0 && ptr < lim
    ensures (full + ptr) % lim == ptr
  {
    ModUnique(full + ptr, full / lim, ptr, lim);
  }

  /** The first `j` bytes of a block have been added. */
  ghost predicate Added(before: Lanes, wide: Lanes, block: seq<Byte>, j: nat) {
    && j % 8 == 0 && j <= |block| <= 200
    && forall i | 0 <= i < 25 :: wide[i] == if 8 * i < j then Xor(before[i], Dec64le(block, 8 * i)) else before[i]
  }

  lemma AddedNone(before: Lanes, block: seq<Byte>)
    requires |block| <= 200
    ensures Added(before, before, block, 0)
  {
  }

  lemma AddedOne(before: Lanes, wide: Lanes, block: seq<Byte>, j: nat)
    requires Added(before, wide, block, j) && j + 8 <= |block|
    ensures Added(before, wide[j / 8 := Xor(wide[j / 8], Dec64le(block, j))], block, j + 8)
  {
    hide Xor, Dec64le;
    var k := j / 8;
    assert j == 8 * k;
    forall i | 0 <= i < 25 && i != k ensures (8 * i < j + 8) == (8 * i < j) {
    }
  }

  lemma AddedAll(s: Lanes, before: Lanes, wide: Lanes, block: seq<Byte>)
    requires before == Hidden(s) && Added(before, wide, block, |block|)
    ensures wide == Hidden(AddBlock(s, Bits(block)))
  {
    hide Hidden, Xor, Dec64le;
    AddHidden(s, wide, block);
  }

  lemma SameWord(buf: seq<Byte>, lim: nat, j: nat)
    requires j + 8 <= lim <= |buf|
    ensures Dec64le(buf, j) == Dec64le(buf[..lim], j)
  {
  }

  class KeccakContext {
    const wide: array<Word>
    const buf: array<Byte>
    var ptr: nat
    var lim: nat
    /** The part of the message that has gone into the state. */
    ghost var full: seq<Byte>

    ghost predicate Valid()
      reads this, wide, buf
    {
      && wide.Length == 25 && buf.Length == 144 && Rate(lim) && ptr < lim
      && |full| % lim == 0 && wide[..] == Hidden(Absorbed(full, lim))
    }

    /** All that has been fed since the start. */
    ghost function Fed(): seq<Byte>
      requires Valid()
      reads this, wide, buf
    {
      full + buf[..ptr]
    }

    constructor (out_size: nat)
      requires out_size == 224 || out_size == 256 || out_size == 384 || out_size == 512
      ensures Valid() && fresh(wide) && fresh(buf) && Fed() == [] && lim == 200 - out_size / 4
    {
      wide := new Word[25](_ => Zero());
      buf := new Byte[144](_ => seq(8, _ => false));
      full := [];
      lim := 200 - out_size / 4;
      ptr := 0;
      new;
      wide[1], wide[2], wide[8], wide[12], wide[17], wide[20] := Ones(), Ones(), Ones(), Ones(), Ones(), Ones();
      InitialState(wide[..]);
    }

    /** Add the buffer to the first words of the state. */
    method InputBuf(ghost s: Lanes)
      requires wide.Length == 25 && buf.Length == 144 && Rate(lim) && wide[..] == Hidden(s)
      modifies wide
      ensures wide[..] == Hidden(AddBlock(s, Bits(buf[..lim])))
    {
      hide Hidden, Dec64le, Xor, Added;
      ghost var before: Lanes := wide[..];
      ghost var block := buf[..lim];
      AddedNone(before, block);
      var j: nat := 0;
      while j < lim
        invariant 0 <= j <= lim && j % 8 == 0 && buf[..lim] == block && Added(before, wide[..], block, j)
      {
        SameWord(buf[..], lim, j);
        AddedOne(before, wide[..], block, j);
        wide[j / 8] := Xor(wide[j / 8], Dec64le(buf[..], j));
        j := j + 8;
      }
      AddedAll(s, before, wide[..], block);
    }

    /** Run the permutation on the words of the state. */
    method PermuteWide(ghost s: Lanes)
      requires wide.Length == 25 && wide[..] == Hidden(s)
      modifies wide
      ensures wide[..] == Hidden(KeccakF(s))
    {
      hide Hidden, KeccakF, ToGrid, ToLanes, Flip;
      HiddenGrid(s);
      var a := Permute(ToGrid(wide[..]), s);
      GridHidden(a, KeccakF(s));
      var w := ToLanes(a);
      forall i | 0 <= i < 25 {
        wide[i] := w[i];
      }
      assert wide[..] == w;
    }

    /** Copy some bytes behind those in the buffer. */
    method Copy(piece: seq<Byte>)
      requires buf.Length == 144 && ptr + |piece| <= 144
      modifies this`ptr, buf
      ensures ptr == old(ptr) + |piece| && buf[..ptr] == old(buf[..ptr]) + piece
    {
      forall i | 0 <= i < |piece| {
        buf[ptr + i] := piece[i];
      }
      ptr := ptr + |piece|;
    }

    /** Feed some bytes. */
    method Core(data: seq<Byte>)
      requires Valid()
      modifies this`ptr, this`full, wide, buf
      ensures Valid() && Fed() == old(Fed()) + data
    {
      hide Hidden, Absorbed;
      if |data| < lim - ptr {
        Copy(data);
        return;
      }
      var done: nat := 0;
      ghost var fed := Fed();
      while done < |data|
        invariant done <= |data| && Valid() && Fed() == fed + data[..done]
      {
        var clen := lim - ptr;
        if clen > |data| - done {
          clen := |data| - done;
        }
        Append(data[done..done + clen]);
        assert data[..done] + data[done..done + clen] == data[..done + clen];
        done := done + clen;
      }
      assert data[..done] == data;
    }

    /** Append to the buffer, and absorb it when it is full. */
    method Append(piece: seq<Byte>)
      requires Valid() && ptr + |piece| <= lim
      modifies this`ptr, this`full, wide, buf
      ensures Valid() && Fed() == old(Fed()) + piece
    {
      hide Hidden, Absorbed, KeccakF, AddBlock, Bits;
      Copy(piece);
      if ptr == lim {
        ghost var s := Absorbed(full, lim);
        InputBuf(s);
        PermuteWide(AddBlock(s, Bits(buf[..lim])));
        AbsorbOne(full, buf[..lim], lim);
        full := full + buf[..lim];
        ptr := 0;
      }
    }

    /** Start afresh with the same block length. */
    method Reset(d: nat)
      requires wide.Length == 25 && buf.Length == 144 && Rate(lim) && lim == 200 - 2 * d
      modifies this`ptr, this`lim, this`full, wide
      ensures Valid() && Fed() == [] && lim == old(lim)
    {
      var out_size := 8 * d;
      forall i | 0 <= i < 25 {
        wide[i] := Zero();
      }
      wide[1], wide[2], wide[8], wide[12], wide[17], wide[20] := Ones(), Ones(), Ones(), Ones(), Ones(), Ones();
      ptr := 0;
      lim := 200 - out_size / 4;
      full := [];
      InitialState(wide[..]);
    }

    /** Undo the complement. */
    method Uncover(ghost s: Lanes)
      requires wide.Length == 25 && wide[..] == Hidden(s)
      modifies wide
      ensures wide[..] == s
    {
      hide Not, Hidden;
      ghost var before := wide[..];
      wide[1], wide[2], wide[8] := Not(wide[1]), Not(wide[2]), Not(wide[8]);
      wide[12], wide[17], wide[20] := Not(wide[12]), Not(wide[17]), Not(wide[20]);
      Uncovered(s, wide[..]);
    }

    /** Read the first `d` bytes of the state. */
    method Squeeze(d: nat, ghost s: Lanes) returns (dst: seq<Byte>)
      requires wide.Length == 25 && wide[..] == s && d <= 64
      ensures |dst| == d && forall k | 0 <= k < 8 * d :: dst[k / 8][k % 8] == StateBit(s, k)
    {
      hide StateBit, Enc64le;
      var tmp: seq<Byte> := [];
      var j: nat := 0;
      while j < d
        invariant j % 8 == 0 && |tmp| == j <= 71 && tmp == Encoded(s, j / 8)
      {
        tmp := tmp + Enc64le(wide[j / 8]);
        j := j + 8;
      }
      dst := tmp[..d];
      forall k: nat | 0 <= k < 8 * d ensures dst[k / 8][k % 8] == StateBit(s, k) {
        EncodedBit(s, j / 8, k);
      }
    }

    /** Close the message with the top `n` bits of `ub`, and start afresh. */
    method Close(ub: Byte, n: nat, d: nat) returns (dst: seq<Byte>)
      requires Valid() && n < 8 && lim == 200 - 2 * d
      modifies this`ptr, this`lim, this`full, wide, buf
      ensures |dst| == d && Bits(dst) == Sponge(old(Bits(Fed())) + ub[8 - n..], 8 * old(lim), 8 * d)
      ensures Valid() && Fed() == [] && lim == old(lim)
    {
      hide Hidden, Absorbed, KeccakF, Bits, ExtraByte, OrTop, Sponge, ZeroBytes;
      ghost var fed := Fed();
      var eb := ExtraByte(ub, n);
      var tmp: seq<Byte>;
      if ptr == lim - 1 {
        if n == 7 {
          tmp := [eb] + ZeroBytes(lim - 1) + [TopBit()];
        } else {
          tmp := [OrTop(eb)];
        }
      } else {
        tmp := [eb] + ZeroBytes(lim - ptr - 2) + [TopBit()];
      }
      ClosingPads(fed, |full|, ub, n, ptr, lim);
      Core(tmp);
      NothingPending(full, ptr, lim);
      assert full == fed + tmp;
      ghost var s := Absorbed(full, lim);
      Uncover(s);
      dst := Squeeze(d, s);
      Squeezed(full, lim, Bits(fed) + ub[8 - n..], d, dst);
      Reset(d);
    }
  }

  lemma NothingPending(full: seq<Byte>, ptr: nat, lim: nat)
    requires Rate(lim) && |full| % lim == 0 && ptr < lim && (|full| + ptr) % lim == 0
    ensures ptr == 0
  {
    PendingMod(|full|, ptr, lim);
  }

  lemma Uncovered(s: Lanes, wide: Lanes)
    requires forall i | 0 <= i < 25 :: wide[i] == if Complemented(i) then Not(Hidden(s)[i]) else Hidden(s)[i]
    ensures wide == s
  {
    forall i | 0 <= i < 25 ensures wide[i] == s[i] {
      assert Not(Not(s[i])) == s[i];
    }
  }

  /** The bytes of the first `n` words. */
  function Encoded(s: Lanes, n: nat): (r: seq<Byte>)
    requires n <= 25
    ensures |r| == 8 * n
  {
    if n == 0 then [] else Encoded(s, n - 1) + Enc64le(s[n - 1])
  }

  lemma {:induction false} EncodedBit(s: Lanes, n: nat, k: nat)
    requires n <= 25 && k < 64 * n
    ensures Encoded(s, n)[k / 8][k % 8] == StateBit(s, k)
  {
    if k < 64 * (n - 1) {
      EncodedBit(s, n - 1, k);
    } else {
      var z := k % 64;
      assert k / 64 == n - 1 && k / 8 == 8 * (n - 1) + z / 8 && k % 8 == z % 8;
      assert Encoded(s, n)[k / 8] == Enc64le(s[n - 1])[z / 8];
    }
  }

  lemma Squeezed(full: seq<Byte>, lim: nat, m: seq<bool>, d: nat, dst: seq<Byte>)
    requires Rate(lim) && |full| % lim == 0 && Bits(full) == m + Pad10Star1(8 * lim, |m|) && 8 * d <= 8 * lim
    requires |dst| == d && forall k | 0 <= k < 8 * d :: dst[k / 8][k % 8] == StateBit(Absorbed(full, lim), k)
    ensures Bits(dst) == Sponge(m, 8 * lim, 8 * d)
  {
    hide Absorb, StateBit, Pad10Star1;
  }
}

/** The permutation Keccak-f[1600] and the sponge, as FIPS 202 states them. */
module Fips202 {
  import opened Words

  /** The state: bit x, y, z is bit z of lane x + 5 * y (section 3.1.2). */
  type Lanes = s: seq<Word> | |s| == 25 witness seq(25, _ => Zero())

  function At(x: nat, y: nat): (i: nat)
    requires x < 5 && y < 5
    ensures i < 25
  {
    x + 5 * y
  }

  function X(i: nat): (x: nat)
    ensures x < 5
  {
    i % 5
  }

  function Y(i: nat): (y: nat)
    requires i < 25
    ensures y < 5
  {
    i / 5
  }

  lemma AtXY(x: nat, y: nat)
    requires x < 5 && y < 5
    ensures X(At(x, y)) == x && Y(At(x, y)) == y
  {
  }

  // ---------------------------------------------------------------- section 3.2, the step mappings

  /** The sum of column x. */
  function C(a: Lanes, x: nat): Word
    requires x < 5
  {
    Sum(a[At(x, 0)], a[At(x, 1)], a[At(x, 2)], a[At(x, 3)], a[At(x, 4)])
  }

  function Sum(a0: Word, a1: Word, a2: Word, a3: Word, a4: Word): Word {
    Xor(Xor(Xor(Xor(a0, a1), a2), a3), a4)
  }

  function D(a: Lanes, x: nat): Word
    requires x < 5
  {
    Xor(C(a, (x + 4) % 5), Rot(C(a, (x + 1) % 5), 1))
  }

  function ThetaLane(a: Lanes, x: nat, y: nat): Word
    requires x < 5 && y < 5
  {
    Xor(a[At(x, y)], D(a, x))
  }

  function Theta(a: Lanes): Lanes {
    seq(25, i requires 0 <= i < 25 => ThetaLane(a, X(i), Y(i)))
  }

  /** Bit z moves to z + n, modulo the size of a lane. */
  function Rot(a: Word, n: nat): (r: Word)
    requires n < 64
    ensures forall z | 0 <= z < 64 :: r[z] == a[(z + 64 - n) % 64]
  {
    seq(64, z requires 0 <= z < 64 => a[(z + 64 - n) % 64])
  }

  /** The lane that step `t` of the algorithm for rho rotates. */
  function RhoLane(t: nat): (r: (nat, nat))
    ensures r.0 < 5 && r.1 < 5
  {
    if t == 0 then (1, 0)
    else
      var (x, y) := RhoLane(t - 1);
      (y, (2 * x + 3 * y) % 5)
  }

  /** The offset of lane x, y once the first `t` steps have set theirs. */
  function RhoOffset(x: nat, y: nat, t: nat): (n: nat)
    ensures n < 64
  {
    if t == 0 then 0
    else if RhoLane(t - 1) == (x, y) then t * (t + 1) / 2 % 64
    else RhoOffset(x, y, t - 1)
  }

  function RhoLaneAt(a: Lanes, x: nat, y: nat): Word
    requires x < 5 && y < 5
  {
    Rot(a[At(x, y)], RhoOffset(x, y, 24))
  }

  function Rho(a: Lanes): Lanes {
    seq(25, i requires 0 <= i < 25 => RhoLaneAt(a, X(i), Y(i)))
  }

  function PiLane(a: Lanes, x: nat, y: nat): Word
    requires x < 5 && y < 5
  {
    a[At((x + 3 * y) % 5, x)]
  }

  function Pi(a: Lanes): Lanes {
    seq(25, i requires 0 <= i < 25 => PiLane(a, X(i), Y(i)))
  }

  function ChiLane(a: Lanes, x: nat, y: nat): Word
    requires x < 5 && y < 5
  {
    Xor(a[At(x, y)], And(Not(a[At((x + 1) % 5, y)]), a[At((x + 2) % 5, y)]))
  }

  function Chi(a: Lanes): Lanes {
    seq(25, i requires 0 <= i < 25 => ChiLane(a, X(i), Y(i)))
  }

  /** What the steps do to lane x, y. */
  lemma Lane(a: Lanes, x: nat, y: nat)
    requires x < 5 && y < 5
    ensures Theta(a)[At(x, y)] == ThetaLane(a, x, y) && Rho(a)[At(x, y)] == RhoLaneAt(a, x, y)
    ensures Pi(a)[At(x, y)] == PiLane(a, x, y) && Chi(a)[At(x, y)] == ChiLane(a, x, y)
  {
    hide At, X, Y, ThetaLane, RhoLaneAt, PiLane, ChiLane;
    AtXY(x, y);
  }

  /** The shift register of the algorithm for rc, lowest index first. */
  datatype Register = Register(r0: bool, r1: bool, r2: bool, r3: bool, r4: bool, r5: bool, r6: bool, r7: bool)
  {
    function Step(): Register {
      Register(r7, r0, r1, r2, r3 != r7, r4 != r7, r5 != r7, r6)
    }
  }

  function RegisterAt(t: nat): Register {
    if t == 0 then Register(true, false, false, false, false, false, false, false) else RegisterAt(t - 1).Step()
  }

  function Rc(t: nat): bool {
    RegisterAt(t % 255).r0
  }

  /** The round constant: bit 2^j - 1 is rc(j + 7 * ir) for j up to 6. */
  function RoundConstant(ir: nat): Word {
    Sparse(Rc(7 * ir), Rc(7 * ir + 1), Rc(7 * ir + 2), Rc(7 * ir + 3), Rc(7 * ir + 4), Rc(7 * ir + 5), Rc(7 * ir + 6))
  }

  function Sparse(b0: bool, b1: bool, b2: bool, b3: bool, b4: bool, b5: bool, b6: bool): Word {
    seq(64, z requires 0 <= z < 64 => SparseBit(z, b0, b1, b2, b3, b4, b5, b6))
  }

  predicate SparseBit(z: nat, b0: bool, b1: bool, b2: bool, b3: bool, b4: bool, b5: bool, b6: bool) {
    if z == 0 then b0 else if z == 1 then b1 else if z == 3 then b2 else if z == 7 then b3
    else if z == 15 then b4 else if z == 31 then b5 else z == 63 && b6
  }

  function Iota(a: Lanes, ir: nat): Lanes {
    a[0 := Xor(a[0], RoundConstant(ir))]
  }

  // ---------------------------------------------------------------- sections 3.3 and 3.4

  function Round(a: Lanes, ir: nat): Lanes {
    Iota(Chi(Pi(Rho(Theta(a)))), ir)
  }

  /** The first `n` rounds. */
  function Rounds(a: Lanes, n: nat): Lanes {
    if n == 0 then a else Round(Rounds(a, n - 1), n - 1)
  }

  function KeccakF(a: Lanes): Lanes {
    Rounds(a, 24)
  }

  // ---------------------------------------------------------------- sections 4 and 5.1, the sponge

  /** The padding that brings `m` bits to a multiple of `r`. */
  function Pad10Star1(r: nat, m: nat): (p: seq<bool>)
    requires r > 1
    ensures |p| >= 2
  {
    var j := (-(m as int) - 2) % r;
    [true] + seq(j, _ => false) + [true]
  }

  /** Add a block of bits to the front of the state. */
  function AddBlock(a: Lanes, block: seq<bool>): Lanes {
    seq(25, i requires 0 <= i < 25 =>
      seq(64, z requires 0 <= z < 64 => a[i][z] != (64 * i + z < |block| && block[64 * i + z])))
  }

  /** The state after absorbing `p` in blocks of `r` bits. */
  function Absorb(p: seq<bool>, r: nat): Lanes
    requires r > 0 && |p| % r == 0
  {
    if |p| == 0 then seq(25, _ => Zero())
    else
      assert (|p| - r) % r == 0 by { LessBlock(|p|, r); }
      KeccakF(AddBlock(Absorb(p[..|p| - r], r), p[|p| - r..]))
  }

  lemma ModUnique(x: int, q: int, s: int, r: int)
    requires r > 0 && x == q * r + s && 0 <= s < r
    ensures x % r == s && x / r == q
  {
    var d := x / r - q;
    assert d * r == s - x % r;
    assert d >= 1 ==> d * r >= r;
    assert d <= -1 ==> d * r <= -r;
  }

  lemma LessBlock(n: nat, r: nat)
    requires r > 0 && n % r == 0 && n > 0
    ensures n >= r && (n - r) % r == 0
  {
    var q := n / r;
    assert n == q * r;
    assert q >= 1;
    assert q * r >= r;
    ModUnique(n - r, q - 1, 0, r);
  }

  /** `d` bits of output for message `n`, not more than one block. */
  function Sponge(n: seq<bool>, r: nat, d: nat): seq<bool>
    requires 1 < r && d <= r <= 1600
  {
    PaddedLength(r, |n|);
    var s := Absorb(n + Pad10Star1(r, |n|), r);
    seq(d, k requires 0 <= k < d => StateBit(s, k))
  }

  /** Bit k of the state as a string. */
  function StateBit(a: Lanes, k: nat): bool
    requires k < 1600
  {
    a[k / 64][k % 64]
  }

  lemma PaddedLength(r: nat, m: nat)
    requires r > 1
    ensures (m + |Pad10Star1(r, m)|) % r == 0
  {
    var x := -(m as int) - 2;
    assert m + x % r + 2 == -(x / r) * r;
    ModUnique(m + x % r + 2, -(x / r), 0, r);
  }
}

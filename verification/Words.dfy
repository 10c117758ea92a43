/** 64-bit words as their bits, lowest first. */
module Words {
  type Word = s: seq<bool> | |s| == 64 witness seq(64, _ => false)

  function Zero(): Word { seq(64, _ => false) }

  function Not(a: Word): (r: Word)
    ensures forall z | 0 <= z < 64 :: r[z] == !a[z]
  {
    seq(64, z requires 0 <= z < 64 => !a[z])
  }

  function Xor(a: Word, b: Word): (r: Word)
    ensures forall z | 0 <= z < 64 :: r[z] == (a[z] != b[z])
  {
    seq(64, z requires 0 <= z < 64 => a[z] != b[z])
  }

  function And(a: Word, b: Word): (r: Word)
    ensures forall z | 0 <= z < 64 :: r[z] == (a[z] && b[z])
  {
    seq(64, z requires 0 <= z < 64 => a[z] && b[z])
  }

  function Or(a: Word, b: Word): (r: Word)
    ensures forall z | 0 <= z < 64 :: r[z] == (a[z] || b[z])
  {
    seq(64, z requires 0 <= z < 64 => a[z] || b[z])
  }

  function Shl(a: Word, n: nat): (r: Word)
    requires n <= 64
    ensures forall z | 0 <= z < 64 :: r[z] == (z >= n && a[z - n])
  {
    seq(64, z requires 0 <= z < 64 => z >= n && a[z - n])
  }

  function Shr(a: Word, n: nat): (r: Word)
    requires n <= 64
    ensures forall z | 0 <= z < 64 :: r[z] == (z + n < 64 && a[z + n])
  {
    seq(64, z requires 0 <= z < 64 => z + n < 64 && a[z + n])
  }

  /** Rotation by two shifts. */
  function Rotl(a: Word, n: nat): Word
    requires 0 < n < 64
  {
    Or(Shl(a, n), Shr(a, 64 - n))
  }

  // ---------------------------------------------------------------- constants

  /** The lowest `k` binary digits of `n`. */
  function Digits(n: nat, k: nat): (s: seq<bool>)
    ensures |s| == k
  {
    if k == 0 then [] else [n % 2 == 1] + Digits(n / 2, k - 1)
  }

  function FromNat(n: nat): Word {
    Digits(n, 64)
  }

  // ---------------------------------------------------------------- bytes

  type Byte = s: seq<bool> | |s| == 8 witness seq(8, _ => false)

  /** The bits of some bytes, lowest first in each. */
  function Bits(s: seq<Byte>): (r: seq<bool>)
    ensures |r| == 8 * |s| && forall k | 0 <= k < |r| :: r[k] == s[k / 8][k % 8]
  {
    seq(8 * |s|, k requires 0 <= k < 8 * |s| => s[k / 8][k % 8])
  }

  /** The word in eight bytes, lowest byte first. */
  function Dec64le(s: seq<Byte>, pos: nat): (w: Word)
    requires pos + 8 <= |s|
    ensures forall z | 0 <= z < 64 :: w[z] == s[pos + z / 8][z % 8]
  {
    seq(64, z requires 0 <= z < 64 => s[pos + z / 8][z % 8])
  }

  function Enc64le(w: Word): (s: seq<Byte>)
    ensures |s| == 8 && forall z | 0 <= z < 64 :: s[z / 8][z % 8] == w[z]
  {
    seq(8, k requires 0 <= k < 8 => w[8 * k..8 * k + 8])
  }
}

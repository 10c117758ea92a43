/** Numbers in a base, highest digit first. */
module Numerals {
  function Value(b: nat, s: seq<nat>): nat {
    if s == [] then 0 else b * Value(b, s[..|s| - 1]) + s[|s| - 1]
  }

  /** The digits of a number, without leading zeros. */
  function Digits(b: nat, n: nat): (s: seq<nat>)
    requires b > 1
    ensures forall i | 0 <= i < |s| :: s[i] < b
    ensures n > 0 ==> |s| > 0 && s[0] > 0
    ensures n == 0 ==> s == []
  {
    if n == 0 then [] else
      Smaller(b, n);
      Digits(b, n / b) + [n % b]
  }

  lemma Smaller(b: nat, n: nat)
    requires b > 1 && n > 0
    ensures n / b < n
  {
    var q := n / b;
    assert n == q * b + n % b;
    assert q >= n ==> q * b >= n * b >= n * 2;
  }

  lemma {:induction false} ValueDigits(b: nat, n: nat)
    requires b > 1
    ensures Value(b, Digits(b, n)) == n
  {
    if n > 0 {
      Smaller(b, n);
      ValueDigits(b, n / b);
      assert Digits(b, n)[..|Digits(b, n)| - 1] == Digits(b, n / b);
      DivMod(b, n);
    }
  }

  lemma DivMod(b: nat, n: nat)
    requires b > 1
    ensures b * (n / b) + n % b == n
  {
  }

  /** A numeral that does not start with zero is the one of its value. */
  lemma {:induction false} DigitsValue(b: nat, s: seq<nat>)
    requires b > 1 && (forall i | 0 <= i < |s| :: s[i] < b) && (s != [] ==> s[0] > 0)
    ensures Digits(b, Value(b, s)) == s && (s != [] ==> Value(b, s) > 0)
  {
    if s != [] {
      var rest, d := s[..|s| - 1], s[|s| - 1];
      DigitsValue(b, rest);
      Divide(b, Value(b, rest), d);
      assert rest + [d] == s;
    }
  }

  lemma Divide(b: nat, q: nat, d: nat)
    requires b > 1 && d < b
    ensures (b * q + d) / b == q && (b * q + d) % b == d
  {
    var n := b * q + d;
    var e: int := n / b - q;
    assert e * b == d - n % b;
    assert e >= 1 ==> e * b >= b;
    assert e <= -1 ==> e * b <= -(b as int);
  }

  /** Leading zeros do not count. */
  lemma {:induction false} LeadingZeros(b: nat, k: nat, s: seq<nat>)
    ensures Value(b, seq(k, _ => 0) + s) == Value(b, s)
  {
    var z: seq<nat> := seq(k, _ => 0);
    if s != [] {
      LeadingZeros(b, k, s[..|s| - 1]);
      assert (z + s)[..|z + s| - 1] == z + s[..|s| - 1];
    } else if k > 0 {
      assert z + s == z && z[..k - 1] == seq(k - 1, _ => 0) + [];
      LeadingZeros(b, k - 1, []);
    }
  }

  function Power(b: nat, k: nat): nat {
    if k == 0 then 1 else b * Power(b, k - 1)
  }

  lemma {:induction false} PowerPositive(b: nat, k: nat)
    requires b > 0
    ensures Power(b, k) > 0
  {
    if k > 0 {
      PowerPositive(b, k - 1);
    }
  }

  lemma {:induction false} ValueConcat(b: nat, s: seq<nat>, t: seq<nat>)
    ensures Value(b, s + t) == Value(b, s) * Power(b, |t|) + Value(b, t)
  {
    if t == [] {
      assert s + t == s;
    } else {
      var rest := t[..|t| - 1];
      ValueConcat(b, s, rest);
      assert (s + t)[..|s + t| - 1] == s + rest;
      Distribute(b, Value(b, s), Power(b, |rest|), Value(b, rest));
    }
  }

  lemma Distribute(b: nat, x: nat, p: nat, v: nat)
    ensures b * (x * p + v) == x * (b * p) + b * v
  {
    assert b * (x * p) == x * (b * p);
  }

  lemma {:induction false} ValueBound(b: nat, s: seq<nat>)
    requires b > 0 && forall i | 0 <= i < |s| :: s[i] < b
    ensures Value(b, s) < Power(b, |s|)
  {
    if s != [] {
      var rest := s[..|s| - 1];
      ValueBound(b, rest);
      OneMore(b, Value(b, rest), s[|s| - 1], Power(b, |rest|));
    }
  }

  lemma {:induction false} ValueAtLeast(b: nat, s: seq<nat>)
    requires s != [] && s[0] > 0
    ensures Value(b, s) >= Power(b, |s| - 1)
  {
    var rest := s[..|s| - 1];
    if rest != [] {
      ValueAtLeast(b, rest);
      Times(b, Power(b, |rest| - 1), Value(b, rest));
    }
  }

  lemma Times(b: nat, x: nat, y: nat)
    requires x <= y
    ensures b * x <= b * y
  {
  }

  lemma OneMore(b: nat, x: nat, d: nat, p: nat)
    requires x < p && d < b
    ensures b * x + d < b * p
  {
    assert b * x + d < b * (x + 1) <= b * p;
  }

  function Reverse<T>(s: seq<T>): (r: seq<T>)
    ensures |r| == |s| && forall i | 0 <= i < |s| :: r[i] == s[|s| - 1 - i]
  {
    if s == [] then [] else Reverse(s[1..]) + [s[0]]
  }

  lemma ReverseTwice<T>(s: seq<T>)
    ensures Reverse(Reverse(s)) == s
  {
  }
}

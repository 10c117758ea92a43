/** The option type and a few facts that several modules need. */
module Wrappers {
  datatype Option<+T> = None | Some(value: T)

  function Power2(j: nat): (p: nat)
    ensures p > 0
  {
    if j == 0 then 1 else 2 * Power2(j - 1)
  }

  lemma {:induction false} SubsetSize<T>(a: set<T>, b: set<T>)
    requires a <= b
    ensures |a| <= |b|
  {
    if a != {} {
      var x :| x in a;
      SubsetSize(a - {x}, b - {x});
    }
  }
}

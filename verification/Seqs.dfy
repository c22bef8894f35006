/** Facts about sequences, sets and numbers that several modules share. */
module Seqs {
  lemma Assoc<T>(a: seq<T>, b: seq<T>, c: seq<T>)
    ensures (a + b) + c == a + (b + c)
  {}

  predicate StartsWith(s: string, p: string) { |p| <= |s| && s[..|p|] == p }

  lemma SubsetSize<T>(a: set<T>, b: set<T>)
    requires a <= b
    ensures |a| <= |b|
  {
    assert b == a + (b - a);
  }

  function Min(a: nat, b: nat): nat { if a < b then a else b }

  /** Subtraction that stops at 0. */
  function Minus(a: nat, b: nat): nat { if a < b then 0 else a - b }

  lemma MulMonotone(c: nat, a: nat, b: nat)
    requires a <= b
    ensures c * a <= c * b
  {}
}

/** Option/Result wrappers and the aggregates (sum, minimum, maximum) that the
    scheduler applies to per-vessel lists. */
module Seqs {

  datatype Option<+T> = None | Some(value: T)

  datatype Result<+T, +E> = Ok(value: T) | Err(error: E)

  /** Python's sum() over a list of numbers; recursion peels the last element so
      that a loop over a prefix can maintain `acc == Sum(s[..i])`. */
  function Sum(s: seq<real>): real
  {
    if s == [] then 0.0 else Sum(s[..|s| - 1]) + s[|s| - 1]
  }

  /** The sum of two numbers. */
  lemma SumPair(a: real, b: real)
    ensures Sum([a, b]) == a + b
  {
    var one := [a];
    assert one[..0] == [];
    assert Sum(one) == a;
    var two := [a, b];
    assert two[..1] == one;
  }

  /** Python's max() over a non-empty list. */
  function Max(s: seq<real>): (m: real)
    requires s != []
    ensures forall i :: 0 <= i < |s| ==> s[i] <= m
    ensures exists i :: 0 <= i < |s| && s[i] == m
  {
    if |s| == 1 then s[0]
    else
      var rest := Max(s[..|s| - 1]);
      assert forall i :: 0 <= i < |s| - 1 ==> s[..|s| - 1][i] == s[i];
      if s[|s| - 1] > rest then s[|s| - 1] else rest
  }

  /** Python's min() over a non-empty list. */
  function Min(s: seq<real>): (m: real)
    requires s != []
    ensures forall i :: 0 <= i < |s| ==> m <= s[i]
    ensures exists i :: 0 <= i < |s| && s[i] == m
  {
    if |s| == 1 then s[0]
    else
      var rest := Min(s[..|s| - 1]);
      assert forall i :: 0 <= i < |s| - 1 ==> s[..|s| - 1][i] == s[i];
      if s[|s| - 1] < rest then s[|s| - 1] else rest
  }

  predicate AllNonNegative(s: seq<real>)
  {
    forall i :: 0 <= i < |s| ==> 0.0 <= s[i]
  }

  /** With non-negative terms, a longer prefix never has a smaller sum, and it
      gains at least every term it adds. */
  lemma {:induction false} PrefixSumGrows(s: seq<real>, i: nat, j: nat)
    requires AllNonNegative(s)
    requires i < j <= |s|
    ensures Sum(s[..i]) + s[i] <= Sum(s[..j])
    decreases j
  {
    assert s[..j][..j - 1] == s[..j - 1];
    if j == i + 1 {
      assert s[..j][j - 1] == s[i];
    } else {
      PrefixSumGrows(s, i, j - 1);
      assert s[..j][j - 1] == s[j - 1];
    }
  }
}

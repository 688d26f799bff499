/** Counting down a finite universe. */
module Rounds {

  lemma SubsetSize<T>(a: set<T>, b: set<T>)
    requires a <= b
    ensures |a| <= |b|
  {
    assert b == a + (b - a);
  }

  /** A round that rejects anybody new leaves fewer members to reject. */
  lemma RoundShrinks<T>(universe: set<T>, rejected: set<T>, bad: set<T>)
    requires bad != {} && bad <= universe && bad !! rejected
    ensures |universe - (rejected + bad)| < |universe - rejected|
  {
    var x :| x in bad;
    SubsetSize(universe - (rejected + bad), (universe - rejected) - {x});
  }
}

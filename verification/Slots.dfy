/** What the two schedulers share about their semaphore. */
module Slots {

  /** How the processing of a section can end. */
  datatype Outcome = Success | RecordedFailure | Raised | Cancelled

  lemma SubsetSize<T>(a: set<T>, b: set<T>)
    requires a <= b
    ensures |a| <= |b|
  {
    assert b == a + (b - a) && a !! (b - a);
  }

  /** The holders of a semaphore after one task enters or leaves it. */
  lemma HoldersChange(holders: set<nat>, after: set<nat>, slots: nat, i: nat)
    requires |holders| <= slots
    requires after == holders || after == holders - {i} || (after == holders + {i} && |holders| < slots)
    ensures |after| <= slots
  {
    if after == holders - {i} { SubsetSize(after, holders); }
  }
}

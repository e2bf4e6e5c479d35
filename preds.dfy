/**
  All_Preds_Are_Unc_Branches: whether every predecessor of a basic block ends
  in an unconditional branch.  Each predecessor is given by the number of
  successors of its terminator, in the order the predecessor list yields them.
*/
module BlockPreds {

  /** The property the source checks: every predecessor's terminator has
      exactly one successor. */
  ghost predicate AllUnconditional(succCounts: seq<nat>)
  {
    forall i | 0 <= i < |succCounts| :: succCounts[i] == 1
  }

  /** The loop over the predecessors, returning false at the first one whose
      terminator does not have exactly one successor. */
  method AllPredsAreUncBranches(succCounts: seq<nat>) returns (r: bool)
    ensures r <==> AllUnconditional(succCounts)
  {
    var i := 0;
    while i < |succCounts|
      invariant 0 <= i <= |succCounts|
      invariant forall k | 0 <= k < i :: succCounts[k] == 1
    {
      if succCounts[i] != 1 {
        return false;
      }
      i := i + 1;
    }
    return true;
  }
}

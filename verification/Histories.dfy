/** Flags told by a run alone: one kind of step sets the flag, another clears it. */
module Histories {

  /** Set at some step before k and not cleared since. */
  ghost predicate Since(sets: set<nat>, clears: set<nat>, k: nat) {
    exists j | j in sets && j < k :: forall i | j < i < k :: i !in clears
  }

  lemma SinceStep(sets: set<nat>, clears: set<nat>, n: nat)
    ensures Since(sets, clears, n + 1) <==> n in sets || (Since(sets, clears, n) && n !in clears)
  {
    if Since(sets, clears, n) && n !in clears {
      var j :| j in sets && j < n && forall i | j < i < n :: i !in clears;
      assert forall i | j < i < n + 1 :: i !in clears;
    }
    if Since(sets, clears, n + 1) {
      var j :| j in sets && j < n + 1 && forall i | j < i < n + 1 :: i !in clears;
      assert j < n ==> forall i | j < i < n :: i !in clears;
    }
  }

  /** A flag that starts down and obeys its two kinds of step is its own history. */
  lemma {:induction false} FlagIsHistory(flags: seq<bool>, sets: set<nat>, clears: set<nat>, k: nat)
    requires k < |flags| && !flags[0]
    requires forall n: nat | n < k :: flags[n + 1] <==> n in sets || (flags[n] && n !in clears)
    ensures flags[k] <==> Since(sets, clears, k)
  {
    if k > 0 {
      FlagIsHistory(flags, sets, clears, k - 1);
      SinceStep(sets, clears, k - 1);
      assert flags[(k - 1) + 1] == flags[k];
    }
  }
}

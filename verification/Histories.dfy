/** Flags over the states of a run. */
module Histories {
  /** Step `m` keeps the flag exactly when it does not clear it. */
  ghost predicate KeepsAt(flag: seq<bool>, clears: seq<bool>, m: nat)
    requires |flag| == |clears| + 1 && m < |clears|
  {
    flag[m + 1] <==> flag[m] && !clears[m]
  }

  /** A flag that each step keeps exactly when it does not clear it is still set exactly when no step
      since has cleared it. */
  lemma {:induction false} SetUnlessCleared(flag: seq<bool>, clears: seq<bool>, i: nat, j: nat)
    requires |flag| == |clears| + 1 && i <= j < |flag| && flag[i]
    requires forall m :: i <= m < j ==> KeepsAt(flag, clears, m)
    ensures flag[j] <==> forall m :: i <= m < j ==> !clears[m]
  {
    if i < j {
      assert KeepsAt(flag, clears, j - 1);
      SetUnlessCleared(flag, clears, i, j - 1);
    }
  }

  /** Step `m` sets the flag, or keeps it exactly when it does not clear it. */
  ghost predicate FollowsAt(flag: seq<bool>, sets: seq<bool>, clears: seq<bool>, m: nat)
    requires |flag| == |sets| + 1 == |clears| + 1 && m < |sets|
  {
    flag[m + 1] <==> sets[m] || (flag[m] && !clears[m])
  }

  /** Of the first `j` steps, step `k` has set the flag and none since has cleared it. */
  ghost predicate SetSince(sets: seq<bool>, clears: seq<bool>, k: nat, j: nat) {
    k < j <= |sets| == |clears| && sets[k] && forall m :: k < m < j ==> !clears[m]
  }

  /** A flag that is not set at first is set exactly when some step has set it and none since has
      cleared it. */
  lemma {:induction false} SetIffSetSince(flag: seq<bool>, sets: seq<bool>, clears: seq<bool>, j: nat)
    requires |flag| == |sets| + 1 == |clears| + 1 && j < |flag| && !flag[0]
    requires forall m :: 0 <= m < j ==> FollowsAt(flag, sets, clears, m)
    ensures flag[j] <==> exists k: nat :: SetSince(sets, clears, k, j)
  {
    if j > 0 {
      var i := j - 1;
      assert FollowsAt(flag, sets, clears, i);
      SetIffSetSince(flag, sets, clears, i);
      if k: nat :| SetSince(sets, clears, k, j) && k < i {
        assert !clears[i] && SetSince(sets, clears, k, i);
      }
      if k: nat :| SetSince(sets, clears, k, i) && !clears[i] {
        assert SetSince(sets, clears, k, j);
      }
      assert sets[i] ==> SetSince(sets, clears, i, j);
    }
  }
}

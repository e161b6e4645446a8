/** Conditions of the form "it happened, and nothing has undone it since". */
module Histories {
  /** Before step i, some step raised the condition and no later one cleared it. */
  ghost predicate Since(raises: seq<bool>, clears: seq<bool>, i: nat)
    requires i <= |raises| == |clears|
  {
    exists j :: 0 <= j < i && raises[j] && forall m :: j < m < i ==> !clears[m]
  }

  lemma SinceStep(raises: seq<bool>, clears: seq<bool>, i: nat)
    requires 0 < i <= |raises| == |clears|
    ensures Since(raises, clears, i) <==> raises[i-1] || (Since(raises, clears, i - 1) && !clears[i-1])
  {
    if Since(raises, clears, i - 1) && !clears[i-1] {
      var j :| 0 <= j < i - 1 && raises[j] && forall m :: j < m < i - 1 ==> !clears[m];
      assert forall m :: j < m < i ==> !clears[m];
    }
  }
}

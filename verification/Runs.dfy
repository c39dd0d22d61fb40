/** What has happened so far in a run and not been undone since; moments are counted by steps. */
module Runs {

  /** Some step before `i` starts it and no later step before `i` ends it. */
  ghost predicate Since(i: nat, starts: nat -> bool, ends: nat -> bool) {
    exists k: nat :: SinceStep(i, starts, ends, k)
  }

  ghost predicate SinceStep(i: nat, starts: nat -> bool, ends: nat -> bool, k: nat) {
    k < i && starts(k) && forall m: nat | k < m < i :: !ends(m)
  }

  lemma {:induction false} SinceNext(i: nat, starts: nat -> bool, ends: nat -> bool)
    ensures Since(i + 1, starts, ends) <==> starts(i) || (Since(i, starts, ends) && !ends(i))
  {
    var j := i + 1;
    if k: nat :| SinceStep(j, starts, ends, k) && k < i {
      assert SinceStep(i, starts, ends, k);
      assert !ends(i);
    }
    if starts(i) {
      assert SinceStep(j, starts, ends, i);
    }
    if k: nat :| SinceStep(i, starts, ends, k) && !ends(i) {
      assert SinceStep(j, starts, ends, k);
    }
  }

  lemma NothingYet(starts: nat -> bool, ends: nat -> bool)
    ensures !Since(0, starts, ends)
  {
  }
}

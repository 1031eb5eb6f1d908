/** Runs of a transition system: finite sequences of states that start well and go on step by step. */
module Runs {
  /** What happens next in a run is one step. */
  ghost predicate Follows<S(!new)>(run: seq<S>, next: (S, S) -> bool, i: nat)
    requires i + 1 < |run|
  {
    next(run[i], run[i + 1])
  }

  ghost predicate IsRun<S(!new)>(run: seq<S>, init: S -> bool, next: (S, S) -> bool) {
    && |run| > 0 && init(run[0])
    && forall i :: 0 <= i < |run| - 1 ==> Follows(run, next, i)
  }

  /** What holds at the start and is kept by every step holds throughout. */
  lemma {:induction false} Keeps<S(!new)>(run: seq<S>, init: S -> bool, next: (S, S) -> bool, inv: S -> bool, i: nat)
    requires IsRun(run, init, next) && i < |run|
    requires forall s :: init(s) ==> inv(s)
    requires forall s, t :: inv(s) && next(s, t) ==> inv(t)
    ensures inv(run[i])
  {
    if i == 0 {
    } else {
      Keeps(run, init, next, inv, i - 1);
      assert Follows(run, next, i - 1);
    }
  }

  lemma Extended<S(!new)>(run: seq<S>, init: S -> bool, next: (S, S) -> bool, t: S)
    requires IsRun(run, init, next) && next(run[|run| - 1], t)
    ensures IsRun(run + [t], init, next)
  {
    var longer := run + [t];
    forall i | 0 <= i < |longer| - 1 ensures Follows(longer, next, i) {
      if i < |run| - 1 {
        assert Follows(run, next, i) && longer[i] == run[i] && longer[i + 1] == run[i + 1];
      }
    }
  }
}

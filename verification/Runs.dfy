/** Invariants over whole runs. */
module Runs {

  ghost predicate KeptAt<S(!new)>(run: seq<S>, inv: S -> bool, i: nat)
    requires i + 1 < |run|
  {
    inv(run[i]) ==> inv(run[i + 1])
  }

  /** What holds at the start and is kept by every step holds all along. */
  lemma {:induction false} Always<S(!new)>(run: seq<S>, inv: S -> bool, i: nat)
    requires i < |run| && inv(run[0]) && forall j | 0 <= j < |run| - 1 :: KeptAt(run, inv, j)
    ensures inv(run[i])
  {
    if i > 0 {
      Always(run, inv, i - 1);
      assert KeptAt(run, inv, i - 1);
    }
  }

  ghost predicate FallsAt(sizes: seq<nat>, i: nat)
    requires i + 1 < |sizes|
  {
    sizes[i + 1] < sizes[i]
  }

  /** A run whose size falls at every step is no longer than its first size. */
  lemma {:induction false} Bounded(sizes: seq<nat>, i: nat)
    requires i < |sizes| && forall j | 0 <= j < |sizes| - 1 :: FallsAt(sizes, j)
    ensures sizes[i] + i <= sizes[0]
  {
    if i > 0 {
      Bounded(sizes, i - 1);
      assert FallsAt(sizes, i - 1);
    }
  }

  // ----- runs that settle -----

  /** How many of the first k steps changed anything. */
  ghost function Changes<S>(run: seq<S>, k: nat): (n: nat)
    requires k < |run|
    ensures n <= k
  {
    if k == 0 then 0 else Changes(run, k - 1) + if run[k] != run[k - 1] then 1 else 0
  }

  /** A step that changes something lowers the size. */
  ghost predicate FallsOrStays<S>(s: S, s': S, size: S -> nat) { s' == s || size(s') < size(s) }

  ghost predicate FallsOrStaysAt<S>(run: seq<S>, size: S -> nat, i: nat)
    requires i + 1 < |run|
  {
    FallsOrStays(run[i], run[i + 1], size)
  }

  /** What a run loses in size bounds the changes it makes. */
  lemma {:induction false} ChangesAreFew<S>(run: seq<S>, size: S -> nat, k: nat)
    requires k < |run| && forall i | 0 <= i < |run| - 1 :: FallsOrStaysAt(run, size, i)
    ensures size(run[k]) + Changes(run, k) <= size(run[0])
  {
    if k > 0 {
      ChangesAreFew(run, size, k - 1);
      assert FallsOrStaysAt(run, size, k - 1);
    }
  }

  ghost predicate LeavesAt<S(!new)>(run: seq<S>, inv: S -> bool, i: nat)
    requires i + 1 < |run|
  {
    run[i + 1] == run[i] || inv(run[i + 1])
  }

  /** What every change leaves behind holds from the first change on. */
  lemma {:induction false} ChangesLeave<S(!new)>(run: seq<S>, inv: S -> bool, k: nat)
    requires k < |run| && forall i | 0 <= i < |run| - 1 :: LeavesAt(run, inv, i)
    ensures Changes(run, k) > 0 ==> inv(run[k])
  {
    if k > 0 {
      ChangesLeave(run, inv, k - 1);
      assert LeavesAt(run, inv, k - 1);
    }
  }

  /** The bound when the first step need only not raise the size. */
  lemma {:induction false} LaterChangesAreFew<S>(run: seq<S>, size: S -> nat, k: nat)
    requires k < |run| && (forall i | 1 <= i < |run| - 1 :: FallsOrStaysAt(run, size, i)) && (|run| > 1 ==> size(run[1]) <= size(run[0]))
    ensures size(run[k]) + Changes(run, k) <= size(run[0]) + 1
  {
    if k > 1 {
      LaterChangesAreFew(run, size, k - 1);
      assert FallsOrStaysAt(run, size, k - 1);
    } else if k == 1 {
      assert Changes(run, 0) == 0;
    }
  }

  ghost predicate IdleIffDoneAt<S(!new)>(run: seq<S>, done: S -> bool, i: nat)
    requires i + 1 < |run|
  {
    run[i + 1] == run[i] <==> done(run[i])
  }

  /** Where one test decides which steps are idle, all changes come first. */
  lemma {:induction false} ChangesComeFirst<S(!new)>(run: seq<S>, done: S -> bool, k: nat)
    requires k < |run| && forall i | 0 <= i < |run| - 1 :: IdleIffDoneAt(run, done, i)
    ensures var n := Changes(run, k); (n == k || done(run[n])) && forall j | n <= j <= k :: run[j] == run[n]
  {
    if k > 0 {
      ChangesComeFirst(run, done, k - 1);
      assert IdleIffDoneAt(run, done, k - 1);
    }
  }

  /** So a run with more steps than changes is done. */
  lemma DoneByThen<S(!new)>(run: seq<S>, done: S -> bool, k: nat)
    requires k + 1 < |run| && (forall i | 0 <= i < |run| - 1 :: IdleIffDoneAt(run, done, i)) && Changes(run, k + 1) <= k
    ensures done(run[k]) && run[k + 1] == run[k]
  {
    ChangesComeFirst(run, done, k + 1);
    assert IdleIffDoneAt(run, done, k);
  }

  /** A run without end stops changing. */
  lemma {:induction false} Settles<S>(run: nat -> S, size: S -> nat, i: nat) returns (n: nat)
    requires forall j: nat | j >= i :: FallsOrStays(run(j), run(j + 1), size)
    ensures n >= i && forall j: nat | j >= n :: run(j) == run(n)
    decreases size(run(i))
  {
    if j: nat :| j >= i && run(j + 1) != run(j) {
      NeverRises(run, size, i, j);
      assert FallsOrStays(run(j), run(j + 1), size);
      n := Settles(run, size, j + 1);
    } else {
      n := i;
      forall j: nat | j >= n ensures run(j) == run(n) { StaysPut(run, n, j); }
    }
  }

  lemma {:induction false} NeverRises<S>(run: nat -> S, size: S -> nat, i: nat, j: nat)
    requires i <= j && forall k: nat | k >= i :: FallsOrStays(run(k), run(k + 1), size)
    ensures size(run(j)) <= size(run(i))
  {
    if i < j {
      NeverRises(run, size, i, j - 1);
      assert FallsOrStays(run(j - 1), run(j - 1 + 1), size);
    }
  }

  lemma {:induction false} StaysPut<S>(run: nat -> S, i: nat, j: nat)
    requires i <= j && forall k: nat | k >= i :: run(k + 1) == run(k)
    ensures run(j) == run(i)
  {
    if i < j {
      StaysPut(run, i, j - 1);
      assert run(j - 1 + 1) == run(j - 1);
    }
  }
}

/** Finite runs of a step relation, and what every run keeps. The protocols of
    this project are step relations over immutable states; their invariants are
    statements about all states that some run reaches. */
module Runs {

  ghost predicate IsRun<S(!new)>(next: (S, S) -> bool, run: seq<S>) {
    |run| > 0 && forall i :: 0 <= i < |run| - 1 ==> next(run[i], run[i + 1])
  }

  ghost predicate Reaches<S(!new)>(next: (S, S) -> bool, a: S, b: S) {
    exists run :: IsRun(next, run) && run[0] == a && run[|run| - 1] == b
  }

  lemma Here<S(!new)>(next: (S, S) -> bool, a: S)
    ensures Reaches(next, a, a)
  {
    assert IsRun(next, [a]);
    assert [a][0] == a;
  }

  lemma Then<S(!new)>(next: (S, S) -> bool, a: S, b: S, c: S)
    requires Reaches(next, a, b) && next(b, c)
    ensures Reaches(next, a, c)
  {
    var run :| IsRun(next, run) && run[0] == a && run[|run| - 1] == b;
    var longer := run + [c];
    assert IsRun(next, longer) && longer[0] == a && longer[|longer| - 1] == c;
  }

  lemma Both<S(!new)>(next: (S, S) -> bool, a: S, b: S, c: S)
    requires Reaches(next, a, b) && Reaches(next, b, c)
    ensures Reaches(next, a, c)
  {
    var r1 :| IsRun(next, r1) && r1[0] == a && r1[|r1| - 1] == b;
    var r2 :| IsRun(next, r2) && r2[0] == b && r2[|r2| - 1] == c;
    var run := r1 + r2[1..];
    assert IsRun(next, run) && run[0] == a && run[|run| - 1] == c;
  }

  /** An invariant that every step keeps is kept by every run. */
  lemma Kept<S(!new)>(next: (S, S) -> bool, inv: S -> bool, a: S, b: S)
    requires inv(a) && Reaches(next, a, b)
    requires forall x, y :: inv(x) && next(x, y) ==> inv(y)
    ensures inv(b)
  {
    var run :| IsRun(next, run) && run[0] == a && run[|run| - 1] == b;
    var i := 0;
    while i < |run| - 1
      invariant 0 <= i < |run| && inv(run[i])
    {
      assert next(run[i], run[i + 1]);
      i := i + 1;
    }
  }
}

/** Walking a finite set and counting along the way. */
module Sets {

  /** Some element of the set, for loops whose order does not matter. */
  method Pick<T>(s: set<T>) returns (x: T)
    requires s != {}
    ensures x in s
  {
    x :| x in s;
  }

  /** Counting an element as it leaves the part still to be walked. */
  lemma OneLess<T>(all: set<T>, rest: set<T>, x: T, count: nat)
    requires x in rest && count == |all - rest|
    ensures |all - (rest - {x})| == if x in all then count + 1 else count
  {
    assert all - (rest - {x}) == all - rest + if x in all then {x} else {};
  }

  lemma NothingCounted<T>(all: set<T>, rest: set<T>)
    requires all <= rest
    ensures |all - rest| == 0
  {
    assert all - rest == {};
  }

  lemma AllCounted<T>(all: set<T>, rest: set<T>)
    requires rest == {}
    ensures |all - rest| == |all|
  {
    assert all - rest == all;
  }
}

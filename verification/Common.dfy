/** Value types shared by the modules of this project. */
module Common {

  datatype Option<+T> = None | Some(value: T)

  /** Each element of `xs` sits at exactly one index. */
  ghost predicate Distinct<T>(xs: seq<T>) {
    forall i, j | 0 <= i < j < |xs| :: xs[i] != xs[j]
  }

  function SetOf<T(==)>(xs: seq<T>): set<T> {
    set x | x in xs
  }

  lemma SetOfPrefix<T>(xs: seq<T>, n: nat)
    requires n < |xs|
    ensures SetOf(xs[..n + 1]) == SetOf(xs[..n]) + {xs[n]}
  {
  }

  lemma DistinctAppend<T>(xs: seq<T>, ys: seq<T>)
    requires Distinct(xs) && Distinct(ys)
    requires forall x | x in xs :: x !in ys
    ensures Distinct(xs + ys)
  {
    forall i, j | 0 <= i < j < |xs + ys|
      ensures (xs + ys)[i] != (xs + ys)[j]
    {
      if i < |xs| <= j {
        assert xs[i] in xs && ys[j - |xs|] in ys;
      }
    }
  }

  /** A sequence longer than the set its elements come from repeats one of them. */
  lemma {:induction false} Pigeonhole<T>(xs: seq<T>, pool: set<T>) returns (i: nat, j: nat)
    requires forall x | x in xs :: x in pool
    requires |xs| > |pool|
    ensures i < j < |xs| && xs[i] == xs[j]
    decreases |xs|
  {
    var last := |xs| - 1;
    if k :| 0 <= k < last && xs[k] == xs[last] {
      i, j := k, last;
    } else {
      var front := xs[..last];
      assert xs[last] in pool;
      forall x | x in front
        ensures x in pool - {xs[last]}
      {
        var k :| 0 <= k < last && front[k] == x;
        assert xs[k] == x;
      }
      i, j := Pigeonhole(front, pool - {xs[last]});
    }
  }
}

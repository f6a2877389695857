/** Sums of a real-valued function over a finite set (the total of one column over group keys). */
module Sums {

  ghost function SetSum<K>(s: set<K>, f: K -> real): real
    decreases |s|
  {
    if s == {} then 0.0
    else
      var x :| x in s;
      f(x) + SetSum(s - {x}, f)
  }

  /** The sum does not depend on which element is taken out first. */
  lemma {:induction false} SetSumRemove<K>(s: set<K>, f: K -> real, y: K)
    requires y in s
    ensures SetSum(s, f) == f(y) + SetSum(s - {y}, f)
    decreases |s|
  {
    var x :| x in s && SetSum(s, f) == f(x) + SetSum(s - {x}, f);
    if x != y {
      SetSumRemove(s - {x}, f, y);
      SetSumRemove(s - {y}, f, x);
      assert s - {x} - {y} == s - {y} - {x};
    }
  }

  lemma {:induction false} SetSumSame<K>(s: set<K>, f: K -> real, g: K -> real)
    requires forall x :: x in s ==> f(x) == g(x)
    ensures SetSum(s, f) == SetSum(s, g)
    decreases |s|
  {
    if s != {} {
      var x :| x in s;
      SetSumRemove(s, f, x);
      SetSumRemove(s, g, x);
      SetSumSame(s - {x}, f, g);
    }
  }

  /** Summing is linear: the sum of a pointwise sum is the sum of the sums. */
  lemma {:induction false} SetSumPlus<K>(s: set<K>, f: K -> real, g: K -> real, h: K -> real)
    requires forall x :: x in s ==> h(x) == f(x) + g(x)
    ensures SetSum(s, h) == SetSum(s, f) + SetSum(s, g)
    decreases |s|
  {
    if s != {} {
      var x :| x in s;
      SetSumRemove(s, f, x);
      SetSumRemove(s, g, x);
      SetSumRemove(s, h, x);
      SetSumPlus(s - {x}, f, g, h);
    }
  }

  lemma {:induction false} SetSumZero<K>(s: set<K>, f: K -> real)
    requires forall x :: x in s ==> f(x) == 0.0
    ensures SetSum(s, f) == 0.0
    decreases |s|
  {
    if s != {} {
      var x :| x in s;
      SetSumRemove(s, f, x);
      SetSumZero(s - {x}, f);
    }
  }

  /** A function that is `c` at one point and zero elsewhere sums to `c` if that point is in the set. */
  lemma SetSumSingle<K>(s: set<K>, f: K -> real, y: K, c: real)
    requires forall x :: x in s ==> f(x) == if x == y then c else 0.0
    ensures SetSum(s, f) == if y in s then c else 0.0
  {
    if y in s {
      SetSumRemove(s, f, y);
      SetSumZero(s - {y}, f);
    } else {
      SetSumZero(s, f);
    }
  }
}

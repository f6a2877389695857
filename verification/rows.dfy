/**
  Tables as sequences of rows, and the relational building blocks the
  transforms use: selection of rows, the distinct values of a key, group-by
  (one group per distinct key, rows kept in input order) and column totals.
 */
module Rows {
  import opened Sums

  /** The rows satisfying `p`, in input order. */
  function Filter<R>(rows: seq<R>, p: R -> bool): (kept: seq<R>)
    ensures |kept| <= |rows|
    ensures forall i :: 0 <= i < |kept| ==> kept[i] in rows && p(kept[i])
    ensures forall i :: 0 <= i < |rows| && p(rows[i]) ==> rows[i] in kept
  {
    if rows == [] then []
    else
      var init := rows[..|rows| - 1];
      assert rows == init + [rows[|rows| - 1]];
      if p(rows[|rows| - 1]) then Filter(init, p) + [rows[|rows| - 1]] else Filter(init, p)
  }

  /** The number of rows satisfying `p`. */
  function Count<R>(rows: seq<R>, p: R -> bool): nat {
    |Filter(rows, p)|
  }

  /** The distinct values of a key column. */
  function Keys<R, K(==)>(rows: seq<R>, key: R -> K): set<K> {
    set i | 0 <= i < |rows| :: key(rows[i])
  }

  /** The group of rows whose key is `k`, as `groupby` forms it. */
  function Group<R, K(==)>(rows: seq<R>, key: R -> K, k: K): (g: seq<R>)
    ensures forall i :: 0 <= i < |g| ==> g[i] in rows && key(g[i]) == k
    ensures forall i :: 0 <= i < |rows| && key(rows[i]) == k ==> rows[i] in g
  {
    Filter(rows, x => key(x) == k)
  }

  /** The total of a numeric column. */
  function Total<R>(rows: seq<R>, w: R -> real): real {
    if rows == [] then 0.0 else Total(rows[..|rows| - 1], w) + w(rows[|rows| - 1])
  }

  lemma FilterSnoc<R>(rows: seq<R>, x: R, p: R -> bool)
    ensures Filter(rows + [x], p) == Filter(rows, p) + (if p(x) then [x] else [])
  {
    assert (rows + [x])[..|rows|] == rows;
  }

  lemma TotalSnoc<R>(rows: seq<R>, x: R, w: R -> real)
    ensures Total(rows + [x], w) == Total(rows, w) + w(x)
  {
    assert (rows + [x])[..|rows|] == rows;
  }

  /** Every distinct key has a non-empty group. */
  lemma GroupNonEmpty<R, K>(rows: seq<R>, key: R -> K, k: K)
    requires k in Keys(rows, key)
    ensures |Group(rows, key, k)| > 0
  {
    var i :| 0 <= i < |rows| && key(rows[i]) == k;
    assert rows[i] in Group(rows, key, k);
  }

  /** A key has a group exactly when some row carries it. */
  lemma KeysMembership<R, K>(rows: seq<R>, key: R -> K, k: K)
    ensures k in Keys(rows, key) <==> exists i :: 0 <= i < |rows| && key(rows[i]) == k
  {
  }

  /** `Count` is the number of row positions that satisfy `p`. */
  lemma CountIsIndexCount<R>(rows: seq<R>, p: R -> bool, positions: set<int>)
    requires forall i :: i in positions <==> 0 <= i < |rows| && p(rows[i])
    ensures Count(rows, p) == |positions|
  {
    CountIsIndexSetSize(rows, p);
    assert positions == set i | 0 <= i < |rows| && p(rows[i]);
  }

  lemma {:induction false} CountIsIndexSetSize<R>(rows: seq<R>, p: R -> bool)
    ensures Count(rows, p) == |set i | 0 <= i < |rows| && p(rows[i])|
    decreases |rows|
  {
    if rows != [] {
      var n := |rows| - 1;
      var init := rows[..n];
      assert rows == init + [rows[n]];
      FilterSnoc(init, rows[n], p);
      CountIsIndexSetSize(init, p);
      var before := set i | 0 <= i < n && p(init[i]);
      var all := set i | 0 <= i < |rows| && p(rows[i]);
      if p(rows[n]) {
        assert all == before + {n};
      } else {
        assert all == before;
      }
    }
  }

  lemma {:induction false} FilterNone<R>(rows: seq<R>, p: R -> bool)
    requires forall i :: 0 <= i < |rows| ==> !p(rows[i])
    ensures Filter(rows, p) == []
    decreases |rows|
  {
    if rows != [] {
      FilterNone(rows[..|rows| - 1], p);
    }
  }

  /** The first row of a group is the earliest input row that carries the key. */
  lemma {:induction false} FilterFirst<R>(rows: seq<R>, p: R -> bool, j: int)
    requires 0 <= j < |rows| && p(rows[j])
    requires forall i :: 0 <= i < j ==> !p(rows[i])
    ensures |Filter(rows, p)| > 0 && Filter(rows, p)[0] == rows[j]
    decreases |rows|
  {
    var n := |rows| - 1;
    var init := rows[..n];
    assert rows == init + [rows[n]];
    FilterSnoc(init, rows[n], p);
    if j < n {
      FilterFirst(init, p, j);
    } else {
      FilterNone(init, p);
    }
  }

  /** Two tables of equal height whose rows agree position by position on `p`/`q` have equal counts. */
  lemma {:induction false} CountCorresponding<A, B>(a: seq<A>, p: A -> bool, b: seq<B>, q: B -> bool)
    requires |a| == |b|
    requires forall i :: 0 <= i < |a| ==> (p(a[i]) <==> q(b[i]))
    ensures Count(a, p) == Count(b, q)
    decreases |a|
  {
    if a != [] {
      var n := |a| - 1;
      assert a == a[..n] + [a[n]];
      assert b == b[..n] + [b[n]];
      FilterSnoc(a[..n], a[n], p);
      FilterSnoc(b[..n], b[n], q);
      CountCorresponding(a[..n], p, b[..n], q);
    }
  }

  /** Counting inside a selection is counting the conjunction. */
  lemma {:induction false} CountFilter<R>(rows: seq<R>, p: R -> bool, q: R -> bool, pq: R -> bool)
    requires forall x :: pq(x) <==> p(x) && q(x)
    ensures Count(Filter(rows, p), q) == Count(rows, pq)
    decreases |rows|
  {
    if rows != [] {
      var n := |rows| - 1;
      var init := rows[..n];
      assert rows == init + [rows[n]];
      FilterSnoc(init, rows[n], p);
      FilterSnoc(init, rows[n], pq);
      CountFilter(init, p, q, pq);
      if p(rows[n]) {
        FilterSnoc(Filter(init, p), rows[n], q);
      }
    }
  }

  /** A group has as many rows as there are input positions carrying its key. */
  lemma GroupSizeIsIndexCount<R, K>(rows: seq<R>, key: R -> K, k: K, positions: set<int>)
    requires forall i :: i in positions <==> 0 <= i < |rows| && key(rows[i]) == k
    ensures |Group(rows, key, k)| == |positions|
  {
    CountIsIndexCount(rows, x => key(x) == k, positions);
  }

  /** Counting within a group is counting, over the whole table, the rows of that key satisfying `q`. */
  lemma CountInGroup<R, K>(rows: seq<R>, key: R -> K, k: K, q: R -> bool, kq: R -> bool)
    requires forall x :: kq(x) <==> key(x) == k && q(x)
    ensures Count(Group(rows, key, k), q) == Count(rows, kq)
  {
    CountFilter(rows, x => key(x) == k, q, kq);
  }

  /** The first row of a group is the earliest input row carrying its key. */
  lemma GroupFirstRow<R, K>(rows: seq<R>, key: R -> K, k: K, j: int)
    requires 0 <= j < |rows| && key(rows[j]) == k
    requires forall i :: 0 <= i < j ==> key(rows[i]) != k
    ensures |Group(rows, key, k)| > 0 && Group(rows, key, k)[0] == rows[j]
  {
    FilterFirst(rows, x => key(x) == k, j);
  }

  /** Every key that occurs has an earliest position carrying it. */
  lemma EarliestOf<R, K>(rows: seq<R>, key: R -> K, k: K) returns (j: int)
    requires k in Keys(rows, key)
    ensures 0 <= j < |rows| && key(rows[j]) == k
    ensures forall i :: 0 <= i < j ==> key(rows[i]) != k
    decreases |rows|
  {
    j :| 0 <= j < |rows| && key(rows[j]) == k;
    if exists i :: 0 <= i < j && key(rows[i]) == k {
      var i :| 0 <= i < j && key(rows[i]) == k;
      assert key(rows[..j][i]) == k;
      j := EarliestOf(rows[..j], key, k);
    }
  }

  /** Two tables whose rows carry the same keys position by position have the same distinct keys. */
  lemma KeysCorrespond<A, B, K>(a: seq<A>, ka: A -> K, b: seq<B>, kb: B -> K)
    requires |a| == |b|
    requires forall i :: 0 <= i < |a| ==> ka(a[i]) == kb(b[i])
    ensures Keys(a, ka) == Keys(b, kb)
  {
    forall k | k in Keys(a, ka) ensures k in Keys(b, kb) {
      var i :| 0 <= i < |a| && ka(a[i]) == k;
      assert kb(b[i]) == k;
    }
    forall k | k in Keys(b, kb) ensures k in Keys(a, ka) {
      var i :| 0 <= i < |b| && kb(b[i]) == k;
      assert ka(a[i]) == k;
    }
  }

  lemma KeysSnoc<R, K>(rows: seq<R>, x: R, key: R -> K)
    ensures Keys(rows + [x], key) == Keys(rows, key) + {key(x)}
  {
    var all := rows + [x];
    forall k | k in Keys(rows, key) ensures k in Keys(all, key) {
      var i :| 0 <= i < |rows| && key(rows[i]) == k;
      assert key(all[i]) == k;
    }
    assert key(all[|rows|]) == key(x);
  }

  lemma GroupTotalSnoc<R, K>(rows: seq<R>, x: R, key: R -> K, w: R -> real, k: K)
    ensures Total(Group(rows + [x], key, k), w)
         == Total(Group(rows, key, k), w) + (if key(x) == k then w(x) else 0.0)
  {
    FilterSnoc(rows, x, y => key(y) == k);
    if key(x) == k {
      TotalSnoc(Group(rows, key, k), x, w);
    }
  }

  lemma GroupOfAbsentKey<R, K>(rows: seq<R>, key: R -> K, k: K)
    requires k !in Keys(rows, key)
    ensures Group(rows, key, k) == []
  {
    FilterNone(rows, y => key(y) == k);
  }

  /**
    Group-by loses and duplicates nothing: the per-group totals `f` of a
    column, summed over all distinct keys, give the column's total over the table.
   */
  lemma GroupTotalsAddUp<R, K>(rows: seq<R>, key: R -> K, w: R -> real, f: K -> real)
    requires forall k :: k in Keys(rows, key) ==> f(k) == Total(Group(rows, key, k), w)
    ensures SetSum(Keys(rows, key), f) == Total(rows, w)
  {
    GroupTotalsSum(rows, key, w);
    SetSumSame(Keys(rows, key), f, k => Total(Group(rows, key, k), w));
  }

  lemma {:induction false} GroupTotalsSum<R, K>(rows: seq<R>, key: R -> K, w: R -> real)
    ensures SetSum(Keys(rows, key), k => Total(Group(rows, key, k), w)) == Total(rows, w)
    decreases |rows|
  {
    if rows == [] {
      assert Keys(rows, key) == {};
    } else {
      var n := |rows| - 1;
      var init := rows[..n];
      var x := rows[n];
      assert rows == init + [x];
      GroupTotalsSum(init, key, w);
      TotalSnoc(init, x, w);
      KeysSnoc(init, x, key);
      AddRowToGroupTotals(init, x, key, w);
    }
  }

  lemma AddRowToGroupTotals<R, K>(init: seq<R>, x: R, key: R -> K, w: R -> real)
    ensures SetSum(Keys(init + [x], key), k => Total(Group(init + [x], key, k), w))
         == SetSum(Keys(init, key), k => Total(Group(init, key, k), w)) + w(x)
  {
    KeysSnoc(init, x, key);
    var f := k => Total(Group(init + [x], key, k), w);
    var g := k => Total(Group(init, key, k), w);
    forall k ensures f(k) == g(k) + (if k == key(x) then w(x) else 0.0) {
      GroupTotalSnoc(init, x, key, w, k);
    }
    if key(x) in Keys(init, key) {
      SumAddAtKnownKey(Keys(init, key), f, g, key(x), w(x));
    } else {
      GroupOfAbsentKey(init, key, key(x));
      SumAddAtNewKey(Keys(init, key), f, g, key(x), w(x));
    }
  }

  lemma SumAddAtKnownKey<K>(ks: set<K>, f: K -> real, g: K -> real, y: K, c: real)
    requires y in ks
    requires forall k :: f(k) == g(k) + (if k == y then c else 0.0)
    ensures SetSum(ks + {y}, f) == SetSum(ks, g) + c
  {
    var h := k => if k == y then c else 0.0;
    assert ks + {y} == ks;
    SetSumPlus(ks, g, h, f);
    SetSumSingle(ks, h, y, c);
  }

  lemma SumAddAtNewKey<K>(ks: set<K>, f: K -> real, g: K -> real, y: K, c: real)
    requires y !in ks
    requires g(y) == 0.0
    requires forall k :: f(k) == g(k) + (if k == y then c else 0.0)
    ensures SetSum(ks + {y}, f) == SetSum(ks, g) + c
  {
    SetSumRemove(ks + {y}, f, y);
    assert ks + {y} - {y} == ks;
    SetSumSame(ks, f, g);
  }

  /** A column of ones totals to the number of rows. */
  lemma {:induction false} TotalOfOnes<R>(rows: seq<R>, w: R -> real)
    requires forall x :: w(x) == 1.0
    ensures Total(rows, w) == |rows| as real
    decreases |rows|
  {
    if rows != [] {
      TotalOfOnes(rows[..|rows| - 1], w);
    }
  }
}

/** Row selections shared by the views and the controllers. `LatestBy` is
    `SELECT DISTINCT ON (key) … ORDER BY key, t DESC`: for every key, the row
    with the greatest `t`. The result is a map, so it holds one row per key by
    construction (the unique indexes the views are given). Among rows with the
    same key and the same `t` the row met first in scan order is kept. */
module Projection {
  import opened Wrappers

  /** Rows are scanned in order; a later row replaces the kept one only when
      its `t` is strictly greater. */
  function LatestBy<K, R>(rows: seq<R>, key: R -> K, t: R -> int): (m: map<K, R>)
    ensures forall r :: r in rows ==> key(r) in m && t(r) <= t(m[key(r)])
    ensures forall k :: k in m ==> m[k] in rows && key(m[k]) == k
    decreases |rows|
  {
    if rows == [] then map[]
    else
      var init := rows[..|rows| - 1];
      var last := rows[|rows| - 1];
      assert rows == init + [last];
      var m := LatestBy(init, key, t);
      if key(last) in m && t(last) <= t(m[key(last)]) then m else m[key(last) := last]
  }

  /** The keys of the projection are exactly the keys that occur in the input. */
  lemma LatestByKeys<K, R>(rows: seq<R>, key: R -> K, t: R -> int, k: K)
    ensures k in LatestBy(rows, key, t) <==> exists r :: r in rows && key(r) == k
  {
    var m := LatestBy(rows, key, t);
    if k in m {
      assert m[k] in rows && key(m[k]) == k;
    }
  }

  /** When no two rows share both key and `t` (a primary key on the pair), the
      kept row is the only row of its key with the greatest `t`. */
  lemma {:induction false} LatestByUnique<K, R>(rows: seq<R>, key: R -> K, t: R -> int, r: R)
    requires forall a, b :: a in rows && b in rows && key(a) == key(b) && t(a) == t(b) ==> a == b
    requires r in rows
    requires forall s :: s in rows && key(s) == key(r) ==> t(s) <= t(r)
    ensures LatestBy(rows, key, t)[key(r)] == r
  {
    var m := LatestBy(rows, key, t);
    assert t(r) <= t(m[key(r)]);
    assert m[key(r)] in rows;
  }

  /** Adding rows never makes the kept row of a key older. */
  lemma {:induction false} LatestByGrows<K, R>(rows: seq<R>, more: seq<R>, key: R -> K, t: R -> int, k: K)
    requires k in LatestBy(rows, key, t)
    ensures k in LatestBy(rows + more, key, t)
    ensures t(LatestBy(rows, key, t)[k]) <= t(LatestBy(rows + more, key, t)[k])
  {
    var m := LatestBy(rows, key, t);
    assert m[k] in rows + more;
  }

  /** The rows that satisfy `keep`, in order, each kept as often as it occurs
      (a `WHERE`, which does not deduplicate). */
  function Filter<T(==,!new)>(rows: seq<T>, keep: T -> bool): (r: seq<T>)
    ensures forall x :: multiset(r)[x] == if keep(x) then multiset(rows)[x] else 0
    ensures forall i :: 0 <= i < |r| ==> keep(r[i])
    decreases |rows|
  {
    if rows == [] then []
    else
      assert rows == [rows[0]] + rows[1..];
      var rest := Filter(rows[1..], keep);
      if keep(rows[0]) then [rows[0]] + rest else rest
  }

  lemma FilterElements<T(!new)>(rows: seq<T>, keep: T -> bool, x: T)
    ensures x in Filter(rows, keep) <==> x in rows && keep(x)
  {
    assert x in Filter(rows, keep) <==> multiset(Filter(rows, keep))[x] > 0;
    assert x in rows <==> multiset(rows)[x] > 0;
  }

  /** The first row of each key, in the order in which the keys first occur:
      `groupBy(key)` followed by `first()` of every group, and, with the
      identity as key, `array_unique`. */
  function FirstPerKey<K(==), R>(rows: seq<R>, key: R -> K): (r: seq<R>)
    ensures forall i :: 0 <= i < |r| ==> r[i] in rows
    ensures forall i, j :: 0 <= i < j < |r| ==> key(r[i]) != key(r[j])
    decreases |rows|
  {
    if rows == [] then []
    else
      var init := rows[..|rows| - 1];
      var last := rows[|rows| - 1];
      assert rows == init + [last];
      var m := FirstPerKey(init, key);
      if exists i :: 0 <= i < |m| && key(m[i]) == key(last) then m else m + [last]
  }

  /** On rows ordered newest first, the row kept for a key is one of the
      newest rows of that key. */
  lemma {:induction false} FirstPerKeyNewest<K, R>(rows: seq<R>, key: R -> K, t: R -> int, x: R)
    requires forall i, j :: 0 <= i < j < |rows| ==> t(rows[i]) >= t(rows[j])
    requires x in rows
    ensures exists y :: y in FirstPerKey(rows, key) && key(y) == key(x) && t(x) <= t(y)
    decreases |rows|
  {
    var init := rows[..|rows| - 1];
    var last := rows[|rows| - 1];
    assert rows == init + [last];
    var m := FirstPerKey(init, key);
    if x in init {
      assert forall i :: 0 <= i < |init| ==> init[i] == rows[i];
      FirstPerKeyNewest(init, key, t, x);
      var y :| y in m && key(y) == key(x) && t(x) <= t(y);
      assert y in FirstPerKey(rows, key);
    } else {
      FirstPerKeyLast(rows, key, t);
    }
  }

  /** The last row is kept, or an older-or-equal row of its key is. */
  lemma FirstPerKeyLast<K, R>(rows: seq<R>, key: R -> K, t: R -> int)
    requires forall i, j :: 0 <= i < j < |rows| ==> t(rows[i]) >= t(rows[j])
    requires rows != []
    ensures exists y :: y in FirstPerKey(rows, key) && key(y) == key(rows[|rows| - 1]) && t(rows[|rows| - 1]) <= t(y)
  {
    var init := rows[..|rows| - 1];
    var last := rows[|rows| - 1];
    var m := FirstPerKey(init, key);
    if exists i :: 0 <= i < |m| && key(m[i]) == key(last) {
      var i :| 0 <= i < |m| && key(m[i]) == key(last);
      var k :| 0 <= k < |init| && init[k] == m[i];
      assert rows[k] == m[i];
      assert m[i] in FirstPerKey(rows, key);
    } else {
      assert last in FirstPerKey(rows, key);
    }
  }

  /** Every key of the input is kept. */
  lemma FirstPerKeyCovers<K, R>(rows: seq<R>, key: R -> K, x: R)
    requires x in rows
    ensures exists y :: y in FirstPerKey(rows, key) && key(y) == key(x)
  {
    FirstPerKeyNewest(rows, key, (r: R) => 0, x);
  }

  /** The first row that satisfies `p`, if any (`firstWhere`). */
  function FirstWhere<T(==)>(rows: seq<T>, p: T -> bool): (r: Option<T>)
    ensures r.Some? ==> r.value in rows && p(r.value)
    ensures r.Some? ==> exists i :: 0 <= i < |rows| && rows[i] == r.value && forall j :: 0 <= j < i ==> !p(rows[j])
    ensures r.None? <==> forall x :: x in rows ==> !p(x)
  {
    if rows == [] then None
    else if p(rows[0]) then Some(rows[0])
    else
      var r := FirstWhere(rows[1..], p);
      assert forall x :: x in rows[1..] ==> x in rows;
      if r.Some? then
        var i :| 0 <= i < |rows[1..]| && rows[1..][i] == r.value && forall j :: 0 <= j < i ==> !p(rows[1..][j]);
        assert rows[i + 1] == r.value;
        assert forall j :: 0 <= j < i + 1 ==> !p(rows[j]) by {
          forall j | 0 <= j < i + 1 ensures !p(rows[j]) {
            if j > 0 {
              assert rows[j] == rows[1..][j - 1];
            }
          }
        }
        r
      else r
  }
  /** Filtering keeps the order of the rows: a sequence ordered by `le` stays
      ordered. */
  lemma {:induction false} FilterSorted<T(!new)>(s: seq<T>, keep: T -> bool, le: (T, T) -> bool)
    requires forall i, j :: 0 <= i < j < |s| ==> le(s[i], s[j])
    ensures forall i, j :: 0 <= i < j < |Filter(s, keep)| ==> le(Filter(s, keep)[i], Filter(s, keep)[j])
    decreases |s|
  {
    if s != [] {
      var tail := s[1..];
      forall i, j | 0 <= i < j < |tail| ensures le(tail[i], tail[j]) {
        assert tail[i] == s[i + 1] && tail[j] == s[j + 1];
      }
      FilterSorted(tail, keep, le);
      if keep(s[0]) {
        FilterFirst(tail, keep, le, s[0]);
        FilterConsSorted([s[0]] + tail, Filter(tail, keep), le);
      }
    }
  }

  lemma FilterFirst<T(!new)>(tail: seq<T>, keep: T -> bool, le: (T, T) -> bool, first: T)
    requires forall j :: 0 <= j < |tail| ==> le(first, tail[j])
    ensures forall j :: 0 <= j < |Filter(tail, keep)| ==> le(first, Filter(tail, keep)[j])
  {
    var rest := Filter(tail, keep);
    forall j | 0 <= j < |rest| ensures le(first, rest[j]) {
      FilterElements(tail, keep, rest[j]);
      var k :| 0 <= k < |tail| && tail[k] == rest[j];
    }
  }

  lemma FilterConsSorted<T>(s: seq<T>, rest: seq<T>, le: (T, T) -> bool)
    requires s != []
    requires forall j :: 0 <= j < |rest| ==> le(s[0], rest[j])
    requires forall i, j :: 0 <= i < j < |rest| ==> le(rest[i], rest[j])
    ensures forall i, j :: 0 <= i < j < |[s[0]] + rest| ==> le(([s[0]] + rest)[i], ([s[0]] + rest)[j])
  {
  }

  /** A filter never yields more rows than it is given. */
  lemma {:induction false} FilterLength<T(!new)>(s: seq<T>, keep: T -> bool)
    ensures |Filter(s, keep)| <= |s|
    decreases |s|
  {
    if s != [] {
      FilterLength(s[1..], keep);
    }
  }

  /** Laravel's `filter` on a list: the elements that satisfy `keep`, each
      under the key (position) it had, so that a dropped element leaves a gap
      in the keys. */
  function KeyedFilter<T>(s: seq<T>, keep: T -> bool): (r: seq<(nat, T)>)
    ensures forall i, j :: 0 <= i < j < |r| ==> r[i].0 < r[j].0
    ensures forall i :: 0 <= i < |r| ==> r[i].0 < |s| && r[i].1 == s[r[i].0] && keep(r[i].1)
    decreases |s|
  {
    if s == [] then []
    else
      var init := s[..|s| - 1];
      var r := KeyedFilter(init, keep);
      assert forall k :: 0 <= k < |init| ==> init[k] == s[k];
      if keep(s[|s| - 1]) then r + [(|s| - 1, s[|s| - 1])] else r
  }

  /** Every element that satisfies `keep` is kept, under its position. */
  lemma {:induction false} KeyedFilterKeeps<T>(s: seq<T>, keep: T -> bool, k: nat)
    requires k < |s| && keep(s[k])
    ensures (k, s[k]) in KeyedFilter(s, keep)
    decreases |s|
  {
    var init := s[..|s| - 1];
    if k < |init| {
      KeyedFilterKeeps(init, keep, k);
      assert init[k] == s[k];
    }
  }

  /** When nothing is dropped, the keys are 0, 1, …: the list itself. */
  lemma {:induction false} KeyedFilterAll<T>(s: seq<T>, keep: T -> bool)
    requires forall k :: 0 <= k < |s| ==> keep(s[k])
    ensures |KeyedFilter(s, keep)| == |s|
    ensures forall i :: 0 <= i < |s| ==> KeyedFilter(s, keep)[i] == (i, s[i])
    decreases |s|
  {
    if s != [] {
      var init := s[..|s| - 1];
      KeyedFilterAll(init, keep);
    }
  }

  /** A dropped element followed by a kept one leaves a gap: some key differs
      from its position. */
  lemma KeyedFilterGap<T>(s: seq<T>, keep: T -> bool, k: nat, k': nat)
    requires k < k' < |s| && !keep(s[k]) && keep(s[k'])
    ensures exists i :: 0 <= i < |KeyedFilter(s, keep)| && KeyedFilter(s, keep)[i].0 != i
  {
    var r := KeyedFilter(s, keep);
    KeyedFilterKeeps(s, keep, k');
    var j :| 0 <= j < |r| && r[j] == (k', s[k']);
    if r[j].0 == j {
      assert r[k].1 == s[r[k].0] && keep(r[k].1);
      assert r[k].0 != k;
    }
  }
}

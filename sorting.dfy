/** Ordering used by the core's `ORDER BY`, `orderBy`, `sortBy`, `sortByDesc`,
    `usort` and `ksort`: a stable insertion sort over a comparator, the
    comparators the core uses (by an integer key, by a string key, descending),
    and the facts the rest of the model needs about them. */
module Sorting {
  import opened Wrappers
  import opened PhpText

  /** `le` is total and transitive: a valid comparator for a sort. */
  ghost predicate TotalPreorder<T(!new)>(le: (T, T) -> bool) {
    && (forall a, b :: le(a, b) || le(b, a))
    && (forall a, b, c :: le(a, b) && le(b, c) ==> le(a, c))
  }

  predicate SortedBy<T>(s: seq<T>, le: (T, T) -> bool) {
    forall i, j :: 0 <= i < j < |s| ==> le(s[i], s[j])
  }

  /** Puts `x` in front of the first element it does not come after, so
      that among equals the earlier input stays first. */
  function Insert<T>(x: T, s: seq<T>, le: (T, T) -> bool): (r: seq<T>)
    ensures multiset(r) == multiset(s) + multiset{x}
    ensures |r| == |s| + 1
  {
    if s == [] || le(x, s[0]) then [x] + s
    else
      assert s == [s[0]] + s[1..];
      [s[0]] + Insert(x, s[1..], le)
  }

  lemma {:induction false} InsertSorted<T(!new)>(x: T, s: seq<T>, le: (T, T) -> bool)
    requires TotalPreorder(le)
    requires SortedBy(s, le)
    ensures SortedBy(Insert(x, s, le), le)
  {
    if s != [] && !le(x, s[0]) {
      InsertSorted(x, s[1..], le);
      var r := Insert(x, s, le);
      var t := Insert(x, s[1..], le);
      assert r == [s[0]] + t;
      forall k | 0 <= k < |t| ensures le(s[0], t[k]) {
        assert t[k] in multiset(t);
        assert t[k] in multiset(s[1..]) + multiset{x};
        if t[k] == x {
        } else {
          assert t[k] in s[1..];
          var m :| 0 <= m < |s[1..]| && s[1..][m] == t[k];
          assert s[m + 1] == t[k];
        }
      }
    }
  }

  /** A position at which `x` occurs in `s`. */
  lemma IndexOf<T>(s: seq<T>, x: T) returns (k: nat)
    requires x in s
    ensures k < |s| && s[k] == x
  {
    k :| 0 <= k < |s| && s[k] == x;
  }

  /** A prefix one longer is the prefix and one more element. */
  lemma PrefixSnoc<T>(s: seq<T>, i: nat)
    requires i < |s|
    ensures s[..i + 1] == s[..i] + [s[i]]
  {
  }

  lemma SortedPrefix<T>(s: seq<T>, le: (T, T) -> bool, n: nat)
    requires SortedBy(s, le) && n <= |s|
    ensures SortedBy(s[..n], le)
  {
    assert forall i :: 0 <= i < n ==> s[..n][i] == s[i];
  }

  /** The first `n` of a list sorted newest first leave out nothing strictly
      newer than one of them (`ORDER BY … DESC LIMIT n`). */
  lemma PrefixKeepsNewer<T>(s: seq<T>, key: T -> int, n: nat, x: T, y: T)
    requires SortedBy(s, ByKeyDesc(key)) && n <= |s|
    requires x in s && y in s[..n] && key(x) > key(y)
    ensures x in s[..n]
  {
    var j :| 0 <= j < |s| && s[j] == x;
    var i :| 0 <= i < n && s[..n][i] == y;
    assert s[i] == y;
    assert j < n;
    assert s[..n][j] == x;
  }

  /** `ORDER BY key DESC LIMIT n`: the first `n` of the rows sorted newest
      first are rows of the input, still newest first, and leave out no row
      strictly newer than one of them. */
  lemma LimitNewest<T>(rows: seq<T>, sorted: seq<T>, key: T -> int, n: nat)
    requires SortedBy(sorted, ByKeyDesc(key)) && multiset(sorted) == multiset(rows)
    ensures var r := if |sorted| <= n then sorted else sorted[..n];
      && multiset(r) <= multiset(rows) && SortedBy(r, ByKeyDesc(key))
      && forall x, y :: x in rows && y in r && key(x) > key(y) ==> x in r
  {
    var m := if |sorted| <= n then |sorted| else n;
    var r := sorted[..m];
    assert sorted == r + sorted[m..];
    assert multiset(sorted) == multiset(r) + multiset(sorted[m..]);
    SortedPrefix(sorted, ByKeyDesc(key), m);
    forall x, y | x in rows && y in r && key(x) > key(y) ensures x in r {
      assert x in multiset(sorted);
      PrefixKeepsNewer(sorted, key, m, x, y);
    }
    assert sorted[..|sorted|] == sorted;
  }

  /** A stable sort of `s` by `le`. */
  function InsertionSort<T(!new)>(s: seq<T>, le: (T, T) -> bool): (r: seq<T>)
    requires TotalPreorder(le)
    ensures SortedBy(r, le)
    ensures multiset(r) == multiset(s) && |r| == |s|
  {
    if s == [] then []
    else
      var t := InsertionSort(s[1..], le);
      InsertSorted(s[0], t, le);
      assert s == [s[0]] + s[1..];
      Insert(s[0], t, le)
  }

  lemma SortedElements<T(!new)>(s: seq<T>, le: (T, T) -> bool, x: T)
    requires TotalPreorder(le)
    ensures x in InsertionSort(s, le) <==> x in s
  {
    var r := InsertionSort(s, le);
    assert x in r <==> x in multiset(r);
  }

  /** An element that comes strictly before every other element ends up first. */
  lemma StrictMinimumFirst<T(!new)>(s: seq<T>, le: (T, T) -> bool, x: T)
    requires TotalPreorder(le)
    requires x in s
    requires forall y :: y in s && y != x ==> !le(y, x)
    ensures InsertionSort(s, le) != [] && InsertionSort(s, le)[0] == x
  {
    var r := InsertionSort(s, le);
    SortedElements(s, le, x);
    var i :| 0 <= i < |r| && r[i] == x;
    if i > 0 {
      assert le(r[0], r[i]);
      SortedElements(s, le, r[0]);
    }
  }

  /** In a sequence whose elements have pairwise different keys, every
      element occurs once. */
  lemma OccursOnce<T, K>(s: seq<T>, key: T -> K, a: nat)
    requires a < |s|
    requires forall i, j :: 0 <= i < j < |s| ==> key(s[i]) != key(s[j])
    ensures multiset(s)[s[a]] == 1
  {
    assert s == s[..a] + [s[a]] + s[a + 1..];
    assert s[a] !in s[..a];
    assert s[a] !in s[a + 1..];
  }

  /** An element that occurs once is not repeated at a later position. */
  lemma OnceNotRepeated<T>(r: seq<T>, i: nat, j: nat)
    requires i < j < |r| && multiset(r)[r[i]] == 1
    ensures r[i] != r[j]
  {
    assert r == r[..j] + r[j..];
    assert multiset(r) == multiset(r[..j]) + multiset(r[j..]);
    assert r[..j][i] == r[i] && r[j..][0] == r[j];
    assert r[i] in multiset(r[..j]) && r[j] in multiset(r[j..]);
  }

  /** Reordering keeps the keys pairwise different. */
  lemma DistinctKeysPermutation<T, K>(s: seq<T>, r: seq<T>, key: T -> K)
    requires multiset(r) == multiset(s)
    requires forall i, j :: 0 <= i < j < |s| ==> key(s[i]) != key(s[j])
    ensures forall i, j :: 0 <= i < j < |r| ==> key(r[i]) != key(r[j])
  {
    forall i, j | 0 <= i < j < |r| ensures key(r[i]) != key(r[j]) {
      assert r[i] in multiset(s) && r[j] in multiset(s);
      var a := IndexOf(s, r[i]);
      var b := IndexOf(s, r[j]);
      OccursOnce(s, key, a);
      OnceNotRepeated(r, i, j);
      if a < b {
        assert key(s[a]) != key(s[b]);
      } else {
        assert key(s[b]) != key(s[a]);
      }
    }
  }

  // ---- Comparators ----

  /** Ascending by an integer key. */
  function ByKey<T>(key: T -> int): (T, T) -> bool {
    (a: T, b: T) => key(a) <= key(b)
  }

  /** Descending by an integer key (`sortByDesc`, `ORDER BY … DESC`). */
  function ByKeyDesc<T>(key: T -> int): (T, T) -> bool {
    (a: T, b: T) => key(a) >= key(b)
  }

  lemma ByKeyPreorder<T(!new)>(key: T -> int)
    ensures TotalPreorder(ByKey(key))
  {
  }

  lemma ByKeyDescPreorder<T(!new)>(key: T -> int)
    ensures TotalPreorder(ByKeyDesc(key))
  {
  }

  /** Lexicographic order of strings by character code (PHP's `strcmp`). */
  predicate StrLe(a: string, b: string) {
    a == [] || (b != [] && (a[0] < b[0] || (a[0] == b[0] && StrLe(a[1..], b[1..]))))
  }

  lemma {:induction false} StrLeTotal(a: string, b: string)
    ensures StrLe(a, b) || StrLe(b, a)
  {
    if a != [] && b != [] && a[0] == b[0] {
      StrLeTotal(a[1..], b[1..]);
    }
  }

  lemma {:induction false} StrLeTransitive(a: string, b: string, c: string)
    requires StrLe(a, b) && StrLe(b, c)
    ensures StrLe(a, c)
  {
    if a != [] && a[0] == b[0] && b[0] == c[0] {
      StrLeTransitive(a[1..], b[1..], c[1..]);
    }
  }

  lemma {:induction false} StrLeAntisymmetric(a: string, b: string)
    requires StrLe(a, b) && StrLe(b, a)
    ensures a == b
  {
    if a != [] {
      StrLeAntisymmetric(a[1..], b[1..]);
      assert a == [a[0]] + a[1..];
      assert b == [b[0]] + b[1..];
    }
  }

  /** Ascending by a string key. */
  function ByStringKey<T>(key: T -> string): (T, T) -> bool {
    (a: T, b: T) => StrLe(key(a), key(b))
  }

  lemma ByStringKeyPreorder<T(!new)>(key: T -> string)
    ensures TotalPreorder(ByStringKey(key))
  {
    forall a: T, b: T ensures ByStringKey(key)(a, b) || ByStringKey(key)(b, a) {
      StrLeTotal(key(a), key(b));
    }
    forall a: T, b: T, c: T | ByStringKey(key)(a, b) && ByStringKey(key)(b, c)
      ensures ByStringKey(key)(a, c)
    {
      StrLeTransitive(key(a), key(b), key(c));
    }
  }

  /** A string in the form PHP gives an int (`(string) $i`): an optional
      minus sign, then at least one digit. */
  predicate IsIntegerString(s: string) {
    if |s| > 0 && s[0] == '-' then |s| > 1 && AllDigits(s[1..]) else |s| > 0 && AllDigits(s)
  }

  function IntegerValue(s: string): int
    requires IsIntegerString(s)
  {
    if s[0] == '-' then -(DigitsValue(s[1..]) as int) else DigitsValue(s)
  }

  /** PHP 8's `<=` on two strings, for strings of integer form: two numeric
      strings compare as numbers, any other pair by `strcmp`. Once numeric
      and other strings are mixed this is not transitive (`"9" <= "10"`,
      `"10" <= "5x"`, `"5x" <= "9"`), so it is no comparator for a sort. */
  predicate PhpLe(a: string, b: string) {
    if IsIntegerString(a) && IsIntegerString(b) then IntegerValue(a) <= IntegerValue(b) else StrLe(a, b)
  }

  /** The comparator the model sorts strings with where PHP sorts with
      SORT_REGULAR: PHP's `<=` on two numeric strings and on two other
      strings, with numeric strings before the others. */
  predicate PhpSortLe(a: string, b: string) {
    if IsIntegerString(a) != IsIntegerString(b) then IsIntegerString(a) else PhpLe(a, b)
  }

  /** Wherever PHP's ordering is a comparator, the model's sort order is it. */
  lemma PhpSortLeAgrees(a: string, b: string)
    requires IsIntegerString(a) == IsIntegerString(b)
    ensures PhpSortLe(a, b) <==> PhpLe(a, b)
    ensures IsIntegerString(a) ==> (PhpSortLe(a, b) <==> IntegerValue(a) <= IntegerValue(b))
    ensures !IsIntegerString(a) ==> (PhpSortLe(a, b) <==> StrLe(a, b))
  {
  }

  /** Ascending by a string key under `PhpSortLe` (`sortBy` on strings). */
  function ByPhpKey<T>(key: T -> string): (T, T) -> bool {
    (a: T, b: T) => PhpSortLe(key(a), key(b))
  }

  lemma ByPhpKeyPreorder<T(!new)>(key: T -> string)
    ensures TotalPreorder(ByPhpKey(key))
  {
    forall a: T, b: T ensures ByPhpKey(key)(a, b) || ByPhpKey(key)(b, a) {
      StrLeTotal(key(a), key(b));
    }
    forall a: T, b: T, c: T | ByPhpKey(key)(a, b) && ByPhpKey(key)(b, c)
      ensures ByPhpKey(key)(a, c)
    {
      if !IsIntegerString(key(a)) && !IsIntegerString(key(b)) && !IsIntegerString(key(c)) {
        StrLeTransitive(key(a), key(b), key(c));
      }
    }
  }

  /** Ascending by a string key, and by `tie` among rows with the same key
      (`ORDER BY key, …`). */
  function ThenBy<T>(key: T -> string, tie: (T, T) -> bool): (T, T) -> bool {
    (a: T, b: T) => (StrLe(key(a), key(b)) && key(a) != key(b)) || (key(a) == key(b) && tie(a, b))
  }

  lemma ThenByPreorder<T(!new)>(key: T -> string, tie: (T, T) -> bool)
    requires TotalPreorder(tie)
    ensures TotalPreorder(ThenBy(key, tie))
  {
    var le := ThenBy(key, tie);
    forall a: T, b: T ensures le(a, b) || le(b, a) {
      StrLeTotal(key(a), key(b));
    }
    forall a: T, b: T, c: T | le(a, b) && le(b, c) ensures le(a, c) {
      if key(a) != key(b) && key(b) != key(c) {
        StrLeTransitive(key(a), key(b), key(c));
        if key(a) == key(c) {
          StrLeAntisymmetric(key(a), key(b));
        }
      }
    }
  }

  /** Descending with missing values first: Postgres' `ORDER BY x DESC`, whose
      default puts NULLs first. */
  function NullsFirstDesc<T>(key: T -> Option<real>): (T, T) -> bool {
    (a: T, b: T) => key(a).None? || (key(b).Some? && key(a).value >= key(b).value)
  }

  lemma NullsFirstDescPreorder<T(!new)>(key: T -> Option<real>)
    ensures TotalPreorder(NullsFirstDesc(key))
  {
  }
}

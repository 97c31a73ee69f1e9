/**
 * Kotlin's `filter` and `sortedBy` on lists, as used by the report screen
 * and by the SQL queries' WHERE and ORDER BY clauses.
 */
module Sequences {

  ghost predicate SortedBy<T>(s: seq<T>, key: T -> int) {
    forall i, j :: 0 <= i < j < |s| ==> key(s[i]) <= key(s[j])
  }

  ghost predicate StrictlySortedBy<T>(s: seq<T>, key: T -> int) {
    forall i, j :: 0 <= i < j < |s| ==> key(s[i]) < key(s[j])
  }

  /** `s.filter(p)`, in the order of `s`. */
  function Filter<T>(s: seq<T>, p: T -> bool): (r: seq<T>)
    ensures |r| <= |s|
  {
    if |s| == 0 then []
    else if p(s[0]) then [s[0]] + Filter(s[1..], p)
    else Filter(s[1..], p)
  }

  /** The filter keeps exactly the elements satisfying `p`, each as often as in `s`. */
  lemma {:induction false} FilterCount<T>(s: seq<T>, p: T -> bool, x: T)
    ensures multiset(Filter(s, p))[x] == if p(x) then multiset(s)[x] else 0
  {
    if s != [] {
      assert s == [s[0]] + s[1..];
      FilterCount(s[1..], p, x);
    }
  }

  lemma {:induction false} FilterMembers<T>(s: seq<T>, p: T -> bool)
    ensures forall i :: 0 <= i < |Filter(s, p)| ==> p(Filter(s, p)[i]) && Filter(s, p)[i] in s
  {
    if s != [] {
      FilterMembers(s[1..], p);
    }
  }

  /** Filtering a concatenation filters each part: `filter` keeps relative order. */
  lemma {:induction false} FilterAppend<T>(s: seq<T>, t: seq<T>, p: T -> bool)
    ensures Filter(s + t, p) == Filter(s, p) + Filter(t, p)
  {
    if s == [] {
      assert s + t == t;
    } else {
      var st := s + t;
      assert st[0] == s[0] && st[1..] == s[1..] + t;
      FilterAppend(s[1..], t, p);
      assert Filter(st, p) == (if p(s[0]) then [s[0]] else []) + Filter(st[1..], p);
      assert Filter(s, p) == (if p(s[0]) then [s[0]] else []) + Filter(s[1..], p);
    }
  }

  /** A sorted list stays sorted under filtering. */
  lemma {:induction false} FilterSorted<T>(s: seq<T>, p: T -> bool, key: T -> int)
    requires SortedBy(s, key)
    ensures SortedBy(Filter(s, p), key)
  {
    if s != [] {
      FilterSorted(s[1..], p, key);
      FilterMembers(s[1..], p);
      var rest := Filter(s[1..], p);
      if p(s[0]) {
        forall i | 0 <= i < |rest| ensures key(s[0]) <= key(rest[i]) {
          var k :| 0 <= k < |s[1..]| && s[1..][k] == rest[i];
          assert s[k + 1] == rest[i];
        }
      }
    }
  }

  lemma {:induction false} FilterStrictlySorted<T>(s: seq<T>, p: T -> bool, key: T -> int)
    requires StrictlySortedBy(s, key)
    ensures StrictlySortedBy(Filter(s, p), key)
  {
    if s != [] {
      FilterStrictlySorted(s[1..], p, key);
      FilterMembers(s[1..], p);
      var rest := Filter(s[1..], p);
      if p(s[0]) {
        forall i | 0 <= i < |rest| ensures key(s[0]) < key(rest[i]) {
          var k :| 0 <= k < |s[1..]| && s[1..][k] == rest[i];
          assert s[k + 1] == rest[i];
        }
      }
    }
  }

  /** Inserts `x` before the first element whose key is not smaller. */
  function InsertBy<T>(x: T, s: seq<T>, key: T -> int): (r: seq<T>)
    requires SortedBy(s, key)
    ensures SortedBy(r, key)
    ensures multiset(r) == multiset(s) + multiset{x}
    ensures forall i :: 0 <= i < |r| ==> r[i] == x || r[i] in s
  {
    if |s| == 0 || key(x) <= key(s[0]) then [x] + s
    else
      var r := InsertBy(x, s[1..], key);
      InsertAfterHead(x, s, key, r);
      [s[0]] + r
  }

  /** Putting the head back in front of `x` inserted into the tail. */
  lemma InsertAfterHead<T>(x: T, s: seq<T>, key: T -> int, r: seq<T>)
    requires SortedBy(s, key) && |s| != 0 && key(s[0]) < key(x)
    requires SortedBy(r, key)
    requires multiset(r) == multiset(s[1..]) + multiset{x}
    requires forall i :: 0 <= i < |r| ==> r[i] == x || r[i] in s[1..]
    ensures SortedBy([s[0]] + r, key)
    ensures multiset([s[0]] + r) == multiset(s) + multiset{x}
    ensures forall i :: 0 <= i < |[s[0]] + r| ==> ([s[0]] + r)[i] == x || ([s[0]] + r)[i] in s
  {
    assert s == [s[0]] + s[1..];
    forall j | 0 <= j < |r| ensures key(s[0]) <= key(r[j]) {
      if r[j] != x {
        var k :| 0 <= k < |s[1..]| && s[1..][k] == r[j];
        assert s[k + 1] == r[j];
      }
    }
    var t := [s[0]] + r;
    forall i, j | 0 <= i < j < |t| ensures key(t[i]) <= key(t[j]) {
      if i != 0 {
        assert t[i] == r[i - 1] && t[j] == r[j - 1];
      } else {
        assert t[j] == r[j - 1];
      }
    }
  }

  /** `s.sortedBy(key)`: ascending by key; SortByStable shows it is stable. */
  function SortBy<T>(s: seq<T>, key: T -> int): (r: seq<T>)
    ensures SortedBy(r, key)
    ensures multiset(r) == multiset(s)
  {
    if |s| == 0 then []
    else
      assert s == [s[0]] + s[1..];
      InsertBy(s[0], SortBy(s[1..], key), key)
  }

  /** The elements whose key is `k`. */
  function KeyIs<T>(key: T -> int, k: int): T -> bool {
    (y: T) => key(y) == k
  }

  /**
   * Inserting `x` puts it ahead of every element with the same key: among the
   * elements keyed `k`, `x` (if keyed `k`) comes first, the rest keep their order.
   */
  lemma {:induction false} InsertByStable<T>(x: T, s: seq<T>, key: T -> int, k: int)
    requires SortedBy(s, key)
    ensures Filter(InsertBy(x, s, key), KeyIs(key, k)) == (if key(x) == k then [x] else []) + Filter(s, KeyIs(key, k))
  {
    var p := KeyIs(key, k);
    if |s| == 0 || key(x) <= key(s[0]) {
      var r := [x] + s;
      assert r[0] == x && r[1..] == s;
    } else {
      var t := InsertBy(x, s[1..], key);
      InsertByStable(x, s[1..], key, k);
      var r := [s[0]] + t;
      assert r[0] == s[0] && r[1..] == t;
      assert !(p(s[0]) && p(x));
    }
  }

  /**
   * `sortedBy` is stable: for every key, the elements with that key appear in
   * the output in the same order as in the input.
   */
  lemma {:induction false} SortByStable<T>(s: seq<T>, key: T -> int, k: int)
    ensures Filter(SortBy(s, key), KeyIs(key, k)) == Filter(s, KeyIs(key, k))
  {
    if |s| != 0 {
      SortByStable(s[1..], key, k);
      InsertByStable(s[0], SortBy(s[1..], key), key, k);
    }
  }
}

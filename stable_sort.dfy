/**
 * A stable sort by an integer key, standing for `Array.prototype.sort` with a
 * numeric comparator (stable since ECMAScript 2019), together with counting
 * facts used to reason about ranks.
 */
module StableSort {

  predicate SortedBy<T>(s: seq<T>, key: T -> int)
  {
    forall i, j :: 0 <= i < j < |s| ==> key(s[i]) <= key(s[j])
  }

  /** Inserts `x` in front of the first element whose key is not smaller. */
  function Insert<T>(x: T, s: seq<T>, key: T -> int): (r: seq<T>)
    ensures |r| == |s| + 1
    ensures multiset(r) == multiset(s) + multiset{x}
  {
    if s == [] || key(x) <= key(s[0]) then [x] + s
    else
      assert s == [s[0]] + s[1..];
      [s[0]] + Insert(x, s[1..], key)
  }

  /** Inserting into a sorted sequence keeps it sorted. */
  lemma {:induction false} InsertSorted<T>(x: T, s: seq<T>, key: T -> int)
    requires SortedBy(s, key)
    ensures SortedBy(Insert(x, s, key), key)
  {
    if s == [] || key(x) <= key(s[0]) {
      SortedCons(x, s, key);
    } else {
      var rest := Insert(x, s[1..], key);
      InsertSorted(x, s[1..], key);
      assert rest[0] == x || rest[0] == s[1];
      SortedCons(s[0], rest, key);
    }
  }

  lemma SortedCons<T>(a: T, t: seq<T>, key: T -> int)
    requires SortedBy(t, key) && (t != [] ==> key(a) <= key(t[0]))
    ensures SortedBy([a] + t, key)
  {
    var u := [a] + t;
    forall i, j | 0 <= i < j < |u| ensures key(u[i]) <= key(u[j]) {
      if i > 0 {
        assert u[i] == t[i - 1] && u[j] == t[j - 1];
      } else {
        assert u[j] == t[j - 1];
      }
    }
  }

  /**
   * Insertion sort: each element is inserted before the equal keys that come
   * after it in the input, so elements with equal keys keep their input order.
   */
  function SortBy<T>(s: seq<T>, key: T -> int): (r: seq<T>)
    ensures |r| == |s|
    ensures multiset(r) == multiset(s)
    ensures SortedBy(r, key)
  {
    if s == [] then []
    else
      assert s == [s[0]] + s[1..];
      InsertSorted(s[0], SortBy(s[1..], key), key);
      Insert(s[0], SortBy(s[1..], key), key)
  }

  /** Sorting only reorders: the same elements are present. */
  lemma SortByMembers<T>(s: seq<T>, key: T -> int, x: T)
    ensures x in SortBy(s, key) <==> x in s
  {
    assert x in multiset(SortBy(s, key)) <==> x in multiset(s);
  }

  lemma SortByMembersAll<T>(s: seq<T>, key: T -> int)
    ensures forall x :: x in SortBy(s, key) <==> x in s
  {
    forall x ensures x in SortBy(s, key) <==> x in s {
      SortByMembers(s, key, x);
    }
  }

  /** No element occurs twice. */
  predicate Distinct<T(==)>(s: seq<T>)
  {
    forall i, j :: 0 <= i < j < |s| ==> s[i] != s[j]
  }

  lemma DistinctCons<T>(a: T, t: seq<T>)
    requires Distinct(t) && a !in t
    ensures Distinct([a] + t)
  {
    var u := [a] + t;
    forall i, j | 0 <= i < j < |u| ensures u[i] != u[j] {
      assert u[j] == t[j - 1];
      if i > 0 {
        assert u[i] == t[i - 1];
      }
    }
  }

  lemma {:induction false} InsertDistinct<T>(x: T, s: seq<T>, key: T -> int)
    requires Distinct(s) && x !in s
    ensures Distinct(Insert(x, s, key))
  {
    if s == [] || key(x) <= key(s[0]) {
      DistinctCons(x, s);
    } else {
      var rest := Insert(x, s[1..], key);
      assert s == [s[0]] + s[1..];
      InsertDistinct(x, s[1..], key);
      assert s[0] !in rest by {
        assert s[0] != x;
        assert s[0] !in s[1..] by {
          forall k | 0 <= k < |s[1..]| ensures s[1..][k] != s[0] {
            assert s[1..][k] == s[k + 1];
          }
        }
        assert multiset(rest) == multiset(s[1..]) + multiset{x};
        assert multiset(rest)[s[0]] == 0;
      }
      DistinctCons(s[0], rest);
    }
  }

  /** Sorting a sequence without repetitions gives one without repetitions. */
  lemma {:induction false} SortByDistinct<T>(s: seq<T>, key: T -> int)
    requires Distinct(s)
    ensures Distinct(SortBy(s, key))
  {
    if s != [] {
      assert s == [s[0]] + s[1..];
      SortByDistinct(s[1..], key);
      SortByMembers(s[1..], key, s[0]);
      InsertDistinct(s[0], SortBy(s[1..], key), key);
    }
  }

  /** No two elements share an identifier. */
  predicate DistinctBy<T>(s: seq<T>, id: T -> int)
  {
    forall i, j :: 0 <= i < j < |s| ==> id(s[i]) != id(s[j])
  }

  /** Sorting keeps identifiers unique. */
  lemma SortByDistinctBy<T>(s: seq<T>, key: T -> int, id: T -> int)
    requires DistinctBy(s, id)
    ensures DistinctBy(SortBy(s, key), id)
  {
    var r := SortBy(s, key);
    SortByDistinct(s, key);
    forall i, j | 0 <= i < j < |r| ensures id(r[i]) != id(r[j]) {
      SortByMembers(s, key, r[i]);
      SortByMembers(s, key, r[j]);
      assert r[i] in s && r[j] in s;
      var p :| 0 <= p < |s| && s[p] == r[i];
      var q :| 0 <= q < |s| && s[q] == r[j];
      assert p != q;
    }
  }

  /** The elements whose key is `g`, in order. */
  function WithKey<T>(s: seq<T>, key: T -> int, g: int): seq<T>
  {
    if s == [] then [] else (if key(s[0]) == g then [s[0]] else []) + WithKey(s[1..], key, g)
  }

  /** `x` goes in front of every element with the same key. */
  lemma {:induction false} WithKeyOfInsert<T>(x: T, s: seq<T>, key: T -> int, g: int)
    ensures WithKey(Insert(x, s, key), key, g) == (if key(x) == g then [x] else []) + WithKey(s, key, g)
  {
    var r := Insert(x, s, key);
    if s == [] || key(x) <= key(s[0]) {
      assert r == [x] + s;
      assert r[1..] == s;
    } else {
      var t := Insert(x, s[1..], key);
      assert r == [s[0]] + t;
      assert r[0] == s[0] && r[1..] == t;
      WithKeyOfInsert(x, s[1..], key, g);
      var w := WithKey(s[1..], key, g);
      assert WithKey(s, key, g) == (if key(s[0]) == g then [s[0]] else []) + w;
      if key(s[0]) == g {
        assert key(x) != g;
        assert WithKey(r, key, g) == [s[0]] + WithKey(t, key, g);
      } else {
        assert WithKey(r, key, g) == WithKey(t, key, g);
      }
    }
  }

  /**
   * Stability: among elements with equal keys, the sorted sequence keeps
   * their input order.
   */
  lemma {:induction false} SortByStable<T>(s: seq<T>, key: T -> int, g: int)
    ensures WithKey(SortBy(s, key), key, g) == WithKey(s, key, g)
  {
    if s != [] {
      SortByStable(s[1..], key, g);
      WithKeyOfInsert(s[0], SortBy(s[1..], key), key, g);
    }
  }

  /** Number of elements whose key is below `g`. */
  function CountBelow<T>(s: seq<T>, key: T -> int, g: int): (n: nat)
    ensures n <= |s|
  {
    if s == [] then 0 else (if key(s[0]) < g then 1 else 0) + CountBelow(s[1..], key, g)
  }

  /** Number of elements whose key is at most `g`. */
  function CountAtMost<T>(s: seq<T>, key: T -> int, g: int): (n: nat)
    ensures n <= |s|
  {
    if s == [] then 0 else (if key(s[0]) <= g then 1 else 0) + CountAtMost(s[1..], key, g)
  }

  lemma {:induction false} CountsAppend<T>(a: seq<T>, b: seq<T>, key: T -> int, g: int)
    ensures CountBelow(a + b, key, g) == CountBelow(a, key, g) + CountBelow(b, key, g)
    ensures CountAtMost(a + b, key, g) == CountAtMost(a, key, g) + CountAtMost(b, key, g)
  {
    if a == [] {
      assert a + b == b;
    } else {
      assert (a + b)[0] == a[0];
      assert (a + b)[1..] == a[1..] + b;
      CountsAppend(a[1..], b, key, g);
    }
  }

  lemma {:induction false} CountsOfInsert<T>(x: T, s: seq<T>, key: T -> int, g: int)
    ensures CountBelow(Insert(x, s, key), key, g) == CountBelow(s, key, g) + (if key(x) < g then 1 else 0)
    ensures CountAtMost(Insert(x, s, key), key, g) == CountAtMost(s, key, g) + (if key(x) <= g then 1 else 0)
  {
    var r := Insert(x, s, key);
    if s == [] || key(x) <= key(s[0]) {
      assert r[0] == x && r[1..] == s;
    } else {
      assert r[0] == s[0] && r[1..] == Insert(x, s[1..], key);
      CountsOfInsert(x, s[1..], key, g);
    }
  }

  /** Sorting does not change how many keys lie below or at a bound. */
  lemma {:induction false} CountsOfSort<T>(s: seq<T>, key: T -> int, g: int)
    ensures CountBelow(SortBy(s, key), key, g) == CountBelow(s, key, g)
    ensures CountAtMost(SortBy(s, key), key, g) == CountAtMost(s, key, g)
  {
    if s != [] {
      CountsOfSort(s[1..], key, g);
      CountsOfInsert(s[0], SortBy(s[1..], key), key, g);
    }
  }

  /** In a sorted sequence, the position `p` of an element with key `g` lies between the two counts. */
  lemma PositionBetweenCounts<T>(s: seq<T>, key: T -> int, p: int)
    requires SortedBy(s, key) && 0 <= p < |s|
    ensures CountBelow(s, key, key(s[p])) <= p < CountAtMost(s, key, key(s[p]))
  {
    BelowOnlyBefore(s, key, key(s[p]), p);
    AtMostThrough(s, key, key(s[p]), p);
  }

  /** When no key from position `p` on is below `g`, at most `p` keys are. */
  lemma BelowOnlyBefore<T>(s: seq<T>, key: T -> int, g: int, p: int)
    requires 0 <= p <= |s|
    requires forall i :: p <= i < |s| ==> key(s[i]) >= g
    ensures CountBelow(s, key, g) <= p
  {
    var u, v := s[..p], s[p..];
    assert s == u + v;
    CountsAppend(u, v, key, g);
    forall i | 0 <= i < |v| ensures key(v[i]) >= g {
      assert v[i] == s[p + i];
    }
    CountBelowNone(v, key, g);
  }

  /** When every key up to position `p` is at most `g`, more than `p` keys are. */
  lemma AtMostThrough<T>(s: seq<T>, key: T -> int, g: int, p: int)
    requires 0 <= p < |s|
    requires forall i :: 0 <= i <= p ==> key(s[i]) <= g
    ensures p < CountAtMost(s, key, g)
  {
    var u, v := s[..p + 1], s[p + 1..];
    assert s == u + v;
    CountsAppend(u, v, key, g);
    forall i | 0 <= i < |u| ensures key(u[i]) <= g {
      assert u[i] == s[i];
    }
    CountAtMostAll(u, key, g);
  }

  lemma {:induction false} CountBelowNone<T>(s: seq<T>, key: T -> int, g: int)
    requires forall i :: 0 <= i < |s| ==> key(s[i]) >= g
    ensures CountBelow(s, key, g) == 0
  {
    if s != [] {
      CountBelowNone(s[1..], key, g);
    }
  }

  lemma {:induction false} CountAtMostAll<T>(s: seq<T>, key: T -> int, g: int)
    requires forall i :: 0 <= i < |s| ==> key(s[i]) <= g
    ensures CountAtMost(s, key, g) == |s|
  {
    if s != [] {
      CountAtMostAll(s[1..], key, g);
    }
  }
}

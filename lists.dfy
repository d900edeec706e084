/**
 * The array operations the source chains together: `find`, `filter`,
 * `slice(0, n)` and a stable `sort` by a numeric key in descending order
 * (`Array.prototype.sort` is stable, and both comparators used here subtract
 * two timestamps, later first).
 */
module Lists {
  import opened Wrappers

  /** `s.find(p)`: the first element satisfying `p`, or none. */
  function Find<T(==)>(s: seq<T>, p: T -> bool): (r: Option<T>)
    ensures r.None? <==> forall i :: 0 <= i < |s| ==> !p(s[i])
    ensures r.Some? ==> exists i :: 0 <= i < |s| && s[i] == r.value && p(s[i]) && FirstAt(s, p, i)
  {
    if s == [] then None
    else if p(s[0]) then
      assert FirstAt(s, p, 0);
      Some(s[0])
    else
      var r := Find(s[1..], p);
      if r.Some? then
        assert exists i :: 0 <= i < |s[1..]| && s[1..][i] == r.value && p(s[1..][i]) && FirstAt(s[1..], p, i);
        var i :| 0 <= i < |s[1..]| && s[1..][i] == r.value && p(s[1..][i]) && FirstAt(s[1..], p, i);
        assert FirstAt(s, p, i + 1);
        r
      else
        r
  }

  /** No element before index `i` satisfies `p`. */
  predicate FirstAt<T>(s: seq<T>, p: T -> bool, i: nat) {
    i <= |s| && forall j :: 0 <= j < i ==> !p(s[j])
  }

  /** `s.filter(p)`: the elements satisfying `p`, in their original order. */
  function Filter<T(==)>(s: seq<T>, p: T -> bool): (r: seq<T>)
    ensures |r| <= |s|
  {
    if s == [] then []
    else if p(s[0]) then [s[0]] + Filter(s[1..], p)
    else Filter(s[1..], p)
  }

  /** `filter` keeps exactly the elements that pass, and no others. */
  lemma {:induction false} FilterMembers<T>(s: seq<T>, p: T -> bool)
    ensures forall i :: 0 <= i < |Filter(s, p)| ==> Filter(s, p)[i] in s && p(Filter(s, p)[i])
    ensures forall i :: 0 <= i < |s| && p(s[i]) ==> s[i] in Filter(s, p)
  {
    if s != [] {
      FilterMembers(s[1..], p);
      assert forall i :: 1 <= i < |s| ==> s[i] == s[1..][i - 1];
      if p(s[0]) {
        var r := Filter(s, p);
        assert r == [s[0]] + Filter(s[1..], p);
        assert forall i :: 1 <= i < |r| ==> r[i] == Filter(s[1..], p)[i - 1];
      }
    }
  }

  /** `filter` keeps each element at most as often as the list holds it. */
  lemma {:induction false} FilterMultiset<T>(s: seq<T>, p: T -> bool)
    ensures multiset(Filter(s, p)) <= multiset(s)
  {
    if s != [] {
      FilterMultiset(s[1..], p);
      assert s == [s[0]] + s[1..];
    }
  }

  lemma {:induction false} FilterConcat<T>(a: seq<T>, b: seq<T>, p: T -> bool)
    ensures Filter(a + b, p) == Filter(a, p) + Filter(b, p)
  {
    if a == [] {
      assert a + b == b;
    } else {
      assert (a + b)[0] == a[0];
      assert (a + b)[1..] == a[1..] + b;
      FilterConcat(a[1..], b, p);
    }
  }

  /** Filtering with a test every element passes changes nothing. */
  lemma {:induction false} FilterAll<T>(s: seq<T>, p: T -> bool)
    requires forall i :: 0 <= i < |s| ==> p(s[i])
    ensures Filter(s, p) == s
  {
    if s != [] {
      FilterAll(s[1..], p);
    }
  }

  lemma ConcatAssoc<T>(a: seq<T>, b: seq<T>, c: seq<T>)
    ensures a + (b + c) == (a + b) + c
  {
  }

  /** `s.slice(0, n)`. */
  function Take<T>(s: seq<T>, n: nat): (r: seq<T>)
    ensures |r| == if |s| < n then |s| else n
    ensures r == s[..|r|]
  {
    if |s| <= n then s else s[..n]
  }

  predicate SortedDesc<T>(s: seq<T>, key: T -> int) {
    forall i, j :: 0 <= i < j < |s| ==> key(s[i]) >= key(s[j])
  }

  /** Inserts `x` before the first element whose key is not larger than its own. */
  function InsertDesc<T>(x: T, s: seq<T>, key: T -> int): (r: seq<T>)
    ensures |r| == |s| + 1
  {
    if s == [] || key(x) >= key(s[0]) then [x] + s
    else [s[0]] + InsertDesc(x, s[1..], key)
  }

  /** Inserting adds exactly `x` to the contents. */
  lemma {:induction false} InsertDescPerm<T>(x: T, s: seq<T>, key: T -> int)
    ensures multiset(InsertDesc(x, s, key)) == multiset(s) + multiset{x}
  {
    if !(s == [] || key(x) >= key(s[0])) {
      InsertDescPerm(x, s[1..], key);
      assert s == [s[0]] + s[1..];
    }
  }

  /** Inserting into a sorted list keeps it sorted. */
  lemma {:induction false} InsertDescSorted<T>(x: T, s: seq<T>, key: T -> int)
    requires SortedDesc(s, key)
    ensures SortedDesc(InsertDesc(x, s, key), key)
  {
    if s == [] || key(x) >= key(s[0]) {
      var r := [x] + s;
      forall i, j | 0 <= i < j < |r|
        ensures key(r[i]) >= key(r[j])
      {
        assert r[j] == s[j - 1];
        if i > 0 {
          assert r[i] == s[i - 1];
        } else {
          assert key(s[0]) >= key(s[j - 1]);
        }
      }
    } else {
      var t := InsertDesc(x, s[1..], key);
      InsertDescSorted(x, s[1..], key);
      InsertDescPerm(x, s[1..], key);
      HeadBoundsRest(x, s, t, key);
    }
  }

  /** The head of a sorted list bounds every element of the rest with `x` inserted, when it bounds `x`. */
  lemma HeadBoundsRest<T>(x: T, s: seq<T>, t: seq<T>, key: T -> int)
    requires s != [] && SortedDesc(s, key) && SortedDesc(t, key) && key(x) < key(s[0])
    requires multiset(t) == multiset(s[1..]) + multiset{x}
    ensures SortedDesc([s[0]] + t, key)
  {
    forall k | 0 <= k < |t|
      ensures key(t[k]) <= key(s[0])
    {
      assert t[k] in multiset(t);
      if t[k] != x {
        assert t[k] in multiset(s[1..]);
        var j :| 0 <= j < |s[1..]| && s[1..][j] == t[k];
        assert s[j + 1] == t[k];
      }
    }
    var r := [s[0]] + t;
    forall i, j | 0 <= i < j < |r|
      ensures key(r[i]) >= key(r[j])
    {
      if i > 0 {
        assert r[i] == t[i - 1] && r[j] == t[j - 1];
      } else {
        assert r[j] == t[j - 1];
      }
    }
  }

  /**
   * Stable insertion sort, later keys first: the sorted permutation in which
   * elements with equal keys keep their original relative order.
   */
  function SortDesc<T>(s: seq<T>, key: T -> int): (r: seq<T>)
    ensures SortedDesc(r, key)
    ensures multiset(r) == multiset(s)
  {
    if s == [] then []
    else
      var t := SortDesc(s[1..], key);
      InsertDescSorted(s[0], t, key);
      InsertDescPerm(s[0], t, key);
      assert s == [s[0]] + s[1..];
      InsertDesc(s[0], t, key)
  }

  /** The test "has key `k`". */
  function KeyIs<T>(key: T -> int, k: int): T -> bool {
    y => key(y) == k
  }

  lemma FilterSingleton<T>(x: T, p: T -> bool)
    ensures Filter([x], p) == if p(x) then [x] else []
  {
    assert [x][1..] == [];
  }

  lemma FilterHead<T>(x: T, s: seq<T>, p: T -> bool)
    ensures Filter([x] + s, p) == if p(x) then [x] + Filter(s, p) else Filter(s, p)
  {
    assert ([x] + s)[0] == x;
    assert ([x] + s)[1..] == s;
  }

  lemma {:induction false} InsertDescKeepsKeyClass<T>(x: T, s: seq<T>, key: T -> int, k: int)
    requires SortedDesc(s, key)
    ensures Filter(InsertDesc(x, s, key), KeyIs(key, k))
         == (if key(x) == k then [x] else []) + Filter(s, KeyIs(key, k))
  {
    if s == [] || key(x) >= key(s[0]) {
      assert InsertDesc(x, s, key) == [x] + s;
      FilterHead(x, s, KeyIs(key, k));
      assert [] + Filter(s, KeyIs(key, k)) == Filter(s, KeyIs(key, k));
    } else {
      var t := InsertDesc(x, s[1..], key);
      assert InsertDesc(x, s, key) == [s[0]] + t;
      InsertDescKeepsKeyClass(x, s[1..], key, k);
      HeadKeepsKeyClass(x, s, t, key, k);
    }
  }

  /** The step of `InsertDescKeepsKeyClass` where `x` goes after the head of `s`. */
  lemma HeadKeepsKeyClass<T>(x: T, s: seq<T>, t: seq<T>, key: T -> int, k: int)
    requires s != [] && key(x) < key(s[0])
    requires Filter(t, KeyIs(key, k)) == (if key(x) == k then [x] else []) + Filter(s[1..], KeyIs(key, k))
    ensures Filter([s[0]] + t, KeyIs(key, k)) == (if key(x) == k then [x] else []) + Filter(s, KeyIs(key, k))
  {
    var p := KeyIs(key, k);
    var rest := Filter(s[1..], p);
    FilterHead(s[0], t, p);
    if key(x) == k {
      assert !p(s[0]);
    } else {
      assert [] + rest == rest;
      assert [] + Filter(s, p) == Filter(s, p);
    }
  }

  /** Stability: for every key value, the elements with that key appear in the same order as in `s`. */
  lemma {:induction false} SortDescStable<T>(s: seq<T>, key: T -> int, k: int)
    ensures Filter(SortDesc(s, key), KeyIs(key, k)) == Filter(s, KeyIs(key, k))
  {
    if s != [] {
      var p := KeyIs(key, k);
      var t := SortDesc(s[1..], key);
      var rest := Filter(s[1..], p);
      assert SortDesc(s, key) == InsertDesc(s[0], t, key);
      SortDescStable(s[1..], key, k);
      InsertDescKeepsKeyClass(s[0], t, key, k);
      if !p(s[0]) {
        assert [] + rest == rest;
      }
    }
  }

  /**
   * `r` is a choice of the `n` latest elements of `s`: as many elements as
   * there are, up to `n`, taken from `s` (all of them when there are no more
   * than `n`); none left out has a later key than one kept; and the kept
   * elements of each key are the first ones of that key in `s`, in order.
   */
  ghost predicate LatestOf<T>(r: seq<T>, s: seq<T>, key: T -> int, n: nat) {
    |r| == (if |s| < n then |s| else n)
    && multiset(r) <= multiset(s)
    && (|s| <= n ==> multiset(r) == multiset(s))
    && (forall x :: x in s && x !in r ==> forall i :: 0 <= i < |r| ==> key(x) <= key(r[i]))
    && (forall k :: Filter(r, KeyIs(key, k)) <= Filter(s, KeyIs(key, k)))
  }

  /** `sort` and then `slice(0, n)` picks the `n` latest elements. */
  lemma TakeSortDesc<T>(s: seq<T>, key: T -> int, n: nat)
    ensures LatestOf(Take(SortDesc(s, key), n), s, key, n)
  {
    var sorted := SortDesc(s, key);
    var r := Take(sorted, n);
    assert |sorted| == |s| by {
      assert |multiset(sorted)| == |multiset(s)|;
    }
    assert |s| <= n ==> r == sorted;
    assert multiset(r) <= multiset(s) by {
      var rest := sorted[|r|..];
      assert sorted == r + rest;
      assert multiset(sorted) == multiset(r) + multiset(rest);
    }
    forall x | x in s && x !in r
      ensures forall i :: 0 <= i < |r| ==> key(x) <= key(r[i])
    {
      LeftOutIsEarlier(s, key, |r|, x);
    }
    forall k
      ensures Filter(r, KeyIs(key, k)) <= Filter(s, KeyIs(key, k))
    {
      TakeKeepsKeyOrder(s, key, n, k);
    }
  }

  /** The kept elements with key `k` are the first elements with key `k` in `s`, in their order there. */
  lemma TakeKeepsKeyOrder<T>(s: seq<T>, key: T -> int, n: nat, k: int)
    ensures Filter(Take(SortDesc(s, key), n), KeyIs(key, k)) <= Filter(s, KeyIs(key, k))
  {
    var sorted := SortDesc(s, key);
    var r := Take(sorted, n);
    var rest := sorted[|r|..];
    assert sorted == r + rest;
    FilterConcat(r, rest, KeyIs(key, k));
    SortDescStable(s, key, k);
  }

  /** An element of `s` that is not among the first `m` of the sorted list has a key no larger than theirs. */
  lemma LeftOutIsEarlier<T>(s: seq<T>, key: T -> int, m: nat, x: T)
    requires m <= |SortDesc(s, key)|
    requires x in s && x !in SortDesc(s, key)[..m]
    ensures forall i :: 0 <= i < m ==> key(x) <= key(SortDesc(s, key)[i])
  {
    var sorted := SortDesc(s, key);
    assert x in multiset(sorted) by {
      assert x in multiset(s);
    }
    var j :| 0 <= j < |sorted| && sorted[j] == x;
  }

  /** No element occurs twice (the contents of a `Set`, or the keys of a `Map`, in insertion order). */
  predicate NoDup<T(==)>(s: seq<T>) {
    forall i, j :: 0 <= i < j < |s| ==> s[i] != s[j]
  }

  lemma HeadNotInTail<T>(s: seq<T>)
    requires s != [] && NoDup(s)
    ensures s[0] !in s[1..]
  {
    assert forall j :: 0 <= j < |s[1..]| ==> s[1..][j] == s[j + 1];
  }

  /** Filtering a list without repeats gives a list without repeats. */
  lemma {:induction false} FilterNoDup<T>(s: seq<T>, p: T -> bool)
    requires NoDup(s)
    ensures NoDup(Filter(s, p))
  {
    if s != [] {
      assert NoDup(s[1..]);
      FilterNoDup(s[1..], p);
      if p(s[0]) {
        FilterMembers(s[1..], p);
        var t := Filter(s[1..], p);
        assert s[0] !in t by {
          HeadNotInTail(s);
        }
        assert forall i :: 1 <= i < |[s[0]] + t| ==> ([s[0]] + t)[i] == t[i - 1];
      }
    }
  }

  /** In a list without repeats every element occurs once. */
  lemma {:induction false} NoDupOnce<T>(s: seq<T>, x: T)
    requires NoDup(s)
    ensures multiset(s)[x] <= 1
  {
    if s != [] {
      assert s == [s[0]] + s[1..];
      assert NoDup(s[1..]);
      NoDupOnce(s[1..], x);
      if s[0] == x {
        assert x !in s[1..] by {
          HeadNotInTail(s);
        }
      }
    }
  }

  /** A rearrangement of a list without repeats has none either. */
  lemma NoDupPerm<T>(a: seq<T>, b: seq<T>)
    requires NoDup(a) && multiset(a) == multiset(b)
    ensures NoDup(b)
  {
    forall i, j | 0 <= i < j < |b|
      ensures b[i] != b[j]
    {
      if b[i] == b[j] {
        var x := b[i];
        assert b == b[..j] + b[j..];
        assert x in b[..j] && x in b[j..];
        assert multiset(b)[x] == multiset(b[..j])[x] + multiset(b[j..])[x];
        NoDupOnce(a, x);
      }
    }
  }

  /** A list without repeats is as long as the set of its elements is large. */
  lemma {:induction false} NoDupCard<T>(s: seq<T>)
    requires NoDup(s)
    ensures |set x | x in s| == |s|
  {
    if s != [] {
      assert NoDup(s[1..]);
      NoDupCard(s[1..]);
      assert s[0] !in s[1..] by {
        HeadNotInTail(s);
      }
      assert (set x | x in s) == {s[0]} + (set x | x in s[1..]);
    }
  }

  /** The strings of `s` not in `drop`, in order: what `Set.delete` does to a set of strings, one deletion per element of `drop`. */
  function Without(s: seq<string>, drop: set<string>): (r: seq<string>)
    ensures |r| <= |s|
  {
    if s == [] then []
    else
      var rest := Without(s[1..], drop);
      if s[0] in drop then rest else [s[0]] + rest
  }

  /** Deleting keeps exactly the strings not in `drop`, and keeps them duplicate-free. */
  lemma {:induction false} WithoutMembers(s: seq<string>, drop: set<string>)
    ensures forall x :: x in Without(s, drop) <==> x in s && x !in drop
    ensures NoDup(s) ==> NoDup(Without(s, drop))
  {
    if s != [] {
      WithoutMembers(s[1..], drop);
      var rest := Without(s[1..], drop);
      assert forall x :: x in s <==> x == s[0] || x in s[1..];
      if NoDup(s) {
        assert NoDup(s[1..]) by {
          forall i, j | 0 <= i < j < |s[1..]|
            ensures s[1..][i] != s[1..][j]
          {
            assert s[1..][i] == s[i + 1] && s[1..][j] == s[j + 1];
          }
        }
        if s[0] !in drop {
          assert s[0] !in s[1..];
          var r := [s[0]] + rest;
          forall i, j | 0 <= i < j < |r|
            ensures r[i] != r[j]
          {
            assert r[j] == rest[j - 1];
            if i > 0 {
              assert r[i] == rest[i - 1];
            }
          }
        }
      }
    }
  }

  lemma {:induction false} WithoutWithout(s: seq<string>, a: set<string>, b: set<string>)
    ensures Without(Without(s, a), b) == Without(s, a + b)
  {
    if s != [] {
      WithoutWithout(s[1..], a, b);
      if s[0] !in a {
        assert Without(s, a) == [s[0]] + Without(s[1..], a);
        assert ([s[0]] + Without(s[1..], a))[1..] == Without(s[1..], a);
      }
    }
  }

  lemma {:induction false} WithoutNothing(s: seq<string>)
    ensures Without(s, {}) == s
  {
    if s != [] {
      WithoutNothing(s[1..]);
    }
  }
}

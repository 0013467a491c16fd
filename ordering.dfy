/** `ORDER BY <column> ASC|DESC LIMIT n` over the rows a WHERE clause kept. The rows are
    sorted by a key drawn from each row; `Take` applies the limit, where a negative limit
    means no limit, as in SQLite. */
module Ordering {
  import opened Text

  /** `a` may be listed before `b` in the requested direction. */
  predicate InOrder(a: Key, b: Key, desc: bool) {
    if desc then KeyLe(b, a) else KeyLe(a, b)
  }

  predicate SortedBy<T>(s: seq<T>, key: T -> Key, desc: bool) {
    forall i, j :: 0 <= i < j < |s| ==> InOrder(key(s[i]), key(s[j]), desc)
  }

  lemma InOrderTotal(a: Key, b: Key, desc: bool)
    ensures InOrder(a, b, desc) || InOrder(b, a, desc)
  {
    KeyLeTotal(a, b);
  }

  lemma InOrderTransitive(a: Key, b: Key, c: Key, desc: bool)
    requires InOrder(a, b, desc) && InOrder(b, c, desc)
    ensures InOrder(a, c, desc)
  {
    if desc {
      KeyLeTransitive(c, b, a);
    } else {
      KeyLeTransitive(a, b, c);
    }
  }

  /** Puts `x` in front of the first element it may precede. */
  function Insert<T>(x: T, s: seq<T>, key: T -> Key, desc: bool): (r: seq<T>)
    requires SortedBy(s, key, desc)
    ensures multiset(r) == multiset(s) + multiset{x}
    ensures SortedBy(r, key, desc)
  {
    if s == [] then [x]
    else if InOrder(key(x), key(s[0]), desc) then
      FrontBound(x, s, key, desc);
      ConsSorted(x, s, key, desc);
      [x] + s
    else
      InOrderTotal(key(x), key(s[0]), desc);
      var rest := Insert(x, s[1..], key, desc);
      RestBound(x, s, rest, key, desc);
      ConsSorted(s[0], rest, key, desc);
      assert s == [s[0]] + s[1..];
      [s[0]] + rest
  }

  lemma FrontBound<T>(x: T, s: seq<T>, key: T -> Key, desc: bool)
    requires s != [] && SortedBy(s, key, desc) && InOrder(key(x), key(s[0]), desc)
    ensures forall j :: 0 <= j < |s| ==> InOrder(key(x), key(s[j]), desc)
  {
    forall j | 0 < j < |s|
      ensures InOrder(key(x), key(s[j]), desc)
    {
      InOrderTransitive(key(x), key(s[0]), key(s[j]), desc);
    }
  }

  lemma RestBound<T>(x: T, s: seq<T>, rest: seq<T>, key: T -> Key, desc: bool)
    requires s != [] && SortedBy(s, key, desc) && InOrder(key(s[0]), key(x), desc)
    requires multiset(rest) == multiset(s[1..]) + multiset{x}
    ensures forall j :: 0 <= j < |rest| ==> InOrder(key(s[0]), key(rest[j]), desc)
  {
    forall j | 0 <= j < |rest|
      ensures InOrder(key(s[0]), key(rest[j]), desc)
    {
      assert rest[j] in multiset(rest);
      if rest[j] != x {
        assert rest[j] in multiset(s[1..]);
        var k :| 0 <= k < |s[1..]| && s[1..][k] == rest[j];
        assert s[k + 1] == rest[j];
      }
    }
  }

  lemma ConsSorted<T>(h: T, t: seq<T>, key: T -> Key, desc: bool)
    requires SortedBy(t, key, desc)
    requires forall j :: 0 <= j < |t| ==> InOrder(key(h), key(t[j]), desc)
    ensures SortedBy([h] + t, key, desc)
  {
    var r := [h] + t;
    forall i, j | 0 <= i < j < |r|
      ensures InOrder(key(r[i]), key(r[j]), desc)
    {
      assert r[j] == t[j - 1];
      if i > 0 {
        assert r[i] == t[i - 1];
      }
    }
  }

  /** An insertion sort; the result lists the same rows in order. */
  function SortBy<T>(s: seq<T>, key: T -> Key, desc: bool): (r: seq<T>)
    ensures multiset(r) == multiset(s)
    ensures SortedBy(r, key, desc)
  {
    if s == [] then []
    else
      assert s == [s[0]] + s[1..];
      Insert(s[0], SortBy(s[1..], key, desc), key, desc)
  }

  /** `LIMIT limit`: the first `limit` rows, all of them when `limit` is negative. */
  function Take<T>(s: seq<T>, limit: int): (r: seq<T>)
    ensures r <= s
    ensures |r| == if 0 <= limit < |s| then limit else |s|
  {
    if limit < 0 || |s| <= limit then s else s[..limit]
  }

  /** Sort then take: at most `limit` rows, in order, drawn from `s`, and no row left out
      comes before a row kept. */
  lemma {:induction false} TopRows<T>(s: seq<T>, key: T -> Key, desc: bool, limit: int, r: seq<T>)
    requires r == Take(SortBy(s, key, desc), limit)
    ensures limit >= 0 ==> |r| <= limit
    ensures |r| <= |s|
    ensures 0 <= limit <= |s| ==> |r| == limit
    ensures limit < 0 ==> |r| == |s|
    ensures SortedBy(r, key, desc)
    ensures multiset(r) <= multiset(s)
    ensures forall x, i :: x in s && x !in r && 0 <= i < |r| ==> InOrder(key(r[i]), key(x), desc)
  {
    var t := SortBy(s, key, desc);
    assert |t| == |s| by {
      assert |multiset(t)| == |multiset(s)|;
    }
    assert r == t[..|r|];
    PrefixMultiset(t, |r|);
    LeftOutLater(t, r, key, desc);
    forall x | x in s
      ensures x in t
    {
      assert x in multiset(s);
    }
  }

  /** `TopRows` seen through a projection `f`: every row kept comes from `s`, and a row
      whose projection is not shown comes after every row kept. */
  lemma TopRowsProjected<T, U>(s: seq<T>, key: T -> Key, desc: bool, limit: int, f: T -> U, r: seq<T>)
    requires r == Take(SortBy(s, key, desc), limit)
    ensures forall i :: 0 <= i < |r| ==> r[i] in s
    ensures forall x, i :: x in s && f(x) !in Map(r, f) && 0 <= i < |r| ==> InOrder(key(r[i]), key(x), desc)
  {
    TopRows(s, key, desc, limit, r);
    forall i | 0 <= i < |r|
      ensures r[i] in s
    {
      assert r[i] in multiset(r);
    }
    var m := Map(r, f);
    assert forall k :: 0 <= k < |r| ==> m[k] == f(r[k]) && m[k] in m;
  }

  lemma PrefixMultiset<T>(t: seq<T>, k: nat)
    requires k <= |t|
    ensures multiset(t[..k]) <= multiset(t)
  {
    assert t == t[..k] + t[k..];
  }

  /** In a sorted sequence, what follows a prefix comes after every element of it. */
  lemma LeftOutLater<T>(t: seq<T>, r: seq<T>, key: T -> Key, desc: bool)
    requires SortedBy(t, key, desc) && |r| <= |t| && r == t[..|r|]
    ensures forall x, i :: x in t && x !in r && 0 <= i < |r| ==> InOrder(key(r[i]), key(x), desc)
  {
    forall x, i | x in t && x !in r && 0 <= i < |r|
      ensures InOrder(key(r[i]), key(x), desc)
    {
      var j :| 0 <= j < |t| && t[j] == x;
      assert forall k :: 0 <= k < |r| ==> r[k] == t[k];
      assert r[i] == t[i];
    }
  }

  /** A WHERE clause, then ORDER BY and LIMIT: every row kept satisfies the clause and is a
      row of `s`. */
  lemma Selected<T>(s: seq<T>, p: T -> bool, key: T -> Key, desc: bool, limit: int, r: seq<T>)
    requires r == Take(SortBy(Filter(s, p), key, desc), limit)
    ensures forall i :: 0 <= i < |r| ==> r[i] in s && p(r[i])
  {
    var kept := Filter(s, p);
    var t := SortBy(kept, key, desc);
    forall i | 0 <= i < |r|
      ensures r[i] in s && p(r[i])
    {
      assert r[i] == t[i];
      assert t[i] in multiset(kept);
      var k :| 0 <= k < |kept| && kept[k] == r[i];
    }
  }

  /** ... and no row satisfying the clause is left out while a later one is kept. */
  lemma SelectedFirst<T>(s: seq<T>, p: T -> bool, key: T -> Key, desc: bool, limit: int, r: seq<T>)
    requires r == Take(SortBy(Filter(s, p), key, desc), limit)
    ensures forall x, i :: x in s && p(x) && x !in r && 0 <= i < |r| ==> InOrder(key(r[i]), key(x), desc)
  {
    var kept := Filter(s, p);
    TopRows(kept, key, desc, limit, r);
    forall x | x in s && p(x)
      ensures x in kept
    {
      var k :| 0 <= k < |s| && s[k] == x;
    }
  }

  /** ... and exactly `limit` rows come back, or every row satisfying the clause when
      there are no more than `limit` of them (or the limit is negative). */
  lemma SelectedAll<T>(s: seq<T>, p: T -> bool, key: T -> Key, desc: bool, limit: int, r: seq<T>)
    requires r == Take(SortBy(Filter(s, p), key, desc), limit)
    ensures |r| == if 0 <= limit < |Filter(s, p)| then limit else |Filter(s, p)|
    ensures limit < 0 || |Filter(s, p)| <= limit ==> forall x :: x in s && p(x) ==> x in r
  {
    var kept := Filter(s, p);
    var t := SortBy(kept, key, desc);
    assert |t| == |kept| by {
      assert |multiset(t)| == |multiset(kept)|;
    }
    if limit < 0 || |kept| <= limit {
      assert r == t;
      forall x | x in s && p(x)
        ensures x in r
      {
        var k :| 0 <= k < |s| && s[k] == x;
        assert x in multiset(kept);
      }
    }
  }

  /** `SelectedAll` seen through a projection `f` of the kept rows. */
  lemma SelectedAllProjected<T, U>(s: seq<T>, p: T -> bool, key: T -> Key, desc: bool, limit: int,
                                   f: T -> U, r: seq<T>)
    requires r == Take(SortBy(Filter(s, p), key, desc), limit)
    ensures |Map(r, f)| == if 0 <= limit < |Filter(s, p)| then limit else |Filter(s, p)|
    ensures limit < 0 || |Filter(s, p)| <= limit ==> forall x :: x in s && p(x) ==> f(x) in Map(r, f)
  {
    SelectedAll(s, p, key, desc, limit, r);
    var m := Map(r, f);
    forall x | x in r
      ensures f(x) in m
    {
      var k :| 0 <= k < |r| && r[k] == x;
      assert m[k] == f(x);
    }
  }

  /** The same, seen through a projection `f` of the kept rows: a row satisfying the
      clause whose projection is not among those shown comes after every row kept. */
  lemma SelectedFirstProjected<T, U>(s: seq<T>, p: T -> bool, key: T -> Key, desc: bool, limit: int,
                                     f: T -> U, r: seq<T>)
    requires r == Take(SortBy(Filter(s, p), key, desc), limit)
    ensures forall x, i :: x in s && p(x) && f(x) !in Map(r, f) && 0 <= i < |r| ==>
      InOrder(key(r[i]), key(x), desc)
  {
    SelectedFirst(s, p, key, desc, limit, r);
    var m := Map(r, f);
    assert forall k :: 0 <= k < |r| ==> m[k] == f(r[k]) && m[k] in m;
  }

  predicate NoDuplicates<T(==)>(s: seq<T>) {
    forall i, j :: 0 <= i < j < |s| ==> s[i] != s[j]
  }

  lemma {:induction false} NoDuplicatesCount<T>(s: seq<T>, x: T)
    requires NoDuplicates(s)
    ensures multiset(s)[x] <= 1
  {
    if s != [] {
      var front := s[..|s| - 1];
      NoDuplicatesCount(front, x);
      assert s == front + [s[|s| - 1]];
      assert s[|s| - 1] !in front by {
        assert forall k :: 0 <= k < |front| ==> front[k] == s[k] && s[k] != s[|s| - 1];
      }
    }
  }

  /** Rows drawn from a list without duplicates hold no duplicates. */
  lemma SubMultisetNoDuplicates<T>(s: seq<T>, r: seq<T>)
    requires NoDuplicates(s) && multiset(r) <= multiset(s)
    ensures NoDuplicates(r)
  {
    forall i, j | 0 <= i < j < |r|
      ensures r[i] != r[j]
    {
      NoDuplicatesCount(s, r[i]);
      Twice(r, i, j);
    }
  }

  lemma Twice<T>(r: seq<T>, i: int, j: int)
    requires 0 <= i < j < |r|
    ensures r[i] == r[j] ==> multiset(r)[r[i]] >= 2
  {
    assert r == r[..i] + [r[i]] + r[i + 1..j] + [r[j]] + r[j + 1..];
  }

  /** The rows of `s` that satisfy `p`, in their original order. */
  function Filter<T>(s: seq<T>, p: T -> bool): (r: seq<T>)
    ensures |r| <= |s|
    ensures forall i :: 0 <= i < |r| ==> r[i] in s && p(r[i])
    ensures forall i :: 0 <= i < |s| && p(s[i]) ==> s[i] in r
    ensures multiset(r) <= multiset(s)
  {
    if s == [] then []
    else
      assert s == [s[0]] + s[1..];
      (if p(s[0]) then [s[0]] else []) + Filter(s[1..], p)
  }

  function Map<T, U>(s: seq<T>, f: T -> U): (r: seq<U>)
    ensures |r| == |s|
    ensures forall i :: 0 <= i < |s| ==> r[i] == f(s[i])
  {
    seq(|s|, i requires 0 <= i < |s| => f(s[i]))
  }
}

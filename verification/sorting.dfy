/** A stable sort, the model of `Array.prototype.sort` with a comparator (which
    ECMAScript requires to be stable since its 2019 edition).

    The comparator is given as `le(a, b)`: "a may come before b", i.e. the
    comparator's result for (a, b) is not positive. Insertion sort from the back
    puts each element in front of every later element it may precede, so elements
    that compare equal keep their input order. */
module Sorting {

  /** `le` is total and transitive: a comparator that is consistent. */
  ghost predicate TotalPreorder<T(!new)>(le: (T, T) -> bool)
  {
    && (forall a, b :: le(a, b) || le(b, a))
    && (forall a, b, c :: le(a, b) && le(b, c) ==> le(a, c))
  }

  predicate SortedBy<T>(s: seq<T>, le: (T, T) -> bool)
  {
    forall i, j | 0 <= i < j < |s| :: le(s[i], s[j])
  }

  /** Puts `x` in front of the first element of `ys` that it may precede. */
  function Insert<T>(x: T, ys: seq<T>, le: (T, T) -> bool): (r: seq<T>)
    ensures |r| == |ys| + 1
    ensures multiset(r) == multiset(ys) + multiset{x}
  {
    if ys == [] || le(x, ys[0]) then [x] + ys
    else
      assert ys == [ys[0]] + ys[1..];
      [ys[0]] + Insert(x, ys[1..], le)
  }

  /** The stable sort of `s` under `le`. */
  function SortBy<T>(s: seq<T>, le: (T, T) -> bool): (r: seq<T>)
    ensures |r| == |s|
    ensures multiset(r) == multiset(s)
  {
    if s == [] then []
    else
      assert s == [s[0]] + s[1..];
      Insert(s[0], SortBy(s[1..], le), le)
  }

  lemma {:induction false} InsertSorted<T(!new)>(x: T, ys: seq<T>, le: (T, T) -> bool)
    requires TotalPreorder(le)
    requires SortedBy(ys, le)
    ensures SortedBy(Insert(x, ys, le), le)
  {
    if ys == [] || le(x, ys[0]) {
      forall e | e in ys ensures le(x, e) {
        var k :| 0 <= k < |ys| && ys[k] == e;
        if k > 0 { assert le(ys[0], ys[k]); }
      }
      ConsSorted(x, ys, le);
    } else {
      var tail := Insert(x, ys[1..], le);
      InsertSorted(x, ys[1..], le);
      forall e | e in tail ensures le(ys[0], e) {
        assert e in multiset(tail);
        if e != x {
          var k :| 0 <= k < |ys[1..]| && ys[1..][k] == e;
          assert ys[k + 1] == e;
        }
      }
      ConsSorted(ys[0], tail, le);
    }
  }

  /** A sorted sequence stays sorted behind an element that may precede all of it. */
  lemma ConsSorted<T>(y: T, t: seq<T>, le: (T, T) -> bool)
    requires SortedBy(t, le)
    requires forall e | e in t :: le(y, e)
    ensures SortedBy([y] + t, le)
  {
    var r := [y] + t;
    forall i, j | 0 <= i < j < |r| ensures le(r[i], r[j]) {
      assert r[j] == t[j - 1];
      if i > 0 { assert r[i] == t[i - 1]; }
    }
  }

  /** The result of the sort is in order. */
  lemma {:induction false} SortBySorted<T(!new)>(s: seq<T>, le: (T, T) -> bool)
    requires TotalPreorder(le)
    ensures SortedBy(SortBy(s, le), le)
  {
    if s != [] {
      SortBySorted(s[1..], le);
      InsertSorted(s[0], SortBy(s[1..], le), le);
    }
  }

  /** `s` is in `le` order, and elements that compare equal are in `before` order. */
  predicate SortedTieBroken<T>(s: seq<T>, le: (T, T) -> bool, before: (T, T) -> bool)
  {
    forall i, j | 0 <= i < j < |s| :: le(s[i], s[j]) && (le(s[j], s[i]) ==> before(s[i], s[j]))
  }

  /** Stability, stated with a tie-break `before` in which the input is strictly
      increasing (for instance the input position): in the output, elements that
      compare equal under `le` come in `before` order. */
  lemma {:induction false} SortByTieBreak<T(!new)>(s: seq<T>, le: (T, T) -> bool, before: (T, T) -> bool)
    requires TotalPreorder(le)
    requires forall i, j | 0 <= i < j < |s| :: before(s[i], s[j])
    ensures SortedTieBroken(SortBy(s, le), le, before)
  {
    if s != [] {
      var ys := SortBy(s[1..], le);
      SortByTieBreak(s[1..], le, before);
      forall e | e in ys ensures before(s[0], e) {
        assert e in multiset(s[1..]);
        var k :| 0 <= k < |s[1..]| && s[1..][k] == e;
        assert s[k + 1] == e;
      }
      InsertTieBreak(s[0], ys, le, before);
      assert SortBy(s, le) == Insert(s[0], ys, le);
    }
  }

  lemma {:induction false} InsertTieBreak<T(!new)>(x: T, ys: seq<T>, le: (T, T) -> bool, before: (T, T) -> bool)
    requires TotalPreorder(le)
    requires forall e | e in ys :: before(x, e)
    requires SortedTieBroken(ys, le, before)
    ensures SortedTieBroken(Insert(x, ys, le), le, before)
  {
    if ys == [] || le(x, ys[0]) {
      forall e | e in ys ensures le(x, e) {
        var k :| 0 <= k < |ys| && ys[k] == e;
        if k > 0 { assert le(ys[0], ys[k]); }
      }
      ConsTieBroken(x, ys, le, before);
    } else {
      var tail := Insert(x, ys[1..], le);
      InsertTieBreak(x, ys[1..], le, before);
      forall e | e in tail ensures le(ys[0], e) && (le(e, ys[0]) ==> before(ys[0], e)) {
        assert e in multiset(tail);
        if e != x {
          var k :| 0 <= k < |ys[1..]| && ys[1..][k] == e;
          assert ys[k + 1] == e;
        }
      }
      ConsTieBroken(ys[0], tail, le, before);
    }
  }

  /** A tie-broken sequence stays tie-broken behind an element that may precede
      all of it and comes first in `before` among those equal to it. */
  lemma ConsTieBroken<T>(y: T, t: seq<T>, le: (T, T) -> bool, before: (T, T) -> bool)
    requires SortedTieBroken(t, le, before)
    requires forall e | e in t :: le(y, e) && (le(e, y) ==> before(y, e))
    ensures SortedTieBroken([y] + t, le, before)
  {
    var r := [y] + t;
    forall i, j | 0 <= i < j < |r| ensures le(r[i], r[j]) && (le(r[j], r[i]) ==> before(r[i], r[j])) {
      assert r[j] == t[j - 1];
      if i > 0 { assert r[i] == t[i - 1]; }
    }
  }

  /** `rel` holds between every two elements of `s` at different positions. */
  predicate Pairwise<T>(s: seq<T>, rel: (T, T) -> bool)
  {
    forall i, j | 0 <= i < j < |s| :: rel(s[i], s[j])
  }

  /** A symmetric relation that holds between every two input elements at
      different positions still holds between every two output elements. */
  lemma {:induction false} SortByPairwise<T(!new)>(s: seq<T>, le: (T, T) -> bool, rel: (T, T) -> bool)
    requires forall a, b :: rel(a, b) == rel(b, a)
    requires Pairwise(s, rel)
    ensures Pairwise(SortBy(s, le), rel)
  {
    if s != [] {
      var ys := SortBy(s[1..], le);
      SortByPairwise(s[1..], le, rel);
      forall e | e in ys ensures rel(s[0], e) {
        assert e in multiset(s[1..]);
        var k :| 0 <= k < |s[1..]| && s[1..][k] == e;
        assert s[k + 1] == e;
      }
      InsertPairwise(s[0], ys, le, rel);
      assert SortBy(s, le) == Insert(s[0], ys, le);
    }
  }

  lemma {:induction false} InsertPairwise<T(!new)>(x: T, ys: seq<T>, le: (T, T) -> bool, rel: (T, T) -> bool)
    requires forall a, b :: rel(a, b) == rel(b, a)
    requires forall e | e in ys :: rel(x, e)
    requires Pairwise(ys, rel)
    ensures Pairwise(Insert(x, ys, le), rel)
  {
    if ys == [] || le(x, ys[0]) {
      ConsPairwise(x, ys, rel);
    } else {
      var tail := Insert(x, ys[1..], le);
      InsertPairwise(x, ys[1..], le, rel);
      forall e | e in tail ensures rel(ys[0], e) {
        assert e in multiset(tail);
        if e != x {
          var k :| 0 <= k < |ys[1..]| && ys[1..][k] == e;
          assert ys[k + 1] == e;
        }
      }
      ConsPairwise(ys[0], tail, rel);
    }
  }

  lemma ConsPairwise<T>(y: T, t: seq<T>, rel: (T, T) -> bool)
    requires Pairwise(t, rel)
    requires forall e | e in t :: rel(y, e)
    ensures Pairwise([y] + t, rel)
  {
    var r := [y] + t;
    forall i, j | 0 <= i < j < |r| ensures rel(r[i], r[j]) {
      assert r[j] == t[j - 1];
      if i > 0 { assert r[i] == t[i - 1]; }
    }
  }

  /** Keeping the first `k` elements of the sorted sequence keeps a best `k`:
      whatever the input holds that was not kept may follow everything kept. */
  lemma TopOfSorted<T(!new)>(s: seq<T>, le: (T, T) -> bool, k: nat)
    requires TotalPreorder(le)
    requires k <= |s|
    ensures SortedBy(SortBy(s, le)[..k], le)
    ensures multiset(SortBy(s, le)[..k]) <= multiset(s)
    ensures forall x, y | x in s && x !in SortBy(s, le)[..k] && y in SortBy(s, le)[..k] :: le(y, x)
  {
    var r := SortBy(s, le);
    SortBySorted(s, le);
    PrefixMultiset(r, k);
    SortedTop(s, r, le, k);
  }

  /** In a sorted rearrangement of `s`, the first `k` elements may precede
      every element of `s` outside them. */
  lemma SortedTop<T>(s: seq<T>, r: seq<T>, le: (T, T) -> bool, k: nat)
    requires SortedBy(r, le)
    requires multiset(r) == multiset(s)
    requires k <= |r|
    ensures forall x, y | x in s && x !in r[..k] && y in r[..k] :: le(y, x)
  {
    var top := r[..k];
    forall x, y | x in s && x !in top && y in top ensures le(y, x) {
      assert x in multiset(s);
      assert x in multiset(r);
      var m :| 0 <= m < |r| && r[m] == x;
      var n :| 0 <= n < k && top[n] == y;
      assert m >= k;
      assert le(r[n], r[m]);
    }
  }

  lemma PrefixMultiset<T>(r: seq<T>, k: nat)
    requires k <= |r|
    ensures multiset(r[..k]) <= multiset(r)
  {
    assert r == r[..k] + r[k..];
  }
}

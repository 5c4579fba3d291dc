/** Sequence helpers shared by the model: JavaScript's `slice(0, end)`, `filter`,
    `findIndex`/`find` and `reverse`, stated over Dafny sequences. */
module Seqs {

  function Min(a: int, b: int): int { if a <= b then a else b }

  /** The end index that `Array.prototype.slice(0, end)` uses on an array of
      length `n`: a negative `end` counts back from the end of the array. */
  function SliceEnd(n: nat, end: int): (k: nat)
    ensures k <= n
    ensures end >= 0 ==> k == Min(end, n)
    ensures end < 0 ==> k == if n + end < 0 then 0 else n + end
  {
    if end < 0 then (if n + end < 0 then 0 else n + end)
    else if end > n then n
    else end
  }

  /** `s.slice(0, end)`. */
  function Prefix<T>(s: seq<T>, end: int): seq<T>
  {
    s[..SliceEnd(|s|, end)]
  }

  /** `s.filter(p)`: the elements of `s` that satisfy `p`, in their order in `s`. */
  function Filter<T>(s: seq<T>, p: T -> bool): (r: seq<T>)
    ensures |r| <= |s|
    ensures forall x | x in r :: x in s && p(x)
    ensures forall i | 0 <= i < |s| && p(s[i]) :: s[i] in r
    ensures multiset(r) <= multiset(s)
  {
    if s == [] then []
    else
      assert s == [s[0]] + s[1..];
      (if p(s[0]) then [s[0]] else []) + Filter(s[1..], p)
  }

  lemma {:induction false} FilterConcat<T>(a: seq<T>, b: seq<T>, p: T -> bool)
    ensures Filter(a + b, p) == Filter(a, p) + Filter(b, p)
  {
    if a == [] {
      assert a + b == b;
    } else {
      assert (a + b)[0] == a[0];
      assert (a + b)[1..] == a[1..] + b;
      FilterConcat(a[1..], b, p);
    }
  }

  /** The positions of `s` whose elements satisfy `p`. */
  function Positions<T>(s: seq<T>, p: T -> bool): set<nat>
  {
    set i: nat | i < |s| && p(s[i])
  }

  /** `filter(p).length` counts the positions whose elements satisfy `p`. */
  lemma {:induction false} FilterCount<T>(s: seq<T>, p: T -> bool)
    ensures |Filter(s, p)| == |Positions(s, p)|
  {
    if s != [] {
      var init, x := s[..|s| - 1], s[|s| - 1];
      FilterCount(init, p);
      FilterSnoc(init, x, p);
      PositionsSnoc(init, x, p);
      assert init + [x] == s;
    }
  }

  lemma FilterSnoc<T>(s: seq<T>, x: T, p: T -> bool)
    ensures Filter(s + [x], p) == Filter(s, p) + (if p(x) then [x] else [])
  {
    FilterConcat(s, [x], p);
    assert [x][1..] == [];
  }

  lemma PositionsSnoc<T>(s: seq<T>, x: T, p: T -> bool)
    ensures |Positions(s + [x], p)| == |Positions(s, p)| + (if p(x) then 1 else 0)
  {
    var extra: set<nat> := if p(x) then {|s|} else {};
    assert Positions(s + [x], p) == Positions(s, p) + extra;
    assert |s| !in Positions(s, p);
  }

  /** Filtering keeps every element exactly when all of them pass. */
  lemma {:induction false} FilterAll<T>(s: seq<T>, p: T -> bool)
    requires forall i | 0 <= i < |s| :: p(s[i])
    ensures Filter(s, p) == s
  {
    if s != [] {
      FilterAll(s[1..], p);
    }
  }

  lemma {:induction false} FilterNone<T>(s: seq<T>, p: T -> bool)
    requires forall i | 0 <= i < |s| :: !p(s[i])
    ensures Filter(s, p) == []
  {
    if s != [] {
      FilterNone(s[1..], p);
    }
  }

  /** Filtering with a predicate implied by another never keeps more. */
  lemma {:induction false} FilterWeaker<T>(s: seq<T>, p: T -> bool, q: T -> bool)
    requires forall x :: p(x) ==> q(x)
    ensures |Filter(s, p)| <= |Filter(s, q)|
  {
    if s != [] {
      FilterWeaker(s[1..], p, q);
    }
  }

  /** `s.findIndex(p)`: the first index whose element satisfies `p`, or -1. */
  function FindIndex<T>(s: seq<T>, p: T -> bool): (k: int)
    ensures -1 <= k < |s|
    ensures k == -1 <==> forall i | 0 <= i < |s| :: !p(s[i])
    ensures k >= 0 ==> p(s[k]) && forall i | 0 <= i < k :: !p(s[i])
  {
    if s == [] then -1
    else if p(s[0]) then 0
    else var k := FindIndex(s[1..], p); if k < 0 then -1 else k + 1
  }

  /** `s.reverse()` on a copy. */
  function Reverse<T>(s: seq<T>): (r: seq<T>)
    ensures |r| == |s|
    ensures forall i | 0 <= i < |s| :: r[i] == s[|s| - 1 - i]
  {
    if s == [] then [] else Reverse(s[1..]) + [s[0]]
  }

  /** Appending the next element of `b` to `a + b[..i]` gives `a + b[..i + 1]`. */
  lemma AfterPrefixExtend<T>(a: seq<T>, b: seq<T>, i: nat)
    requires i < |b|
    ensures (a + b[..i]) + [b[i]] == a + b[..i + 1]
    ensures a + b[..0] == a
  {
    assert b[..i + 1] == b[..i] + [b[i]];
  }
}

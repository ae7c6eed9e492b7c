/**
 * Generic sequence operations that the JavaScript code obtains from its
 * standard library: `Array.prototype.filter`, `map`, `reduce` with `+`, and
 * `sort` with a comparator.
 */
module Seqs {

  /** `r` is obtained from `s` by deleting some elements; order is kept. */
  ghost predicate IsSubseq<T>(r: seq<T>, s: seq<T>)
    decreases |s|
  {
    r == [] || (s != [] && ((r[0] == s[0] && IsSubseq(r[1..], s[1..])) || IsSubseq(r, s[1..])))
  }

  /** Putting an element in front of the larger sequence keeps the relation. */
  lemma SubseqCons<T>(r: seq<T>, t: seq<T>, x: T)
    requires IsSubseq(r, t)
    ensures IsSubseq(r, [x] + t)
  {
    assert ([x] + t)[1..] == t;
  }

  /** `Array.prototype.filter`: the elements of `s` that satisfy `p`, in order. */
  function Select<T>(s: seq<T>, p: T -> bool): (r: seq<T>)
    ensures |r| <= |s|
    ensures forall x :: x in r ==> x in s && p(x)
  {
    if s == [] then [] else (if p(s[0]) then [s[0]] else []) + Select(s[1..], p)
  }

  lemma {:induction false} SelectIsSubseq<T>(s: seq<T>, p: T -> bool)
    ensures IsSubseq(Select(s, p), s)
  {
    if s != [] {
      SelectIsSubseq(s[1..], p);
      var r := Select(s[1..], p);
      if p(s[0]) {
        assert Select(s, p) == [s[0]] + r;
        assert ([s[0]] + r)[1..] == r;
      } else {
        assert Select(s, p) == r;
        SubseqCons(r, s[1..], s[0]);
        assert [s[0]] + s[1..] == s;
      }
    }
  }

  /** Each value occurs in the result exactly as often as in `s` if it passes, else never. */
  lemma {:induction false} SelectCount<T>(s: seq<T>, p: T -> bool)
    ensures forall x :: multiset(Select(s, p))[x] == if p(x) then multiset(s)[x] else 0
  {
    if s != [] {
      SelectCount(s[1..], p);
      assert s == [s[0]] + s[1..];
    }
  }

  lemma {:induction false} SelectAll<T>(s: seq<T>, p: T -> bool)
    requires forall x :: x in s ==> p(x)
    ensures Select(s, p) == s
  {
    if s != [] {
      SelectAll(s[1..], p);
    }
  }

  lemma {:induction false} SelectAppend<T>(a: seq<T>, b: seq<T>, p: T -> bool)
    ensures Select(a + b, p) == Select(a, p) + Select(b, p)
  {
    if a != [] {
      assert (a + b)[0] == a[0] && (a + b)[1..] == a[1..] + b;
      SelectAppend(a[1..], b, p);
    } else {
      assert a + b == b;
    }
  }

  /** `Array.prototype.map` with a total callback. */
  function Map<T, U>(s: seq<T>, f: T -> U): seq<U>
  {
    seq(|s|, i requires 0 <= i < |s| => f(s[i]))
  }

  /** The value column of a table whose values are already numbers. */
  function Identity(v: int): int
  {
    v
  }

  /** `reduce((a, b) => a + b, 0)`. */
  function Sum(s: seq<int>): int
  {
    if s == [] then 0 else s[0] + Sum(s[1..])
  }

  lemma {:induction false} SumAppend(a: seq<int>, b: seq<int>)
    ensures Sum(a + b) == Sum(a) + Sum(b)
  {
    if a != [] {
      assert (a + b)[0] == a[0] && (a + b)[1..] == a[1..] + b;
      SumAppend(a[1..], b);
    } else {
      assert a + b == b;
    }
  }

  lemma MapAppend<T, U>(a: seq<T>, b: seq<T>, f: T -> U)
    ensures Map(a + b, f) == Map(a, f) + Map(b, f)
  {
  }

  /** Summing `f` over the selected elements is summing `g` over all, when `g` is `f` on them and 0 elsewhere. */
  lemma {:induction false} SumSelected<T>(s: seq<T>, p: T -> bool, f: T -> int, g: T -> int)
    requires forall x :: g(x) == if p(x) then f(x) else 0
    ensures Sum(Map(Select(s, p), f)) == Sum(Map(s, g))
  {
    if s != [] {
      SumSelected(s[1..], p, f, g);
      SumMapCons(s, g);
      if p(s[0]) {
        assert Select(s, p) == [s[0]] + Select(s[1..], p);
        SumMapCons(Select(s, p), f);
        assert Select(s, p)[1..] == Select(s[1..], p);
      } else {
        assert Select(s, p) == Select(s[1..], p);
      }
    }
  }

  /** The sum over a non-empty sequence is the sum over all but the last term, plus the last term. */
  lemma SumMapSnoc<T>(s: seq<T>, f: T -> int)
    requires s != []
    ensures Sum(Map(s, f)) == Sum(Map(s[..|s| - 1], f)) + f(s[|s| - 1])
  {
    var n := |s| - 1;
    assert s == s[..n] + [s[n]];
    MapAppend(s[..n], [s[n]], f);
    SumAppend(Map(s[..n], f), Map([s[n]], f));
    assert Sum(Map([s[n]], f)) == f(s[n]);
  }

  /** The sum over a non-empty sequence is its first term plus the sum over the rest. */
  lemma SumMapCons<T>(s: seq<T>, f: T -> int)
    requires s != []
    ensures Sum(Map(s, f)) == f(s[0]) + Sum(Map(s[1..], f))
  {
    assert Map(s, f)[1..] == Map(s[1..], f);
  }

  lemma {:induction false} SumNonNegative(s: seq<int>)
    requires forall k :: 0 <= k < |s| ==> s[k] >= 0
    ensures Sum(s) >= 0
  {
    if s != [] {
      SumNonNegative(s[1..]);
    }
  }

  /** Taking element `i` out of a sequence takes exactly its term out of the sum. */
  lemma SumMapRemove<T>(b: seq<T>, i: nat, f: T -> int)
    requires i < |b|
    ensures Sum(Map(b, f)) == f(b[i]) + Sum(Map(b[..i] + b[i + 1..], f))
  {
    var l, x, r := b[..i], b[i], b[i + 1..];
    assert b == l + [x] + r;
    MapAppend(l + [x], r, f);
    MapAppend(l, [x], f);
    MapAppend(l, r, f);
    SumAppend(Map(l, f) + Map([x], f), Map(r, f));
    SumAppend(Map(l, f), Map([x], f));
    SumAppend(Map(l, f), Map(r, f));
    assert Sum(Map([x], f)) == f(x) by {
      assert Map([x], f) == [f(x)];
      assert [f(x)][1..] == [];
    }
  }

  /** Taking element `i` out of a sequence takes one copy of it out of the multiset. */
  lemma MultisetRemove<T>(b: seq<T>, i: nat)
    requires i < |b|
    ensures multiset(b[..i] + b[i + 1..]) == multiset(b) - multiset{b[i]}
  {
    assert b == b[..i] + [b[i]] + b[i + 1..];
    assert multiset(b) == multiset(b[..i]) + multiset{b[i]} + multiset(b[i + 1..]);
  }

  /** The sum of `f` over a sequence depends only on its multiset of elements. */
  lemma {:induction false} SumMapPerm<T>(a: seq<T>, b: seq<T>, f: T -> int)
    requires multiset(a) == multiset(b)
    ensures Sum(Map(a, f)) == Sum(Map(b, f))
  {
    if a == [] {
      assert |b| == |multiset(b)| == 0;
    } else {
      var x := a[0];
      assert x in multiset(b);
      var i :| 0 <= i < |b| && b[i] == x;
      var b' := b[..i] + b[i + 1..];
      MultisetRemove(b, i);
      assert a == [x] + a[1..];
      assert multiset(a[1..]) == multiset(b');
      SumMapPerm(a[1..], b', f);
      SumMapRemove(b, i, f);
      SumMapCons(a, f);
    }
  }

  /** `le` is total and transitive: what `Array.prototype.sort` needs from a comparator. */
  ghost predicate TotalPreorder<T(!new)>(le: (T, T) -> bool)
  {
    && (forall a, b :: le(a, b) || le(b, a))
    && (forall a, b, c :: le(a, b) && le(b, c) ==> le(a, c))
  }

  predicate SortedBy<T>(s: seq<T>, le: (T, T) -> bool)
  {
    forall i, j :: 0 <= i < j < |s| ==> le(s[i], s[j])
  }

  function Insert<T>(x: T, s: seq<T>, le: (T, T) -> bool): (r: seq<T>)
    ensures multiset(r) == multiset(s) + multiset{x}
  {
    if s == [] || le(x, s[0]) then [x] + s
    else
      assert s == [s[0]] + s[1..];
      [s[0]] + Insert(x, s[1..], le)
  }

  /** `Array.prototype.sort(cmp)`: a rearrangement of `s` (stated here; order in SortBySorted). */
  function SortBy<T>(s: seq<T>, le: (T, T) -> bool): (r: seq<T>)
    ensures multiset(r) == multiset(s)
  {
    if s == [] then []
    else
      assert s == [s[0]] + s[1..];
      Insert(s[0], SortBy(s[1..], le), le)
  }

  /** Inserting an element that is above `lo` into elements above `lo` keeps them all above `lo`. */
  lemma InsertAbove<T>(x: T, s: seq<T>, le: (T, T) -> bool, lo: T)
    requires le(lo, x) && forall k :: 0 <= k < |s| ==> le(lo, s[k])
    ensures forall k :: 0 <= k < |Insert(x, s, le)| ==> le(lo, Insert(x, s, le)[k])
  {
    var r := Insert(x, s, le);
    forall k | 0 <= k < |r| ensures le(lo, r[k]) {
      assert r[k] in multiset(r);
      if r[k] != x {
        assert r[k] in multiset(s);
        var j :| 0 <= j < |s| && s[j] == r[k];
      }
    }
  }

  lemma {:induction false} InsertSorted<T(!new)>(x: T, s: seq<T>, le: (T, T) -> bool)
    requires TotalPreorder(le) && SortedBy(s, le)
    ensures SortedBy(Insert(x, s, le), le)
  {
    if s != [] && !le(x, s[0]) {
      var tail := s[1..];
      var t := Insert(x, tail, le);
      InsertSorted(x, tail, le);
      assert le(s[0], x);
      forall k | 0 <= k < |tail| ensures le(s[0], tail[k]) {
        assert tail[k] == s[k + 1];
      }
      InsertAbove(x, tail, le, s[0]);
      var r := [s[0]] + t;
      assert Insert(x, s, le) == r;
      forall i, j | 0 <= i < j < |r| ensures le(r[i], r[j]) {
        if i == 0 {
          assert r[j] == t[j - 1];
        } else {
          assert r[i] == t[i - 1] && r[j] == t[j - 1];
        }
      }
    }
  }

  lemma {:induction false} SortBySorted<T(!new)>(s: seq<T>, le: (T, T) -> bool)
    requires TotalPreorder(le)
    ensures SortedBy(SortBy(s, le), le)
  {
    if s != [] {
      SortBySorted(s[1..], le);
      InsertSorted(s[0], SortBy(s[1..], le), le);
    }
  }
}

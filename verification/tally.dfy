/**
 * Objects used as dictionaries by the chart code: `m[k] = (m[k] || 0) + a`
 * and `m[k] ||= {income: 0, expense: 0}; m[k][type] += a`. A JavaScript
 * object lists its (string) keys in insertion order, so a table is the
 * sequence of its (key, value) pairs in that order.
 */
module Tally {
  import opened Wrappers
  import opened Seqs

  type Table<K, V> = seq<(K, V)>

  /** `Object.keys(m)`. */
  function Keys<K, V>(tb: Table<K, V>): seq<K>
  {
    Map(tb, (e: (K, V)) => e.0)
  }

  /** `Object.values(m)`. */
  function Values<K, V>(tb: Table<K, V>): seq<V>
  {
    Map(tb, (e: (K, V)) => e.1)
  }

  ghost predicate Distinct<K>(ks: seq<K>)
  {
    forall i, j :: 0 <= i < j < |ks| ==> ks[i] != ks[j]
  }

  /** `m[k]`, or `dflt` when the key is absent. */
  function Get<K(==), V>(tb: Table<K, V>, k: K, dflt: V): V
  {
    if tb == [] then dflt else if tb[0].0 == k then tb[0].1 else Get(tb[1..], k, dflt)
  }

  /** Replace the value `v` at `k` by `upd(x, v)`; an absent key is added at the end, starting from `init`. */
  function Upsert<T, K(==), V>(tb: Table<K, V>, k: K, init: V, upd: (T, V) -> V, x: T): Table<K, V>
  {
    if tb == [] then [(k, upd(x, init))]
    else if tb[0].0 == k then [(k, upd(x, tb[0].1))] + tb[1..]
    else [tb[0]] + Upsert(tb[1..], k, init, upd, x)
  }

  lemma {:induction false} UpsertKeys<T, K, V>(tb: Table<K, V>, k: K, init: V, upd: (T, V) -> V, x: T)
    ensures Keys(Upsert(tb, k, init, upd, x)) == if k in Keys(tb) then Keys(tb) else Keys(tb) + [k]
  {
    var r := Upsert(tb, k, init, upd, x);
    if tb == [] {
      assert Keys(r) == [k];
    } else if tb[0].0 == k {
      assert Keys(tb)[0] == k;
      assert Keys(r) == Keys(tb);
    } else {
      var r' := Upsert(tb[1..], k, init, upd, x);
      UpsertKeys(tb[1..], k, init, upd, x);
      assert Keys(tb) == [tb[0].0] + Keys(tb[1..]);
      assert Keys(r) == [tb[0].0] + Keys(r');
      assert k in Keys(tb) <==> k in Keys(tb[1..]);
      if k in Keys(tb[1..]) {
        assert Keys(r) == Keys(tb);
      } else {
        assert Keys(r) == Keys(tb) + [k];
      }
    }
  }

  lemma {:induction false} UpsertGet<T, K, V>(tb: Table<K, V>, k: K, init: V, upd: (T, V) -> V, x: T, k': K)
    ensures Get(Upsert(tb, k, init, upd, x), k', init)
         == if k' == k then upd(x, Get(tb, k, init)) else Get(tb, k', init)
  {
    if tb != [] && tb[0].0 != k {
      UpsertGet(tb[1..], k, init, upd, x, k');
    }
  }

  /** How a numeric column `g` of the values changes under one update. */
  lemma {:induction false} UpsertColumnSum<T, K, V>(tb: Table<K, V>, k: K, init: V, upd: (T, V) -> V, x: T, g: V -> int)
    ensures Sum(Map(Values(Upsert(tb, k, init, upd, x)), g))
         == Sum(Map(Values(tb), g)) + g(upd(x, Get(tb, k, init)))
            - (if k in Keys(tb) then g(Get(tb, k, init)) else 0)
  {
    var r := Upsert(tb, k, init, upd, x);
    if tb == [] {
      assert Map(Values(r), g) == [g(upd(x, init))];
    } else {
      assert Map(Values(tb), g) == [g(tb[0].1)] + Map(Values(tb[1..]), g);
      assert Keys(tb) == [tb[0].0] + Keys(tb[1..]);
      if tb[0].0 == k {
        assert Map(Values(r), g) == [g(upd(x, tb[0].1))] + Map(Values(tb[1..]), g);
      } else {
        UpsertColumnSum(tb[1..], k, init, upd, x, g);
        assert Map(Values(r), g) == [g(tb[0].1)] + Map(Values(Upsert(tb[1..], k, init, upd, x)), g);
      }
    }
  }

  /** With distinct keys, looking up the key of an entry finds that entry's value. */
  lemma {:induction false} GetAt<K, V>(tb: Table<K, V>, i: nat, dflt: V)
    requires Distinct(Keys(tb)) && i < |tb|
    ensures Get(tb, tb[i].0, dflt) == tb[i].1
  {
    if i > 0 {
      assert Keys(tb)[0] != Keys(tb)[i];
      assert Keys(tb[1..]) == Keys(tb)[1..];
      GetAt(tb[1..], i - 1, dflt);
    }
  }

  /**
   * The table a `forEach` loop builds: each item with a key updates that
   * key's value; items without a key are skipped.
   */
  function Fold<T, K(==), V>(items: seq<T>, key: T -> Option<K>, init: V, upd: (T, V) -> V): Table<K, V>
  {
    if items == [] then []
    else
      var prev := Fold(items[..|items| - 1], key, init, upd);
      var x := items[|items| - 1];
      match key(x)
      case None => prev
      case Some(k) => Upsert(prev, k, init, upd, x)
  }

  /** The keys are distinct, and they are exactly the keys of the items. */
  lemma {:induction false} FoldKeys<T, K, V>(items: seq<T>, key: T -> Option<K>, init: V, upd: (T, V) -> V)
    ensures Distinct(Keys(Fold(items, key, init, upd)))
    ensures forall k :: k in Keys(Fold(items, key, init, upd)) <==> exists i :: 0 <= i < |items| && key(items[i]) == Some(k)
  {
    if items != [] {
      var n := |items| - 1;
      var prev := Fold(items[..n], key, init, upd);
      FoldKeys(items[..n], key, init, upd);
      assert forall i :: 0 <= i < n ==> items[..n][i] == items[i];
      match key(items[n])
      case None =>
      case Some(k) =>
        UpsertKeys(prev, k, init, upd, items[n]);
    }
  }

  /**
   * When `g` of a value grows by `w(x)` on each update of `x` and `g(init)`
   * is 0, `g` of a key's value is the sum of `w` over the items with that key.
   */
  lemma {:induction false} FoldGet<T, K, V>(items: seq<T>, key: T -> Option<K>, init: V, upd: (T, V) -> V,
                                            g: V -> int, w: T -> int, k: K, h: T -> int)
    requires g(init) == 0
    requires forall x, v :: g(upd(x, v)) == g(v) + w(x)
    requires forall x :: h(x) == if key(x) == Some(k) then w(x) else 0
    ensures g(Get(Fold(items, key, init, upd), k, init)) == Sum(Map(items, h))
  {
    if items != [] {
      var n := |items| - 1;
      var prev := Fold(items[..n], key, init, upd);
      FoldGet(items[..n], key, init, upd, g, w, k, h);
      SumMapSnoc(items, h);
      match key(items[n])
      case None =>
        assert Fold(items, key, init, upd) == prev;
      case Some(k0) =>
        assert Fold(items, key, init, upd) == Upsert(prev, k0, init, upd, items[n]);
        UpsertGet(prev, k0, init, upd, items[n], k);
    }
  }

  /** Under the same conditions, the column `g` sums to the sum of `w` over all items that have a key. */
  lemma {:induction false} FoldColumnSum<T, K, V>(items: seq<T>, key: T -> Option<K>, init: V, upd: (T, V) -> V,
                                                  g: V -> int, w: T -> int, h: T -> int)
    requires g(init) == 0
    requires forall x, v :: g(upd(x, v)) == g(v) + w(x)
    requires forall x :: h(x) == if key(x).Some? then w(x) else 0
    ensures Sum(Map(Values(Fold(items, key, init, upd)), g)) == Sum(Map(items, h))
  {
    if items != [] {
      var n := |items| - 1;
      var prev := Fold(items[..n], key, init, upd);
      FoldColumnSum(items[..n], key, init, upd, g, w, h);
      SumMapSnoc(items, h);
      match key(items[n])
      case None =>
        assert Fold(items, key, init, upd) == prev;
      case Some(k0) =>
        assert Fold(items, key, init, upd) == Upsert(prev, k0, init, upd, items[n]);
        UpsertColumnSum(prev, k0, init, upd, items[n], g);
        if k0 !in Keys(prev) {
          GetAbsent(prev, k0, init);
        }
    }
  }

  lemma {:induction false} GetAbsent<K, V>(tb: Table<K, V>, k: K, dflt: V)
    requires k !in Keys(tb)
    ensures Get(tb, k, dflt) == dflt
  {
    if tb != [] {
      assert Keys(tb) == [tb[0].0] + Keys(tb[1..]);
      GetAbsent(tb[1..], k, dflt);
    }
  }

  /**
   * A column read through the keys in another order: if `ks` is a
   * rearrangement of the distinct keys, reading `g` of each key's value
   * sums to the column's sum.
   */
  lemma ColumnByKeys<K, V>(tb: Table<K, V>, ks: seq<K>, dflt: V, g: V -> int, f: K -> int)
    requires Distinct(Keys(tb))
    requires multiset(ks) == multiset(Keys(tb))
    requires forall k :: f(k) == g(Get(tb, k, dflt))
    ensures Sum(Map(ks, f)) == Sum(Map(Values(tb), g))
  {
    SumMapPerm(ks, Keys(tb), f);
    forall i | 0 <= i < |tb| ensures Map(Keys(tb), f)[i] == Map(Values(tb), g)[i] {
      GetAt(tb, i, dflt);
    }
    assert Map(Keys(tb), f) == Map(Values(tb), g);
  }

  lemma {:induction false} DistinctCount<K>(s: seq<K>, x: K)
    requires Distinct(s)
    ensures multiset(s)[x] <= 1
  {
    if s != [] {
      assert Distinct(s[1..]) by {
        forall i, j | 0 <= i < j < |s[1..]| ensures s[1..][i] != s[1..][j] {
          assert s[1..][i] == s[i + 1] && s[1..][j] == s[j + 1];
        }
      }
      DistinctCount(s[1..], x);
      assert s == [s[0]] + s[1..];
      if s[0] == x {
        assert x !in s[1..] by {
          forall j | 0 <= j < |s[1..]| ensures s[1..][j] != x {
            assert s[1..][j] == s[j + 1];
          }
        }
      }
    }
  }

  /** A rearrangement of distinct keys is distinct. */
  lemma DistinctPerm<K>(a: seq<K>, b: seq<K>)
    requires Distinct(a) && multiset(a) == multiset(b)
    ensures Distinct(b)
  {
    forall i, j | 0 <= i < j < |b| ensures b[i] != b[j] {
      if b[i] == b[j] {
        var x := b[i];
        assert b == b[..j] + b[j..];
        assert x in b[..j] && x in b[j..];
        assert multiset(b)[x] == multiset(b[..j])[x] + multiset(b[j..])[x];
        DistinctCount(a, x);
        assert false;
      }
    }
  }
}

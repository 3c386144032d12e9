/** Python's `OrderedDict`, as both revisions of the schema engine use it: a
    sequence of key/value pairs in insertion order. Binding an existing key
    replaces its value where it stands; binding a new key appends it; `del`
    removes one entry and leaves the others in order. `Dedup` is the
    first-seen order of a sequence, the order in which such a dictionary
    receives its keys. */
module OrderedDicts {
  import opened Wrappers

  function Keys<K, V>(d: seq<(K, V)>): (ks: seq<K>)
    ensures |ks| == |d| && forall i :: 0 <= i < |d| ==> ks[i] == d[i].0
  {
    seq(|d|, i requires 0 <= i < |d| => d[i].0)
  }

  /** Iteration over the values, in insertion order (`d.values()`). */
  function Values<K, V>(d: seq<(K, V)>): (vs: seq<V>)
    ensures |vs| == |d| && forall i :: 0 <= i < |d| ==> vs[i] == d[i].1
  {
    seq(|d|, i requires 0 <= i < |d| => d[i].1)
  }

  predicate Distinct<T(==)>(xs: seq<T>)
  {
    forall i, j :: 0 <= i < j < |xs| ==> xs[i] != xs[j]
  }

  lemma DistinctSnoc<T>(xs: seq<T>, x: T)
    ensures Distinct(xs + [x]) <==> Distinct(xs) && x !in xs
  {
    if Distinct(xs + [x]) {
      forall i, j | 0 <= i < j < |xs| ensures xs[i] != xs[j] {
        assert (xs + [x])[i] == xs[i] && (xs + [x])[j] == xs[j];
      }
      forall i | 0 <= i < |xs| ensures xs[i] != x {
        assert (xs + [x])[i] == xs[i] && (xs + [x])[|xs|] == x;
      }
    }
  }

  lemma KeysTail<K, V>(d: seq<(K, V)>)
    requires d != []
    ensures Keys(d) == [d[0].0] + Keys(d[1..])
  {
  }

  /** `d[k]` when `k` is bound, `None` (a `KeyError`) otherwise. */
  function Get<K(==,!new), V>(d: seq<(K, V)>, k: K): (r: Option<V>)
    ensures r.Some? <==> k in Keys(d)
  {
    if d == [] then None
    else
      KeysTail(d);
      if d[0].0 == k then Some(d[0].1) else Get(d[1..], k)
  }

  /** Position of the entry for `k`. */
  function IndexOf<K(==,!new), V>(d: seq<(K, V)>, k: K): (i: nat)
    requires k in Keys(d)
    ensures i < |d| && d[i].0 == k
    ensures forall j :: 0 <= j < i ==> d[j].0 != k
  {
    if d[0].0 == k then 0
    else
      KeysTail(d);
      var i := IndexOf(d[1..], k);
      assert d[1 + i] == d[1..][i];
      1 + i
  }

  /** `d[k] = v` */
  function Set<K(==,!new), V>(d: seq<(K, V)>, k: K, v: V): (r: seq<(K, V)>)
    ensures Keys(r) == if k in Keys(d) then Keys(d) else Keys(d) + [k]
  {
    if d == [] then [(k, v)]
    else
      KeysTail(d);
      var r := if d[0].0 == k then [(k, v)] + d[1..] else [d[0]] + Set(d[1..], k, v);
      assert r[1..] == if d[0].0 == k then d[1..] else Set(d[1..], k, v);
      KeysTail(r);
      r
  }

  /** After `d[k] = v`, `d[k]` is `v` and every other key reads as before. */
  lemma {:induction false} GetSet<K(!new), V>(d: seq<(K, V)>, k: K, v: V)
    ensures Get(Set(d, k, v), k) == Some(v)
    ensures forall k' :: k' != k ==> Get(Set(d, k, v), k') == Get(d, k')
  {
    if d != [] && d[0].0 != k {
      var r := Set(d, k, v);
      assert r == [d[0]] + Set(d[1..], k, v);
      assert r[1..] == Set(d[1..], k, v);
      GetSet(d[1..], k, v);
    }
  }

  /** On a dictionary, binding a key that is present changes that one entry. */
  lemma {:induction false} SetAt<K(!new), V>(d: seq<(K, V)>, i: nat, v: V)
    requires Distinct(Keys(d)) && i < |d|
    ensures Set(d, d[i].0, v) == d[i := (d[i].0, v)]
  {
    if i > 0 {
      KeysTail(d);
      assert Keys(d)[0] != Keys(d)[i];
      assert Keys(d[1..]) == Keys(d)[1..];
      SetAt(d[1..], i - 1, v);
      ConsUpdate(d, i, (d[i].0, v));
    }
  }

  lemma ConsUpdate<T>(s: seq<T>, i: nat, x: T)
    requires 0 < i < |s|
    ensures [s[0]] + s[1..][i - 1 := x] == s[i := x]
  {
  }

  /** Binding a key that is absent appends one entry. */
  lemma {:induction false} SetNew<K(!new), V>(d: seq<(K, V)>, k: K, v: V)
    requires k !in Keys(d)
    ensures Set(d, k, v) == d + [(k, v)]
  {
    if d != [] {
      KeysTail(d);
      SetNew(d[1..], k, v);
      ConsSnoc(d, (k, v));
    }
  }

  lemma ConsSnoc<T>(s: seq<T>, y: T)
    requires s != []
    ensures [s[0]] + (s[1..] + [y]) == s + [y]
  {
    assert s == [s[0]] + s[1..];
  }

  /** The second of two bindings of the same key is the one that counts. */
  lemma {:induction false} SetSet<K(!new), V>(d: seq<(K, V)>, k: K, a: V, b: V)
    ensures Set(Set(d, k, a), k, b) == Set(d, k, b)
  {
    if d != [] && d[0].0 != k {
      KeysTail(d);
      SetSet(d[1..], k, a, b);
      var r := Set(d, k, a);
      assert r == [d[0]] + Set(d[1..], k, a);
      assert r[1..] == Set(d[1..], k, a);
    }
  }

  /** In a dictionary, looking up the key of an entry finds that entry's value. */
  lemma {:induction false} GetAt<K(!new), V>(d: seq<(K, V)>, i: nat)
    requires Distinct(Keys(d)) && i < |d|
    ensures Get(d, d[i].0) == Some(d[i].1)
  {
    if i > 0 {
      assert Keys(d[1..]) == Keys(d)[1..];
      GetAt(d[1..], i - 1);
    }
  }

  /** `del d[k]` */
  function Delete<K(==,!new), V>(d: seq<(K, V)>, k: K): (r: seq<(K, V)>)
    requires k in Keys(d)
  {
    var i := IndexOf(d, k);
    d[..i] + d[i + 1..]
  }

  lemma {:induction false} GetAppend<K(!new), V>(a: seq<(K, V)>, b: seq<(K, V)>, k: K)
    ensures Get(a + b, k) == if k in Keys(a) then Get(a, k) else Get(b, k)
  {
    if a != [] {
      assert (a + b)[1..] == a[1..] + b;
      GetAppend(a[1..], b, k);
      KeysTail(a);
    } else {
      assert a + b == b;
    }
  }

  /** Deleting a key removes exactly its entry: every other key keeps its
      value and the remaining entries keep their order. */
  lemma DeleteKeepsOthers<K(!new), V>(d: seq<(K, V)>, k: K)
    requires Distinct(Keys(d)) && k in Keys(d)
    ensures var i := IndexOf(d, k);
      Keys(Delete(d, k)) == Keys(d)[..i] + Keys(d)[i + 1..]
    ensures k !in Keys(Delete(d, k)) && Distinct(Keys(Delete(d, k)))
    ensures forall k' :: k' != k ==> Get(Delete(d, k), k') == Get(d, k')
  {
    DeleteKeys(d, k);
    DeleteDistinct(d, k);
    forall k' | k' != k
      ensures Get(Delete(d, k), k') == Get(d, k')
    {
      DeleteGet(d, k, k');
    }
  }

  lemma DeleteKeys<K(!new), V>(d: seq<(K, V)>, k: K)
    requires k in Keys(d)
    ensures var i := IndexOf(d, k);
      Keys(Delete(d, k)) == Keys(d)[..i] + Keys(d)[i + 1..]
  {
  }

  lemma DeleteDistinct<K(!new), V>(d: seq<(K, V)>, k: K)
    requires Distinct(Keys(d)) && k in Keys(d)
    ensures k !in Keys(Delete(d, k)) && Distinct(Keys(Delete(d, k)))
  {
    var i := IndexOf(d, k);
    var ks := Keys(d);
    DeleteKeys(d, k);
    assert Keys(Delete(d, k)) == ks[..i] + ks[i + 1..];
  }

  lemma DeleteGet<K(!new), V>(d: seq<(K, V)>, k: K, k': K)
    requires k in Keys(d) && k' != k
    ensures Get(Delete(d, k), k') == Get(d, k')
  {
    var i := IndexOf(d, k);
    assert d == d[..i] + ([d[i]] + d[i + 1..]);
    GetAppend(d[..i], d[i + 1..], k');
    GetAppend(d[..i], [d[i]] + d[i + 1..], k');
    GetAppend([d[i]], d[i + 1..], k');
  }

  // ---------------------------------------------------------------------
  // first-seen order

  /** The distinct elements of `xs` in the order of their first occurrence. */
  function Dedup<T(==,!new)>(xs: seq<T>): (r: seq<T>)
    ensures Distinct(r)
    ensures forall x :: x in r <==> x in xs
  {
    if xs == [] then []
    else
      var d := Dedup(xs[..|xs| - 1]);
      assert xs == xs[..|xs| - 1] + [xs[|xs| - 1]];
      if xs[|xs| - 1] in d then d else d + [xs[|xs| - 1]]
  }

  lemma DedupSnoc<T(!new)>(xs: seq<T>, x: T)
    ensures Dedup(xs + [x]) == if x in Dedup(xs) then Dedup(xs) else Dedup(xs) + [x]
  {
    assert (xs + [x])[..|xs|] == xs;
  }

  /** Position of the first occurrence of `x`. */
  function FirstIndex<T(==,!new)>(xs: seq<T>, x: T): (i: nat)
    requires x in xs
    ensures i < |xs| && xs[i] == x
    ensures forall j :: 0 <= j < i ==> xs[j] != x
  {
    if xs[0] == x then 0 else 1 + FirstIndex(xs[1..], x)
  }

  lemma {:induction false} FirstIndexSnoc<T(!new)>(xs: seq<T>, y: T, x: T)
    requires x in xs
    ensures FirstIndex(xs + [y], x) == FirstIndex(xs, x)
  {
    if xs[0] != x {
      assert (xs + [y])[1..] == xs[1..] + [y];
      FirstIndexSnoc(xs[1..], y, x);
    }
  }

  /** The elements of `Dedup(xs)` appear in the order of their first occurrence in `xs`. */
  lemma {:induction false} DedupFirstSeenOrder<T(!new)>(xs: seq<T>)
    ensures forall i, j :: 0 <= i < j < |Dedup(xs)| ==>
      FirstIndex(xs, Dedup(xs)[i]) < FirstIndex(xs, Dedup(xs)[j])
  {
    if xs != [] {
      var ys, y := xs[..|xs| - 1], xs[|xs| - 1];
      assert xs == ys + [y];
      DedupFirstSeenOrder(ys);
      DedupSnoc(ys, y);
      var d := Dedup(ys);
      forall x | x in d
        ensures FirstIndex(xs, x) == FirstIndex(ys, x) < |ys|
      {
        FirstIndexSnoc(ys, y, x);
      }
      if y !in d {
        FirstIndexLast(ys, y);
      }
    }
  }

  lemma {:induction false} FirstIndexLast<T(!new)>(xs: seq<T>, y: T)
    requires y !in xs
    ensures FirstIndex(xs + [y], y) == |xs|
  {
    if xs != [] {
      assert (xs + [y])[1..] == xs[1..] + [y];
      FirstIndexLast(xs[1..], y);
    }
  }

  /** The first element is seen first. */
  lemma DedupHead<T(!new)>(xs: seq<T>)
    requires xs != []
    ensures Dedup(xs) != [] && Dedup(xs)[0] == xs[0]
  {
    DedupFirstSeenOrder(xs);
    var d := Dedup(xs);
    assert xs[0] in d;
    var k :| 0 <= k < |d| && d[k] == xs[0];
    assert FirstIndex(xs, d[k]) == 0;
    var f0 := FirstIndex(xs, d[0]);
    if k != 0 {
      assert false;
    }
  }

  /** A sequence without repetitions is its own first-seen order. */
  lemma {:induction false} DedupDistinct<T(!new)>(xs: seq<T>)
    requires Distinct(xs)
    ensures Dedup(xs) == xs
  {
    if xs != [] {
      var ys := xs[..|xs| - 1];
      DedupDistinct(ys);
      DedupSnoc(ys, xs[|xs| - 1]);
      assert xs == ys + [xs[|xs| - 1]];
    }
  }

  // ---------------------------------------------------------------------
  // binding a sequence of pairs, one after the other

  /** `for k, v in pairs: d[k] = v` */
  function BindAll<K(==,!new), V>(d: seq<(K, V)>, pairs: seq<(K, V)>): seq<(K, V)>
  {
    if pairs == [] then d
    else
      var p := pairs[|pairs| - 1];
      Set(BindAll(d, pairs[..|pairs| - 1]), p.0, p.1)
  }

  /** The value bound to `k` by the last pair for `k`. */
  function LastValue<K(==,!new), V>(pairs: seq<(K, V)>, k: K): V
    requires k in Keys(pairs)
  {
    var p := pairs[|pairs| - 1];
    if p.0 == k then p.1
    else
      assert Keys(pairs) == Keys(pairs[..|pairs| - 1]) + [p.0];
      LastValue(pairs[..|pairs| - 1], k)
  }

  /** Binding pairs keeps the keys already present where they are and
      appends the new keys in the order they are first bound. */
  lemma {:induction false} BindAllKeys<K(!new), V>(d: seq<(K, V)>, pairs: seq<(K, V)>)
    requires Distinct(Keys(d))
    ensures Keys(BindAll(d, pairs)) == Dedup(Keys(d) + Keys(pairs))
  {
    if pairs == [] {
      assert Keys(d) + Keys(pairs) == Keys(d);
      DedupDistinct(Keys(d));
    } else {
      var init, p := pairs[..|pairs| - 1], pairs[|pairs| - 1];
      assert pairs == init + [p];
      BindAllKeys(d, init);
      KeysSnoc(d, init, p);
      DedupSnoc(Keys(d) + Keys(init), p.0);
    }
  }

  lemma KeysSnoc<K, V>(d: seq<(K, V)>, init: seq<(K, V)>, p: (K, V))
    ensures Keys(d) + Keys(init + [p]) == (Keys(d) + Keys(init)) + [p.0]
  {
    assert Keys(init + [p]) == Keys(init) + [p.0];
  }

  /** Binding pairs with distinct keys into an empty dictionary gives them back. */
  lemma {:induction false} BindAllFresh<K(!new), V>(pairs: seq<(K, V)>)
    requires Distinct(Keys(pairs))
    ensures BindAll([], pairs) == pairs
  {
    if pairs != [] {
      var init, p := pairs[..|pairs| - 1], pairs[|pairs| - 1];
      assert pairs == init + [p];
      assert Keys(pairs) == Keys(init) + [p.0];
      DistinctSnoc(Keys(init), p.0);
      BindAllFresh(init);
      assert BindAll([], pairs) == Set(init, p.0, p.1);
      SetNew(init, p.0, p.1);
    }
  }

  /** The last binding of a key wins; keys never bound keep their value. */
  lemma {:induction false} BindAllGet<K(!new), V>(d: seq<(K, V)>, pairs: seq<(K, V)>, k: K)
    ensures Get(BindAll(d, pairs), k) ==
      if k in Keys(pairs) then Some(LastValue(pairs, k)) else Get(d, k)
  {
    if pairs != [] {
      var init, p := pairs[..|pairs| - 1], pairs[|pairs| - 1];
      assert Keys(pairs) == Keys(init) + [p.0];
      BindAllGet(d, init, k);
      GetSet(BindAll(d, init), p.0, p.1);
    }
  }

  // ---------------------------------------------------------------------
  // grouping values by key, keys in first-seen order

  /** The values paired with `k`, in order. */
  function ValuesOf<K(==,!new), V>(pairs: seq<(K, V)>, k: K): seq<V>
  {
    if pairs == [] then []
    else
      var init := ValuesOf(pairs[..|pairs| - 1], k);
      var p := pairs[|pairs| - 1];
      if p.0 == k then init + [p.1] else init
  }

  /** A dictionary of lists filled by appending each value to the list of
      its key, a key's list being created when the key is first seen. */
  function GroupBy<K(==,!new), V>(pairs: seq<(K, V)>): (g: seq<(K, seq<V>)>)
    ensures Keys(g) == Dedup(Keys(pairs))
  {
    var order := Dedup(Keys(pairs));
    seq(|order|, i requires 0 <= i < |order| => (order[i], ValuesOf(pairs, order[i])))
  }

  lemma ValuesOfSnoc<K(!new), V>(pairs: seq<(K, V)>, p: (K, V), k: K)
    ensures ValuesOf(pairs + [p], k) == ValuesOf(pairs, k) + (if p.0 == k then [p.1] else [])
  {
    assert (pairs + [p])[..|pairs|] == pairs;
  }

  /** `v` is in the list of `k` exactly when the pair `(k, v)` occurs. */
  lemma {:induction false} ValuesOfMembers<K(!new), V>(pairs: seq<(K, V)>, k: K, v: V)
    ensures v in ValuesOf(pairs, k) <==> exists i :: 0 <= i < |pairs| && pairs[i] == (k, v)
  {
    if pairs != [] {
      var init := pairs[..|pairs| - 1];
      ValuesOfMembers(init, k, v);
      if v in ValuesOf(init, k) {
        var i :| 0 <= i < |init| && init[i] == (k, v);
        assert pairs[i] == init[i];
      }
      if exists i :: 0 <= i < |pairs| && pairs[i] == (k, v) {
        var i :| 0 <= i < |pairs| && pairs[i] == (k, v);
        if i < |init| {
          assert init[i] == pairs[i];
        }
      }
    }
  }

  lemma {:induction false} ValuesOfAbsent<K(!new), V>(pairs: seq<(K, V)>, k: K)
    requires k !in Keys(pairs)
    ensures ValuesOf(pairs, k) == []
  {
    if pairs != [] {
      var init := pairs[..|pairs| - 1];
      assert Keys(pairs) == Keys(init) + [pairs[|pairs| - 1].0];
      ValuesOfAbsent(init, k);
    }
  }

  lemma {:induction false} ValuesOfPresent<K(!new), V>(pairs: seq<(K, V)>, k: K)
    requires k in Keys(pairs)
    ensures ValuesOf(pairs, k) != []
  {
    var i :| 0 <= i < |pairs| && Keys(pairs)[i] == k;
    ValuesOfMembers(pairs, k, pairs[i].1);
  }

  /** A pair whose key was seen before extends that key's list in place. */
  lemma GroupBySnocSeen<K(!new), V>(pairs: seq<(K, V)>, p: (K, V), j: nat)
    requires var g := GroupBy(pairs); j < |g| && g[j].0 == p.0
    ensures var g := GroupBy(pairs);
      GroupBy(pairs + [p]) == g[j := (p.0, g[j].1 + [p.1])]
  {
    var pairs' := pairs + [p];
    assert Keys(pairs') == Keys(pairs) + [p.0];
    DedupSnoc(Keys(pairs), p.0);
    var order := Dedup(Keys(pairs));
    var g, g' := GroupBy(pairs), GroupBy(pairs');
    assert |g'| == |g|;
    forall i | 0 <= i < |g| ensures g'[i] == g[j := (p.0, g[j].1 + [p.1])][i] {
      ValuesOfSnoc(pairs, p, order[i]);
    }
  }

  /** A pair whose key was not seen opens a new list at the end. */
  lemma GroupBySnocNew<K(!new), V>(pairs: seq<(K, V)>, p: (K, V))
    requires p.0 !in Keys(GroupBy(pairs))
    ensures GroupBy(pairs + [p]) == GroupBy(pairs) + [(p.0, [p.1])]
  {
    var pairs' := pairs + [p];
    assert Keys(pairs') == Keys(pairs) + [p.0];
    DedupSnoc(Keys(pairs), p.0);
    var order := Dedup(Keys(pairs));
    var g, g' := GroupBy(pairs), GroupBy(pairs');
    ValuesOfAbsent(pairs, p.0);
    assert Dedup(Keys(pairs')) == order + [p.0];
    forall i | 0 <= i < |g'| ensures g'[i] == (g + [(p.0, [p.1])])[i] {
      if i < |order| {
        assert order[i] in Keys(g);
        ValuesOfSnoc(pairs, p, order[i]);
        assert g'[i] == (order[i], ValuesOf(pairs', order[i]));
        assert g[i] == (order[i], ValuesOf(pairs, order[i]));
        assert (g + [(p.0, [p.1])])[i] == g[i];
      } else {
        ValuesOfSnoc(pairs, p, p.0);
        assert g'[i] == (p.0, ValuesOf(pairs', p.0));
        assert ValuesOf(pairs', p.0) == [p.1];
        assert i == |g|;
      }
    }
  }

  /** One more pair updates the groups as `d.setdefault(k, []).append(v)` does. */
  lemma GroupBySnoc<K(!new), V>(pairs: seq<(K, V)>, p: (K, V))
    ensures var g := GroupBy(pairs);
      GroupBy(pairs + [p]) == Set(g, p.0, (if p.0 in Keys(g) then Get(g, p.0).value else []) + [p.1])
  {
    var g := GroupBy(pairs);
    if p.0 in Keys(g) {
      var j :| 0 <= j < |g| && g[j].0 == p.0;
      GetAt(g, j);
      SetAt(g, j, g[j].1 + [p.1]);
      GroupBySnocSeen(pairs, p, j);
    } else {
      assert [] + [p.1] == [p.1];
      SetNew(g, p.0, [p.1]);
      GroupBySnocNew(pairs, p);
    }
  }

  /** The groups partition the pairs: distinct keys in first-seen order,
      no empty list, and each value listed under its own key. */
  lemma GroupByPartition<K(!new), V>(pairs: seq<(K, V)>)
    ensures var g := GroupBy(pairs);
      && Distinct(Keys(g))
      && (forall j :: 0 <= j < |g| ==> g[j].1 != [])
      && (forall j, v :: 0 <= j < |g| ==> (v in g[j].1 <==> exists i :: 0 <= i < |pairs| && pairs[i] == (g[j].0, v)))
  {
    var g := GroupBy(pairs);
    forall j | 0 <= j < |g| ensures g[j].1 != [] {
      ValuesOfPresent(pairs, g[j].0);
    }
    forall j, v | 0 <= j < |g|
      ensures v in g[j].1 <==> exists i :: 0 <= i < |pairs| && pairs[i] == (g[j].0, v)
    {
      ValuesOfMembers(pairs, g[j].0, v);
    }
  }
}

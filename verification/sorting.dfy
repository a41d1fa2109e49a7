/** Python's `list.sort(key=..., reverse=True)`: a stable sort into
    non-increasing key order. Stability under `reverse=True` means that items
    with equal keys keep their original relative order. The model sorts by
    insertion; `SortDescIsUnique` shows that any other stable sort gives the
    same list. */
module Sorting {
  import opened Seqs

  /** Keys never increase from left to right. */
  predicate SortedDesc<T>(xs: seq<T>, key: T -> int) {
    forall i, j :: 0 <= i < j < |xs| ==> key(xs[i]) >= key(xs[j])
  }

  /** The items of `xs` whose key is `v`, in their order in `xs`. */
  function WithKey<T>(xs: seq<T>, key: T -> int, v: int): (r: seq<T>)
    ensures |r| <= |xs|
    ensures forall x :: x in r ==> x in xs && key(x) == v
  {
    if |xs| == 0 then []
    else if key(xs[0]) == v then [xs[0]] + WithKey(xs[1..], key, v)
    else WithKey(xs[1..], key, v)
  }

  /** Puts `x` in front of every item whose key is not greater than its own. */
  function InsertDesc<T>(x: T, xs: seq<T>, key: T -> int): (r: seq<T>)
    requires SortedDesc(xs, key)
    ensures SortedDesc(r, key)
    ensures |r| == |xs| + 1
    ensures multiset(r) == multiset(xs) + multiset{x}
  {
    if |xs| == 0 || key(x) >= key(xs[0]) then [x] + xs
    else
      var rest := InsertDesc(x, xs[1..], key);
      assert xs == [xs[0]] + xs[1..];
      HeadDominates(xs[0], x, xs[1..], rest, key);
      [xs[0]] + rest
  }

  /** An item whose key is at least every key of `xs` and above that of `x`
      may stand in front of any arrangement of `xs` and `x`. */
  lemma HeadDominates<T>(h: T, x: T, xs: seq<T>, rest: seq<T>, key: T -> int)
    requires key(x) < key(h)
    requires forall j :: 0 <= j < |xs| ==> key(h) >= key(xs[j])
    requires multiset(rest) == multiset(xs) + multiset{x}
    ensures forall j :: 0 <= j < |rest| ==> key(h) >= key(rest[j])
  {
    forall j | 0 <= j < |rest| ensures key(h) >= key(rest[j]) {
      assert rest[j] in multiset(rest);
      if rest[j] != x {
        assert rest[j] in multiset(xs);
      }
    }
  }

  function SortDesc<T>(xs: seq<T>, key: T -> int): (r: seq<T>)
    ensures SortedDesc(r, key)
    ensures |r| == |xs|
    ensures multiset(r) == multiset(xs)
  {
    if |xs| == 0 then []
    else
      assert xs == [xs[0]] + xs[1..];
      InsertDesc(xs[0], SortDesc(xs[1..], key), key)
  }

  lemma {:induction false} InsertDescWithKey<T>(x: T, xs: seq<T>, key: T -> int, v: int)
    requires SortedDesc(xs, key)
    ensures WithKey(InsertDesc(x, xs, key), key, v) == WithKey([x] + xs, key, v)
  {
    if |xs| == 0 || key(x) >= key(xs[0]) {
    } else {
      InsertDescWithKey(x, xs[1..], key, v);
      assert ([x] + xs)[1..] == xs;
      assert ([x] + xs[1..])[1..] == xs[1..];
      if key(x) == v {
        assert key(xs[0]) != v;
        var rest := WithKey(xs[1..], key, v);
        calc {
          WithKey(InsertDesc(x, xs, key), key, v);
          WithKey(InsertDesc(x, xs[1..], key), key, v);
          [x] + rest;
        }
      } else {
        assert ([xs[0]] + InsertDesc(x, xs[1..], key))[1..] == InsertDesc(x, xs[1..], key);
      }
    }
  }

  /** Stability: for every key value, the items with that key appear in the
      sorted list in exactly their original order. */
  lemma {:induction false} SortDescStable<T>(xs: seq<T>, key: T -> int, v: int)
    ensures WithKey(SortDesc(xs, key), key, v) == WithKey(xs, key, v)
  {
    if |xs| != 0 {
      SortDescStable(xs[1..], key, v);
      InsertDescWithKey(xs[0], SortDesc(xs[1..], key), key, v);
      assert ([xs[0]] + SortDesc(xs[1..], key))[1..] == SortDesc(xs[1..], key);
      assert ([xs[0]] + xs[1..]) == xs;
    }
  }

  /** Sorting permutes the items, so it also permutes any projection of them. */
  lemma {:induction false} SortDescMapMultiset<T, U>(xs: seq<T>, key: T -> int, f: T -> U)
    ensures multiset(MapSeq(SortDesc(xs, key), f)) == multiset(MapSeq(xs, f))
  {
    if |xs| != 0 {
      SortDescMapMultiset(xs[1..], key, f);
      InsertDescMapMultiset(xs[0], SortDesc(xs[1..], key), key, f);
      assert MapSeq(xs, f) == [f(xs[0])] + MapSeq(xs[1..], f);
    }
  }

  lemma {:induction false} InsertDescMapMultiset<T, U>(x: T, xs: seq<T>, key: T -> int, f: T -> U)
    requires SortedDesc(xs, key)
    ensures multiset(MapSeq(InsertDesc(x, xs, key), f)) == multiset(MapSeq(xs, f)) + multiset{f(x)}
  {
    if |xs| == 0 || key(x) >= key(xs[0]) {
      assert InsertDesc(x, xs, key) == [x] + xs;
      assert MapSeq([x] + xs, f) == [f(x)] + MapSeq(xs, f);
    } else {
      var rest := InsertDesc(x, xs[1..], key);
      InsertDescMapMultiset(x, xs[1..], key, f);
      assert InsertDesc(x, xs, key) == [xs[0]] + rest;
      assert MapSeq([xs[0]] + rest, f) == [f(xs[0])] + MapSeq(rest, f);
      assert MapSeq(xs, f) == [f(xs[0])] + MapSeq(xs[1..], f);
      assert multiset(MapSeq(xs, f)) == multiset{f(xs[0])} + multiset(MapSeq(xs[1..], f));
    }
  }

  /** A sorted, stable arrangement is unique: any list that is sorted by
      non-increasing key and keeps every key class in its original order is
      the one `SortDesc` returns. So the model agrees with Python's merge-based
      sort, not only with insertion sort. */
  lemma {:induction false} SortDescIsUnique<T>(xs: seq<T>, ys: seq<T>, key: T -> int)
    requires SortedDesc(ys, key)
    requires forall v :: WithKey(ys, key, v) == WithKey(xs, key, v)
    ensures ys == SortDesc(xs, key)
  {
    var zs := SortDesc(xs, key);
    forall v ensures WithKey(ys, key, v) == WithKey(zs, key, v) {
      SortDescStable(xs, key, v);
    }
    SortedSameClassesEqual(ys, zs, key);
  }

  lemma {:induction false} SortedSameClassesEqual<T>(ys: seq<T>, zs: seq<T>, key: T -> int)
    requires SortedDesc(ys, key) && SortedDesc(zs, key)
    requires forall v :: WithKey(ys, key, v) == WithKey(zs, key, v)
    ensures ys == zs
    decreases |ys| + |zs|
  {
    if |ys| == 0 && |zs| == 0 {
    } else if |ys| == 0 {
      HeadClassNonEmpty(zs, key);
      assert false;
    } else if |zs| == 0 {
      HeadClassNonEmpty(ys, key);
      assert false;
    } else {
      SameHead(ys, zs, key);
      TailClasses(ys, zs, key);
      SortedSameClassesEqual(ys[1..], zs[1..], key);
      assert ys == [ys[0]] + ys[1..] && zs == [zs[0]] + zs[1..];
    }
  }

  /** Two sorted lists with the same key classes start with the same item. */
  lemma SameHead<T>(ys: seq<T>, zs: seq<T>, key: T -> int)
    requires SortedDesc(ys, key) && SortedDesc(zs, key) && 0 < |ys| && 0 < |zs|
    requires forall v :: WithKey(ys, key, v) == WithKey(zs, key, v)
    ensures ys[0] == zs[0]
  {
    var a, b := key(ys[0]), key(zs[0]);
    HeadClassNonEmpty(ys, key);
    HeadClassNonEmpty(zs, key);
    assert WithKey(ys, key, b) == WithKey(zs, key, b);
    HeadKeyIsMax(ys, key, b);
    assert WithKey(zs, key, a) == WithKey(ys, key, a);
    HeadKeyIsMax(zs, key, a);
    assert WithKey(ys, key, a)[0] == ys[0] && WithKey(zs, key, a)[0] == zs[0];
  }

  /** Removing the same first item from both lists keeps their key classes equal. */
  lemma TailClasses<T>(ys: seq<T>, zs: seq<T>, key: T -> int)
    requires 0 < |ys| && 0 < |zs| && ys[0] == zs[0]
    requires forall v :: WithKey(ys, key, v) == WithKey(zs, key, v)
    ensures forall v :: WithKey(ys[1..], key, v) == WithKey(zs[1..], key, v)
  {
    forall v ensures WithKey(ys[1..], key, v) == WithKey(zs[1..], key, v) {
      assert WithKey(ys, key, v) == WithKey(zs, key, v);
      WithKeyTail(ys, key, v);
      WithKeyTail(zs, key, v);
    }
  }

  lemma WithKeyTail<T>(xs: seq<T>, key: T -> int, v: int)
    requires 0 < |xs|
    ensures key(xs[0]) == v ==> WithKey(xs[1..], key, v) == WithKey(xs, key, v)[1..]
    ensures key(xs[0]) != v ==> WithKey(xs[1..], key, v) == WithKey(xs, key, v)
  {
  }

  lemma HeadClassNonEmpty<T>(xs: seq<T>, key: T -> int)
    ensures 0 < |xs| ==> WithKey(xs, key, key(xs[0])) != []
  {
  }

  /** In a sorted list no item has a key above the first one. */
  lemma HeadKeyIsMax<T>(xs: seq<T>, key: T -> int, v: int)
    requires SortedDesc(xs, key) && WithKey(xs, key, v) != []
    ensures 0 < |xs| && key(xs[0]) >= v
  {
    var x := WithKey(xs, key, v)[0];
    assert x in xs;
    var i :| 0 <= i < |xs| && xs[i] == x;
    assert key(xs[0]) >= key(xs[i]);
  }

  /** Sorting by a key commutes with a map that carries the key along. */
  lemma {:induction false} SortDescMap<T, U>(xs: seq<T>, key: T -> int, f: T -> U, key': U -> int)
    requires forall x :: key'(f(x)) == key(x)
    ensures SortDesc(MapSeq(xs, f), key') == MapSeq(SortDesc(xs, key), f)
  {
    if |xs| != 0 {
      SortDescMap(xs[1..], key, f, key');
      assert MapSeq(xs, f)[1..] == MapSeq(xs[1..], f);
      InsertDescMap(xs[0], SortDesc(xs[1..], key), key, f, key');
    }
  }

  lemma {:induction false} InsertDescMap<T, U>(x: T, xs: seq<T>, key: T -> int, f: T -> U, key': U -> int)
    requires forall x :: key'(f(x)) == key(x)
    requires SortedDesc(xs, key)
    ensures SortedDesc(MapSeq(xs, f), key')
    ensures MapSeq(InsertDesc(x, xs, key), f) == InsertDesc(f(x), MapSeq(xs, f), key')
  {
    SortedDescMap(xs, key, f, key');
    if |xs| != 0 && key(x) < key(xs[0]) {
      var ys := MapSeq(xs, f);
      InsertDescMap(x, xs[1..], key, f, key');
      assert ys[1..] == MapSeq(xs[1..], f);
      assert InsertDesc(f(x), ys, key') == [ys[0]] + InsertDesc(f(x), ys[1..], key');
      var rest := InsertDesc(x, xs[1..], key);
      assert InsertDesc(x, xs, key) == [xs[0]] + rest;
      assert MapSeq([xs[0]] + rest, f) == [f(xs[0])] + MapSeq(rest, f);
    } else {
      assert InsertDesc(x, xs, key) == [x] + xs;
      assert MapSeq([x] + xs, f) == [f(x)] + MapSeq(xs, f);
    }
  }

  lemma SortedDescMap<T, U>(xs: seq<T>, key: T -> int, f: T -> U, key': U -> int)
    requires forall x :: key'(f(x)) == key(x)
    requires SortedDesc(xs, key)
    ensures SortedDesc(MapSeq(xs, f), key')
  {
    var ys := MapSeq(xs, f);
    forall i, j | 0 <= i < j < |ys| ensures key'(ys[i]) >= key'(ys[j]) {
      assert key'(ys[i]) == key(xs[i]) && key'(ys[j]) == key(xs[j]);
    }
  }

  /** Cutting a sorted list keeps the best items: nothing left out has a
      larger key than anything kept. */
  lemma PrefixDominates<T>(xs: seq<T>, key: T -> int, n: int)
    requires SortedDesc(xs, key)
    ensures multiset(Take(xs, n)) <= multiset(xs)
    ensures var t := Take(xs, n);
      forall x :: x in multiset(xs) - multiset(t) ==> forall i :: 0 <= i < |t| ==> key(x) <= key(t[i])
  {
    var t := Take(xs, n);
    var d := xs[|t|..];
    assert xs == t + d;
    assert multiset(xs) - multiset(t) == multiset(d);
    forall x | x in multiset(xs) - multiset(t)
      ensures forall i :: 0 <= i < |t| ==> key(x) <= key(t[i])
    {
      var k :| 0 <= k < |d| && d[k] == x;
      assert xs[|t| + k] == x;
      forall i | 0 <= i < |t| ensures key(x) <= key(t[i]) {
        assert t[i] == xs[i];
      }
    }
  }

  /** `sorted(xs, reverse=True)[:n]` for `n >= 0` holds `n` items, or all of
      them, taken from `xs`; every item left out has a key no larger than
      that of any item kept. */
  lemma SortDescTop<T>(xs: seq<T>, key: T -> int, n: int)
    ensures var t := Take(SortDesc(xs, key), n);
      (0 <= n ==> |t| == if n <= |xs| then n else |xs|) && multiset(t) <= multiset(xs) &&
      forall x :: x in multiset(xs) - multiset(t) ==> forall i :: 0 <= i < |t| ==> key(x) <= key(t[i])
  {
    PrefixDominates(SortDesc(xs, key), key, n);
  }
}

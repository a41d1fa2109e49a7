/** A Python `dict` as an insertion-ordered list of key/value rows.
    Assigning `d[k] = v` to a key that is already present replaces the value
    but keeps the key at its first position; a new key goes at the end.
    Iterating over `d.items()` walks the rows in that order. */
module Tables {
  import opened Seqs

  type Table<K, V> = seq<(K, V)>

  function KeyOf<K, V>(row: (K, V)): K { row.0 }

  function ValueOf<K, V>(row: (K, V)): V { row.1 }

  function Keys<K, V>(t: Table<K, V>): seq<K> { MapSeq(t, KeyOf) }

  function Values<K, V>(t: Table<K, V>): seq<V> { MapSeq(t, ValueOf) }

  /** `d.get(k)`: the value of the first row with key `k`. */
  function Lookup<K(==), V>(t: Table<K, V>, k: K): (r: Option<V>)
    ensures r.Some? <==> k in Keys(t)
    ensures r.Some? ==> (k, r.value) in t
  {
    if |t| == 0 then None
    else if t[0].0 == k then Some(t[0].1)
    else
      assert Keys(t) == [t[0].0] + Keys(t[1..]);
      Lookup(t[1..], k)
  }

  /** The position of the first occurrence of `k`. */
  function FirstIndex<K(==)>(ks: seq<K>, k: K): (i: nat)
    requires k in ks
    ensures i < |ks| && ks[i] == k
    ensures forall j :: 0 <= j < i ==> ks[j] != k
  {
    if ks[0] == k then 0 else 1 + FirstIndex(ks[1..], k)
  }

  /** `d[k] = v`. */
  function Put<K(==), V>(t: Table<K, V>, k: K, v: V): (r: Table<K, V>)
    ensures k !in Keys(t) ==> r == t + [(k, v)]
    ensures k in Keys(t) ==> Keys(r) == Keys(t)
    ensures forall row :: row in r ==> row in t || row == (k, v)
  {
    if k in Keys(t) then
      var i := FirstIndex(Keys(t), k);
      var r := t[i := (k, v)];
      assert Keys(r) == Keys(t);
      r
    else t + [(k, v)]
  }

  /** After `d[k] = v`, `d.get(k)` is `v`. */
  lemma PutLookup<K, V>(t: Table<K, V>, k: K, v: V)
    ensures Lookup(Put(t, k, v), k) == Some(v)
  {
    var r := Put(t, k, v);
    if k in Keys(t) {
      var i := FirstIndex(Keys(t), k);
      LookupAt(r, i);
    } else {
      LookupAt(r, |t|);
    }
  }

  /** `d.get(k)` finds the first row whose key is `k`. */
  lemma {:induction false} LookupAt<K, V>(t: Table<K, V>, i: nat)
    requires i < |t| && forall j :: 0 <= j < i ==> t[j].0 != t[i].0
    ensures Lookup(t, t[i].0) == Some(t[i].1)
  {
    if i != 0 {
      LookupAt(t[1..], i - 1);
    }
  }

  /** `for k, v in rows: d[k] = v`. */
  function PutAll<K(==), V>(t: Table<K, V>, rows: seq<(K, V)>): (r: Table<K, V>)
    ensures forall row :: row in r ==> row in t || row in rows
    ensures |r| <= |t| + |rows|
    decreases rows
  {
    if |rows| == 0 then t
    else PutAll(Put(t, rows[0].0, rows[0].1), rows[1..])
  }

  lemma {:induction false} PutAllAppend<K, V>(t: Table<K, V>, a: seq<(K, V)>, b: seq<(K, V)>)
    ensures PutAll(t, a + b) == PutAll(PutAll(t, a), b)
    decreases a
  {
    if |a| == 0 {
      assert a + b == b;
    } else {
      assert (a + b)[0] == a[0] && (a + b)[1..] == a[1..] + b;
      PutAllAppend(Put(t, a[0].0, a[0].1), a[1..], b);
    }
  }

  /** When every key is new, the table is the rows in the order they were put. */
  lemma {:induction false} PutAllFresh<K, V>(t: Table<K, V>, rows: seq<(K, V)>)
    requires Distinct(Keys(t + rows))
    ensures PutAll(t, rows) == t + rows
    decreases rows
  {
    if |rows| != 0 {
      var k := rows[0].0;
      assert k !in Keys(t) by {
        forall i | 0 <= i < |t| ensures Keys(t)[i] != k {
          assert Keys(t + rows)[i] == Keys(t)[i];
          assert Keys(t + rows)[|t|] == k;
        }
      }
      var t' := t + [rows[0]];
      assert t' + rows[1..] == t + rows;
      PutAllFresh(t', rows[1..]);
    }
  }

  /** Keys stay unique. */
  lemma {:induction false} PutAllDistinct<K, V>(t: Table<K, V>, rows: seq<(K, V)>)
    requires Distinct(Keys(t))
    ensures Distinct(Keys(PutAll(t, rows)))
    decreases rows
  {
    if |rows| != 0 {
      var k := rows[0].0;
      var t' := Put(t, k, rows[0].1);
      if k !in Keys(t) {
        assert Keys(t') == Keys(t) + [k];
      }
      PutAllDistinct(t', rows[1..]);
    }
  }

  /** Writing rows never removes a key: the keys afterwards are the old ones
      and those of the rows, and the table does not shrink. */
  lemma {:induction false} PutAllKeys<K, V>(t: Table<K, V>, rows: seq<(K, V)>)
    ensures |t| <= |PutAll(t, rows)|
    ensures forall k :: k in Keys(PutAll(t, rows)) <==> k in Keys(t) || k in Keys(rows)
    decreases rows
  {
    if |rows| != 0 {
      var k := rows[0].0;
      var t' := Put(t, k, rows[0].1);
      if k !in Keys(t) {
        assert Keys(t') == Keys(t) + [k];
      } else {
        assert |t'| == |Keys(t')| == |Keys(t)| == |t|;
      }
      assert Keys(rows) == [k] + Keys(rows[1..]);
      PutAllKeys(t', rows[1..]);
    }
  }

  /** Rewriting keys that are all present adds no row. */
  lemma {:induction false} PutAllPresent<K, V>(t: Table<K, V>, rows: seq<(K, V)>)
    requires forall i :: 0 <= i < |rows| ==> rows[i].0 in Keys(t)
    ensures |PutAll(t, rows)| == |t|
    decreases rows
  {
    if |rows| != 0 {
      var t' := Put(t, rows[0].0, rows[0].1);
      assert |t'| == |Keys(t')| == |Keys(t)| == |t|;
      assert forall i :: 0 <= i < |rows[1..]| ==> rows[1..][i].0 in Keys(t') by {
        forall i | 0 <= i < |rows[1..]| ensures rows[1..][i].0 in Keys(t') {
          assert rows[1..][i] == rows[i + 1];
        }
      }
      PutAllPresent(t', rows[1..]);
    }
  }

  /** Every key is the id that `id` reads off its own value. */
  ghost predicate KeyedBy<K, V>(t: Table<K, V>, id: V -> K) {
    forall i :: 0 <= i < |t| ==> t[i].0 == id(t[i].1)
  }

  lemma PutAllKeyedBy<K, V>(t: Table<K, V>, rows: seq<(K, V)>, id: V -> K)
    requires KeyedBy(t, id) && KeyedBy(rows, id)
    ensures KeyedBy(PutAll(t, rows), id)
  {
    var r := PutAll(t, rows);
    forall i | 0 <= i < |r| ensures r[i].0 == id(r[i].1) {
      assert r[i] in r;
      if r[i] in t {
        var j :| 0 <= j < |t| && t[j] == r[i];
      } else {
        var j :| 0 <= j < |rows| && rows[j] == r[i];
      }
    }
  }

  /** In a table with unique keys, each keyed by its value's own id, no value
      occurs twice. */
  lemma ValuesDistinct<K, V>(t: Table<K, V>, id: V -> K)
    requires Distinct(Keys(t)) && KeyedBy(t, id)
    ensures Distinct(Values(t))
  {
    forall i, j | 0 <= i < j < |t| ensures Values(t)[i] != Values(t)[j] {
      assert Keys(t)[i] != Keys(t)[j];
    }
  }

  /** Any selection of such a table's values, each taken at most as often as it
      occurs, has pairwise different ids. */
  lemma SelectionIdsDistinct<K, V>(t: Table<K, V>, id: V -> K, xs: seq<V>)
    requires Distinct(Keys(t)) && KeyedBy(t, id)
    requires multiset(xs) <= multiset(Values(t))
    ensures Distinct(MapSeq(xs, id))
  {
    SelectionDistinct(t, id, xs);
    forall i, j | 0 <= i < j < |xs| ensures MapSeq(xs, id)[i] != MapSeq(xs, id)[j] {
      assert xs[i] in multiset(Values(t)) && xs[j] in multiset(Values(t));
      IdsDiffer(t, id, xs[i], xs[j]);
    }
  }

  lemma SelectionDistinct<K, V>(t: Table<K, V>, id: V -> K, xs: seq<V>)
    requires Distinct(Keys(t)) && KeyedBy(t, id)
    requires multiset(xs) <= multiset(Values(t))
    ensures Distinct(xs)
  {
    ValuesDistinct(t, id);
    DistinctMultiplicity(Values(t));
    assert forall x :: multiset(xs)[x] <= 1 by {
      forall x ensures multiset(xs)[x] <= 1 {
        assert multiset(xs)[x] <= multiset(Values(t))[x];
      }
    }
    DistinctMultiplicity(xs);
  }

  /** Two different values of such a table have different ids. */
  lemma IdsDiffer<K, V>(t: Table<K, V>, id: V -> K, a: V, b: V)
    requires Distinct(Keys(t)) && KeyedBy(t, id)
    requires a in Values(t) && b in Values(t) && a != b
    ensures id(a) != id(b)
  {
    var i :| 0 <= i < |t| && Values(t)[i] == a;
    var j :| 0 <= j < |t| && Values(t)[j] == b;
    assert i != j;
    assert t[i].0 == id(a) && t[j].0 == id(b);
    assert Keys(t)[i] == t[i].0 && Keys(t)[j] == t[j].0;
  }

  /** `d[k] = v` leaves every other key's value alone. */
  lemma PutLookupOther<K, V>(t: Table<K, V>, k: K, v: V, k': K)
    requires k' != k
    ensures Lookup(Put(t, k, v), k') == Lookup(t, k')
  {
    if k in Keys(t) {
      LookupUpdate(t, FirstIndex(Keys(t), k), (k, v), k');
    } else {
      LookupAppend(t, (k, v), k');
    }
  }

  lemma {:induction false} LookupUpdate<K, V>(t: Table<K, V>, i: nat, row: (K, V), k': K)
    requires i < |t| && t[i].0 != k' && row.0 != k'
    ensures Lookup(t[i := row], k') == Lookup(t, k')
  {
    if i != 0 && t[0].0 != k' {
      assert t[i := row][1..] == t[1..][i - 1 := row];
      LookupUpdate(t[1..], i - 1, row, k');
    }
  }

  lemma {:induction false} LookupAppend<K, V>(t: Table<K, V>, row: (K, V), k': K)
    requires row.0 != k'
    ensures Lookup(t + [row], k') == Lookup(t, k')
  {
    if |t| != 0 && t[0].0 != k' {
      assert (t + [row])[1..] == t[1..] + [row];
      LookupAppend(t[1..], row, k');
    }
  }

  /** `sum(f(v) for v in d.values())`. */
  function SumValues<K, V>(t: Table<K, V>, f: V -> int): int {
    if |t| == 0 then 0 else f(t[0].1) + SumValues(t[1..], f)
  }

  /** `d[k] = v` changes the sum by the new value less the old one. */
  lemma SumPut<K, V>(t: Table<K, V>, k: K, v: V, f: V -> int)
    ensures SumValues(Put(t, k, v), f)
         == SumValues(t, f) + f(v) - (if Lookup(t, k).Some? then f(Lookup(t, k).value) else 0)
  {
    if k in Keys(t) {
      var i := FirstIndex(Keys(t), k);
      SumUpdate(t, i, (k, v), f);
      LookupAt(t, i);
    } else {
      SumAppend(t, (k, v), f);
    }
  }

  lemma {:induction false} SumUpdate<K, V>(t: Table<K, V>, i: nat, row: (K, V), f: V -> int)
    requires i < |t|
    ensures SumValues(t[i := row], f) == SumValues(t, f) - f(t[i].1) + f(row.1)
  {
    if i != 0 {
      assert t[i := row][1..] == t[1..][i - 1 := row];
      SumUpdate(t[1..], i - 1, row, f);
    }
  }

  lemma {:induction false} SumAppend<K, V>(t: Table<K, V>, row: (K, V), f: V -> int)
    ensures SumValues(t + [row], f) == SumValues(t, f) + f(row.1)
  {
    if |t| != 0 {
      assert (t + [row])[1..] == t[1..] + [row];
      SumAppend(t[1..], row, f);
    }
  }
}

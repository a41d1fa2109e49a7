/** Small sequence vocabulary shared by the rest of the model: an optional
    value, Python's prefix and suffix slicing, and element-wise mapping. */
module Seqs {

  /** A value that may be missing (Python's `None`). */
  datatype Option<+T> = None | Some(value: T)

  /** Python's `xs[:n]`. A negative `n` counts from the end of `xs`, so
      `xs[:-1]` drops the last element and `xs[:-10]` of a short list is empty. */
  function Take<T>(xs: seq<T>, n: int): (r: seq<T>)
    ensures r <= xs
    ensures 0 <= n ==> |r| == if n <= |xs| then n else |xs|
    ensures n < 0 ==> |r| == if 0 <= |xs| + n then |xs| + n else 0
  {
    if 0 <= n then (if n <= |xs| then xs[..n] else xs)
    else if 0 <= |xs| + n then xs[..|xs| + n]
    else []
  }

  /** `[f(x) for x in xs]`. */
  function MapSeq<T, U>(xs: seq<T>, f: T -> U): (r: seq<U>)
    ensures |r| == |xs|
    ensures forall i :: 0 <= i < |xs| ==> r[i] == f(xs[i])
  {
    if |xs| == 0 then [] else [f(xs[0])] + MapSeq(xs[1..], f)
  }

  lemma MapSeqAppend<T, U>(xs: seq<T>, ys: seq<T>, f: T -> U)
    ensures MapSeq(xs + ys, f) == MapSeq(xs, f) + MapSeq(ys, f)
  {
  }

  lemma MapSeqPrefix<T, U>(xs: seq<T>, ys: seq<T>, f: T -> U)
    requires xs <= ys
    ensures MapSeq(xs, f) <= MapSeq(ys, f)
    ensures multiset(MapSeq(xs, f)) <= multiset(MapSeq(ys, f))
  {
    assert ys == xs + ys[|xs|..];
    MapSeqAppend(xs, ys[|xs|..], f);
  }

  /** No element occurs twice. */
  predicate Distinct<T(==)>(xs: seq<T>) {
    forall i, j :: 0 <= i < j < |xs| ==> xs[i] != xs[j]
  }

  /** Pairwise distinctness is the same as every multiplicity being at most one. */
  lemma {:induction false} DistinctMultiplicity<T>(xs: seq<T>)
    ensures Distinct(xs) <==> forall x :: multiset(xs)[x] <= 1
  {
    if |xs| == 0 {
    } else {
      DistinctMultiplicity(xs[1..]);
      assert xs == [xs[0]] + xs[1..];
      if Distinct(xs) {
        assert xs[0] !in xs[1..];
        forall x ensures multiset(xs)[x] <= 1 {
          assert multiset(xs)[x] == multiset([xs[0]])[x] + multiset(xs[1..])[x];
        }
      }
      if forall x :: multiset(xs)[x] <= 1 {
        forall x ensures multiset(xs[1..])[x] <= 1 {
          assert multiset(xs)[x] == multiset([xs[0]])[x] + multiset(xs[1..])[x];
        }
        assert xs[0] !in xs[1..] by {
          assert multiset(xs)[xs[0]] == 1 + multiset(xs[1..])[xs[0]];
        }
        forall i, j | 0 <= i < j < |xs| ensures xs[i] != xs[j] {
          if i == 0 {
            assert xs[j] == xs[1..][j - 1];
          } else {
            assert xs[i] == xs[1..][i - 1] && xs[j] == xs[1..][j - 1];
          }
        }
      }
    }
  }

  /** Slicing and mapping commute. */
  lemma MapSeqTake<T, U>(xs: seq<T>, n: int, f: T -> U)
    ensures MapSeq(Take(xs, n), f) == Take(MapSeq(xs, f), n)
  {
  }

  /** A list whose every element is `a` holds `a` as often as it is long, and nothing else. */
  lemma {:induction false} MultisetUniform<T>(xs: seq<T>, a: T)
    requires forall i :: 0 <= i < |xs| ==> xs[i] == a
    ensures forall x :: multiset(xs)[x] == if x == a then |xs| else 0
  {
    if |xs| != 0 {
      MultisetUniform(xs[1..], a);
      assert xs == [a] + xs[1..];
    }
  }

  /** `xs` can be read off `ys` left to right, skipping elements of `ys`. */
  predicate Embeds<T(==)>(xs: seq<T>, ys: seq<T>)
    decreases |ys|
  {
    if |xs| == 0 then true
    else if |ys| == 0 then false
    else (xs[0] == ys[0] && Embeds(xs[1..], ys[1..])) || Embeds(xs, ys[1..])
  }

  /** A prefix of a list read off `ys` is read off `ys` too. */
  lemma {:induction false} EmbedsPrefix<T>(xs: seq<T>, ys: seq<T>, n: nat)
    requires Embeds(xs, ys) && n <= |xs|
    ensures Embeds(xs[..n], ys)
    decreases |ys|
  {
    if n != 0 {
      if xs[0] == ys[0] && Embeds(xs[1..], ys[1..]) {
        EmbedsPrefix(xs[1..], ys[1..], n - 1);
        assert xs[..n][1..] == xs[1..][..n - 1];
      } else {
        EmbedsPrefix(xs, ys[1..], n);
      }
    }
  }

  /** Removing the image of a prefix leaves the image of the rest. */
  lemma MapSeqCut<T, U>(xs: seq<T>, k: nat, f: T -> U)
    requires k <= |xs|
    ensures multiset(MapSeq(xs, f)) - multiset(MapSeq(xs[..k], f)) == multiset(MapSeq(xs[k..], f))
  {
    assert xs == xs[..k] + xs[k..];
    MapSeqAppend(xs[..k], xs[k..], f);
  }
}

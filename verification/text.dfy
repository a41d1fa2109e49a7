/** The few Python string operations the retrieval code relies on:
    `str.lower()`, the substring test `p in s` and `str.count(p)`. */
module Text {
  import opened Seqs

  /** `str.lower()` on one character, for the alphabets the corpus is written
      in: Latin A-Z and the Cyrillic capitals U+0400..U+042F (Ё and the basic
      А-Я). Every other character is returned unchanged. */
  function LowerChar(c: char): char {
    if 'A' <= c <= 'Z' then (c as int + 32) as char
    else if 'А' <= c <= 'Я' then (c as int + 32) as char
    else if '\U{0400}' <= c <= '\U{040F}' then (c as int + 80) as char
    else c
  }

  function Lower(s: string): (r: string)
    ensures |r| == |s|
    ensures forall i :: 0 <= i < |s| ==> r[i] == LowerChar(s[i])
  {
    MapSeq(s, LowerChar)
  }

  /** A string is lower case when lowering leaves it unchanged. */
  predicate IsLower(s: string) {
    Lower(s) == s
  }

  /** Lowering is idempotent: whatever `lower()` returns is already lower case. */
  lemma LowerIsLower(s: string)
    ensures IsLower(Lower(s))
  {
    assert Lower(Lower(s)) == Lower(s);
  }

  /** `p` occurs in `s` starting at index `i`. */
  predicate MatchesAt(s: string, p: string, i: int) {
    0 <= i && i + |p| <= |s| && s[i..i + |p|] == p
  }

  /** Python's `p in s`; the empty string occurs in every string. */
  predicate Contains(s: string, p: string) {
    exists i | 0 <= i <= |s| - |p| :: MatchesAt(s, p, i)
  }

  /** Python's `s.count(p)`: the number of non-overlapping occurrences of `p`,
      scanning from the left; for the empty `p` it is `len(s) + 1`. */
  function Count(s: string, p: string): nat
    decreases |s|
  {
    if |p| == 0 then |s| + 1
    else if |s| < |p| then 0
    else if s[..|p|] == p then 1 + Count(s[|p|..], p)
    else Count(s[1..], p)
  }

  lemma MulStep(c: nat, n: nat)
    ensures (1 + c) * n == n + c * n
  {
  }

  /** `s.count(p)` is positive exactly when `p in s` holds. */
  lemma {:induction false} CountPositive(s: string, p: string)
    ensures Count(s, p) > 0 <==> Contains(s, p)
    decreases |s|
  {
    if |p| == 0 {
      assert MatchesAt(s, p, 0);
    } else if |s| < |p| {
    } else if s[..|p|] == p {
      assert MatchesAt(s, p, 0);
    } else {
      CountPositive(s[1..], p);
      if Contains(s, p) {
        var i :| 0 <= i <= |s| - |p| && MatchesAt(s, p, i);
        assert i != 0;
        assert s[1..][i - 1..i - 1 + |p|] == s[i..i + |p|];
        assert MatchesAt(s[1..], p, i - 1);
      }
      if Contains(s[1..], p) {
        var i :| 0 <= i <= |s[1..]| - |p| && MatchesAt(s[1..], p, i);
        assert s[1..][i..i + |p|] == s[i + 1..i + 1 + |p|];
        assert MatchesAt(s, p, i + 1);
      }
    }
  }

  /** The counted occurrences do not overlap, so they fit in `s`. */
  lemma {:induction false} CountFits(s: string, p: string)
    requires 0 < |p|
    ensures Count(s, p) * |p| <= |s|
    decreases |s|
  {
    if |s| < |p| {
    } else if s[..|p|] == p {
      var rest := s[|p|..];
      CountFits(rest, p);
      MulStep(Count(rest, p), |p|);
    } else {
      CountFits(s[1..], p);
    }
  }
}

/** Keyword relevance of chapters and chunks (`search_chapters_by_keywords`
    and `search_chunks_in_chapter`). Chapter scores are the source's small
    integers. Chunk scores are the source's decimals times ten, so that they
    are integers: a keyword found in the text is worth 10 plus its number of
    occurrences, and one equal to a tag is worth 5 more. All matching ignores
    case. */
module Scoring {
  import opened Seqs
  import opened Sorting
  import opened Text
  import opened Tables
  import opened Tree

  /** An entry with its relevance score (`{**entry, 'relevance_score': score}`). */
  datatype Hit<E> = Hit(entry: E, score: int)

  function HitScore<E>(h: Hit<E>): int { h.score }

  function HitEntry<E>(h: Hit<E>): E { h.entry }

  // ---------------------------------------------------------------------------
  // Generic: keep the positively scored entries, then sort.

  /** `[{**e, 'relevance_score': score(e)} for e in es if score(e) > 0]`. */
  function Scored<E(!new)>(es: seq<E>, score: E -> nat): (r: seq<Hit<E>>)
    ensures forall h :: h in r <==> h.entry in es && h.score == score(h.entry) && h.score > 0
    ensures |r| <= |es|
  {
    if |es| == 0 then []
    else
      var rest := Scored(es[1..], score);
      assert forall e :: e in es <==> e == es[0] || e in es[1..];
      if score(es[0]) > 0 then [Hit(es[0], score(es[0]))] + rest else rest
  }

  /** Reference: the entries of `es` whose score is exactly `v > 0`, in order. */
  function AtScore<E(!new)>(es: seq<E>, score: E -> nat, v: int): seq<Hit<E>> {
    if |es| == 0 then []
    else if 0 < v && score(es[0]) == v then [Hit(es[0], v)] + AtScore(es[1..], score, v)
    else AtScore(es[1..], score, v)
  }

  lemma {:induction false} ScoredAtScore<E(!new)>(es: seq<E>, score: E -> nat, v: int)
    ensures WithKey(Scored(es, score), HitScore, v) == AtScore(es, score, v)
  {
    if |es| != 0 {
      ScoredAtScore(es[1..], score, v);
      var rest := Scored(es[1..], score);
      if score(es[0]) > 0 {
        assert ([Hit(es[0], score(es[0]))] + rest)[1..] == rest;
      }
    }
  }

  lemma {:induction false} ScoredNothing<E(!new)>(es: seq<E>, score: E -> nat)
    requires forall i :: 0 <= i < |es| ==> score(es[i]) == 0
    ensures Scored(es, score) == []
  {
    if |es| != 0 {
      ScoredNothing(es[1..], score);
    }
  }

  /** The entries that score above zero, in order. */
  function Positive<E>(es: seq<E>, score: E -> nat): seq<E> {
    if |es| == 0 then []
    else if score(es[0]) > 0 then [es[0]] + Positive(es[1..], score)
    else Positive(es[1..], score)
  }

  lemma {:induction false} ScoredArePositive<E(!new)>(es: seq<E>, score: E -> nat)
    ensures MapSeq(Scored(es, score), HitEntry) == Positive(es, score)
  {
    if |es| != 0 {
      ScoredArePositive(es[1..], score);
      var rest := Scored(es[1..], score);
      if score(es[0]) > 0 {
        var h := Hit(es[0], score(es[0]));
        assert Scored(es, score) == [h] + rest;
        assert ([h] + rest)[1..] == rest;
      }
    }
  }

  lemma {:induction false} PositiveSelects<E>(es: seq<E>, score: E -> nat)
    ensures multiset(Positive(es, score)) <= multiset(es)
  {
    if |es| != 0 {
      PositiveSelects(es[1..], score);
      assert es == [es[0]] + es[1..];
    }
  }

  /** Scoring never adds an entry and never repeats one. */
  lemma ScoredEntries<E(!new)>(es: seq<E>, score: E -> nat)
    ensures multiset(MapSeq(Scored(es, score), HitEntry)) <= multiset(es)
  {
    ScoredArePositive(es, score);
    PositiveSelects(es, score);
  }

  /** `sort(key=relevance_score, reverse=True)` of the positively scored entries. */
  function Ranked<E(!new)>(es: seq<E>, score: E -> nat): (r: seq<Hit<E>>)
    ensures SortedDesc(r, HitScore)
    ensures forall h :: h in r <==> h.entry in es && h.score == score(h.entry) && h.score > 0
  {
    var r := SortDesc(Scored(es, score), HitScore);
    assert forall h :: h in r <==> h in multiset(Scored(es, score));
    r
  }

  /** Ranking only selects entries: none is added and none repeated. */
  lemma RankedEntries<E(!new)>(es: seq<E>, score: E -> nat)
    ensures multiset(MapSeq(Ranked(es, score), HitEntry)) <= multiset(es)
  {
    ScoredEntries(es, score);
    SortDescMapMultiset(Scored(es, score), HitScore, HitEntry);
  }

  /** The ranked hits are the scoring entries, each as often as `es` holds it. */
  lemma RankedIsPositive<E(!new)>(es: seq<E>, score: E -> nat)
    ensures multiset(MapSeq(Ranked(es, score), HitEntry)) == multiset(Positive(es, score))
  {
    ScoredArePositive(es, score);
    SortDescMapMultiset(Scored(es, score), HitScore, HitEntry);
  }

  /** The first `n` ranked hits are the best ones: for `n >= 0` there are `n`
      of them, or as many as there are scoring entries, and every scoring
      entry left out scores at most as much as each one kept. */
  lemma RankedTop<E(!new)>(es: seq<E>, score: E -> nat, n: int)
    ensures var t := Take(Ranked(es, score), n);
      (0 <= n ==> |t| == if n <= |Positive(es, score)| then n else |Positive(es, score)|) &&
      forall e :: e in multiset(Positive(es, score)) - multiset(MapSeq(t, HitEntry)) ==>
        forall i :: 0 <= i < |t| ==> score(e) <= t[i].score
  {
    RankedIsPositive(es, score);
    TopOfRanked(Ranked(es, score), Positive(es, score), score, n);
  }

  /** `RankedTop` for any sorted list of hits that carry their own scores and
      whose entries are those of `p`. */
  lemma TopOfRanked<E>(r: seq<Hit<E>>, p: seq<E>, score: E -> nat, n: int)
    requires SortedDesc(r, HitScore)
    requires forall h :: h in r ==> h.score == score(h.entry)
    requires multiset(MapSeq(r, HitEntry)) == multiset(p)
    ensures var t := Take(r, n);
      (0 <= n ==> |t| == if n <= |p| then n else |p|) &&
      forall e :: e in multiset(p) - multiset(MapSeq(t, HitEntry)) ==>
        forall i :: 0 <= i < |t| ==> score(e) <= t[i].score
  {
    var t := Take(r, n);
    var k := |t|;
    assert |r| == |p| by {
      assert |multiset(MapSeq(r, HitEntry))| == |r|;
    }
    assert t == r[..k];
    MapSeqCut(r, k, HitEntry);
    TailScoresBelow(r, score, k);
  }

  /** In a ranked list, an entry after position `k` scores at most as much as
      each of the first `k` hits. */
  lemma TailScoresBelow<E>(r: seq<Hit<E>>, score: E -> nat, k: nat)
    requires SortedDesc(r, HitScore) && k <= |r|
    requires forall h :: h in r ==> h.score == score(h.entry)
    ensures forall e :: e in multiset(MapSeq(r[k..], HitEntry)) ==>
      forall i :: 0 <= i < k ==> score(e) <= r[..k][i].score
  {
    var d := MapSeq(r[k..], HitEntry);
    forall e | e in multiset(d) ensures forall i :: 0 <= i < k ==> score(e) <= r[..k][i].score {
      var j :| 0 <= j < |d| && d[j] == e;
      assert r[k + j] == r[k..][j];
      assert r[k + j] in r;
      forall i | 0 <= i < k ensures score(e) <= r[..k][i].score {
        assert r[..k][i] == r[i];
        assert HitScore(r[i]) >= HitScore(r[k + j]);
      }
    }
  }

  /** Ties keep input order: for each score, the entries with that score come
      out in the order they went in. */
  lemma RankedTies<E(!new)>(es: seq<E>, score: E -> nat, v: int)
    ensures WithKey(Ranked(es, score), HitScore, v) == AtScore(es, score, v)
  {
    SortDescStable(Scored(es, score), HitScore, v);
    ScoredAtScore(es, score, v);
  }

  // ---------------------------------------------------------------------------
  // Chapters.

  /** Some key concept contains `k` (`any(kw_lower in c for c in concepts)`). */
  predicate ConceptMatch(concepts: seq<string>, k: string) {
    exists i | 0 <= i < |concepts| :: Contains(Lower(concepts[i]), k)
  }

  /** What one keyword adds to a chapter's score: 3 for the title, 2 for the
      summary, 2 for any key concept. */
  function ChapterWeight(e: ChapterEntry, kw: string): nat {
    var k := Lower(kw);
    (if Contains(Lower(e.chapter.title), k) then 3 else 0)
    + (if Contains(Lower(e.chapter.summary), k) then 2 else 0)
    + (if ConceptMatch(e.chapter.keyConcepts, k) then 2 else 0)
  }

  function ChapterScore(e: ChapterEntry, kws: seq<string>): nat {
    if |kws| == 0 then 0 else ChapterWeight(e, kws[0]) + ChapterScore(e, kws[1..])
  }

  /** The keyword occurs, ignoring case, in the chapter's title, summary or a key concept. */
  predicate ChapterMentions(e: ChapterEntry, kw: string) {
    var k := Lower(kw);
    Contains(Lower(e.chapter.title), k) || Contains(Lower(e.chapter.summary), k)
    || ConceptMatch(e.chapter.keyConcepts, k)
  }

  /** The chapter score is a sum over the keywords. */
  lemma {:induction false} ChapterScoreAppend(e: ChapterEntry, a: seq<string>, b: seq<string>)
    ensures ChapterScore(e, a + b) == ChapterScore(e, a) + ChapterScore(e, b)
  {
    if |a| == 0 {
      assert a + b == b;
    } else {
      assert (a + b)[0] == a[0] && (a + b)[1..] == a[1..] + b;
      ChapterScoreAppend(e, a[1..], b);
    }
  }

  /** A chapter scores above zero exactly when some keyword occurs in it, and
      each keyword adds at most 3 + 2 + 2. */
  lemma {:induction false} ChapterScorePositive(e: ChapterEntry, kws: seq<string>)
    ensures ChapterScore(e, kws) > 0 <==> exists i :: 0 <= i < |kws| && ChapterMentions(e, kws[i])
    ensures ChapterScore(e, kws) <= 7 * |kws|
  {
    if |kws| != 0 {
      ChapterScorePositive(e, kws[1..]);
      if exists i :: 0 <= i < |kws[1..]| && ChapterMentions(e, kws[1..][i]) {
        var i :| 0 <= i < |kws[1..]| && ChapterMentions(e, kws[1..][i]);
        assert ChapterMentions(e, kws[i + 1]);
      }
      if exists i :: 0 <= i < |kws| && ChapterMentions(e, kws[i]) {
        var i :| 0 <= i < |kws| && ChapterMentions(e, kws[i]);
        if i != 0 {
          assert ChapterMentions(e, kws[1..][i - 1]);
        }
      }
    }
  }

  function ChapterScorer(kws: seq<string>): ChapterEntry -> nat {
    e => ChapterScore(e, kws)
  }

  /** `search_chapters_by_keywords(keywords)`: the chapters that score above
      zero, best first, ties in table order. */
  function SearchChaptersByKeywords(ct: ContextTree, kws: seq<string>): (r: seq<Hit<ChapterEntry>>)
    ensures SortedDesc(r, HitScore)
    ensures forall h :: h in r <==>
      h.entry in Values(ct.index.chapters) && h.score == ChapterScore(h.entry, kws) && h.score > 0
  {
    Ranked(Values(ct.index.chapters), ChapterScorer(kws))
  }

  /** The chapters that score above zero, in table order. */
  function ScoringChapters(ct: ContextTree, kws: seq<string>): seq<ChapterEntry> {
    Positive(Values(ct.index.chapters), ChapterScorer(kws))
  }

  /** For every score, the chapters with that score appear in table order: with
      sortedness this fixes the output completely. */
  lemma ChapterSearchTies(ct: ContextTree, kws: seq<string>, v: int)
    ensures WithKey(SearchChaptersByKeywords(ct, kws), HitScore, v)
         == AtScore(Values(ct.index.chapters), ChapterScorer(kws), v)
  {
    RankedTies(Values(ct.index.chapters), ChapterScorer(kws), v);
  }

  // ---------------------------------------------------------------------------
  // Chunks.

  /** What one keyword adds to a chunk's score, times ten: 10 plus the number
      of occurrences when it occurs in the text, and 5 when it equals a tag. */
  function ChunkWeight(e: ChunkEntry, kw: string): nat {
    var k := Lower(kw);
    var text := Lower(e.chunk.text);
    (if Contains(text, k) then 10 + Count(text, k) else 0)
    + (if k in MapSeq(e.chunk.keywords, Lower) then 5 else 0)
  }

  function ChunkScore(e: ChunkEntry, kws: seq<string>): nat {
    if |kws| == 0 then 0 else ChunkWeight(e, kws[0]) + ChunkScore(e, kws[1..])
  }

  /** The keyword occurs in the text or equals a tag, ignoring case. */
  predicate ChunkMentions(e: ChunkEntry, kw: string) {
    Contains(Lower(e.chunk.text), Lower(kw)) || Lower(kw) in MapSeq(e.chunk.keywords, Lower)
  }

  /** A keyword found in the text adds at least 11 (one occurrence at least);
      one neither in the text nor among the tags adds nothing. */
  lemma ChunkWeightBounds(e: ChunkEntry, kw: string)
    ensures Contains(Lower(e.chunk.text), Lower(kw)) ==> ChunkWeight(e, kw) >= 11
    ensures ChunkWeight(e, kw) > 0 <==> ChunkMentions(e, kw)
  {
    CountPositive(Lower(e.chunk.text), Lower(kw));
  }

  lemma {:induction false} ChunkScoreAppend(e: ChunkEntry, a: seq<string>, b: seq<string>)
    ensures ChunkScore(e, a + b) == ChunkScore(e, a) + ChunkScore(e, b)
  {
    if |a| == 0 {
      assert a + b == b;
    } else {
      assert (a + b)[0] == a[0] && (a + b)[1..] == a[1..] + b;
      ChunkScoreAppend(e, a[1..], b);
    }
  }

  /** A chunk scores above zero exactly when some keyword occurs in its text or equals a tag. */
  lemma {:induction false} ChunkScorePositive(e: ChunkEntry, kws: seq<string>)
    ensures ChunkScore(e, kws) > 0 <==> exists i :: 0 <= i < |kws| && ChunkMentions(e, kws[i])
  {
    if |kws| != 0 {
      ChunkWeightBounds(e, kws[0]);
      ChunkScorePositive(e, kws[1..]);
      if exists i :: 0 <= i < |kws[1..]| && ChunkMentions(e, kws[1..][i]) {
        var i :| 0 <= i < |kws[1..]| && ChunkMentions(e, kws[1..][i]);
        assert ChunkMentions(e, kws[i + 1]);
      }
      if exists i :: 0 <= i < |kws| && ChunkMentions(e, kws[i]) {
        var i :| 0 <= i < |kws| && ChunkMentions(e, kws[i]);
        if i != 0 {
          assert ChunkMentions(e, kws[1..][i - 1]);
        }
      }
    }
  }

  function ChunkScorer(kws: seq<string>): ChunkEntry -> nat {
    e => ChunkScore(e, kws)
  }

  /** `search_chunks_in_chapter(chapter_id, keywords)`: the chunks of that
      chapter that score above zero, best first, ties in table order. */
  function SearchChunksInChapter(ct: ContextTree, c: string, kws: seq<string>): (r: seq<Hit<ChunkEntry>>)
    ensures SortedDesc(r, HitScore)
    ensures forall h :: h in r <==>
      h.entry in Values(ct.index.chunks) && h.entry.chapterId == c &&
      h.score == ChunkScore(h.entry, kws) && h.score > 0
  {
    Ranked(GetChapterChunks(ct, c), ChunkScorer(kws))
  }

  /** The chunks of chapter `c` that score above zero, in table order. */
  function ScoringChunks(ct: ContextTree, c: string, kws: seq<string>): seq<ChunkEntry> {
    Positive(GetChapterChunks(ct, c), ChunkScorer(kws))
  }

  lemma ChunkSearchTies(ct: ContextTree, c: string, kws: seq<string>, v: int)
    ensures WithKey(SearchChunksInChapter(ct, c, kws), HitScore, v)
         == AtScore(GetChapterChunks(ct, c), ChunkScorer(kws), v)
  {
    RankedTies(GetChapterChunks(ct, c), ChunkScorer(kws), v);
  }

  /** With no keywords nothing scores, so both searches come back empty. */
  lemma NoKeywordsNoHits(ct: ContextTree, c: string)
    ensures SearchChaptersByKeywords(ct, []) == []
    ensures SearchChunksInChapter(ct, c, []) == []
  {
    ScoredNothing(Values(ct.index.chapters), ChapterScorer([]));
    ScoredNothing(GetChapterChunks(ct, c), ChunkScorer([]));
  }
}

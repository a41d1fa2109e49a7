/** `TreeSearcher.search`: understand the question, pick the chapters to look
    in, take the best three chunks of each, and return the best `top_chunks`
    of those. */
module Search {
  import opened Seqs
  import opened Sorting
  import opened Tables
  import opened Tree
  import opened Scoring
  import opened Query

  /** `SearchResult`. The score is the chunk score times ten. */
  datatype SearchResult = SearchResult(
    chunkId: string, text: string, score: int, bookTitle: string,
    chapterTitle: string, chapterSummary: string, sectionTitle: string,
    keywords: seq<string>)

  function ResultOf(h: Hit<ChunkEntry>): SearchResult {
    var e := h.entry;
    SearchResult(e.chunk.id, e.chunk.text, h.score, e.bookTitle,
                 e.chapterTitle, e.chapterSummary, e.sectionTitle, e.chunk.keywords)
  }

  function ResultScore(x: SearchResult): int { x.score }

  function ResultId(x: SearchResult): string { x.chunkId }

  /** Chunks taken from each chosen chapter (`chunks[:3]`). */
  const PerChapter := 3

  function ChapterHitId(h: Hit<ChapterEntry>): string { h.entry.chapter.id }

  function ChunkHitChapter(h: Hit<ChunkEntry>): string { h.entry.chapterId }

  /** Some chapter with id `c` scores above zero for `kws`. */
  ghost predicate Scores(ct: ContextTree, kws: seq<string>, c: string) {
    exists h :: h in SearchChaptersByKeywords(ct, kws) && h.score > 0 && h.entry.chapter.id == c
  }

  /** The chapters to search in: the ids of the `top_chapters` best scoring
      chapters or, when that list is empty, of the first `top_chapters`
      chapters of the table. */
  function SelectedChapters(ct: ContextTree, kws: seq<string>, topChapters: int): (r: seq<string>)
    ensures 0 <= topChapters ==> |r| <= topChapters
    ensures Take(SearchChaptersByKeywords(ct, kws), topChapters) == [] ==>
      r == Take(Keys(ct.index.chapters), topChapters)
    ensures Take(SearchChaptersByKeywords(ct, kws), topChapters) != [] ==>
      forall i :: 0 <= i < |r| ==> Scores(ct, kws, r[i])
  {
    var best := Take(SearchChaptersByKeywords(ct, kws), topChapters);
    if best != [] then
      BestIdsScored(ct, kws, topChapters);
      MapSeq(best, ChapterHitId)
    else
      FirstChapterIds(ct, topChapters);
      MapSeq(Take(GetAllChapters(ct), topChapters), InfoId)
  }

  lemma BestIdsScored(ct: ContextTree, kws: seq<string>, n: int)
    ensures var hits := SearchChaptersByKeywords(ct, kws);
      var ids := MapSeq(Take(hits, n), ChapterHitId);
      forall i :: 0 <= i < |ids| ==> Scores(ct, kws, ids[i])
  {
    var hits := SearchChaptersByKeywords(ct, kws);
    var best := Take(hits, n);
    forall i | 0 <= i < |best| ensures best[i] in hits && best[i].score > 0 {
      assert best[i] == hits[i];
    }
  }

  /** The ids of the first `n` rows of `get_all_chapters()` are the first `n` chapter keys. */
  lemma FirstChapterIds(ct: ContextTree, n: int)
    ensures MapSeq(Take(GetAllChapters(ct), n), InfoId) == Take(Keys(ct.index.chapters), n)
  {
    MapSeqTake(GetAllChapters(ct), n, InfoId);
  }

  /** The chosen chapters are the best ones. When some chapter scores and
      `top_chapters` is positive, the ids are those of the first ranked hits,
      there are `top_chapters` of them or as many as score, and no scoring
      chapter left out scores more than a chosen one. */
  lemma SelectedChaptersBest(ct: ContextTree, kws: seq<string>, topChapters: int)
    ensures var best := Take(SearchChaptersByKeywords(ct, kws), topChapters);
      var scoring := ScoringChapters(ct, kws);
      var r := SelectedChapters(ct, kws, topChapters);
      (0 < topChapters && scoring != [] ==>
         r == MapSeq(best, ChapterHitId) &&
         |r| == if topChapters <= |scoring| then topChapters else |scoring|) &&
      forall e :: e in multiset(scoring) - multiset(MapSeq(best, HitEntry)) ==>
        forall i :: 0 <= i < |best| ==> ChapterScore(e, kws) <= best[i].score
  {
    RankedTop(Values(ct.index.chapters), ChapterScorer(kws), topChapters);
  }

  /** The best chunks of one chapter, at most three. */
  function ChapterBlock(ct: ContextTree, c: string, kws: seq<string>): (r: seq<Hit<ChunkEntry>>)
    ensures |r| <= PerChapter
    ensures forall h :: h in r ==>
      h.entry in Values(ct.index.chunks) && h.entry.chapterId == c &&
      h.score == ChunkScore(h.entry, kws) && h.score > 0
  {
    Take(SearchChunksInChapter(ct, c, kws), PerChapter)
  }

  /** The block holds three scoring chunks of the chapter, or all of them if
      fewer score, and no scoring chunk left out scores more than a kept one. */
  lemma ChapterBlockBest(ct: ContextTree, c: string, kws: seq<string>)
    ensures var r := ChapterBlock(ct, c, kws);
      var scoring := ScoringChunks(ct, c, kws);
      |r| == (if PerChapter <= |scoring| then PerChapter else |scoring|) &&
      forall e :: e in multiset(scoring) - multiset(MapSeq(r, HitEntry)) ==>
        forall i :: 0 <= i < |r| ==> ChunkScore(e, kws) <= r[i].score
  {
    RankedTop(GetChapterChunks(ct, c), ChunkScorer(kws), PerChapter);
  }

  /** `all_chunks` before sorting: the blocks of the chosen chapters, in order. */
  function Candidates(ct: ContextTree, ids: seq<string>, kws: seq<string>): (r: seq<Hit<ChunkEntry>>)
    ensures |r| <= PerChapter * |ids|
    ensures forall h :: h in r ==>
      h.entry in Values(ct.index.chunks) && h.entry.chapterId in ids &&
      h.score == ChunkScore(h.entry, kws) && h.score > 0
  {
    if |ids| == 0 then []
    else ChapterBlock(ct, ids[0], kws) + Candidates(ct, ids[1..], kws)
  }

  /** `search(query, top_chapters, top_chunks)`. `llmTerms` is what the
      language model suggested as search terms, if there is a model. */
  function Search(ct: ContextTree, query: string, llmTerms: Option<seq<string>>,
                  topChapters: int, topChunks: int): (r: seq<SearchResult>)
    ensures 0 <= topChunks ==> |r| <= topChunks
    ensures SortedDesc(r, ResultScore)
  {
    var kws := UnderstandQuery(query, llmTerms);
    var cands := Candidates(ct, SelectedChapters(ct, kws, topChapters), kws);
    Take(SortDesc(MapSeq(cands, ResultOf), ResultScore), topChunks)
  }

  // ---------------------------------------------------------------------------
  // The same search, one step before turning hits into results.

  /** The chunk hits behind `Search`, in the same order. */
  function RankedHits(ct: ContextTree, query: string, llmTerms: Option<seq<string>>,
                      topChapters: int, topChunks: int): seq<Hit<ChunkEntry>> {
    var kws := UnderstandQuery(query, llmTerms);
    TopCandidates(ct, SelectedChapters(ct, kws, topChapters), kws, topChunks)
  }

  /** The i-th result is built from the i-th hit. */
  lemma SearchIsRankedHits(ct: ContextTree, query: string, llmTerms: Option<seq<string>>,
                           topChapters: int, topChunks: int)
    ensures Search(ct, query, llmTerms, topChapters, topChunks)
         == MapSeq(RankedHits(ct, query, llmTerms, topChapters, topChunks), ResultOf)
  {
    var kws := UnderstandQuery(query, llmTerms);
    var cands := Candidates(ct, SelectedChapters(ct, kws, topChapters), kws);
    SortDescMap(cands, HitScore, ResultOf, ResultScore);
    MapSeqTake(SortDesc(cands, HitScore), topChunks, ResultOf);
  }

  /** With unique chapter ids, no chapter is chosen twice. */
  lemma SelectedDistinct(ct: ContextTree, kws: seq<string>, topChapters: int)
    requires ChapterTableOk(ct.index.chapters)
    ensures Distinct(SelectedChapters(ct, kws, topChapters))
  {
    if Take(SearchChaptersByKeywords(ct, kws), topChapters) != [] {
      BestIdsDistinct(ct, kws, topChapters);
    }
  }

  lemma BestIdsDistinct(ct: ContextTree, kws: seq<string>, n: int)
    requires ChapterTableOk(ct.index.chapters)
    ensures Distinct(MapSeq(Take(SearchChaptersByKeywords(ct, kws), n), ChapterHitId))
  {
    var hits := SearchChaptersByKeywords(ct, kws);
    var best := Take(hits, n);
    RankedEntries(Values(ct.index.chapters), ChapterScorer(kws));
    MapSeqPrefix(best, hits, HitEntry);
    var es := MapSeq(best, HitEntry);
    SelectionIdsDistinct(ct.index.chapters, ChapterIdOf, es);
    assert MapSeq(es, ChapterIdOf) == MapSeq(best, ChapterHitId);
  }

  /** Each chosen chapter contributes at most three candidates. */
  lemma {:induction false} CandidatesPerChapter(ct: ContextTree, ids: seq<string>, kws: seq<string>)
    requires Distinct(ids)
    ensures forall c :: multiset(MapSeq(Candidates(ct, ids, kws), ChunkHitChapter))[c]
                      <= if c in ids then PerChapter else 0
  {
    if |ids| != 0 {
      var block := MapSeq(ChapterBlock(ct, ids[0], kws), ChunkHitChapter);
      var rest := MapSeq(Candidates(ct, ids[1..], kws), ChunkHitChapter);
      CandidatesPerChapter(ct, ids[1..], kws);
      MapSeqAppend(ChapterBlock(ct, ids[0], kws), Candidates(ct, ids[1..], kws), ChunkHitChapter);
      BlockChapters(ct, ids[0], kws);
      forall c ensures multiset(block + rest)[c] <= if c in ids then PerChapter else 0 {
        assert multiset(block + rest)[c] == multiset(block)[c] + multiset(rest)[c];
        if c == ids[0] {
          assert c !in ids[1..];
        } else {
          assert c in ids <==> c in ids[1..];
        }
      }
    }
  }

  lemma BlockChapters(ct: ContextTree, c: string, kws: seq<string>)
    ensures forall x :: multiset(MapSeq(ChapterBlock(ct, c, kws), ChunkHitChapter))[x]
                      <= if x == c then PerChapter else 0
  {
    var block := ChapterBlock(ct, c, kws);
    var m := MapSeq(block, ChunkHitChapter);
    forall i | 0 <= i < |m| ensures m[i] == c {
      assert block[i] in block;
    }
    MultisetUniform(m, c);
  }

  /** The best chunks of chapter `c` are a selection of that chapter's table entries. */
  lemma BlockEntries(ct: ContextTree, c: string, kws: seq<string>)
    ensures forall e :: multiset(MapSeq(ChapterBlock(ct, c, kws), HitEntry))[e]
                      <= if e.chapterId == c then multiset(Values(ct.index.chunks))[e] else 0
  {
    RankedEntries(GetChapterChunks(ct, c), ChunkScorer(kws));
    MapSeqPrefix(ChapterBlock(ct, c, kws), SearchChunksInChapter(ct, c, kws), HitEntry);
    ChunksOfChapterMultiset(ct.index.chunks, c);
  }

  /** The candidates are a selection of the chunk table: no entry is taken
      more often than the table holds it. */
  lemma {:induction false} CandidatesEntries(ct: ContextTree, ids: seq<string>, kws: seq<string>)
    requires Distinct(ids)
    ensures forall e :: multiset(MapSeq(Candidates(ct, ids, kws), HitEntry))[e]
                      <= if e.chapterId in ids then multiset(Values(ct.index.chunks))[e] else 0
  {
    if |ids| != 0 {
      var block := MapSeq(ChapterBlock(ct, ids[0], kws), HitEntry);
      var rest := MapSeq(Candidates(ct, ids[1..], kws), HitEntry);
      CandidatesEntries(ct, ids[1..], kws);
      MapSeqAppend(ChapterBlock(ct, ids[0], kws), Candidates(ct, ids[1..], kws), HitEntry);
      BlockEntries(ct, ids[0], kws);
      forall e: ChunkEntry ensures multiset(block + rest)[e]
                    <= if e.chapterId in ids then multiset(Values(ct.index.chunks))[e] else 0 {
        assert multiset(block + rest)[e] == multiset(block)[e] + multiset(rest)[e];
        if e.chapterId == ids[0] {
          assert e.chapterId !in ids[1..];
        } else {
          assert e.chapterId in ids <==> e.chapterId in ids[1..];
        }
      }
    }
  }

  /** The best `n` candidates, best first. */
  function TopCandidates(ct: ContextTree, ids: seq<string>, kws: seq<string>, n: int): seq<Hit<ChunkEntry>> {
    Take(SortDesc(Candidates(ct, ids, kws), HitScore), n)
  }

  /** The best `n` candidates: for `n >= 0` there are `n` of them or all the
      candidates, each is a candidate, and no candidate left out scores more
      than one returned. */
  lemma TopCandidatesBest(ct: ContextTree, ids: seq<string>, kws: seq<string>, n: int)
    ensures var cands := Candidates(ct, ids, kws);
      var t := TopCandidates(ct, ids, kws, n);
      (0 <= n ==> |t| == if n <= |cands| then n else |cands|) &&
      multiset(t) <= multiset(cands) &&
      forall h :: h in multiset(cands) - multiset(t) ==>
        forall i :: 0 <= i < |t| ==> h.score <= t[i].score
  {
    SortDescTop(Candidates(ct, ids, kws), HitScore, n);
  }

  /** Every returned hit is a positively scored chunk of a chosen chapter. */
  lemma TopCandidatesScored(ct: ContextTree, ids: seq<string>, kws: seq<string>, n: int)
    ensures var hs := TopCandidates(ct, ids, kws, n);
      forall i :: 0 <= i < |hs| ==>
        hs[i].entry in Values(ct.index.chunks) && hs[i].entry.chapterId in ids &&
        hs[i].score == ChunkScore(hs[i].entry, kws) && hs[i].score > 0
  {
    var cands := Candidates(ct, ids, kws);
    var sorted := SortDesc(cands, HitScore);
    var hs := TopCandidates(ct, ids, kws, n);
    forall i | 0 <= i < |hs| ensures hs[i] in cands {
      assert hs[i] == sorted[i];
      assert sorted[i] in multiset(cands);
    }
  }

  lemma TopCandidatesPerChapter(ct: ContextTree, ids: seq<string>, kws: seq<string>, n: int)
    requires Distinct(ids)
    ensures forall c :: multiset(MapSeq(TopCandidates(ct, ids, kws, n), ChunkHitChapter))[c] <= PerChapter
  {
    var cands := Candidates(ct, ids, kws);
    CandidatesPerChapter(ct, ids, kws);
    SortDescMapMultiset(cands, HitScore, ChunkHitChapter);
    MapSeqPrefix(TopCandidates(ct, ids, kws, n), SortDesc(cands, HitScore), ChunkHitChapter);
  }

  lemma TopCandidatesEntries(ct: ContextTree, ids: seq<string>, kws: seq<string>, n: int)
    requires Distinct(ids)
    ensures multiset(MapSeq(TopCandidates(ct, ids, kws, n), HitEntry)) <= multiset(Values(ct.index.chunks))
  {
    var cands := Candidates(ct, ids, kws);
    CandidatesEntries(ct, ids, kws);
    SortDescMapMultiset(cands, HitScore, HitEntry);
    MapSeqPrefix(TopCandidates(ct, ids, kws, n), SortDesc(cands, HitScore), HitEntry);
  }

  /** What `search` promises about variety: no chunk comes back twice, no
      chapter gives more than three chunks, and every chunk is a positively
      scored chunk of one of at most `top_chapters` distinct chosen chapters. */
  lemma SearchDiversity(ct: ContextTree, query: string, llmTerms: Option<seq<string>>,
                        topChapters: int, topChunks: int)
    requires WellFormed(ct.index)
    ensures var kws := UnderstandQuery(query, llmTerms);
            var hs := RankedHits(ct, query, llmTerms, topChapters, topChunks);
            var ids := SelectedChapters(ct, kws, topChapters);
            Distinct(ids) && (0 <= topChapters ==> |ids| <= topChapters) &&
            (forall i :: 0 <= i < |hs| ==>
               (hs[i].entry.chapterId in ids && hs[i].score == ChunkScore(hs[i].entry, kws) && hs[i].score > 0)) &&
            (forall c :: multiset(MapSeq(hs, ChunkHitChapter))[c] <= PerChapter)
    ensures Distinct(MapSeq(Search(ct, query, llmTerms, topChapters, topChunks), ResultId))
  {
    var kws := UnderstandQuery(query, llmTerms);
    var ids := SelectedChapters(ct, kws, topChapters);
    SelectedDistinct(ct, kws, topChapters);
    TopCandidatesScored(ct, ids, kws, topChunks);
    TopCandidatesPerChapter(ct, ids, kws, topChunks);
    TopCandidatesEntries(ct, ids, kws, topChunks);
    var es := MapSeq(TopCandidates(ct, ids, kws, topChunks), HitEntry);
    SelectionIdsDistinct(ct.index.chunks, ChunkIdOf, es);
    SearchIsRankedHits(ct, query, llmTerms, topChapters, topChunks);
    assert MapSeq(Search(ct, query, llmTerms, topChapters, topChunks), ResultId) == MapSeq(es, ChunkIdOf);
  }

  /** `search` returns the best chunks it found: for `top_chunks >= 0` there
      are `top_chunks` results or one per candidate, each result is built
      from a candidate, and no candidate left out scores more than a result. */
  lemma SearchBest(ct: ContextTree, query: string, llmTerms: Option<seq<string>>,
                   topChapters: int, topChunks: int)
    ensures var kws := UnderstandQuery(query, llmTerms);
      var cands := Candidates(ct, SelectedChapters(ct, kws, topChapters), kws);
      var hs := RankedHits(ct, query, llmTerms, topChapters, topChunks);
      var r := Search(ct, query, llmTerms, topChapters, topChunks);
      (0 <= topChunks ==> |r| == if topChunks <= |cands| then topChunks else |cands|) &&
      |r| == |hs| && multiset(hs) <= multiset(cands) &&
      (forall i :: 0 <= i < |r| ==> r[i] == ResultOf(hs[i])) &&
      forall h :: h in multiset(cands) - multiset(hs) ==>
        forall i :: 0 <= i < |r| ==> h.score <= r[i].score
  {
    var kws := UnderstandQuery(query, llmTerms);
    var ids := SelectedChapters(ct, kws, topChapters);
    TopCandidatesBest(ct, ids, kws, topChunks);
    SearchIsRankedHits(ct, query, llmTerms, topChapters, topChunks);
  }

}

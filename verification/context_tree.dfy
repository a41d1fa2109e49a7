/** The context tree: a Book -> Chapter -> Section -> Chunk hierarchy parsed
    from the corpus snapshot, and the three id-indexed tables `ContextTree`
    builds from it so that every chapter, section and chunk can be reached by
    id together with copies of its ancestors' fields. */
module Tree {
  import opened Seqs
  import opened Tables

  datatype Chunk = Chunk(id: string, text: string, keywords: seq<string>)

  datatype Section = Section(id: string, title: string, summary: string, chunks: seq<Chunk>)

  datatype Chapter = Chapter(
    id: string, number: int, title: string, summary: string,
    keyConcepts: seq<string>, sections: seq<Section>)

  datatype Book = Book(title: string, chapters: seq<Chapter>)

  /** The parsed snapshot: `{version, created_at, books: [...]}`. */
  datatype Snapshot = Snapshot(version: Option<string>, createdAt: Option<string>, books: seq<Book>)

  /** A chapter together with the title of its book. */
  datatype ChapterEntry = ChapterEntry(chapter: Chapter, bookTitle: string)

  /** A section together with copies of its ancestors' fields. */
  datatype SectionEntry = SectionEntry(
    section: Section, bookTitle: string,
    chapterId: string, chapterTitle: string, chapterSummary: string)

  /** A chunk together with copies of its ancestors' fields. */
  datatype ChunkEntry = ChunkEntry(
    chunk: Chunk, bookTitle: string,
    chapterId: string, chapterTitle: string, chapterSummary: string,
    sectionId: string, sectionTitle: string, sectionSummary: string)

  datatype Index = Index(
    chapters: Table<string, ChapterEntry>,
    sections: Table<string, SectionEntry>,
    chunks: Table<string, ChunkEntry>)

  /** `ContextTree`: the loaded snapshot (`None` until a load succeeds) and its tables. */
  datatype ContextTree = ContextTree(tree: Option<Snapshot>, index: Index)

  /** A freshly constructed `ContextTree`: nothing loaded, empty tables. */
  function NewTree(): ContextTree {
    ContextTree(None, Index([], [], []))
  }

  /** A successful `load()`: the snapshot is kept and walked into the tables.
      The tables are not cleared first, so a second load adds to them. */
  function Load(ct: ContextTree, s: Snapshot): ContextTree {
    ContextTree(Some(s), IndexBooks(s.books, ct.index))
  }

  function ChapterEntryOf(bookTitle: string, ch: Chapter): ChapterEntry {
    ChapterEntry(ch, bookTitle)
  }

  function SectionEntryOf(bookTitle: string, ch: Chapter, sec: Section): SectionEntry {
    SectionEntry(sec, bookTitle, ch.id, ch.title, ch.summary)
  }

  function ChunkEntryOf(bookTitle: string, ch: Chapter, sec: Section, ck: Chunk): ChunkEntry {
    ChunkEntry(ck, bookTitle, ch.id, ch.title, ch.summary, sec.id, sec.title, sec.summary)
  }

  // ---------------------------------------------------------------------------
  // `_build_indexes`: one depth-first walk that writes each chapter, then each
  // of its sections, then each of that section's chunks, into its table.

  function IndexBooks(books: seq<Book>, idx: Index): Index
    decreases books
  {
    if |books| == 0 then idx
    else IndexBooks(books[1..], IndexChapters(books[0].title, books[0].chapters, idx))
  }

  function IndexChapters(bt: string, chs: seq<Chapter>, idx: Index): Index
    decreases chs
  {
    if |chs| == 0 then idx
    else
      var ch := chs[0];
      var idx1 := idx.(chapters := Put(idx.chapters, ch.id, ChapterEntryOf(bt, ch)));
      IndexChapters(bt, chs[1..], IndexSections(bt, ch, ch.sections, idx1))
  }

  function IndexSections(bt: string, ch: Chapter, secs: seq<Section>, idx: Index): Index
    decreases secs
  {
    if |secs| == 0 then idx
    else
      var sec := secs[0];
      var idx1 := idx.(sections := Put(idx.sections, sec.id, SectionEntryOf(bt, ch, sec)));
      IndexSections(bt, ch, secs[1..], IndexChunks(bt, ch, sec, sec.chunks, idx1))
  }

  function IndexChunks(bt: string, ch: Chapter, sec: Section, cks: seq<Chunk>, idx: Index): Index
    decreases cks
  {
    if |cks| == 0 then idx
    else
      var ck := cks[0];
      IndexChunks(bt, ch, sec, cks[1..], idx.(chunks := Put(idx.chunks, ck.id, ChunkEntryOf(bt, ch, sec, ck))))
  }

  // ---------------------------------------------------------------------------
  // Reference definition: the rows each table receives, in tree order.

  function SectionChunkRows(bt: string, ch: Chapter, sec: Section, cks: seq<Chunk>): (r: seq<(string, ChunkEntry)>)
    ensures |r| == |cks|
    ensures forall i :: 0 <= i < |r| ==> r[i].0 == r[i].1.chunk.id && r[i].1.chunk == cks[i]
    ensures forall i :: 0 <= i < |r| ==> r[i].1.chapterId == ch.id && r[i].1.sectionId == sec.id
    decreases cks
  {
    if |cks| == 0 then []
    else [(cks[0].id, ChunkEntryOf(bt, ch, sec, cks[0]))] + SectionChunkRows(bt, ch, sec, cks[1..])
  }

  function ChapterChunkRows(bt: string, ch: Chapter, secs: seq<Section>): (r: seq<(string, ChunkEntry)>)
    ensures forall i :: 0 <= i < |r| ==> r[i].0 == r[i].1.chunk.id && r[i].1.chapterId == ch.id
    decreases secs
  {
    if |secs| == 0 then []
    else SectionChunkRows(bt, ch, secs[0], secs[0].chunks) + ChapterChunkRows(bt, ch, secs[1..])
  }

  function BookChunkRows(bt: string, chs: seq<Chapter>): (r: seq<(string, ChunkEntry)>)
    ensures forall i :: 0 <= i < |r| ==> r[i].0 == r[i].1.chunk.id
    decreases chs
  {
    if |chs| == 0 then []
    else ChapterChunkRows(bt, chs[0], chs[0].sections) + BookChunkRows(bt, chs[1..])
  }

  /** Every chunk of the tree, with its ancestors' fields, in tree order. */
  function ChunkRows(books: seq<Book>): (r: seq<(string, ChunkEntry)>)
    ensures forall i :: 0 <= i < |r| ==> r[i].0 == r[i].1.chunk.id
    decreases books
  {
    if |books| == 0 then []
    else BookChunkRows(books[0].title, books[0].chapters) + ChunkRows(books[1..])
  }

  function ChapterSectionRows(bt: string, ch: Chapter, secs: seq<Section>): (r: seq<(string, SectionEntry)>)
    ensures |r| == |secs|
    ensures forall i :: 0 <= i < |r| ==> r[i].0 == r[i].1.section.id
    decreases secs
  {
    if |secs| == 0 then []
    else [(secs[0].id, SectionEntryOf(bt, ch, secs[0]))] + ChapterSectionRows(bt, ch, secs[1..])
  }

  function BookSectionRows(bt: string, chs: seq<Chapter>): (r: seq<(string, SectionEntry)>)
    ensures forall i :: 0 <= i < |r| ==> r[i].0 == r[i].1.section.id
    decreases chs
  {
    if |chs| == 0 then []
    else ChapterSectionRows(bt, chs[0], chs[0].sections) + BookSectionRows(bt, chs[1..])
  }

  /** Every section of the tree, in tree order. */
  function SectionRows(books: seq<Book>): (r: seq<(string, SectionEntry)>)
    ensures forall i :: 0 <= i < |r| ==> r[i].0 == r[i].1.section.id
    decreases books
  {
    if |books| == 0 then []
    else BookSectionRows(books[0].title, books[0].chapters) + SectionRows(books[1..])
  }

  function BookChapterRows(bt: string, chs: seq<Chapter>): (r: seq<(string, ChapterEntry)>)
    ensures |r| == |chs|
    ensures forall i :: 0 <= i < |r| ==> r[i].0 == r[i].1.chapter.id
    decreases chs
  {
    if |chs| == 0 then []
    else [(chs[0].id, ChapterEntryOf(bt, chs[0]))] + BookChapterRows(bt, chs[1..])
  }

  /** Every chapter of the tree, in tree order. */
  function ChapterRows(books: seq<Book>): (r: seq<(string, ChapterEntry)>)
    ensures forall i :: 0 <= i < |r| ==> r[i].0 == r[i].1.chapter.id
    decreases books
  {
    if |books| == 0 then []
    else BookChapterRows(books[0].title, books[0].chapters) + ChapterRows(books[1..])
  }

  /** The three tables after putting the given rows into each. */
  function PutRows(
    idx: Index, chRows: seq<(string, ChapterEntry)>,
    secRows: seq<(string, SectionEntry)>, ckRows: seq<(string, ChunkEntry)>): Index
  {
    Index(PutAll(idx.chapters, chRows), PutAll(idx.sections, secRows), PutAll(idx.chunks, ckRows))
  }

  lemma {:induction false} IndexChunksPutsRows(bt: string, ch: Chapter, sec: Section, cks: seq<Chunk>, idx: Index)
    ensures IndexChunks(bt, ch, sec, cks, idx) == PutRows(idx, [], [], SectionChunkRows(bt, ch, sec, cks))
    decreases cks
  {
    if |cks| != 0 {
      var ck := cks[0];
      var idx1 := idx.(chunks := Put(idx.chunks, ck.id, ChunkEntryOf(bt, ch, sec, ck)));
      IndexChunksPutsRows(bt, ch, sec, cks[1..], idx1);
    }
  }

  lemma {:induction false} IndexSectionsPutsRows(bt: string, ch: Chapter, secs: seq<Section>, idx: Index)
    ensures IndexSections(bt, ch, secs, idx)
         == PutRows(idx, [], ChapterSectionRows(bt, ch, secs), ChapterChunkRows(bt, ch, secs))
    decreases secs
  {
    if |secs| != 0 {
      var sec := secs[0];
      var row := (sec.id, SectionEntryOf(bt, ch, sec));
      var idx1 := idx.(sections := Put(idx.sections, sec.id, SectionEntryOf(bt, ch, sec)));
      var ckRows := SectionChunkRows(bt, ch, sec, sec.chunks);
      IndexChunksPutsRows(bt, ch, sec, sec.chunks, idx1);
      var idx2 := IndexChunks(bt, ch, sec, sec.chunks, idx1);
      IndexSectionsPutsRows(bt, ch, secs[1..], idx2);
      PutAllAppend(idx.sections, [row], ChapterSectionRows(bt, ch, secs[1..]));
      PutAllAppend(idx.chunks, ckRows, ChapterChunkRows(bt, ch, secs[1..]));
    }
  }

  lemma {:induction false} IndexChaptersPutsRows(bt: string, chs: seq<Chapter>, idx: Index)
    ensures IndexChapters(bt, chs, idx)
         == PutRows(idx, BookChapterRows(bt, chs), BookSectionRows(bt, chs), BookChunkRows(bt, chs))
    decreases chs
  {
    if |chs| != 0 {
      var ch := chs[0];
      var row := (ch.id, ChapterEntryOf(bt, ch));
      var idx1 := idx.(chapters := Put(idx.chapters, ch.id, ChapterEntryOf(bt, ch)));
      IndexSectionsPutsRows(bt, ch, ch.sections, idx1);
      var idx2 := IndexSections(bt, ch, ch.sections, idx1);
      IndexChaptersPutsRows(bt, chs[1..], idx2);
      PutAllAppend(idx.chapters, [row], BookChapterRows(bt, chs[1..]));
      PutAllAppend(idx.sections, ChapterSectionRows(bt, ch, ch.sections), BookSectionRows(bt, chs[1..]));
      PutAllAppend(idx.chunks, ChapterChunkRows(bt, ch, ch.sections), BookChunkRows(bt, chs[1..]));
    }
  }

  /** The walk of `_build_indexes` puts exactly the tree-order rows into each
      table: the tables are independent, so interleaving the three kinds of
      writes changes nothing. */
  lemma {:induction false} IndexBooksPutsRows(books: seq<Book>, idx: Index)
    ensures IndexBooks(books, idx)
         == PutRows(idx, ChapterRows(books), SectionRows(books), ChunkRows(books))
    decreases books
  {
    if |books| != 0 {
      var b := books[0];
      IndexChaptersPutsRows(b.title, b.chapters, idx);
      var idx1 := IndexChapters(b.title, b.chapters, idx);
      IndexBooksPutsRows(books[1..], idx1);
      PutAllAppend(idx.chapters, BookChapterRows(b.title, b.chapters), ChapterRows(books[1..]));
      PutAllAppend(idx.sections, BookSectionRows(b.title, b.chapters), SectionRows(books[1..]));
      PutAllAppend(idx.chunks, BookChunkRows(b.title, b.chapters), ChunkRows(books[1..]));
    }
  }

  // ---------------------------------------------------------------------------
  // Well-formed tables: unique keys, each key the id of its own entry.

  function ChapterIdOf(e: ChapterEntry): string { e.chapter.id }

  function SectionIdOf(e: SectionEntry): string { e.section.id }

  function ChunkIdOf(e: ChunkEntry): string { e.chunk.id }

  ghost predicate ChapterTableOk(t: Table<string, ChapterEntry>) {
    Distinct(Keys(t)) && KeyedBy(t, ChapterIdOf)
  }

  ghost predicate SectionTableOk(t: Table<string, SectionEntry>) {
    Distinct(Keys(t)) && KeyedBy(t, SectionIdOf)
  }

  ghost predicate ChunkTableOk(t: Table<string, ChunkEntry>) {
    Distinct(Keys(t)) && KeyedBy(t, ChunkIdOf)
  }

  ghost predicate WellFormed(idx: Index) {
    ChapterTableOk(idx.chapters) && SectionTableOk(idx.sections) && ChunkTableOk(idx.chunks)
  }

  /** Loading keeps the tables well formed, whatever ids the snapshot repeats. */
  lemma LoadWellFormed(ct: ContextTree, s: Snapshot)
    requires WellFormed(ct.index)
    ensures WellFormed(Load(ct, s).index)
  {
    var idx := ct.index;
    IndexBooksPutsRows(s.books, idx);
    PutAllDistinct(idx.chapters, ChapterRows(s.books));
    PutAllDistinct(idx.sections, SectionRows(s.books));
    PutAllDistinct(idx.chunks, ChunkRows(s.books));
    assert KeyedBy(ChapterRows(s.books), ChapterIdOf);
    assert KeyedBy(SectionRows(s.books), SectionIdOf);
    assert KeyedBy(ChunkRows(s.books), ChunkIdOf);
    PutAllKeyedBy(idx.chapters, ChapterRows(s.books), ChapterIdOf);
    PutAllKeyedBy(idx.sections, SectionRows(s.books), SectionIdOf);
    PutAllKeyedBy(idx.chunks, ChunkRows(s.books), ChunkIdOf);
  }

  // ---------------------------------------------------------------------------
  // Where each indexed chunk comes from.

  /** `row` is the index row of chunk `ck` of section `sec` of chapter `ch` of a
      book in `books`, with that chapter's and section's ids and fields. */
  ghost predicate ChunkInTree(books: seq<Book>, row: (string, ChunkEntry)) {
    exists b, ch, sec, ck ::
      b in books && ch in b.chapters && sec in ch.sections && ck in sec.chunks &&
      row == (ck.id, ChunkEntryOf(b.title, ch, sec, ck))
  }

  lemma {:induction false} ChapterChunkRowsInTree(b: Book, ch: Chapter, secs: seq<Section>, row: (string, ChunkEntry))
    requires row in ChapterChunkRows(b.title, ch, secs)
    ensures exists sec, ck :: sec in secs && ck in sec.chunks && row == (ck.id, ChunkEntryOf(b.title, ch, sec, ck))
    decreases secs
  {
    var here := SectionChunkRows(b.title, ch, secs[0], secs[0].chunks);
    if row in here {
      var i :| 0 <= i < |here| && here[i] == row;
      assert SectionChunkRows(b.title, ch, secs[0], secs[0].chunks[i..])[0] == here[i] by {
        SectionChunkRowsSuffix(b.title, ch, secs[0], secs[0].chunks, i);
      }
      assert secs[0] in secs && secs[0].chunks[i] in secs[0].chunks;
    } else {
      ChapterChunkRowsInTree(b, ch, secs[1..], row);
      var sec, ck :| sec in secs[1..] && ck in sec.chunks && row == (ck.id, ChunkEntryOf(b.title, ch, sec, ck));
      assert sec in secs;
    }
  }

  lemma {:induction false} SectionChunkRowsSuffix(bt: string, ch: Chapter, sec: Section, cks: seq<Chunk>, i: nat)
    requires i < |cks|
    ensures SectionChunkRows(bt, ch, sec, cks[i..]) == SectionChunkRows(bt, ch, sec, cks)[i..]
    ensures SectionChunkRows(bt, ch, sec, cks)[i] == (cks[i].id, ChunkEntryOf(bt, ch, sec, cks[i]))
    decreases i
  {
    if i != 0 {
      SectionChunkRowsSuffix(bt, ch, sec, cks[1..], i - 1);
      assert cks[1..][i - 1..] == cks[i..];
    }
  }

  lemma {:induction false} BookChunkRowsInTree(b: Book, chs: seq<Chapter>, row: (string, ChunkEntry))
    requires row in BookChunkRows(b.title, chs)
    ensures exists ch, sec, ck ::
              ch in chs && sec in ch.sections && ck in sec.chunks &&
              row == (ck.id, ChunkEntryOf(b.title, ch, sec, ck))
    decreases chs
  {
    if row in ChapterChunkRows(b.title, chs[0], chs[0].sections) {
      ChapterChunkRowsInTree(b, chs[0], chs[0].sections, row);
      assert chs[0] in chs;
    } else {
      BookChunkRowsInTree(b, chs[1..], row);
      var ch, sec, ck :| ch in chs[1..] && sec in ch.sections && ck in sec.chunks &&
        row == (ck.id, ChunkEntryOf(b.title, ch, sec, ck));
      assert ch in chs;
    }
  }

  lemma {:induction false} ChunkRowsInTree(books: seq<Book>, row: (string, ChunkEntry))
    requires row in ChunkRows(books)
    ensures ChunkInTree(books, row)
    decreases books
  {
    var b := books[0];
    if row in BookChunkRows(b.title, b.chapters) {
      BookChunkRowsInTree(b, b.chapters, row);
      var ch, sec, ck :| ch in b.chapters && sec in ch.sections && ck in sec.chunks &&
        row == (ck.id, ChunkEntryOf(b.title, ch, sec, ck));
      assert b in books;
    } else {
      ChunkRowsInTree(books[1..], row);
      var b', ch, sec, ck :| b' in books[1..] && ch in b'.chapters && sec in ch.sections && ck in sec.chunks &&
        row == (ck.id, ChunkEntryOf(b'.title, ch, sec, ck));
      assert b' in books;
    }
  }

  /** Every row of the chunk table of a freshly loaded tree is keyed by its
      chunk's id and names, in `chapter_id` and `section_id`, the chapter and
      the section that contain the chunk in the snapshot. */
  lemma LoadedChunksInTree(s: Snapshot, row: (string, ChunkEntry))
    requires row in Load(NewTree(), s).index.chunks
    ensures ChunkInTree(s.books, row)
  {
    IndexBooksPutsRows(s.books, NewTree().index);
    ChunkRowsInTree(s.books, row);
  }

  // ---------------------------------------------------------------------------
  // With unique ids the tables hold the whole tree in tree order.

  /** If the snapshot never repeats an id, each table lists every entity of
      that kind in tree order; repeated ids would instead keep the first
      position and the last entry written. */
  lemma LoadedTablesAreTreeRows(s: Snapshot)
    requires Distinct(Keys(ChapterRows(s.books)))
    requires Distinct(Keys(SectionRows(s.books)))
    requires Distinct(Keys(ChunkRows(s.books)))
    ensures Load(NewTree(), s).index.chapters == ChapterRows(s.books)
    ensures Load(NewTree(), s).index.sections == SectionRows(s.books)
    ensures Load(NewTree(), s).index.chunks == ChunkRows(s.books)
  {
    LoadedChaptersAreTreeRows(s);
    LoadedSectionsAreTreeRows(s);
    LoadedChunksAreTreeRows(s);
  }

  /** Each table on its own: unique chapter ids give the chapter table. */
  lemma LoadedChaptersAreTreeRows(s: Snapshot)
    requires Distinct(Keys(ChapterRows(s.books)))
    ensures Load(NewTree(), s).index.chapters == ChapterRows(s.books)
  {
    IndexBooksPutsRows(s.books, NewTree().index);
    assert [] + ChapterRows(s.books) == ChapterRows(s.books);
    PutAllFresh([], ChapterRows(s.books));
  }

  lemma LoadedSectionsAreTreeRows(s: Snapshot)
    requires Distinct(Keys(SectionRows(s.books)))
    ensures Load(NewTree(), s).index.sections == SectionRows(s.books)
  {
    IndexBooksPutsRows(s.books, NewTree().index);
    assert [] + SectionRows(s.books) == SectionRows(s.books);
    PutAllFresh([], SectionRows(s.books));
  }

  lemma LoadedChunksAreTreeRows(s: Snapshot)
    requires Distinct(Keys(ChunkRows(s.books)))
    ensures Load(NewTree(), s).index.chunks == ChunkRows(s.books)
  {
    IndexBooksPutsRows(s.books, NewTree().index);
    assert [] + ChunkRows(s.books) == ChunkRows(s.books);
    PutAllFresh([], ChunkRows(s.books));
  }

  // ---------------------------------------------------------------------------
  // Queries.

  /** A row of `get_all_chapters()`. */
  datatype ChapterInfo = ChapterInfo(
    id: string, number: int, title: string, summary: string,
    keyConcepts: seq<string>, bookTitle: string)

  function InfoOf(row: (string, ChapterEntry)): ChapterInfo {
    var ch := row.1.chapter;
    ChapterInfo(row.0, ch.number, ch.title, ch.summary, ch.keyConcepts, row.1.bookTitle)
  }

  function InfoId(info: ChapterInfo): string { info.id }

  /** `get_all_chapters()`: one summary per chapter-table row, in table order. */
  function GetAllChapters(ct: ContextTree): (r: seq<ChapterInfo>)
    ensures MapSeq(r, InfoId) == Keys(ct.index.chapters)
  {
    var r := MapSeq(ct.index.chapters, InfoOf);
    assert MapSeq(r, InfoId) == Keys(ct.index.chapters);
    r
  }

  /** Reference: a summary of every chapter, walking the tree. */
  function TreeChapterInfos(books: seq<Book>): seq<ChapterInfo>
    decreases books
  {
    if |books| == 0 then []
    else BookChapterInfos(books[0].title, books[0].chapters) + TreeChapterInfos(books[1..])
  }

  function BookChapterInfos(bt: string, chs: seq<Chapter>): seq<ChapterInfo>
    decreases chs
  {
    if |chs| == 0 then []
    else
      var ch := chs[0];
      [ChapterInfo(ch.id, ch.number, ch.title, ch.summary, ch.keyConcepts, bt)]
      + BookChapterInfos(bt, chs[1..])
  }

  lemma {:induction false} BookChapterRowsInfos(bt: string, chs: seq<Chapter>)
    ensures MapSeq(BookChapterRows(bt, chs), InfoOf) == BookChapterInfos(bt, chs)
    decreases chs
  {
    if |chs| != 0 {
      var row := (chs[0].id, ChapterEntryOf(bt, chs[0]));
      MapSeqAppend([row], BookChapterRows(bt, chs[1..]), InfoOf);
      BookChapterRowsInfos(bt, chs[1..]);
    }
  }

  lemma {:induction false} ChapterRowsInfos(books: seq<Book>)
    ensures MapSeq(ChapterRows(books), InfoOf) == TreeChapterInfos(books)
    decreases books
  {
    if |books| != 0 {
      MapSeqAppend(BookChapterRows(books[0].title, books[0].chapters), ChapterRows(books[1..]), InfoOf);
      BookChapterRowsInfos(books[0].title, books[0].chapters);
      ChapterRowsInfos(books[1..]);
    }
  }

  /** With unique chapter ids, `get_all_chapters()` after a load summarises
      every chapter of the tree, in tree order, with its book's title. */
  lemma GetAllChaptersInTreeOrder(s: Snapshot)
    requires Distinct(Keys(ChapterRows(s.books)))
    ensures GetAllChapters(Load(NewTree(), s)) == TreeChapterInfos(s.books)
  {
    LoadedChaptersAreTreeRows(s);
    ChapterRowsInfos(s.books);
  }

  /** The entries of chunk-table rows whose `chapter_id` is `c`, in table order. */
  function ChunksOfChapter(t: seq<(string, ChunkEntry)>, c: string): (r: seq<ChunkEntry>)
    ensures forall e :: e in r <==> e in Values(t) && e.chapterId == c
    ensures |r| <= |t|
  {
    if |t| == 0 then []
    else
      assert Values(t) == [t[0].1] + Values(t[1..]);
      if t[0].1.chapterId == c then [t[0].1] + ChunksOfChapter(t[1..], c)
      else ChunksOfChapter(t[1..], c)
  }

  /** Each entry of chapter `c` is kept as often as the table holds it; no other entry is kept. */
  lemma {:induction false} ChunksOfChapterMultiset(t: seq<(string, ChunkEntry)>, c: string)
    ensures forall e :: multiset(ChunksOfChapter(t, c))[e] == if e.chapterId == c then multiset(Values(t))[e] else 0
  {
    if |t| != 0 {
      ChunksOfChapterMultiset(t[1..], c);
      assert Values(t) == [t[0].1] + Values(t[1..]);
    }
  }

  /** `get_chapter_chunks(chapter_id)`. */
  function GetChapterChunks(ct: ContextTree, c: string): seq<ChunkEntry> {
    ChunksOfChapter(ct.index.chunks, c)
  }

  /** `get_section_chunks(section_id)`: the chunk-table entries whose `section_id` is `sid`. */
  function GetSectionChunks(ct: ContextTree, sid: string): (r: seq<ChunkEntry>)
    ensures forall e :: e in r <==> e in Values(ct.index.chunks) && e.sectionId == sid
  {
    ChunksOfSection(ct.index.chunks, sid)
  }

  /** The entries of chunk-table rows whose `section_id` is `sid`, in table order. */
  function ChunksOfSection(t: seq<(string, ChunkEntry)>, sid: string): (r: seq<ChunkEntry>)
    ensures forall e :: e in r <==> e in Values(t) && e.sectionId == sid
    ensures |r| <= |t|
  {
    if |t| == 0 then []
    else
      assert Values(t) == [t[0].1] + Values(t[1..]);
      if t[0].1.sectionId == sid then [t[0].1] + ChunksOfSection(t[1..], sid)
      else ChunksOfSection(t[1..], sid)
  }

  /** Reference: the chunks of every chapter with id `c`, walking the tree. */
  function TreeChapterChunks(books: seq<Book>, c: string): seq<ChunkEntry>
    decreases books
  {
    if |books| == 0 then []
    else BookChapterChunks(books[0].title, books[0].chapters, c) + TreeChapterChunks(books[1..], c)
  }

  function BookChapterChunks(bt: string, chs: seq<Chapter>, c: string): seq<ChunkEntry>
    decreases chs
  {
    if |chs| == 0 then []
    else
      (if chs[0].id == c then Values(ChapterChunkRows(bt, chs[0], chs[0].sections)) else [])
      + BookChapterChunks(bt, chs[1..], c)
  }

  lemma {:induction false} ChunksOfChapterAppend(a: seq<(string, ChunkEntry)>, b: seq<(string, ChunkEntry)>, c: string)
    ensures ChunksOfChapter(a + b, c) == ChunksOfChapter(a, c) + ChunksOfChapter(b, c)
    decreases a
  {
    if |a| == 0 {
      assert a + b == b;
    } else {
      assert (a + b)[0] == a[0] && (a + b)[1..] == a[1..] + b;
      ChunksOfChapterAppend(a[1..], b, c);
    }
  }

  /** Rows that all belong to chapter `c0` are kept whole or dropped whole. */
  lemma {:induction false} ChunksOfChapterUniform(rows: seq<(string, ChunkEntry)>, c0: string, c: string)
    requires forall i :: 0 <= i < |rows| ==> rows[i].1.chapterId == c0
    ensures ChunksOfChapter(rows, c) == if c0 == c then Values(rows) else []
    decreases rows
  {
    if |rows| != 0 {
      ChunksOfChapterUniform(rows[1..], c0, c);
      assert Values(rows) == [rows[0].1] + Values(rows[1..]);
    }
  }

  lemma {:induction false} BookChunksOfChapter(bt: string, chs: seq<Chapter>, c: string)
    ensures ChunksOfChapter(BookChunkRows(bt, chs), c) == BookChapterChunks(bt, chs, c)
    decreases chs
  {
    if |chs| != 0 {
      var here := ChapterChunkRows(bt, chs[0], chs[0].sections);
      ChunksOfChapterAppend(here, BookChunkRows(bt, chs[1..]), c);
      ChunksOfChapterUniform(here, chs[0].id, c);
      BookChunksOfChapter(bt, chs[1..], c);
    }
  }

  lemma {:induction false} TreeChunksOfChapter(books: seq<Book>, c: string)
    ensures ChunksOfChapter(ChunkRows(books), c) == TreeChapterChunks(books, c)
    decreases books
  {
    if |books| != 0 {
      ChunksOfChapterAppend(BookChunkRows(books[0].title, books[0].chapters), ChunkRows(books[1..]), c);
      BookChunksOfChapter(books[0].title, books[0].chapters, c);
      TreeChunksOfChapter(books[1..], c);
    }
  }

  /** With unique chunk ids, `get_chapter_chunks(c)` returns the chunks of
      chapter `c` exactly in tree order. */
  lemma GetChapterChunksInTreeOrder(s: Snapshot, c: string)
    requires Distinct(Keys(ChunkRows(s.books)))
    ensures GetChapterChunks(Load(NewTree(), s), c) == TreeChapterChunks(s.books, c)
  {
    LoadedChunksAreTreeRows(s);
    TreeChunksOfChapter(s.books, c);
  }

  /** Each entry of section `sid` is kept as often as the table holds it; no other entry is kept. */
  lemma {:induction false} ChunksOfSectionMultiset(t: seq<(string, ChunkEntry)>, sid: string)
    ensures forall e :: multiset(ChunksOfSection(t, sid))[e] == if e.sectionId == sid then multiset(Values(t))[e] else 0
  {
    if |t| != 0 {
      ChunksOfSectionMultiset(t[1..], sid);
      assert Values(t) == [t[0].1] + Values(t[1..]);
    }
  }

  /** Reference: the chunks of every section with id `sid`, walking the tree. */
  function TreeSectionChunks(books: seq<Book>, sid: string): seq<ChunkEntry>
    decreases books
  {
    if |books| == 0 then []
    else BookSectionChunks(books[0].title, books[0].chapters, sid) + TreeSectionChunks(books[1..], sid)
  }

  function BookSectionChunks(bt: string, chs: seq<Chapter>, sid: string): seq<ChunkEntry>
    decreases chs
  {
    if |chs| == 0 then []
    else ChapterSectionChunks(bt, chs[0], chs[0].sections, sid) + BookSectionChunks(bt, chs[1..], sid)
  }

  function ChapterSectionChunks(bt: string, ch: Chapter, secs: seq<Section>, sid: string): seq<ChunkEntry>
    decreases secs
  {
    if |secs| == 0 then []
    else
      (if secs[0].id == sid then Values(SectionChunkRows(bt, ch, secs[0], secs[0].chunks)) else [])
      + ChapterSectionChunks(bt, ch, secs[1..], sid)
  }

  lemma {:induction false} ChunksOfSectionAppend(a: seq<(string, ChunkEntry)>, b: seq<(string, ChunkEntry)>, sid: string)
    ensures ChunksOfSection(a + b, sid) == ChunksOfSection(a, sid) + ChunksOfSection(b, sid)
    decreases a
  {
    if |a| == 0 {
      assert a + b == b;
    } else {
      assert (a + b)[0] == a[0] && (a + b)[1..] == a[1..] + b;
      ChunksOfSectionAppend(a[1..], b, sid);
    }
  }

  /** Rows that all belong to section `s0` are kept whole or dropped whole. */
  lemma {:induction false} ChunksOfSectionUniform(rows: seq<(string, ChunkEntry)>, s0: string, sid: string)
    requires forall i :: 0 <= i < |rows| ==> rows[i].1.sectionId == s0
    ensures ChunksOfSection(rows, sid) == if s0 == sid then Values(rows) else []
    decreases rows
  {
    if |rows| != 0 {
      ChunksOfSectionUniform(rows[1..], s0, sid);
      assert Values(rows) == [rows[0].1] + Values(rows[1..]);
    }
  }

  lemma {:induction false} ChapterChunksOfSection(bt: string, ch: Chapter, secs: seq<Section>, sid: string)
    ensures ChunksOfSection(ChapterChunkRows(bt, ch, secs), sid) == ChapterSectionChunks(bt, ch, secs, sid)
    decreases secs
  {
    if |secs| != 0 {
      var here := SectionChunkRows(bt, ch, secs[0], secs[0].chunks);
      ChunksOfSectionAppend(here, ChapterChunkRows(bt, ch, secs[1..]), sid);
      ChunksOfSectionUniform(here, secs[0].id, sid);
      ChapterChunksOfSection(bt, ch, secs[1..], sid);
    }
  }

  lemma {:induction false} BookChunksOfSection(bt: string, chs: seq<Chapter>, sid: string)
    ensures ChunksOfSection(BookChunkRows(bt, chs), sid) == BookSectionChunks(bt, chs, sid)
    decreases chs
  {
    if |chs| != 0 {
      ChunksOfSectionAppend(ChapterChunkRows(bt, chs[0], chs[0].sections), BookChunkRows(bt, chs[1..]), sid);
      ChapterChunksOfSection(bt, chs[0], chs[0].sections, sid);
      BookChunksOfSection(bt, chs[1..], sid);
    }
  }

  lemma {:induction false} TreeChunksOfSection(books: seq<Book>, sid: string)
    ensures ChunksOfSection(ChunkRows(books), sid) == TreeSectionChunks(books, sid)
    decreases books
  {
    if |books| != 0 {
      ChunksOfSectionAppend(BookChunkRows(books[0].title, books[0].chapters), ChunkRows(books[1..]), sid);
      BookChunksOfSection(books[0].title, books[0].chapters, sid);
      TreeChunksOfSection(books[1..], sid);
    }
  }

  /** With unique chunk ids, `get_section_chunks(sid)` returns the chunks of
      section `sid` exactly in tree order. */
  lemma GetSectionChunksInTreeOrder(s: Snapshot, sid: string)
    requires Distinct(Keys(ChunkRows(s.books)))
    ensures GetSectionChunks(Load(NewTree(), s), sid) == TreeSectionChunks(s.books, sid)
  {
    LoadedChunksAreTreeRows(s);
    TreeChunksOfSection(s.books, sid);
  }

  // ---------------------------------------------------------------------------
  // `get_stats()`.

  datatype Stats = Stats(
    version: Option<string>, createdAt: Option<string>,
    books: nat, chapters: nat, sections: nat, chunks: nat)

  /** `get_stats()`: `None` stands for the empty dictionary returned before a
      load. After one, the counts are the sizes of the three tables, which a
      later load does not clear. */
  function GetStats(ct: ContextTree): (r: Option<Stats>)
    ensures r.None? <==> ct.tree.None?
    ensures r.Some? ==>
      && r.value.version == ct.tree.value.version && r.value.createdAt == ct.tree.value.createdAt
      && r.value.books == |ct.tree.value.books|
      && r.value.chapters == |ct.index.chapters|
      && r.value.sections == |ct.index.sections|
      && r.value.chunks == |ct.index.chunks|
  {
    match ct.tree
    case None => None
    case Some(s) =>
      Some(Stats(s.version, s.createdAt, |s.books|,
                 |ct.index.chapters|, |ct.index.sections|, |ct.index.chunks|))
  }

  function ChapterTotal(books: seq<Book>): nat
    decreases books
  {
    if |books| == 0 then 0 else |books[0].chapters| + ChapterTotal(books[1..])
  }

  function SectionTotal(books: seq<Book>): nat
    decreases books
  {
    if |books| == 0 then 0 else BookSectionTotal(books[0].chapters) + SectionTotal(books[1..])
  }

  function BookSectionTotal(chs: seq<Chapter>): nat
    decreases chs
  {
    if |chs| == 0 then 0 else |chs[0].sections| + BookSectionTotal(chs[1..])
  }

  function ChunkTotal(books: seq<Book>): nat
    decreases books
  {
    if |books| == 0 then 0 else BookChunkTotal(books[0].chapters) + ChunkTotal(books[1..])
  }

  function BookChunkTotal(chs: seq<Chapter>): nat
    decreases chs
  {
    if |chs| == 0 then 0 else ChapterChunkTotal(chs[0].sections) + BookChunkTotal(chs[1..])
  }

  function ChapterChunkTotal(secs: seq<Section>): nat
    decreases secs
  {
    if |secs| == 0 then 0 else |secs[0].chunks| + ChapterChunkTotal(secs[1..])
  }

  lemma {:induction false} RowCounts(books: seq<Book>)
    ensures |ChapterRows(books)| == ChapterTotal(books)
    ensures |SectionRows(books)| == SectionTotal(books)
    ensures |ChunkRows(books)| == ChunkTotal(books)
    decreases books
  {
    if |books| != 0 {
      RowCounts(books[1..]);
      BookRowCounts(books[0].title, books[0].chapters);
    }
  }

  lemma {:induction false} BookRowCounts(bt: string, chs: seq<Chapter>)
    ensures |BookSectionRows(bt, chs)| == BookSectionTotal(chs)
    ensures |BookChunkRows(bt, chs)| == BookChunkTotal(chs)
    decreases chs
  {
    if |chs| != 0 {
      BookRowCounts(bt, chs[1..]);
      ChapterRowCounts(bt, chs[0], chs[0].sections);
    }
  }

  lemma {:induction false} ChapterRowCounts(bt: string, ch: Chapter, secs: seq<Section>)
    ensures |ChapterChunkRows(bt, ch, secs)| == ChapterChunkTotal(secs)
    decreases secs
  {
    if |secs| != 0 {
      ChapterRowCounts(bt, ch, secs[1..]);
    }
  }

  /** After one load, `get_stats()` reports the snapshot's version and book
      count and the sizes of the three tables; these never exceed the numbers
      of chapters, sections and chunks in the tree, and equal them when no id
      repeats. */
  lemma StatsOfLoadedTree(s: Snapshot)
    ensures GetStats(Load(NewTree(), s)).Some?
    ensures var st := GetStats(Load(NewTree(), s)).value;
      && st.version == s.version && st.createdAt == s.createdAt && st.books == |s.books|
      && st.chapters <= ChapterTotal(s.books)
      && st.sections <= SectionTotal(s.books)
      && st.chunks <= ChunkTotal(s.books)
    ensures var st := GetStats(Load(NewTree(), s)).value;
      && (Distinct(Keys(ChapterRows(s.books))) ==> st.chapters == ChapterTotal(s.books))
      && (Distinct(Keys(SectionRows(s.books))) ==> st.sections == SectionTotal(s.books))
      && (Distinct(Keys(ChunkRows(s.books))) ==> st.chunks == ChunkTotal(s.books))
  {
    IndexBooksPutsRows(s.books, NewTree().index);
    RowCounts(s.books);
    if Distinct(Keys(ChapterRows(s.books))) {
      LoadedChaptersAreTreeRows(s);
    }
    if Distinct(Keys(SectionRows(s.books))) {
      LoadedSectionsAreTreeRows(s);
    }
    if Distinct(Keys(ChunkRows(s.books))) {
      LoadedChunksAreTreeRows(s);
    }
  }

  /** A load into any tree, fresh or already loaded, reports the new
      snapshot's version and book count. Since the tables are not cleared,
      each count is at least what it was before and at most that plus the
      number of such entries in the new snapshot. */
  lemma StatsAfterLoad(ct: ContextTree, s: Snapshot)
    ensures GetStats(Load(ct, s)).Some?
    ensures var st := GetStats(Load(ct, s)).value;
      && st.version == s.version && st.createdAt == s.createdAt && st.books == |s.books|
      && |ct.index.chapters| <= st.chapters <= |ct.index.chapters| + ChapterTotal(s.books)
      && |ct.index.sections| <= st.sections <= |ct.index.sections| + SectionTotal(s.books)
      && |ct.index.chunks| <= st.chunks <= |ct.index.chunks| + ChunkTotal(s.books)
  {
    IndexBooksPutsRows(s.books, ct.index);
    RowCounts(s.books);
    PutAllKeys(ct.index.chapters, ChapterRows(s.books));
    PutAllKeys(ct.index.sections, SectionRows(s.books));
    PutAllKeys(ct.index.chunks, ChunkRows(s.books));
  }

  /** Loading the same snapshot a second time rewrites ids that are already
      in the tables, so `get_stats()` reports the same counts as after the
      first load. */
  lemma StatsOfReload(s: Snapshot)
    ensures GetStats(Load(Load(NewTree(), s), s)) == GetStats(Load(NewTree(), s))
  {
    var idx := Load(NewTree(), s).index;
    IndexBooksPutsRows(s.books, NewTree().index);
    IndexBooksPutsRows(s.books, idx);
    PutAllKeys([], ChapterRows(s.books));
    PutAllKeys([], SectionRows(s.books));
    PutAllKeys([], ChunkRows(s.books));
    RowKeysPresent(ChapterRows(s.books), idx.chapters);
    RowKeysPresent(SectionRows(s.books), idx.sections);
    RowKeysPresent(ChunkRows(s.books), idx.chunks);
    PutAllPresent(idx.chapters, ChapterRows(s.books));
    PutAllPresent(idx.sections, SectionRows(s.books));
    PutAllPresent(idx.chunks, ChunkRows(s.books));
  }

  lemma RowKeysPresent<V>(rows: seq<(string, V)>, t: Table<string, V>)
    requires forall k :: k in Keys(rows) ==> k in Keys(t)
    ensures forall i :: 0 <= i < |rows| ==> rows[i].0 in Keys(t)
  {
    forall i | 0 <= i < |rows| ensures rows[i].0 in Keys(t) {
      assert Keys(rows)[i] == rows[i].0;
    }
  }
}

# OBS book search: a Dafny model of the retrieval core and the usage limiters

This project models the part of the OBS book-search Telegram bot that finds
passages in the indexed book and decides whether a question may be answered:

- **The context tree** (`ContextTree`). The corpus snapshot is a hierarchy of
  books, chapters, sections and chunks. `_build_indexes` walks it into three
  tables, keyed by chapter id, section id and chunk id, and each entry keeps
  copies of its ancestors' fields. The model also covers the lookups on these
  tables (`get_all_chapters`, `get_chapter_chunks`, `get_section_chunks`),
  keyword scoring of chapters and chunks, and `get_stats`.
- **The tree searcher** (`TreeSearcher.search`, `_understand_query`). A
  question becomes at most five search terms, or the terms a language model
  offered. The searcher then takes the best `top_chapters` chapters, or the
  first ones when none scores, and the best three chunks of each of those
  chapters. It returns the best `top_chunks` of those chunks.
- **The embedding-token limiter** (`VoyageLimiter`). It counts tokens, stops
  requests at 45 million and warns once at 40 million. Each notice to the
  administrator is sent once.
- **The daily request limiter** (`RateLimiter`). It allows 500 requests per
  day and asks for an admin warning at 400. It keeps a per-day history and a
  log of every user's questions, and produces the admin report.

Modules follow the program's structure:

| module | file | models |
|---|---|---|
| `Seqs` | `seqs.dfy` | Python's `None`, prefix slicing `xs[:n]` (also for negative `n`), list comprehensions |
| `Sorting` | `sorting.dfy` | the stable `list.sort(key=..., reverse=True)` |
| `Text` | `text.dfy` | `str.lower`, the substring test `p in s`, `str.count` |
| `Tables` | `tables.dfy` | a Python `dict`: insertion-ordered rows, where a repeated key keeps its first position and takes the last value |
| `Tree` | `context_tree.dfy` | `ContextTree`: the snapshot, `_build_indexes`, the lookups, `get_stats` |
| `Scoring` | `scoring.dfy` | `search_chapters_by_keywords`, `search_chunks_in_chapter` |
| `Query` | `query.dfy` | `_understand_query` |
| `Search` | `search.dfy` | `SearchResult`, `TreeSearcher.search` |
| `Voyage` | `voyage_limiter.dfy` | `VoyageLimiter` |
| `RateLimit` | `rate_limiter.dfy` | `RateLimiter`, with `DAILY_REQUEST_LIMIT = 500` and `WARNING_THRESHOLD = 0.8` from `src/config.py` |

Every operation is a pure function. An operation that changes state
returns the new state. `get_usage_info` and `get_admin_stats` also apply
the date rollover to the limiter they are called on. The model's functions
for them return only the report. `RateLimit.Step` applies their rollover
through the `Usage` and `Report` operations. Outside effects become
parameters or results:

- The calendar date, `str(date.today())`, is a parameter `today`.
- The wall clock, `datetime.now()`, is a parameter `now`, holding the two
  strings the source writes.
- The language model's `search_terms` are a parameter `llmTerms`.
- Notices for the administrator's callback are returned as a list.

The Python floating-point chunk scores are scaled by ten so that they are
integers. A keyword found in the text is worth 10 plus its number of
occurrences. A keyword equal to one of the chunk's tags is worth 5 more.

## Model

| member | source | states |
|---|---|---|
| Tree.IndexBooksPutsRows | src/tree_search.py:64-97 | The nested walk writes each table exactly as putting that table's rows into it, one by one in tree order, would. |
| Tree.LoadWellFormed | src/tree_search.py:64-97 | Building the indexes keeps every table well formed: keys are unique and each key is its entry's own id, even when the snapshot repeats ids. |
| Tree.LoadedTablesAreTreeRows | src/tree_search.py:64-97 | When the snapshot never repeats an id, each table lists every chapter, section or chunk of the tree, in tree order. |
| Tree.LoadedChunksAreTreeRows | src/tree_search.py:64-97 | When no chunk id repeats, the chunk table lists every chunk of the tree in tree order, whatever the chapter and section ids do. |
| Tree.LoadedChunksInTree | src/tree_search.py:86-97 | Every chunk-table row is keyed by its chunk's id. It carries the book title and the chapter and section ids, titles and summaries of the chapter and section that contain the chunk. |
| Tree.GetAllChapters | src/tree_search.py:99-111 | `get_all_chapters` yields one summary per chapter-table row: its ids, in order, are the table's keys. |
| Tree.GetAllChaptersInTreeOrder | src/tree_search.py:99-111 | With unique chapter ids, `get_all_chapters()` after a load equals an independent walk of the tree: one row per chapter, in tree order, holding its id, number, title, summary, key concepts and book title. |
| Tree.ChunksOfChapterMultiset | src/tree_search.py:113-118 | The chapter filter keeps each chunk of that chapter exactly as often as the table holds it, and no other chunk. |
| Tree.GetChapterChunksInTreeOrder | src/tree_search.py:113-118 | With unique chunk ids, `get_chapter_chunks(c)` after a load equals an independent walk of the tree that collects the chunks of chapter `c`. |
| Tree.GetSectionChunks | src/tree_search.py:120-125 | An entry is returned if and only if it is in the chunk table and its `section_id` is the one asked for. |
| Tree.ChunksOfSectionMultiset | src/tree_search.py:120-125 | The section filter keeps each chunk of that section exactly as often as the table holds it, and no other chunk. |
| Tree.GetSectionChunksInTreeOrder | src/tree_search.py:120-125 | With unique chunk ids, `get_section_chunks(sid)` after a load equals an independent walk of the tree that collects the chunks of section `sid`. |
| Tree.GetStats | src/tree_search.py:188-200 | No statistics before a tree is loaded. After a load: the snapshot's version, date and book count, and the current sizes of the chapter, section and chunk tables. |
| Tree.StatsOfLoadedTree | src/tree_search.py:188-200 | After a load, the report gives the snapshot's version, date and book count. The three table sizes are at most the tree's numbers of chapters, sections and chunks. Each size equals its number when no id of that kind repeats. |
| Tree.StatsAfterLoad | src/tree_search.py:188-200 | A load into any tree reports the new snapshot's version, date and book count. Because the tables are never cleared, each count is at least the earlier table size and at most that plus the snapshot's number of entries of that kind. |
| Tree.StatsOfReload | src/tree_search.py:188-200 | Loading the same snapshot twice reports the same statistics as loading it once: the second walk only rewrites ids already in the tables. |
| Scoring.ChapterScorePositive | src/tree_search.py:139-150 | A chapter scores above zero if and only if some keyword occurs, ignoring case, in its title, its summary or a key concept. Each keyword adds at most 3 + 2 + 2. |
| Scoring.SearchChaptersByKeywords | src/tree_search.py:127-158 | The result is sorted by score, best first. A hit is in it if and only if its chapter is in the table, the score is that chapter's score and the score is positive. |
| Scoring.ChapterSearchTies | src/tree_search.py:157 | For every score, the chapters with that score come out in table order, as Python's stable sort leaves them. |
| Scoring.ChunkWeightBounds | src/tree_search.py:169-177 | A keyword found in the text adds at least 1.1 (11 tenths). A keyword adds something if and only if it occurs in the text or equals a tag. |
| Scoring.ChunkScorePositive | src/tree_search.py:164-179 | A chunk scores above zero if and only if some keyword occurs in its text or equals one of its tags. |
| Scoring.SearchChunksInChapter | src/tree_search.py:160-186 | The result is sorted by score, best first. A hit is in it if and only if its chunk is in the table, belongs to the chapter, scores that chunk's score and the score is positive. |
| Scoring.ChunkSearchTies | src/tree_search.py:185 | For every score, the chunks with that score come out in table order. |
| Scoring.RankedEntries | src/tree_search.py:150-158 | Scoring and sorting only select entries: none is added and none is repeated. |
| Scoring.RankedTop | src/tree_search.py:150-158 | The first `n` ranked hits are the best ones. For `n >= 0` there are `n` of them, or as many as there are scoring entries. No scoring entry left out scores more than one kept. |
| Scoring.NoKeywordsNoHits | src/tree_search.py:127-186 | With no keywords, both searches return nothing. |
| Query.KeepTerms | src/tree_search.py:282-284 | Each word that is longer than two characters and not a stop word is kept as often as it occurs. No other word is kept. |
| Query.Tokenize | src/tree_search.py:278-285 | The first five of the question's terms, in order, or all of them if it has fewer: the result is a prefix of the term list, whose contents `Query.KeepTerms` fixes. When fewer than five come back, every term word of the lowered question is among them. Each is a run of Latin or Cyrillic letters, longer than two characters, not a stop word, lower case, and it occurs in the lowered question. |
| Query.TokenizeInOrder | src/tree_search.py:280-285 | The fallback terms are words of the lowered question, kept in the order in which they occur. |
| Query.TokenizeJoin | src/tree_search.py:278-285 | A question made of lower-case terms separated by blanks gives back its first five terms, in order. |
| Query.WordsOfJoin | src/tree_search.py:280 | The word splitter recovers the words of any blank-separated text. |
| Query.UnderstandQuery | src/tree_search.py:264-285 | A non-empty list of model terms is used as given. Otherwise the result is the question's own fallback terms, at most five. |
| Query.WordsBeforeSeparator | src/tree_search.py:280 | A non-letter at the end of a text adds no word to the split. |
| Query.TokenizeExample | src/tree_search.py:264-285 | "Что такое делегирование?" ("what is delegation?") gives the single term "делегирование", both from the fallback and from `_understand_query` without a language model. |
| Search.SelectedChapters | src/tree_search.py:235-240 | At most `top_chapters` chapter ids. They are the first chapters of the table when no chapter scores, and otherwise only chapters that score above zero. |
| Search.SelectedChaptersBest | src/tree_search.py:235-240 | When some chapter scores and `top_chapters` is positive, the ids are those of the best-ranked chapters. There are `top_chapters` of them, or as many as score. No scoring chapter left out scores more than a chosen one. |
| Search.ChapterBlockBest | src/tree_search.py:243-247 | Each chosen chapter gives three chunks, or all its scoring chunks if fewer score. No scoring chunk of that chapter left out scores more than one taken. |
| Search.FirstChapterIds | src/tree_search.py:238-240 | The fallback chapters are the first `top_chapters` keys of the chapter table. |
| Search.SelectedDistinct | src/tree_search.py:235-240 | In a well-formed tree the chosen chapter ids are distinct. |
| Search.Search | src/tree_search.py:218-262 | At most `top_chunks` results, sorted by score, best first. |
| Search.SearchBest | src/tree_search.py:218-262 | For `top_chunks >= 0`, `search` returns `top_chunks` results, or one per candidate chunk if there are fewer. Each result is built from a distinct candidate. No candidate left out scores more than a result. |
| Search.SearchIsRankedHits | src/tree_search.py:242-262 | The results are, in the same order, the best chunk hits turned into `SearchResult`s. |
| Search.SearchDiversity | src/tree_search.py:235-262 | No chunk comes back twice, and no chapter contributes more than three chunks. Every chunk comes from one of at most `top_chapters` distinct chosen chapters, with its own positive score. |
| Search.TopCandidatesEntries | src/tree_search.py:244-262 | The returned chunks are a selection of the chunk table: none is taken more often than the table holds it. |
| Voyage.CanMakeRequest | src/voyage_limiter.py:68-82 | A request is refused if and only if usage is at or above 45 million. Only the first refusal sets the flag and sends one limit notice. |
| Voyage.RecordUsage | src/voyage_limiter.py:84-100 | Usage grows by the tokens. One warning is sent, and the flag set, the first time usage is at or above 40 million. |
| Voyage.Reset | src/voyage_limiter.py:123-138 | Without confirmation nothing changes. With it the limiter is back to its initial state. |
| Voyage.GetStats | src/voyage_limiter.py:111-121 | The reported total is the usage and the remainder is 45 million minus it. The free and hard limits are the constants, and the flags are reported as kept. |
| Voyage.StatsCountRecords | src/voyage_limiter.py:84-121 | Between confirmed resets, the reported total is the starting usage plus every recorded amount, and the remainder is 45 million minus that. |
| Voyage.RemainingMatchesCheck | src/voyage_limiter.py:68-82 | The reported remainder is at most zero if and only if requests are refused. |
| Voyage.AtMostOneNoticeEach | src/voyage_limiter.py:68-100 | Between confirmed resets, any run of operations sends at most one warning and at most one limit notice, and none once the flag is set. |
| Voyage.RefusalIsSticky | src/voyage_limiter.py:68-100 | Once requests are refused they stay refused until a confirmed reset, if no negative amount is recorded. |
| Voyage.ResetRestores | src/voyage_limiter.py:123-138 | A confirmed reset gives a limiter that accepts requests, with the whole hard limit remaining. |
| RateLimit.Rollover | src/rate_limiter.py:61-67 | On a new date the counter and the warning flag start over and the history is kept. On the same date nothing changes. |
| RateLimit.SaveStats | src/rate_limiter.py:46-52 | Today's row of the day table gets the counter and flag. Every other day's row is unchanged. |
| RateLimit.CanMakeRequest | src/rate_limiter.py:69-72 | After the date check, a request is allowed if and only if fewer than 500 were made today. A new date always allows. |
| RateLimit.LoggedQuestion | src/rate_limiter.py:101 | Questions up to 200 characters are logged as they are. Longer ones are logged as their first 200 characters followed by "...". |
| RateLimit.RecordRequest | src/rate_limiter.py:74-104 | The day's counter goes up by one and today's row agrees with it. The user's record is rewritten in place (a new user goes at the end of the table). It takes the names from `user_info` when given, the request time as last seen, the first-seen time only on creation, and one more log entry at the end. No other user and no other day changes. |
| RateLimit.ShouldWarnAdmin | src/rate_limiter.py:106-111 | True if and only if the warning has not been sent and at least 400 requests were made. |
| RateLimit.MarkWarningSent | src/rate_limiter.py:113-116 | The flag is set and saved under the stored date, and no further warning is asked for. The users and every other day's row are unchanged. |
| RateLimit.GetUsageInfo | src/rate_limiter.py:118-127 | After the date rollover, the reported count is the day's counter and the remainder is 500 minus it, so a new date reports 0 and 500. The remainder is positive if and only if a request would be allowed. |
| RateLimit.DisplayName | src/rate_limiter.py:146-151 | The non-empty first and last names joined by a blank, or "Без имени" when both are empty. |
| RateLimit.RecentQuestions | src/rate_limiter.py:160 | The questions of the last five logged requests (or of all, if fewer), oldest first. |
| RateLimit.GetAdminStats | src/rate_limiter.py:129-175 | The all-time total is the sum of the day rows. The users are sorted by request count, most first, and are exactly the users' summaries. |
| RateLimit.RecordShowsInReport | src/rate_limiter.py:74-175 | After a request from a user, the admin report lists that user with the name and username just given, the request time as last seen, one more request than before, and the logged question as the latest. |
| RateLimit.AdminUsersStable | src/rate_limiter.py:164 | Users with the same request count keep their table order. |
| RateLimit.RecordAddsOneToTotal | src/rate_limiter.py:74-104 | When today's row agrees with the counter, a recorded request adds exactly one to the all-time total and keeps them in agreement. |
| RateLimit.SameDay | src/rate_limiter.py:61-116 | Within one day, every recorded request adds one to the counter. Once the warning is marked as sent, no further warning is asked for. Without `mark_warning_sent` the flag does not change. |
| RateLimit.UsageCountsRecords | src/rate_limiter.py:61-127 | After requests on one date, the usage report counts the requests the day started with plus the ones recorded, with 500 minus that remaining. On a new date the count is just the recorded requests. |
| RateLimit.NewDayRearmsWarning | src/rate_limiter.py:61-67 | A new date clears the warning flag and the counter, so no warning is asked for at the start of the day. |
| RateLimit.NewDayWarnsAt400 | src/rate_limiter.py:61-111 | After a new date, and until the warning is marked as sent, a warning is asked for exactly when the new day has recorded at least 400 requests, whatever happened on the previous day. |

## Left out

- Reading and writing the JSON files (`load`, `_load_stats`, the file part of
  `_save_stats`) and the old-format migration. These are file I/O. A load
  that succeeds is modelled as `Tree.Load`.
- A `key`, `id` or `title` missing from the snapshot. The Python code reads
  these with `.get` and gets `None` or `''`. The model's entities always
  have every field.
- `Tree.GetStats`: the source returns an empty dictionary before a load,
  and the model returns `None`. The source also returns an empty dictionary
  after a load of the empty JSON object `{}`, since its test is the
  snapshot's truthiness. The model has no empty-object snapshot: `{}` loads
  as `Snapshot(None, None, [])`, a loaded empty tree, for which it reports
  zero counts.
- `Text.Lower`: it folds only ASCII and the basic Cyrillic capitals
  (U+0400 to U+042F), not all of Unicode.
- Chunk scores are exact tenths. The source adds Python floats, so rounding
  could order two nearly equal scores differently.
- The rounded percentages (`percent_used`) and `avg_per_day`. These are
  floating-point presentation values.
- The language model's query analysis and `get_chapters_info`. The model
  takes the analysis result as a parameter.
- Embeddings and the vector search, the Telegram handlers and `main`,
  `index_locally.py`, environment reads in `config.py`, and logging.
- The notification callback and its exception handling. Notices are
  returned as values.
- User ids are integers. The source keys its user table by `str(user_id)`,
  which is injective on integers.
- An empty `user_info` dictionary is modelled as `None`, which is how the
  source's truthiness test treats it. Missing name fields are empty strings.
- `_understand_query` when the language model returns `search_terms` that
  is not a list. The model takes a list.
- `Search.Search`: its own contract gives only the length bound and the
  ordering. That the best candidates are chosen is in `Search.SearchBest`.
  Membership, distinctness and the per-chapter cap are in
  `Search.SearchDiversity`.
- `RateLimit.GetUsageInfo` and `RateLimit.GetAdminStats` return only the
  report, not the limiter after the date rollover they perform. The
  rollover is applied by `RateLimit.Step` for the `Usage` and `Report`
  operations.

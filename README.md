# Aurora retrieval helpers: a verified model

This project models the logic at the centre of the Aurora knowledge base.
Aurora is a document store with vector-similarity search and LLM-derived
summaries. The
model covers six parts of it:

- **Summarizer** (`aurora_mcp/services/summarizer.py`). A completion is
  checked: it must be non-empty after stripping, shorter than the document
  and at least 50 characters. If it is longer than 1000 characters, it is
  truncated to 1000 characters plus "...". If it then has more than five
  newlines, it is collapsed onto one line. Accepted summaries go into a cache shared by every Summarizer.
- **QueryExpander** (`aurora_mcp/services/query_expander.py`). One pair of
  surrounding quotes is removed from the reply. The reply is accepted only if
  it contains the query (ignoring case), is at most five times as long, has
  no newline and has at most two periods. Accepted expansions are cached.
- **Reranker** (`aurora_mcp/services/reranker.py`). The reply is parsed into
  1-based document numbers. The named documents come first, in reply order.
  The rest follow in their original order, and the list is cut to `top_k`.
- **Backfill driver** (`scripts/backfill_summaries.py`). Documents without a
  `brief_summary` are fetched oldest first, in batches, and summarised. Each
  success is written back, except in dry run. Progress counters record every
  attempt; `succeeded` counts the documents whose summary is usable, dry run
  or not.
- **SQL splitter** (`split_sql` in
  `scripts/migrate_add_fulltext_search.py`). The text is cut at every ';'
  outside a `$$ ... $$` block.
- **Project detector** (`aurora_mcp/utils/project_detector.py`). It walks
  up from a path to the nearest directory holding a project marker. It also
  extracts a project name and compares two paths after resolving them.

## How the model is built

Each module follows one source file:

- `text.dfy` (module `Text`): the Python string operations the code relies
  on. These are `strip`, `lower`, `split`, `join`, `count`, `replace`,
  `isdigit` and `int`/`str` on integers, all on ASCII text.
- `llm.dfy` (module `Llm`): `Option` and `Completion`. A `Completion` is the
  outcome of a chat-completion call: the call raised, the response had no
  choices, or a reply whose content may be null.
- `summarizer.dfy`, `query_expander.dfy`, `reranker.dfy`, `split_sql.dfy`,
  `project_detector.dfy` and `backfill.dfy`: one module each for the parts
  above.

Calls the model cannot see become inputs:

- The LLM reply is an argument.
- The hash functions are function-valued fields of the shared cache
  objects, so every service using a cache hashes alike, as the module-level
  `hashlib` functions do.
- The filesystem is a `FileSystem` value: its files, its directories and
  what `Path.resolve()` returns.
- The document table is a `DocumentStore` object holding a sequence of
  rows in `created_at` order.
- The summariser the backfill uses is a function from content to an
  optional summary.

The two caches are objects holding a `map`, shared by every service object,
as the class-level `TTLCache` is. Each service method is proved against a
function that specifies it:

- `Summarize` is proved against `ValidateSummary`.
- `Expand` against `ValidateExpansion`.
- `ParseRanking` against `RankingOf`.
- `SplitStatements` against `Statements`.
- The backfill methods against `CountMissing`, `FetchBatch` and
  `RowsAfter`, which says how every row ends: as one attempt at it leaves
  it (`Attempt`) if it was attempted, unchanged otherwise.

Where the documentation and the code disagree, the model follows the code:

- The documentation describes the backfill as resumable from a cursor that
  moves past failed items. The code has no cursor: it re-queries "summary is
  null" for every batch. A document that failed, or any document in a dry
  run, stays summary-less and is fetched and counted again. The model proves
  this: a row that fails in one batch still needs a summary and is fetched
  again unless the next batch fills up with rows before it
  (`Backfill.FailedRowFetchedAgain`), and every document a dry run attempts
  is in the first batch.

## Model

| member | source | states |
|---|---|---|
| Summarizer.ValidateSummary | aurora_mcp/services/summarizer.py:81-126 | On a cache miss the result is a summary exactly when the call gave a reply whose stripped text is non-empty, shorter than the content and at least 50 characters long. Every such summary is non-empty, at most 1003 characters, and has at most five newlines. |
| Summarizer.CleanLines | aurora_mcp/services/summarizer.py:122 | Every line kept by `line.strip() for line ... if line.strip()` is non-empty and stripped. The kept lines plus separators are no longer than the input lines plus separators. |
| Summarizer.CleanLinesLack | aurora_mcp/services/summarizer.py:122 | Cleaning the lines introduces no character the lines did not have. |
| Summarizer.CollapseShape | aurora_mcp/services/summarizer.py:116-122 | Collapsing a text that starts with a visible character gives a non-empty single line no longer than the text. |
| Summarizer.Normalize | aurora_mcp/services/summarizer.py:108-122 | Truncating (when over 1000 characters) and then collapsing (when over five newlines) any non-empty stripped reply gives something the service may return or cache: non-empty, at most 1003 characters, at most five newlines. |
| Summarizer.ShortTidyReplyKept | aurora_mcp/services/summarizer.py:84-126 | A reply of at most 1000 characters and at most five newlines that passes the checks is returned exactly as stripped. |
| Summarizer.LongReplyTruncated | aurora_mcp/services/summarizer.py:108-113 | A longer reply becomes its first 1000 characters followed by "...", provided that leaves at most five newlines. |
| Summarizer.ManyNewlinesCollapsed | aurora_mcp/services/summarizer.py:116-122 | A reply with more than five newlines after truncation is accepted and comes back with no newline at all. |
| Summarizer.KeyDataInjective | aurora_mcp/services/summarizer.py:34-39 | The text hashed into a cache key determines the content hash, the model, the temperature and max_tokens. This holds because digests have a fixed length and neither number's text contains '\|'. |
| Summarizer.IntToStringInjective | aurora_mcp/services/summarizer.py:38 | Distinct max_tokens values print differently. |
| Summarizer.SummaryCache.constructor | aurora_mcp/services/summarizer.py:17-19 | The shared cache starts empty, with the one sha256 and md5 every user of it hashes with. |
| Summarizer.SummaryCache.Put | aurora_mcp/services/summarizer.py:125-126 | Storing a valid summary under a key changes that entry only, and the cache still holds only valid summaries. |
| Summarizer.SummaryCache.Evict | aurora_mcp/services/summarizer.py:17-19 | An expiry or eviction removes exactly one key and keeps every other entry a valid summary. |
| Summarizer.Summarizer.CacheKey | aurora_mcp/services/summarizer.py:34-39 | The key is the md5 of the text joining the content's sha256 digest, the model, the printed temperature and max_tokens; with `Summarizer.CacheKeysSeparate` equal keys mean equal settings and equal digests. |
| Summarizer.CacheKeysSeparate | aurora_mcp/services/summarizer.py:34-39 | Two summarizers sharing the cache compute the same key only under the same model, temperature and max_tokens and for content with the same sha256 digest, given that md5 separates key texts and digests have one length. |
| Summarizer.Summarizer.constructor | aurora_mcp/services/summarizer.py:21-32 | The service keeps its model, temperature, max_tokens and the shared cache. |
| Summarizer.Summarizer.Summarize | aurora_mcp/services/summarizer.py:41-144 | Blank content gives None without a call. A cache hit returns the cached summary without a call. A miss calls the model, returns `ValidateSummary` of the reply, and caches exactly the accepted summary. The cache holds only valid summaries. |
| QueryExpander.Unquote | aurora_mcp/services/query_expander.py:91-93 | Removing surrounding quotes never lengthens the text. |
| QueryExpander.Acceptable | aurora_mcp/services/query_expander.py:94-128 | Validations 1-4: non-empty, contains the query ignoring case, at least the query's length and at most five times it, no newline and at most two periods; `QueryExpander.ValidateExpansion` accepts exactly the cleaned replies that pass it. |
| QueryExpander.ValidateExpansion | aurora_mcp/services/query_expander.py:85-133 | On a cache miss the result is the cleaned reply exactly when it is non-empty, contains the query ignoring case, is between one and five times the query's length, has no newline and has at most two periods. |
| QueryExpander.ContainsIsLongEnough | aurora_mcp/services/query_expander.py:100-114 | An expansion that contains the query (with ASCII lower-casing on both sides) is at least as long as it, so the "shorter than original" check never rejects anything by itself. |
| QueryExpander.LoneQuoteRejected | aurora_mcp/services/query_expander.py:91-98 | A reply that is a single '"' after stripping both starts and ends with a quote, is emptied, and is rejected. |
| QueryExpander.QuotedReplyUnwrapped | aurora_mcp/services/query_expander.py:91-93 | A stripped, acceptable expansion wrapped in one pair of quotes is returned without them. |
| QueryExpander.UnquoteShape | aurora_mcp/services/query_expander.py:91-93 | Unquoting changes the text exactly when it starts and ends with '"', and then removes exactly that pair (a lone '"' becomes empty). |
| QueryExpander.Cleaned | aurora_mcp/services/query_expander.py:88-93 | The cleaned reply is no longer than the reply, and is the stripped reply either as it is or with one pair of surrounding quotes removed. |
| QueryExpander.QuotesRemoved | aurora_mcp/services/query_expander.py:88-93 | Cleaning `"inner"` gives back `inner` when `inner` is stripped. |
| QueryExpander.UnquotedTrimmed | aurora_mcp/services/query_expander.py:88-93 | Cleaning a stripped reply that does not start with a quote leaves it unchanged. |
| QueryExpander.ExtendingReplyAccepted | aurora_mcp/services/query_expander.py:88-133 | A reply that starts with the query itself and has the right length and shape is accepted unchanged. |
| QueryExpander.DatabaseQueryExample | tests/test_query_expander.py:53-57 | "database query" expands to "database query optimization indexing". |
| QueryExpander.KeyDataInjectiveOnQuery | aurora_mcp/services/query_expander.py:34-38 | For one model and temperature, distinct queries hash distinct key texts. |
| QueryExpander.KeyDataAmbiguousAcrossModels | aurora_mcp/services/query_expander.py:37 | Across models the key text is ambiguous: query "a\|b" with model "c" gives the same key text as query "a" with model "b\|c". |
| QueryExpander.ExpansionCache.constructor | aurora_mcp/services/query_expander.py:17-19 | The shared cache starts empty, with the one md5 every user of it hashes with. |
| QueryExpander.ExpansionCache.Put | aurora_mcp/services/query_expander.py:132-133 | Storing a well-formed expansion under a key changes that entry only, and every entry stays well formed. |
| QueryExpander.QueryExpander.CacheKey | aurora_mcp/services/query_expander.py:34-38 | The key is the md5 of the text joining the query, the model and the printed temperature; with `QueryExpander.CacheKeysSeparate` equal keys under the same settings mean the same query. |
| QueryExpander.CacheKeysSeparate | aurora_mcp/services/query_expander.py:34-38 | Two expanders sharing the cache with the same model and temperature compute the same key only for the same query, given that md5 separates key texts. |
| QueryExpander.ExpansionCache.Evict | aurora_mcp/services/query_expander.py:17-19 | An expiry or eviction removes exactly one key and keeps every other entry well formed. |
| QueryExpander.QueryExpander.constructor | aurora_mcp/services/query_expander.py:21-32 | The service keeps its model, temperature and the shared cache. |
| QueryExpander.QueryExpander.Expand | aurora_mcp/services/query_expander.py:40-151 | Blank query gives None without a call. A cache hit returns the cached expansion. A miss calls the model, returns `ValidateExpansion` of the reply, and caches exactly the accepted expansion. |
| Reranker.Tokens | aurora_mcp/services/reranker.py:85 | The tokens hold no ',', and joined with ',' they give back the reply with each newline read as a blank. |
| Reranker.RankingOf | aurora_mcp/services/reranker.py:84-88 | The ranking has at most one index per token, and every index is at least -1 (the token "0"). |
| Reranker.ParseRanking | aurora_mcp/services/reranker.py:83-88 | The token loop builds exactly `RankingOf` of the comma-separated tokens of the reply, with newlines read as blanks. |
| Reranker.FormattedRankingParsed | aurora_mcp/services/reranker.py:68-69 | A reply written as the prompt asks (1-based numbers joined by ',') parses back to exactly the intended 0-based indices. |
| Reranker.NumbersParsed | aurora_mcp/services/reranker.py:86-88 | Each number token adds its value minus one, in order. |
| Reranker.NumbersAreDigits | aurora_mcp/services/reranker.py:87 | Every printed number passes `isdigit`. |
| Reranker.DigitTokenParsed | aurora_mcp/services/reranker.py:86-88 | A token of digits, with or without blanks around it, appends its number minus one. |
| Reranker.DigitsTrimmed | aurora_mcp/services/reranker.py:86-87 | A token of digits is already stripped. |
| Reranker.Named | aurora_mcp/services/reranker.py:90 | The named indices that exist are kept, at most as many as the reply named, each a valid document index. |
| Reranker.Unnamed | aurora_mcp/services/reranker.py:92 | The remaining indices are within the document range. |
| Reranker.UnnamedAscending | aurora_mcp/services/reranker.py:91-92 | The remaining documents keep their original order. |
| Reranker.Order | aurora_mcp/services/reranker.py:90-93 | Every index of the reranked list names a document. |
| Reranker.SliceTo | aurora_mcp/services/reranker.py:95 | `s[:k]` is a prefix of `s` of length `min(k, len)`. A negative `k` drops `-k` elements from the end. |
| Reranker.Pick | aurora_mcp/services/reranker.py:90 | Picking documents by index gives, position by position, the document at that index. |
| Reranker.PickConcat | aurora_mcp/services/reranker.py:90-93 | Picking the named and then the remaining indices is picking their concatenation. |
| Reranker.Reordered | aurora_mcp/services/reranker.py:90-95 | The k-th returned document is the document at the k-th index of the named-then-remaining order, and no more are returned than that order holds. |
| Reranker.Rerank | aurora_mcp/services/reranker.py:24-95 | An empty document list gives [] without a call. A failed call, or an empty list of choices, raises. Otherwise the result is `Reordered` of the parsed ranking. |
| Reranker.NamedHas | aurora_mcp/services/reranker.py:90 | Every existing index the reply names is in the reranked head. |
| Reranker.UnnamedHas | aurora_mcp/services/reranker.py:92 | Every index the reply does not name is among the remaining. |
| Reranker.OrderCoversAll | aurora_mcp/services/reranker.py:90-93 | No document is lost before the final cut. |
| Reranker.RangeCount | aurora_mcp/services/reranker.py:92 | `range(n)` holds each index below `n` exactly once. |
| Reranker.NamedCount | aurora_mcp/services/reranker.py:90 | The head holds each existing index as often as the reply names it. |
| Reranker.UnnamedCount | aurora_mcp/services/reranker.py:92 | The remaining list holds each unnamed index once and nothing else. |
| Reranker.DistinctCount | aurora_mcp/services/reranker.py:90-92 | A ranking without repeats holds each of its indices once. |
| Reranker.OrderIsPermutation | aurora_mcp/services/reranker.py:90-93 | When the reply names no index twice, the reranked order before the cut is a permutation of all document indices. |
| Reranker.RerankedShape | aurora_mcp/services/reranker.py:90-95 | The result holds only input documents, at most `top_k` of them, and every document when `top_k` is large enough. |
| Reranker.SwapExample | tests/test_reranker.py:45-51 | The ranking [1, 0] of reply "2,1" on documents [a, b] with top_k 2 gives [b, a]. |
| SplitSql.Segments | scripts/migrate_add_fulltext_search.py:18-32 | The scan always leaves a last, possibly empty, piece. |
| SplitSql.Kept | scripts/migrate_add_fulltext_search.py:26-28 | Every kept statement is stripped and non-empty, and there are no more statements than pieces. |
| SplitSql.Statements | scripts/migrate_add_fulltext_search.py:12-36 | Every statement is stripped and non-empty, and there are at most one more statements than ';'s in the text. |
| SplitSql.SegmentsCount | scripts/migrate_add_fulltext_search.py:25-28 | Only a ';' starts a new piece: there is at most one more piece than ';'s. |
| SplitSql.SplitStatements | scripts/migrate_add_fulltext_search.py:12-36 | The scanning loop returns exactly `Statements` of the text, and every statement is stripped and non-empty. |
| SplitSql.SegmentsJoin | scripts/migrate_add_fulltext_search.py:20-31 | Nothing but the separating ';'s is dropped: joining the pieces with ';' gives back the text. |
| SplitSql.SegmentsWithoutDollar | scripts/migrate_add_fulltext_search.py:25-31 | Without any "$$" (single '$' characters, as in `$1`, allowed) the pieces are those of `split(";")`. |
| SplitSql.StatementsWithoutDollar | scripts/migrate_add_fulltext_search.py:12-36 | Without any "$$" the result is the stripped non-blank pieces of `split(";")`. |
| SplitSql.UnclosedBlock | scripts/migrate_add_fulltext_search.py:20-31 | Inside a block that is never closed (no further "$$"), the rest of the text, ';' and single '$' included, is one piece. |
| SplitSql.PlainPrefix | scripts/migrate_add_fulltext_search.py:25-31 | Text with no "$$" (and outside a block, no ';') is copied into the current piece, unless its last '$' and the next character form a "$$". |
| SplitSql.PlainStep | scripts/migrate_add_fulltext_search.py:25-31 | A character that neither starts a "$$" nor is a ';' outside a block joins the current piece. |
| SplitSql.DollarPrefix | scripts/migrate_add_fulltext_search.py:20-24 | A "$$" stays in the current piece and flips the inside-block flag. |
| SplitSql.LastPiece | scripts/migrate_add_fulltext_search.py:25-31 | A last piece with no "$$" and no ';' stays whole. |
| SplitSql.ClosedBlock | scripts/migrate_add_fulltext_search.py:20-31 | Inside a block, a body not ending in '$', the closing "$$" and a tail without ';' stay one piece. |
| SplitSql.DollarBlockKept | scripts/migrate_add_fulltext_search.py:20-31 | A ';' inside a `$$ ... $$` block stays in its statement: head, block and tail with no ';' outside the block are one piece. Single '$' characters may occur anywhere except right before a "$$". |
| ProjectDetector.MarkersComplete | aurora_mcp/utils/project_detector.py:7-31 | All thirteen markers the tests require (tests/test_project_detector.py lines 16-33) are tried. |
| ProjectDetector.SuffixIsLastDot | aurora_mcp/utils/project_detector.py:50 | `path.suffix` is non-empty exactly when the name's last '.' is neither its first nor its last character. |
| ProjectDetector.Parent | aurora_mcp/utils/project_detector.py:73 | The parent drops the last component, and the root is its own parent. |
| ProjectDetector.Candidates | aurora_mcp/utils/project_detector.py:34-36 | The candidates are the start directory and all its ancestors, nearest first, ending at the root. |
| Text.LastIndexOf | aurora_mcp/utils/project_detector.py:50 | `rfind`, as `Path.suffix` uses it: the position of the last occurrence of the character, or -1. |
| ProjectDetector.NormalizeStartPath | aurora_mcp/utils/project_detector.py:39-52 | An empty path gives None, and so does a path that does not resolve. |
| ProjectDetector.StartDirectory | aurora_mcp/utils/project_detector.py:44-50 | The start is the resolved path when it is an existing directory, or a missing path without a suffix. It is the parent for a file, or a missing path with a suffix. |
| ProjectDetector.FirstMarker | aurora_mcp/utils/project_detector.py:70-72 | The first marker found exists in the directory, and when none is found no marker exists there. |
| ProjectDetector.FirstMarkerFinds | aurora_mcp/utils/project_detector.py:7-31 | The marker loop succeeds exactly when the directory holds one of the thirteen markers. |
| ProjectDetector.SearchFrom | aurora_mcp/utils/project_detector.py:68-77 | A directory found is an ancestor-or-self of the start and holds a marker. |
| ProjectDetector.SearchFromNearest | aurora_mcp/utils/project_detector.py:68-77 | The walk returns the nearest ancestor-or-self holding a marker, and None exactly when no ancestor-or-self holds one. |
| ProjectDetector.SearchFromFirstCandidate | aurora_mcp/utils/project_detector.py:69-74 | The result is the first candidate holding a marker, and None means no candidate holds one. |
| ProjectDetector.NearestWins | aurora_mcp/utils/project_detector.py:69-72 | A marker in an ancestor is never skipped: the walk stops there or nearer. |
| ProjectDetector.FindProjectRoot | aurora_mcp/utils/project_detector.py:64-66 | A None or empty path finds nothing. |
| ProjectDetector.NoMarkerNoRoot | aurora_mcp/utils/project_detector.py:55-77 | With no marker in any candidate, `find_project_root` returns None. |
| ProjectDetector.FoundRootHasMarker | aurora_mcp/utils/project_detector.py:55-77 | A returned root is the text of a candidate that holds a marker. |
| ProjectDetector.Components | aurora_mcp/utils/project_detector.py:85 | The parsed components are never empty or ".". |
| ProjectDetector.ExtractProjectName | aurora_mcp/utils/project_detector.py:80-83 | None or "" gives "". |
| ProjectDetector.ComponentsOf | aurora_mcp/utils/project_detector.py:85 | Parsing keeps every proper component. |
| ProjectDetector.NameOfRendered | aurora_mcp/utils/project_detector.py:80-87 | The name extracted from a rendered path is its last component, so `extract_project_name` names what `find_project_root` returns. |
| ProjectDetector.NameExample | tests/test_project_detector.py:85-86 | "/Users/user/projects/AuroraKB" is named "AuroraKB". |
| ProjectDetector.IsSameProject | aurora_mcp/utils/project_detector.py:90-97 | True exactly when both paths are non-empty, both resolve, and they resolve to the same path. |
| ProjectDetector.SameProjectSymmetric | aurora_mcp/utils/project_detector.py:90-97 | The relation is symmetric. |
| ProjectDetector.SameProjectReflexive | aurora_mcp/utils/project_detector.py:90-97 | A non-empty path that resolves is the same project as itself. |
| Backfill.MissingPositions | scripts/backfill_summaries.py:95-104 | The selected rows are exactly those with a null summary in the namespace (when one is given), in table order. |
| Backfill.CountMissing | scripts/backfill_summaries.py:80-89 | The count is at most the number of rows. |
| Backfill.NoneMissing | scripts/backfill_summaries.py:80-89 | The count is zero exactly when no row has a null summary in the namespace. |
| Backfill.CountIsMissingLength | scripts/backfill_summaries.py:80-108 | The count and the fetch select the same rows. |
| Backfill.FetchBatch | scripts/backfill_summaries.py:92-108 | A batch is at most `batch_size` selected rows, as many as there are up to that bound, in table order. Every selected row left out comes after every fetched row. |
| Backfill.FetchOldestFirst | scripts/backfill_summaries.py:99-101 | In a table kept in `created_at` order, a batch comes oldest first, and no selected row left out is older than a fetched one. |
| Backfill.CountAfterFill | scripts/backfill_summaries.py:80-89 | Writing a summary into one selected row lowers the count by exactly one. |
| Backfill.DocumentStore.SetSummary | scripts/backfill_summaries.py:138-140 | Only the summary of that row changes, and the table stays in `created_at` order. |
| Backfill.BackfillProgress.constructor | scripts/backfill_summaries.py:47-53 | All counters start at zero. |
| Backfill.BackfillProgress.Record | scripts/backfill_summaries.py:217-221 | `processed` and exactly one of `succeeded`/`failed` rise by one, so processed == succeeded + failed and skipped stays 0. |
| Backfill.GenerateSummaryForDocument | scripts/backfill_summaries.py:111-150 | Success exactly when the summariser gives a non-empty summary. The row is written (summary only) on success outside dry run, and otherwise left unchanged; it ends exactly as `Attempt` leaves it. |
| Backfill.Backfill | scripts/backfill_summaries.py:153-229 | Outcomes: no model aborts with nothing touched; a zero count returns; a negative batch size fails on the first fetch; otherwise it completes. The total is the initial count, and processed == succeeded + failed. Every attempted row was selected. `succeeded` is the number of attempted rows whose summariser gives a usable summary, in a dry run as in a real one. Afterwards each attempted row holds its summariser's usable summary (outside dry run) or is unchanged, and every other row is unchanged. Missing + succeeded == initial count outside dry run. A dry run writes nothing and only ever attempts rows of the first batch. With batch size > 0 and no failure, a real run leaves nothing missing. The attempted rows are the concatenation of the batches, and each batch is exactly `FetchBatch` (the first `batch_size` missing rows, oldest first) of the table as the previous batches left it. There is one delay after each batch that leaves processed below the total, at the processed count reached then, and no other. |
| Backfill.RunBatches | scripts/backfill_summaries.py:200-229 | The loop ends when processed reaches the total or a batch comes back empty; each non-empty batch raises processed by its length, so it terminates. `succeeded` counts the attempted rows with a usable summary, dry run or not. A row differs from the start exactly as one attempt at it makes it differ, and only rows in `attempted` change. Each batch is `FetchBatch` of the table as the batches before it left it, and `attempted` is their concatenation. A delay follows every batch after which processed is still below the total, and no other. |
| Backfill.ProcessBatch | scripts/backfill_summaries.py:209-221 | One batch: processed rises by the batch length. Each row of the batch ends as one attempt makes it (filled with its usable summary outside dry run, else unchanged), no other row changes, `succeeded` rises by the number of batch rows with a usable summary, dry run or not, and outside dry run the count falls by the same number. |
| Backfill.CountUsableConcat | scripts/backfill_summaries.py:217-221 | The successes over two runs of attempts add up. |
| Backfill.CountUsableAgree | scripts/backfill_summaries.py:121-134 | The success count depends only on the rows attempted. |
| Backfill.CountUsableStep | scripts/backfill_summaries.py:217-221 | One more row adds one success exactly when its summary is usable. |
| Backfill.NotYetAttempted | scripts/backfill_summaries.py:209-215 | A row of the batch is still as fetched until its own turn, since the positions are strictly increasing. |
| Backfill.RunSoFarStart | scripts/backfill_summaries.py:190-200 | Before the first batch: nothing attempted, no batch, nothing changed, the missing count is the total. |
| Backfill.RunSoFarStep | scripts/backfill_summaries.py:200-221 | A batch fetched from the table as it stands and processed as one batch is keeps every fact of the run so far: batches as fetched, attempted rows as attempts leave them, successes counted, missing count conserved. |
| Backfill.InBatchesSnoc | scripts/backfill_summaries.py:200-215 | One more fetched and attempted batch extends the batch-by-batch run, and the attempted rows grow by exactly that batch. |
| Backfill.SleptSnoc | scripts/backfill_summaries.py:224-227 | A further batch keeps the earlier delays where they were; a delay after it comes at the processed count of all batches. |
| Backfill.DelaysStep | scripts/backfill_summaries.py:224-227 | After a batch there is a delay exactly when processed is still below the total, at that processed count. |
| Backfill.FailedRowFetchedAgain | scripts/backfill_summaries.py:201-203 | A row whose summary fails in one batch still needs a summary afterwards, and the next batch takes it again unless it fills up with rows before it: no later row is fetched ahead of it, in a real run as in a dry one. |
| Backfill.RowsAfterStep | scripts/backfill_summaries.py:209-221 | Attempting the next row of a batch extends the set of attempted rows by that row alone. |
| Backfill.RowsAfterBatch | scripts/backfill_summaries.py:201-215 | A batch composes with the batches before it: a row fetched again still needs a summary, so earlier attempts left it as it was. |
| Backfill.RowsAfterOnlyFilled | scripts/backfill_summaries.py:111-150 | Attempts at selected rows change them only by writing a usable summary in. |

## Left out

- LLM prompts, `time.perf_counter`, elapsed times, rates and all logging are
  not modelled. They do not affect results.
- Both caches are `TTLCache`s: LRU caches whose items also expire after a
  fixed time. Eviction order and expiry are not modelled beyond `Evict`,
  which removes any one key at any time. Concurrent access to the
  shared caches is not modelled.
- `hashlib` sha256 and md5 are abstract functions. The key-text lemmas state
  what is hashed, not the properties of the digests.
- The temperature is a float in the source. It enters the model only as the
  text it prints, because it appears only in the cache key.
- Python's Unicode `strip`, `lower` and `isdigit` are modelled on ASCII
  (whitespace is the ASCII `isspace` set).
- Reranker prompt construction (aurora_mcp/services/reranker.py:34-74) is not
  modelled: it lists at most the first 20 documents and does not affect the
  result for well-formed documents.
- Reranker.Rerank: assumes well-formed documents. A document whose `metadata`
  is not a dict (`None`, say), or whose score is not a number (`final_score`
  and `similarity` both `None`, say), makes the prompt loop at
  aurora_mcp/services/reranker.py:50-66 raise before the model is called, and
  the exception propagates out of `rerank`; the model instead calls the model
  on every non-empty list.
- Reranker.SwapExample: stated on the parsed ranking [1, 0]. The parsing of
  "2,1" is covered for every reply of that form by
  `Reranker.FormattedRankingParsed`.
- split_sql keeps `buff` as the concatenation of its fragments, since
  `"".join(buff)` is all the code reads of it. Reading and executing the
  migration file is not modelled.
- ProjectDetector: `Path.resolve`, `exists` and `is_file` are the model
  filesystem's. Symlinks, relative paths and Windows paths are therefore
  resolved before the model sees them. The model's `exists` and `is_file`
  never raise, so an `OSError` from them is not modelled at either call
  site: in `_normalize_start_path` (aurora_mcp/utils/project_detector.py:44-50)
  and in the walk (aurora_mcp/utils/project_detector.py:68-75), where the
  source would return None. An error in `resolve` is modelled, as None.
- Backfill: `asyncio.sleep` is recorded only as the value of `processed` at
  each delay. Reading settings, creating the engine and the Summarizer
  object, and the `argparse` entry point are not modelled. The summariser is
  a function of the content: the caching and the LLM inside it are the
  Summarizer model's, and an exception inside it is a None here, since both
  give False.
- Backfill: the default arguments of `backfill_summaries` and of the
  command line (`batch_size` 10, `delay` 6.0 seconds) are not modelled;
  `batch_size` is always passed and the delay is only recorded. Likewise
  the default `top_k=10` of `Reranker.rerank` is not modelled; `top_k` is
  always passed.
- Backfill: a failing `commit` leaves the session needing a rollback; the
  model treats the write and the commit as one step that always succeeds.
  Document ids are numbers instead of UUIDs, and rows with equal
  `created_at` come in table order.
- The vector-similarity search in `aurora_mcp/server.py`, the embedding
  service and the database setup are not part of this model.

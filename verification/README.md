# Memosynth-Lite memory engine in Dafny

This project models the memory engine of Memosynth-Lite. The engine is a
retrieval-augmented assistant that keeps project discussion logs in a vector
store (Qdrant), a timeline database (DuckDB) and a graph (Neo4j). It covers
six parts of the engine.

- **Retrieval combiner** (`retrieval.dfy`, module `Retrieval`):
  - The semantic fetcher puts summaries ahead of the other hits.
  - The CRAG-style fused score is 0.4 semantic + 0.3 recency + 0.2 project match + 0.1 speaker priority, plus the retention boost.
  - The combiner keeps the first occurrence of each `log_id`, rounds and sorts the scores in a stable order, and splits the list at the relevance threshold 0.4.
  - The retained part is capped at `top_k`.
- **Adaptive-forgetting summarizer** (`summarizer.dfy`, module `Summarizer`). The steps are:
  - select aged, unarchived records
  - group them by project and month
  - summarize each group with the language model
  - publish the summary back into the vector store
  - archive the originals
  - add a 0.05 retention boost per original to the ledger

  The two stores it writes are a class, `MemoryStore`. Its methods update the collection and the ledger in place.
- **Boost wiring** (`boost_wiring.dfy`, module `BoostWiring`): which DuckDB database the boosts are written to, and which one the score reads them from.
- **Near-duplicate filter** of the ingestion (`ingestion.dfy`, module `Ingestion`): a greedy pass that keeps a log unless it is more than the threshold similar to a log already kept.
- **Keyword extraction** of the UI (`keywords.dfy`, module `Keywords`).
- **The two prompts and the reply cleaner** (`prompt_builder.dfy`, module `PromptBuilder`; `generate_response.dfy`, module `GenerateResponse`).

Shared definitions:

- `records.dfy` (module `Records`): the payload dictionary. A key absent from the dictionary is `None`.
- `text.dfy` (module `Text`): Python's string operations the engine uses: `strip`, `lower`, `upper`, `capitalize`, `join`, `str(int)` and `:02`.
- `seqs.dfy` (module `Seqs`): order-preserving subsequences and occurrence counts.

External services are parameters of the model:

- The embedding similarity is a function `Similarity` or `Scoring.similarity`.
- `exp(-age/30)` is `Scoring.decay`, and `round(x, 4)` is `Scoring.round`.
- `datetime.fromisoformat` and `datetime.now` are a `Clock`.
- `ast.literal_eval` is a `Parser`.
- The chat completion is a function from prompt to reply. It returns `None` where the call raises.

Each path where the Python raises is modelled as an outcome. `DeduplicateLogs` returns `None`. `CombineLogs` returns `ok == false` when the first semantic hit has no project, because `semantic[0]["project"]` raises before anything is scored. `GroupLogs`, `ArchiveLogs` and `RunSummarizer` return `ok == false` and keep the state the Python leaves behind.

The model follows the code where it behaves in ways one might not expect:

- The project match compares `log.get("project")` with `query_project` as Python values. With no semantic result, `query_project` is `None`, and every log WITHOUT a project then gets the full project score (`Retrieval.NoAnchorMatchesProjectless`). It is not the case that no log matches.
- The retention boost is read through the connection to `timeline_logs.duckdb`, not the retention database. `CombineLogs` and `ScoreUnique` take the boost table as a parameter; as written it is `None` (`BoostWiring.BoostTableOf(BoostWiring.TimelineDb())`), so every boost is 0.0 and the ranking is the one an empty ledger gives (`BoostWiring.AsWrittenRankingIgnoresLedger`). See Findings.
- run_summarizer passes the whole group key as the month, so the project appears twice in the summary id. The run in the model (`ProcessGroup` up to `MemoryStore.RunSummarizer`) does the same. See Findings.
- Summary records carry no `archived` key, so the selection picks them up again once they are 30 days old. `SelectOld`, `GetOldLogs` and the run do the same. See Findings.

## Model

| member | source | states |
|---|---|---|
| Retrieval.TagQdrant | memory/retrieval.py:40-45 | one payload per hit, in hit order: each is its hit with source set to "Qdrant" and every other field unchanged |
| Retrieval.Summaries | memory/retrieval.py:48 | only summary payloads, each taken from the input |
| Retrieval.Others | memory/retrieval.py:49 | only non-summary payloads, each taken from the input |
| Retrieval.SemanticLogs | memory/retrieval.py:40-52 | at most top_k and at most the number of hits; no summary comes after a non-summary; every result is tagged source "Qdrant" |
| Retrieval.SplitLength | memory/retrieval.py:48-51 | the two kinds together have as many payloads as the hits |
| Retrieval.SplitByKind | memory/retrieval.py:48-51 | the two kinds together are a permutation of the hits |
| Retrieval.KindsKeepOrder | memory/retrieval.py:48-49 | each kind keeps the search order |
| Retrieval.SemanticLogsReorder | memory/retrieval.py:47-52 | the result is a prefix of summaries-then-others; with at most top_k hits it is a permutation of the hits (nothing lost) |
| Retrieval.Recency | memory/retrieval.py:96-102 | decay of the age in whole days when the timestamp parses, and 0.5 when it is absent or does not parse |
| Retrieval.QueryProject | memory/retrieval.py:148 | no query project when the semantic list is empty |
| Retrieval.ProjectMatch | memory/retrieval.py:105 | 1.0 exactly when the project equals the query project (absent equals absent), else 0.0 |
| Retrieval.SpeakerScore | memory/retrieval.py:107-110 | 1.0, 0.7 or 0.5 exactly for carol, eve or bob after lower-casing; 0.2 exactly for any other speaker |
| Retrieval.Boost | memory/retrieval.py:112-120 | never negative; positive exactly when the queried table exists and has a non-zero row for the log's id |
| Retrieval.CragScoreBounds | memory/retrieval.py:91-132 | with 1 - cosine in [-1, 1] and exp(-age/30) positive, at most 1 for non-negative ages, the score is at least -0.38 + boost; for a log not dated in the future it is at most 1.0 + boost |
| Retrieval.BoostIsAdditive | memory/retrieval.py:113-129 | a ledger row of k steps raises the score by exactly 0.05 k over an empty ledger |
| Retrieval.PerfectMatchScoresOne | memory/retrieval.py:91-132 | a record identical to the query, dated today, in the query's project, spoken by Carol and never reinforced scores 1.0 |
| Retrieval.NoAnchorMatchesProjectless | memory/retrieval.py:105 | with no semantic result, a log without a project gets the full project match |
| Retrieval.FirstById | memory/retrieval.py:150-156 | every kept payload has a truthy log_id |
| Retrieval.IdsOfAppend | memory/retrieval.py:152-156 | appending a payload adds exactly its truthy id to the seen set |
| Retrieval.FirstByIdStep | memory/retrieval.py:150-156 | one loop step appends the payload exactly when its id is truthy and unseen |
| Retrieval.FirstByIdSubsequence | memory/retrieval.py:150-156 | the kept list is an ordered subsequence of the candidates and covers every truthy id |
| Retrieval.FirstByIdDistinct | memory/retrieval.py:144-156 | no log_id is kept twice |
| Retrieval.FirstByIdKeepsFirst | memory/retrieval.py:143-156 | a payload is kept if and only if it is the first candidate carrying its truthy id, in semantic, timeline, relational order |
| Retrieval.ScoreAll | memory/retrieval.py:153-155 | one scored entry per unique candidate, in order, holding that candidate |
| Retrieval.ScoreAllAppend | memory/retrieval.py:153-155 | scoring one more candidate appends exactly its rounded score |
| Retrieval.Insert | memory/retrieval.py:158 | inserting adds exactly one element (multiset) |
| Retrieval.SortDesc | memory/retrieval.py:158 | the sort is a permutation |
| Retrieval.InsertKeepsSorted | memory/retrieval.py:158 | insertion keeps a sorted list sorted and adds one entry |
| Retrieval.InsertStable | memory/retrieval.py:158 | insertion puts the new entry first among the entries of its score and leaves other scores' entries in order |
| Retrieval.SortDescCorrect | memory/retrieval.py:158 | the sort is non-increasing, a permutation, and stable for every score value |
| Retrieval.AtLeast | memory/retrieval.py:160 | only entries scoring at least the threshold, no more than the input |
| Retrieval.Below | memory/retrieval.py:161 | only entries scoring below the threshold |
| Retrieval.Take | memory/retrieval.py:160 | `[:k]`: the prefix of exactly min(k, length) entries |
| Retrieval.ThresholdSplitsSorted | memory/retrieval.py:158-161 | on a sorted list the retained candidates are a prefix and the discarded the rest |
| Retrieval.InsertDistinct | memory/retrieval.py:158 | inserting an entry with a new id keeps the ids distinct |
| Retrieval.SortKeepsDistinctIds | memory/retrieval.py:158 | sorting keeps the ids distinct |
| Retrieval.RankedProperties | memory/retrieval.py:150-158 | the ranked list is sorted, has unique ids, is a permutation of the scored unique candidates and keeps tie order |
| Retrieval.CutKeepsOrder | memory/retrieval.py:160-161 | removing the overflow gap keeps order and id uniqueness |
| Retrieval.SplitAtThreshold | memory/retrieval.py:160-161 | ranked = above + discarded, retained is the prefix of ranked holding min(top_k, number above threshold) entries, discarded is exactly the tail after the above part |
| Retrieval.OverflowDropped | memory/retrieval.py:160-161 | above-threshold entries past top_k are in neither list; every retained entry scores at least as high as every ranked entry not retained |
| Retrieval.CombinedOutcome | memory/retrieval.py:158-161 | retained followed by discarded is sorted and has unique ids |
| Retrieval.ScoreUnique | memory/retrieval.py:150-156 | the loop yields the first candidate of each truthy log_id, in order, each with its rounded fused score under the given boost table |
| Retrieval.CombineLogs | memory/retrieval.py:138-166 | fails exactly when the first semantic hit has no project (the KeyError of line 141), with nothing returned; otherwise, under the boost table the scorer sees (None as written), retained and discarded are the threshold split of the ranked, deduplicated candidates; at most top_k retained; all retained at or above 0.4 and all discarded below it; together sorted with unique ids |
| Summarizer.SelectOld | memory/summarizer.py:33-44 | no more than scanned, and every selected payload passes the test as written: truthy timestamp, not archived, parsable and at least days_old days old |
| Summarizer.SelectOldExact | memory/summarizer.py:33-44 | the selection is an ordered subsequence of the scan holding a payload if and only if it passes the test as written |
| Summarizer.GetOldLogs | memory/summarizer.py:31-44 | the loop returns exactly the scanned payloads that pass the test as written, in scan order, summaries included |
| Summarizer.SelectIntended | memory/summarizer.py:33-44 | the corrected selection: no more than scanned, every payload eligible and not a summary |
| Summarizer.SelectIntendedExact | memory/summarizer.py:33-44 | the corrected selection is the selection as written with exactly its summaries left out, in order |
| Summarizer.AsWrittenReselectsSummary | memory/summarizer.py:34-41 | a published summary, once 30 days old, passes the test as written but not the intended one |
| Summarizer.NoDash | memory/summarizer.py:51 | a decimal rendering holds no '-' |
| Summarizer.MonthKeyInjective | memory/summarizer.py:51 | different year-month pairs give different month keys |
| Summarizer.MonthKeyNoColon | memory/summarizer.py:51 | a month key holds no ':' |
| Summarizer.KeyTextInjective | memory/summarizer.py:51 | different project/year/month groups give different key texts |
| Summarizer.InGroup | memory/summarizer.py:47-53 | every member of a group carries that group's key |
| Summarizer.FirstSeenKeys | memory/summarizer.py:48-52 | every key listed belongs to some input log |
| Summarizer.FirstSeenKeysExact | memory/summarizer.py:47-53 | keys are distinct, every keyed log's key is listed, and no listed group is empty |
| Summarizer.InGroupPartition | memory/summarizer.py:47-53 | a group is an ordered subsequence of the input holding exactly the logs with its key |
| Summarizer.GroupStep | memory/summarizer.py:49-52 | one more log extends exactly its own group, and the key list only when the key is new |
| Summarizer.InGroupUnseen | memory/summarizer.py:48-52 | a key no log carries has an empty group |
| Summarizer.CollectPointwise | memory/summarizer.py:47-53 | the loop's keys are the first-seen keys, and each built group is exactly the logs with that key |
| Summarizer.CollectIsGroupMap | memory/summarizer.py:47-53 | the loop builds the first-seen key list and the group map |
| Summarizer.CollectStep | memory/summarizer.py:52 | one keyed log appends to its group, or opens a new group at the end of the key order |
| Summarizer.GroupLogs | memory/summarizer.py:47-53 | succeeds exactly when every log has a project and a parsable timestamp, and then returns the first-seen keys and the group map |
| Summarizer.ContentLines | memory/summarizer.py:57 | defined exactly when every log has content, one line per log |
| Summarizer.Summarize | memory/summarizer.py:56-66 | the summary is stripped; a log without content makes it fail |
| Summarizer.SummaryId | memory/summarizer.py:72 | the id starts with "summary::" and ends with "::" and the month key |
| Summarizer.SummaryRecord | memory/summarizer.py:71-79 | the record's id, content, project, timestamp, user and source as written; type summary and no archived flag |
| Summarizer.SummaryIdAsWrittenText | memory/summarizer.py:115-118 | the id as written is summary::, the project, ::, and the whole group key |
| Summarizer.AsWrittenIdDoublesProject | memory/summarizer.py:115-118 | as written the id is summary::P::P::YYYY-MM: upload_summary_to_qdrant (memory/summarizer.py:69-72) prefixes the project to a group_logs key (memory/summarizer.py:50) that already starts with it, so the id differs from summary::P::YYYY-MM |
| Summarizer.PublishedIdFormat | memory/summarizer.py:72 | passing the month part, the id is "summary::" + group key, and different groups get different ids |
| Summarizer.Upsert | memory/summarizer.py:80-83 | the record is stored under its id and every other point is unchanged |
| Summarizer.PublishTwice | memory/summarizer.py:80-83 | publishing twice for one project and month leaves one record, the second |
| Summarizer.ArchiveStop | memory/summarizer.py:88-94 | the first log archive_logs fails on; all logs before it are archivable |
| Summarizer.ArchiveAll | memory/summarizer.py:88-94 | archiving keeps the set of point ids |
| Summarizer.ArchiveAllEffect | memory/summarizer.py:87-95 | a point named by some log gets archived set and no other field changed; a point no log names is unchanged |
| Summarizer.ReinforcedCounts | memory/summarizer.py:98-107 | an id gains exactly one 0.05 step per log carrying it; it has a row afterwards if and only if it had one or occurs |
| Summarizer.ReinforcedMonotone | memory/summarizer.py:98-107 | no boost decreases |
| Summarizer.FailedSummaryChangesNothing | memory/summarizer.py:116-118 | a group whose summary fails leaves both stores unchanged and stops the run |
| Summarizer.AllArchived | memory/summarizer.py:87-95 | when no log makes archive_logs fail, every log's point is marked archived |
| Summarizer.CompletedSummary | memory/summarizer.py:118-120 | once the archive goes through, the summary is stored under its id with the summary text, every log is archived and each id gains one boost step per occurrence |
| Summarizer.ProcessedGroup | memory/summarizer.py:115-120 | after a successful group its summary is published under the id as written, summary::P::P::YYYY-MM, with the text summarize_logs returned for the whole key; all its logs are archived and each id is boosted once per occurrence |
| Summarizer.RunStopsAtFailure | memory/summarizer.py:115-120 | for any per-group step, the summarizer's included: when the groups before it succeed and a group fails, the run's outcome is that failed step applied to the stores the earlier groups left, so no later group is touched |
| Summarizer.MemoryStore.constructor | memory/summarizer.py:17-28 | the store starts with the given collection and ledger |
| Summarizer.MemoryStore.UploadSummary | memory/summarizer.py:69-83 | the collection gains the summary record under its id; the ledger is unchanged |
| Summarizer.MemoryStore.ArchiveLogs | memory/summarizer.py:87-95 | succeeds exactly when every log is archivable; the logs before the first failure are archived; the ledger is unchanged |
| Summarizer.MemoryStore.ReinforceLogs | memory/summarizer.py:98-108 | the ledger gains one step per truthy log_id; the collection is unchanged |
| Summarizer.StoredLogsArchivable | memory/summarizer.py:87-95 | in a collection keeping every point under its own log_id, logs read from it stay archivable after a summary is upserted, so archive_logs marks them all |
| Summarizer.MemoryStore.PublishAndArchive | memory/summarizer.py:118-120 | upload, archive and reinforce change the stores as a successful summary of the group prescribes, and stop after a failed archive; when every log of the group was read from the collection, the archive goes through |
| Summarizer.MemoryStore.SummarizeGroup | memory/summarizer.py:115-120 | the stores change as one group of the run prescribes, with the whole group key passed as the month |
| Summarizer.MemoryStore.SummarizeGroups | memory/summarizer.py:115-120 | the stores change as the groups run in order up to the first failure, each group published under the id as written |
| Summarizer.MemoryStore.RunSummarizer | memory/summarizer.py:111-120 | the stores change as the whole select, group, summarize lifecycle as written prescribes: old summaries are selected again, and ids carry the project twice |
| BoostWiring.BoostTableOf | memory/retrieval.py:113-120 | the boost table is visible exactly when the queried database holds it, and then with that database's rows |
| BoostWiring.AsWrittenIgnoresReinforcement | memory/retrieval.py:115-116 | as written the boost is always 0.0, so reinforcement never changes a score |
| BoostWiring.AsWrittenRankingIgnoresLedger | memory/retrieval.py:113-158 | as written the combiner ranks the candidates exactly as it would with an empty ledger |
| BoostWiring.CorrectedRewardsReinforcement | memory/retrieval.py:113-128 | reading the retention database, a log reinforced k more times scores exactly 0.05 k higher |
| Ingestion.GreedyStep | memory/ingestion.py:28-41 | one step keeps the log exactly when no kept log is more than the threshold similar |
| Ingestion.GreedySubsequence | memory/ingestion.py:24-43 | the output is an ordered subsequence of the input |
| Ingestion.GreedyKeepsFirst | memory/ingestion.py:28-41 | the first log of a non-empty input is always kept, first |
| Ingestion.GreedyPairwise | memory/ingestion.py:32-41 | no later kept log is more than the threshold similar to an earlier kept one |
| Ingestion.GreedyPrefix | memory/ingestion.py:25-43 | the logs kept from a prefix are a prefix of the logs kept from the whole |
| Ingestion.DroppedHasWitness | memory/ingestion.py:32-41 | a log is dropped if and only if an earlier kept log, in the output, is more than the threshold similar; a kept log sits at its place in the output |
| Ingestion.EqualSimilarityIsKept | memory/ingestion.py:35 | the comparison is strict: similarity equal to the threshold keeps both logs |
| Ingestion.GreedyKeepsDistinct | memory/ingestion.py:24-43 | a list with no duplicate pair passes unchanged |
| Ingestion.GreedyIdempotent | memory/ingestion.py:24-43 | deduplicating the output again changes nothing |
| Ingestion.Contents | memory/ingestion.py:26-40 | one remembered content per kept log |
| Ingestion.DeduplicateStep | memory/ingestion.py:32-41 | comparing the next log with the kept contents is the greedy selection's duplicate test, and keeping it appends its content |
| Ingestion.MatchesAny | memory/ingestion.py:32-37 | the inner loop reports a duplicate if and only if some kept content is more than the threshold similar |
| Ingestion.KeepIfNew | memory/ingestion.py:29-41 | one outer step keeps the greedy selection and the kept contents in step with the logs read so far |
| Ingestion.DeduplicateLogs | memory/ingestion.py:24-43 | fails exactly when some log has no content; otherwise returns the greedy selection |
| Keywords.RemovePunctuation | memory/app.py:18 | no punctuation character remains |
| Keywords.RemovePunctuationKeepsRest | memory/app.py:18 | only punctuation is removed: order kept, and every other character keeps its count |
| Keywords.WordLength | memory/app.py:19 | the first word ends at the first whitespace or the end |
| Keywords.Words | memory/app.py:19 | every word is non-empty and holds no whitespace |
| Keywords.WordsFromText | memory/app.py:19 | every character of a word comes from the text |
| Keywords.WordsStep | memory/app.py:19 | the words are the first word followed by the words of the rest |
| Keywords.NonSpaceStep | memory/app.py:19 | the non-whitespace of a text is its first word followed by the non-whitespace of the rest |
| Keywords.WordsCoverText | memory/app.py:19 | the words run together are exactly the non-whitespace characters of the text |
| Keywords.KeepKeywords | memory/app.py:19 | every kept word is a keyword |
| Keywords.KeepKeywordsExact | memory/app.py:19 | the filter keeps order and every occurrence of a keyword, and drops every other word |
| Keywords.KeywordShape | memory/app.py:11-19 | every keyword is longer than two, not a stopword, and has no whitespace, punctuation or upper-case letter |
| Keywords.KeywordsInQueryOrder | memory/app.py:17-19 | keywords come in query order, each as often as in the query |
| Keywords.NoKeywords | memory/app.py:17-19 | the result is empty if and only if every query word is a stopword or at most two characters |
| PromptBuilder.StripTemplate | memory/prompt_builder.py:24-43 | stripping the template removes exactly its first and last newline, whatever the query and logs |
| PromptBuilder.UnknownUpper | memory/prompt_builder.py:14 | the default source upper-cases to "UNKNOWN" |
| PromptBuilder.GeneralCapitalized | memory/prompt_builder.py:13 | the default type capitalizes to "General" |
| PromptBuilder.FieldFormatting | memory/prompt_builder.py:9-14 | source, type and content render as `upper`, `capitalize` and `strip` of the value or of its default, and the content has no outer whitespace |
| PromptBuilder.BlockLabelled | memory/prompt_builder.py:16-19 | the number after "[Log " reads back as the block's position |
| PromptBuilder.BlocksDistinct | memory/prompt_builder.py:8-19 | blocks at different positions differ |
| PromptBuilder.EmptyLogBlock | memory/prompt_builder.py:9-19 | a log without fields renders with every default |
| PromptBuilder.ContextBlocks | memory/prompt_builder.py:7-20 | the loop builds one block per log, numbered from 1, in input order |
| PromptBuilder.BuildPrompt | memory/prompt_builder.py:3-43 | the prompt is the template body around the blocks joined by blank lines, with no whitespace at either end |
| PromptBuilder.NoLogsEmptySection | memory/prompt_builder.py:22-41 | with no logs the heading is followed directly by the closing instructions |
| PromptBuilder.BlocksLabelled | memory/prompt_builder.py:8-20 | one block per log, and block k reads back label k + 1 |
| GenerateResponse.LStripBytes | memory/generate_response.py:18 | no leading whitespace byte remains; the result is a suffix of the input and every byte removed is whitespace; unchanged when there is none to strip |
| GenerateResponse.RStripBytes | memory/generate_response.py:18 | no trailing whitespace byte remains; the result is a prefix of the input and every byte removed is whitespace; unchanged when there is none to strip |
| GenerateResponse.StripBytes | memory/generate_response.py:18 | `bytes.strip()`: the result is a slice of the input with only whitespace bytes outside it and none at its ends, and stripped bytes are left unchanged |
| GenerateResponse.TrimmedWitness | memory/generate_response.py:18 | the bytes left by the two one-sided strips are a slice with only whitespace outside it |
| GenerateResponse.CleanResponse | memory/generate_response.py:12-21 | text that does not open a literal comes back stripped; any result, string or bytes, has no whitespace at either end |
| GenerateResponse.CleanUnwrapsLastString | memory/generate_response.py:17-18 | a list or tuple ending in a string becomes that string, stripped |
| GenerateResponse.CleanFallsBack | memory/generate_response.py:15-21 | a parse failure, a non-sequence, an empty sequence or a last element without strip falls back to the stripped text |
| GenerateResponse.CleanPlainTextIdentity | memory/generate_response.py:13-21 | clean text that opens no literal is returned unchanged |
| GenerateResponse.EntryLabelled | memory/generate_response.py:29 | the number after "Log " reads back as the entry's position |
| GenerateResponse.EmptyLogEntry | memory/generate_response.py:26-29 | a log without fields renders with every default |
| GenerateResponse.PromptFraming | memory/generate_response.py:24-36 | the joined lines open with the query line and close with the instructions |
| GenerateResponse.BuildStructuredPrompt | memory/generate_response.py:23-36 | the prompt is the lines joined by newlines; it opens with the query line and ends with the closing instructions |
| GenerateResponse.EntriesInOrder | memory/generate_response.py:24-36 | one line per log plus three; line k past the header is the entry labelled k - 1 |
| GenerateResponse.NoLogsPrompt | memory/generate_response.py:24-36 | with no logs the prompt is the two header lines and the instructions |
| Text.ToLower | memory/app.py:19 | same length; each character lower-cased, no upper-case ASCII left |
| Text.ToUpper | memory/prompt_builder.py:14 | same length; each character upper-cased, no lower-case ASCII left |
| Text.Capitalize | memory/prompt_builder.py:13 | same length; the first character upper-cased |
| Text.Strip | memory/prompt_builder.py:43 | the result has no outer whitespace and is the input with only whitespace removed at both ends |
| Text.StripIdentity | memory/generate_response.py:13 | stripping stripped text changes nothing |
| Text.Join | memory/prompt_builder.py:22 | joining nothing gives "", joining one part gives that part |
| Text.JoinFirst | memory/generate_response.py:36 | the joined text starts with the first part |
| Text.JoinLast | memory/generate_response.py:36 | the joined text ends with the last part |
| Text.DecimalInjective | memory/prompt_builder.py:17 | different numbers render differently |
| Text.Pad2Injective | memory/summarizer.py:51 | different months pad differently |
| Text.NumberBeforeSpace | memory/prompt_builder.py:17 | a number followed by a space reads back after its prefix |

## Left out

- I/O and the external services are parameters of the model: Qdrant search, scroll, upsert and set_payload; the DuckDB and Neo4j queries; sentence embeddings; the chat-completion calls; file loading and saving; `print` and `tqdm` progress output.
- get_timeline_logs and get_relational_logs: their lists are inputs of `Retrieval.CombineLogs`. Their SQL and Cypher text, including the interpolated `since`, is not modelled.
- Floating point: scores are reals. Cosine similarity, `exp` and `round(x, 4)` are abstract functions. `Retrieval.CragScoreBounds` requires the ranges they have in the source: 1 - cosine in [-1, 1], and `exp(-age/30)` positive and at most 1 for non-negative ages.
- Time is whole days. `datetime.fromisoformat` and `datetime.now` are a `Clock` that returns a day ordinal, a year and a month. Sub-day ages and time zones are not modelled.
- The scroll limit of 500 in get_old_logs: the scanned page is an input.
- Summarizer.MemoryStore.RunSummarizer: the run follows the code as written. The corrected selection (`SelectIntended`) and the corrected id (`PublishedIdFormat`) are proved on their own but are not wired into a second run.
- Retrieval.CombineLogs: `top_k` is a natural number. A negative `top_k` slices from the end in Python and is not modelled. The hit score that get_semantic_logs writes is overwritten by the combiner and is not kept.
- Summarizer.Upsert: Qdrant's validation of point ids is not modelled. A summary id that is not a UUID or an integer would make the real upsert raise; here it always succeeds.
- Summarizer.ArchiveStop: set_payload on an id that is not in the collection counts as a failure that stops the loop.
- Payload field values are strings or absent. Non-string values, such as a numeric `log_id` or a pandas Timestamp from DuckDB, are not modelled.
- Text.ToLower, Text.ToUpper and Text.Capitalize change only ASCII letters; Python's case mappings cover all of Unicode. Whitespace follows Python's full `str.isspace` set.
- Text.Capitalize: its contract states only the length and the first character. The lower-casing of the rest is in its body and is not restated.
- GenerateResponse.CleanResponse: a `None` reply from the chat call raises before the `try`. The reply is a string here.
- generate_response and the Streamlit UI (highlighting, charts) are not part of this model. The debug print is not modelled either.
- Keyword extraction is proved for all queries. No concrete example query is evaluated.

## Findings

| source | as written | input that shows it | evidently intended | confidence | as-written member | corrected member |
|---|---|---|---|---|---|---|
| memory/summarizer.py:115-118 | run_summarizer passes the whole group key "P::YYYY-MM" as `month_key`, so the summary id is "summary::P::P::YYYY-MM" | a group of project "alpha" for March 2024 publishes under "summary::alpha::alpha::2024-03" | "summary::alpha::2024-03", the month part only | high (not executed) | Summarizer.AsWrittenIdDoublesProject | Summarizer.PublishedIdFormat |
| memory/summarizer.py:34-41 | get_old_logs skips only archived records, and summary records have no `archived` key | a summary published 30 days ago passes the selection and is summarized again with the originals of its month | summaries are not folded into new summaries | medium (not executed) | Summarizer.AsWrittenReselectsSummary | Summarizer.SelectIntendedExact |
| memory/retrieval.py:113-120 | the boost query goes through `duckdb_conn`, the timeline database, which has no memory_retention_boosts table, so the query raises and the boost is always 0.0 | a log reinforced twice by the summarizer still gets boost 0.0 | the boost read from retention_boosts.duckdb, where reinforce_logs writes it | high (not executed) | BoostWiring.AsWrittenIgnoresReinforcement | BoostWiring.CorrectedRewardsReinforcement |

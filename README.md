# Training-data pipeline: quality gates, packing and statistics

This project models the deterministic core of the training-data scripts of the
repository (`training-data/scripts/`):

- **`DatasetCleaner`** (`clean_dataset.py`) is the per-document quality gate.
  It has a fixed chain of text rewrites (`clean_text`) and a broken-character
  ratio test (`is_broken_encoding`). `calculate_quality_score` runs ten hard
  rejections, where the first failure wins, and then builds an additive score
  with a floor for allow-listed sources. `process_document` keeps exactly the
  documents that reach 0.5 and updates the cleaner's counters.
- **`FastCleaner`** (`fast_clean.py`) is a second, simpler gate. It has a junk
  test, a shorter rewrite chain, the ordered `should_keep` decision and the
  per-file counters of `process_file`.
- **Corpus building** (`expand_collection.py`):
  - a greedy byte-budget packer over the documents sorted by descending word
    count;
  - the 80/10/10 train, validation and test slicing;
  - the counting part of `generate_enhanced_statistics`;
  - the cell transform of `process_jupyter_notebooks`.
- **Small parsers of `DataCollector`** (`assemble.py`):
  - front matter (`_extract_metadata`);
  - YouTube ids (`_extract_video_id`);
  - `_clean_content`;
  - the WebVTT line filter of `_process_vtt_file`;
  - the record of `_process_single_file`;
  - the totals of `_generate_statistics`.
- **Final statistics** (`final_statistics.py`): the counting loop of
  `analyze_cleaned_dataset` over the three split files, and its derived metrics.

## Modelling conventions

- **Scores are integer hundredths.** 0.3 is 30, 0.02 is 2, and the threshold
  0.5 is `Threshold == 50`.
- **Ratio tests are cross-multiplied:**
  - `broken / len > 0.1` is `10 * broken > len`;
  - `count > len * 0.05` is `20 * count > len`;
  - `avg < 3` is `total < 3 * n`.
- **Averages are exact reals,** stated by `avg * n == total`.
- **Collections:**
  - A Python dict of counts (`Counter`, or `d.get(k, 0) + 1`) is an association
    list in insertion order (`Tally.Counter`).
  - A dict of groups is a sequence of (key, list) pairs in dict order.
  - The stable `sort(reverse=True)` is an insertion sort proved stable
    (`Sorting`).
- **Input files** are sequences of lines: blank, malformed (not JSON), or a
  decoded record (`Records.Line`). A missing JSON key takes the default the
  source gives to `get`.
- **Parameters instead of implementations.** The following are predicates or
  functions passed in:
  - the regular-expression tables (spam phrases, bad-path fragments, technical
    indicators, junk phrases);
  - the `\w` character class;
  - NFKC normalisation;
  - the serialised byte size of a document;
  - the shuffled order of the split documents;
  - the clock reading of `_process_single_file`.
- **Written-out regular expressions.** The fixed rewrites and searches whose
  meaning matters to a property are written out as functions: whitespace runs,
  tags, comments, URLs, e-mails, punctuation runs, front-matter fences, the
  three URL shapes, `#.*$`, and the header, code-block and list searches.
- **Code and documentation disagree in places. The model follows the code:**
  - The score is not clamped to 1.0. It can reach 1.15 as written, and 0.95 in
    practice, because the code-block bonus can never fire on cleaned text.
  - The `empty_after_cleaning` branch of `process_document` (lines 373-376) is
    unreachable. A document that reaches the threshold has non-empty cleaned
    text.
  - The keyword `'API'` of `should_keep` never matches, because it is compared
    against lower-cased text.

## Model

| member | source | states |
|---|---|---|
| DatasetCleaning.BrokenCount | training-data/scripts/clean_dataset.py:129-137 | the number of broken characters never exceeds the length of the text |
| DatasetCleaning.BrokenCountZero | training-data/scripts/clean_dataset.py:129-137 | the broken count is zero exactly when no character is above U+FFFF, a replacement character, or a control other than `\n\r\t` |
| DatasetCleaning.IsBrokenEncoding | training-data/scripts/clean_dataset.py:117-139 | the counting loop answers true exactly for empty text or when broken characters × 10 exceed the length |
| DatasetCleaning.CleanTextNotBrokenWithoutBrokenChars | training-data/scripts/clean_dataset.py:117-139 | non-empty text with no broken character is never judged broken |
| DatasetCleaning.Normalise | training-data/scripts/clean_dataset.py:146-154 | after NFKC, the character filter and the whitespace rewrite, every character is in the Basic Multilingual Plane and ' ' is the only whitespace character |
| DatasetCleaning.StripMarkup | training-data/scripts/clean_dataset.py:156-162 | after removing comments, script and style blocks and tags, the text holds only characters of its input |
| DatasetCleaning.MaskLinks | training-data/scripts/clean_dataset.py:164-168 | on text that is BMP-only with ' ' as its only whitespace, the URL and e-mail placeholders keep it so |
| DatasetCleaning.TrimPunctuation | training-data/scripts/clean_dataset.py:170-173 | shortening runs of dots, '!' and '?' only keeps characters of the input |
| DatasetCleaning.StagesTidy | training-data/scripts/clean_dataset.py:146-173 | after every rewrite stage the text has only BMP characters and ' ' as its only whitespace |
| DatasetCleaning.StripTidy | training-data/scripts/clean_dataset.py:175 | `strip()` keeps that property, so the stripped text holds no newline, tab or carriage return |
| DatasetCleaning.CleanText | training-data/scripts/clean_dataset.py:141-175 | `clean_text` output has no newline, tab or CR and no character above U+FFFF, has no surrounding whitespace, and is empty for empty input |
| DatasetCleaning.SpamNeverKept | training-data/scripts/clean_dataset.py:214-216 | a document whose cleaned text `contains_spam` (a spam pattern found in the lower-cased text, lines 177-184) is filtered out even from an allow-listed source, under `spam_content` or an earlier reason |
| DatasetCleaning.BadFileNeverKept | training-data/scripts/clean_dataset.py:218-221 | a document whose path `is_bad_file` (a bad-path pattern found in the lower-cased path, lines 186-195) is filtered out even from an allow-listed source, under `bad_file_path` or an earlier reason |
| DatasetCleaning.Sentences | training-data/scripts/clean_dataset.py:242-243 | the sentence pieces kept by the comprehension are never whitespace-only |
| DatasetCleaning.SentenceWordsAtLeastCount | training-data/scripts/clean_dataset.py:242-247 | every kept sentence has a word, so the words over the sentences are at least their number |
| DatasetCleaning.CountMatches | training-data/scripts/clean_dataset.py:340 | the number of matched indicators is at most their number, and zero exactly when none matches |
| DatasetCleaning.NoCodeBlockInCleanText | training-data/scripts/clean_dataset.py:346-347 | the code-block search never matches cleaned text, so its bonus is never given |
| DatasetCleaning.ListItemAtStart | training-data/scripts/clean_dataset.py:348-349 | in single-line text that does not start with whitespace, the list search matches exactly a leading bullet followed by whitespace |
| DatasetCleaning.ListItemInCleanText | training-data/scripts/clean_dataset.py:348-349 | on cleaned text the list bonus is earned exactly by a leading '-', '*' or '+' and a space |
| DatasetCleaning.FirstRejection | training-data/scripts/clean_dataset.py:199-248 | the reason returned is a failing hard check and no check earlier in the source order fails; no reason means every check passes |
| DatasetCleaning.Score | training-data/scripts/clean_dataset.py:250-353 | the score is at most 1.15 and not clamped; an allow-listed source gets at least 0.5; any other source at most 0.85; without a code block at most 0.95; a source not allow-listed with no bonus of any kind and a word count outside 100..10000 scores 0 |
| DatasetCleaning.Assess | training-data/scripts/clean_dataset.py:197-355 | "quality_passed" exactly when no hard check fails; otherwise score 0 and the first failing reason |
| DatasetCleaning.ScoreAtMost95 | training-data/scripts/clean_dataset.py:250-355 | no document scores above 0.95 |
| DatasetCleaning.AllowListedPassesThreshold | training-data/scripts/clean_dataset.py:352-355 | an allow-listed document reaches 0.5 exactly when it passes every hard check |
| DatasetCleaning.PassingScore | training-data/scripts/clean_dataset.py:250-353 | the score accumulator computes the additive score with the allow-list floor |
| DatasetCleaning.HardChecks | training-data/scripts/clean_dataset.py:199-248 | the early returns give the first failing check, and hand back the cleaned text |
| DatasetCleaning.CalculateQualityScore | training-data/scripts/clean_dataset.py:197-355 | a rejection has score 0 and names a failing check; "quality_passed" means every check passed |
| DatasetCleaning.PassedHardChecks | training-data/scripts/clean_dataset.py:197-248 | a document reaching the threshold passed every hard check, so its cleaned text is non-empty with at least 50 words |
| DatasetCleaning.Outcome | training-data/scripts/clean_dataset.py:357-387 | a document is returned exactly when its score reaches 0.5, and it is never empty |
| DatasetCleaning.KeptDocument | training-data/scripts/clean_dataset.py:377-387 | a kept document carries the cleaned text, its word count and the score, and the input's source, path, timestamp and metadata |
| DatasetCleaning.OutcomeOfVerdict | training-data/scripts/clean_dataset.py:363-387 | the score and reason returned decide the outcome: below 0.5 nothing, else the cleaned record |
| DatasetCleaning.Retention | training-data/scripts/clean_dataset.py:443 | the retention rate lies in [0, 1], is 0 without input, and is kept / total otherwise |
| DatasetCleaning.DatasetCleaner.constructor | training-data/scripts/clean_dataset.py:109-114 | all counters start at zero with no reasons, so total = kept + filtered and the reasons sum to the filtered count |
| DatasetCleaning.DatasetCleaner.ProcessDocument | training-data/scripts/clean_dataset.py:357-390 | the document returned is kept exactly when its score reaches 0.5; `total_input` grows by one; a kept document adds one to `quality_kept`; otherwise `filtered_out` grows by one and the reason is counted; total = kept + filtered is preserved |
| DatasetCleaning.DatasetCleaner.Reject | training-data/scripts/clean_dataset.py:359-367 | the counters of a filtered document: one more input, one more filtered and one more count for its reason, the kept count unchanged |
| DatasetCleaning.DatasetCleaner.Accept | training-data/scripts/clean_dataset.py:386-387 | the counters of a kept document: one more input and one more kept, the filtered count and the reasons unchanged |
| DatasetCleaning.DatasetCleaner.ReadLine | training-data/scripts/clean_dataset.py:416-431 | a blank or non-JSON line is skipped uncounted; a record is processed, kept when it survives, and otherwise counted under its reason in `reasons` |
| DatasetCleaning.DatasetCleaner.CleanSplit | training-data/scripts/clean_dataset.py:413-431 | the file's output is the surviving documents in order; the counters grow by the decoded and kept documents; `reasons` counts the reason of every filtered document, in file order |
| DatasetCleaning.KeptOrCounted | training-data/scripts/clean_dataset.py:357-390 | every document is either kept or counted under a reason, never both |
| FastCleaning.JunkIgnoresCase | training-data/scripts/fast_clean.py:55-72 | `is_junk` gives the same verdict on lower-cased text: the patterns search lower-cased text, and lower-casing keeps the length and the counts of U+FFFD and '<' |
| FastCleaning.FastCleanText | training-data/scripts/fast_clean.py:74-89 | the cleaned text is stripped, has no newline and no replacement character, and ' ' is its only whitespace |
| FastCleaning.NewlineRuleIsInert | training-data/scripts/fast_clean.py:83-84 | the newline rule never changes text whose whitespace runs are already single spaces |
| FastCleaning.ShouldKeep | training-data/scripts/fast_clean.py:91-123 | kept exactly when content is non-empty, its stripped length is ≥ 50, it has 30..20000 words, it is not junk, and it is from a good source or has a keyword |
| FastCleaning.ShortContentRejected | training-data/scripts/fast_clean.py:97-98 | content whose stripped length is under 50 is rejected |
| FastCleaning.UpperCaseKeywordNeverMatches | training-data/scripts/fast_clean.py:114-118 | lower-cased content never contains "API" |
| FastCleaning.HasKeywordIgnoresApi | training-data/scripts/fast_clean.py:114-118 | a keyword match is a match of one of the lower-case keywords |
| FastCleaning.Emit | training-data/scripts/fast_clean.py:143-157 | a record is written only for kept documents whose cleaned text is non-empty with ≥ 30 words, and always then; its word count is the cleaned text's |
| FastCleaning.WrittenWellFormed | training-data/scripts/fast_clean.py:143-157 | every written record is non-empty, stripped, newline-free and carries its own word count of at least 30 |
| FastCleaning.ReadLine | training-data/scripts/fast_clean.py:136-160 | only decoded lines are counted as processed; the record written is the one for that document |
| FastCleaning.ReadFile | training-data/scripts/fast_clean.py:129-160 | processed counts the decoded lines; the records are those of the decoded documents in order |
| FastCleaning.FastCleaner.constructor | training-data/scripts/fast_clean.py:29 | counters start at zero, so total = kept + filtered |
| FastCleaning.FastCleaner.ProcessFile | training-data/scripts/fast_clean.py:125-166 | with no decoded line, the summary raises `ZeroDivisionError` before the counters change; otherwise total grows by processed, kept by written, filtered by the rest |
| FastCleaning.FastCleaner.RetentionRate | training-data/scripts/fast_clean.py:188 | raises exactly when nothing was processed; otherwise kept / total in [0, 1] |
| Corpus.Labels | training-data/scripts/expand_collection.py:405-407 | one group key per flattened document |
| Corpus.Tagged | training-data/scripts/expand_collection.py:404-408 | each flattened document has `source_category` set to its group key and nothing else changed |
| Corpus.FlattenTagged | training-data/scripts/expand_collection.py:404-408 | the flattening loop produces exactly the tagged documents in dict order |
| Corpus.PackedSnoc | training-data/scripts/expand_collection.py:417-429 | closing a non-empty chunk that fits (or holds one document) after an overflowing one keeps the chunks packed |
| Corpus.CloseChunk | training-data/scripts/expand_collection.py:417-429 | when the next document overflows a non-empty chunk, closing it keeps the packer's invariant |
| Corpus.ExtendChunk | training-data/scripts/expand_collection.py:430-432 | when the next document fits, or the chunk is empty, appending keeps the invariant |
| Corpus.Place | training-data/scripts/expand_collection.py:417-432 | one step of the loop keeps the invariant, keeps the running size exact, and the chunks plus the open chunk grow by exactly the document |
| Corpus.GrowChunk | training-data/scripts/expand_collection.py:430-432 | the document joins the end of the open chunk |
| Corpus.StartChunk | training-data/scripts/expand_collection.py:417-429 | the open chunk is closed and a new one holds the document |
| Corpus.PackChunks | training-data/scripts/expand_collection.py:413-441 | the chunks concatenate to the documents in order; none is empty; each is within the budget unless it is a single document; each was closed only because the next document overflowed; no chunk without documents |
| Corpus.CreateCorpusChunks | training-data/scripts/expand_collection.py:393-441 | the chunks concatenate to the tagged documents sorted stably by descending word count, a permutation of them, packed within `chunk_size_mb·1024·1024` bytes |
| Corpus.ChunkOrderStable | training-data/scripts/expand_collection.py:411 | documents of equal word count keep their dict order |
| Corpus.Splits | training-data/scripts/expand_collection.py:456-462 | sizes are ⌊0.8n⌋, ⌊0.1n⌋ and the rest, and the three slices concatenate to the shuffled list |
| Corpus.SplitsPartition | training-data/scripts/expand_collection.py:449-462 | every document lands in exactly one split, whatever the shuffle |
| Corpus.TestAtLeastValidation | training-data/scripts/expand_collection.py:457-462 | the test split is never smaller than the validation split |
| Corpus.ThousandDocuments | training-data/scripts/expand_collection.py:457-462 | 1000 documents split 800 / 100 / 100 |
| Corpus.Suffix | training-data/scripts/expand_collection.py:511 | `Path.suffix` is empty or starts with '.', and lies in the last path component |
| Corpus.FileType | training-data/scripts/expand_collection.py:511 | the file type is never empty ("web" without a suffix) |
| Corpus.GroupStats | training-data/scripts/expand_collection.py:494-507 | an empty group has average size 0; otherwise average × count = words |
| Corpus.CountDocuments | training-data/scripts/expand_collection.py:510-513 | the file-type counts grow by the group's documents of each type, stay distinct, and total one per document; the size distribution grows by the word counts |
| Corpus.CountOne | training-data/scripts/expand_collection.py:510-513 | after one more document the file-type counts stay distinct, their total grows by one, each type's count is its count over the documents seen, and the distribution gains the document's word count |
| Corpus.CountGroup | training-data/scripts/expand_collection.py:494-513 | adding one group keeps every counter equal to its sum over the groups seen: documents, words, characters, tokens, one source entry per group, file types and sizes |
| Corpus.CountOneMore | training-data/scripts/expand_collection.py:510-513 | one document adds one to its type's count and its word count to the distribution |
| Corpus.EnhancedStatistics | training-data/scripts/expand_collection.py:483-513 | totals are the sums over all groups; tokens are words × 1.25; one source entry per group; the file-type counts sum to the documents; one size entry per document |
| Corpus.FlatSums | training-data/scripts/expand_collection.py:493-513 | the sums over groups add up across a concatenation |
| Corpus.AverageDocSize | training-data/scripts/expand_collection.py:554 | the summary's average raises exactly when there are no documents |
| Notebooks.CommentOf | training-data/scripts/expand_collection.py:373 | a line has a `#.*$` match exactly when it holds '#', and the match runs from its first '#' to its end |
| Notebooks.CommentsFound | training-data/scripts/expand_collection.py:373-375 | every match is a one-line comment, and there is one exactly when the code holds a '#' |
| Notebooks.CellPart | training-data/scripts/expand_collection.py:367-375 | a cell raises exactly when a key it needs is missing; it adds a part exactly when it is markdown, or code with a comment |
| Notebooks.PartsFound | training-data/scripts/expand_collection.py:366-377 | the cells are read without error exactly when each is readable, and then there is a part exactly when some cell contributes |
| Notebooks.PartsFailPersists | training-data/scripts/expand_collection.py:367-375 | a raising cell ends the notebook with that error |
| Notebooks.ExtractParts | training-data/scripts/expand_collection.py:364-375 | the cell loop computes the parts, or the first error |
| Notebooks.NotebookRecord | training-data/scripts/expand_collection.py:376-385 | the record's source is the repository plus "_notebooks", its word count is its content's, and its type is "jupyter_notebook" |
| Notebooks.NotebookKept | training-data/scripts/expand_collection.py:359-388 | a notebook is recorded exactly when it was read, every cell is readable and some cell contributes |
| Notebooks.ProcessNotebook | training-data/scripts/expand_collection.py:359-388 | one notebook gives its record or none |
| Notebooks.ProcessJupyterNotebooks | training-data/scripts/expand_collection.py:347-391 | the records of the notebooks in the order found |
| Assembly.PairOf | training-data/scripts/assemble.py:229-231 | a line gives a pair exactly when it holds ':'; the key is the stripped text before the first ':' and the value the stripped rest |
| Assembly.PairOfRoundTrip | training-data/scripts/assemble.py:229-231 | a stripped key without ':' and a stripped value, written as `key:value`, parse back to that pair |
| Assembly.AssignKeys | training-data/scripts/assemble.py:228-231 | a key is in the metadata exactly when some line sets it |
| Assembly.AssignLastWins | training-data/scripts/assemble.py:228-231 | a key's value is the one of the last line that sets it |
| Assembly.FrontMatter | training-data/scripts/assemble.py:217-235 | metadata is empty unless the content starts with `---` and another `---` occurs at index 3 or later |
| Assembly.ExtractMetadata | training-data/scripts/assemble.py:217-235 | the method computes the front-matter map |
| Assembly.ParseFrontMatter | training-data/scripts/assemble.py:228-231 | the loop puts the pairs into the dict in line order |
| Assembly.Capture | training-data/scripts/assemble.py:134-137 | "" exactly when the pattern matches nowhere; otherwise the group of the leftmost match, running up to the stop character |
| Assembly.ExtractVideoId | training-data/scripts/assemble.py:126-138 | a non-empty id is a piece of the URL directly after `youtube.com/watch?v=`, `youtu.be/` or `youtube.com/embed/` |
| Assembly.VideoIdOrder | training-data/scripts/assemble.py:126-138 | "" exactly when no URL shape matches; a `watch?v=` match wins and stops at '&'; then `youtu.be/`, then `embed/`, both stopping at '?' |
| Assembly.CleanContent | training-data/scripts/assemble.py:237-246 | the output has no surrounding whitespace and only characters of the input |
| Assembly.NewlineRunsCollapsed | training-data/scripts/assemble.py:240 | after the newline rule no three newlines are adjacent |
| Assembly.SpaceRunsCollapsed | training-data/scripts/assemble.py:241 | after the space rule no two spaces are adjacent |
| Assembly.SpaceRuleKeepsNewlines | training-data/scripts/assemble.py:240-241 | the space rule never brings three newlines together |
| Assembly.RunRuleCreatesNothing | training-data/scripts/assemble.py:240-241 | the run rules create no `<!--` that was not there |
| Assembly.CollapsedRuns | training-data/scripts/assemble.py:240-243 | without `<!--` in the input, the two run rules leave no blank-line run and no double space, and the comment rule changes nothing |
| Assembly.StripKeepsRuns | training-data/scripts/assemble.py:246 | stripping keeps both run properties |
| Assembly.CleanContentRuns | training-data/scripts/assemble.py:237-246 | without `<!--` in the input, the output has no run of 3+ newlines and no run of 2+ spaces |
| Assembly.VttLine | training-data/scripts/assemble.py:149-155 | lines with `-->`, blank lines and `WEBVTT` lines give nothing; every other line gives its text without tags, stripped |
| Assembly.Transcript | training-data/scripts/assemble.py:158-159 | the transcript's only whitespace is ' ', never two in a row |
| Assembly.ProcessVtt | training-data/scripts/assemble.py:146-159 | the loop produces the transcript of the kept lines |
| Assembly.ProcessSingleFile | training-data/scripts/assemble.py:197-215 | the record's source is the repository key, its content the cleaned content, its metadata the front matter, its word count the content's |
| Assembly.SourceTableEntries | training-data/scripts/assemble.py:288-300 | each source's entry is its own group's count and word sum, and no other source is listed |
| Assembly.TotalsAreSums | training-data/scripts/assemble.py:288-296 | the document and word totals add up group by group |
| Assembly.GenerateStatistics | training-data/scripts/assemble.py:283-300 | the loop computes the totals over all groups and the per-source table |
| Assembly.SumWordCounts | training-data/scripts/assemble.py:293 | the sum of the group's word counts |
| FinalStatistics.Distribution | training-data/scripts/final_statistics.py:56 | one word count per document, in read order, 0 when missing |
| FinalStatistics.AddCounts | training-data/scripts/final_statistics.py:49-56 | each document adds one document, one source count and one distribution entry; the counters stay consistent |
| FinalStatistics.AddAppend | training-data/scripts/final_statistics.py:27-56 | reading one file after another counts their documents one after another |
| FinalStatistics.SplitTable | training-data/scripts/final_statistics.py:58 | one row per existing file, with that file's counts |
| FinalStatistics.SplitsAddUp | training-data/scripts/final_statistics.py:49-56 | the total documents and words are the sums over the splits; each split's source counts sum to its documents |
| FinalStatistics.AvgWordsPerDoc | training-data/scripts/final_statistics.py:64 | 0 without documents, otherwise the exact mean |
| FinalStatistics.TopSources | training-data/scripts/final_statistics.py:67 | at most ten entries, taken from the counter, by descending count, none less frequent than a source left out |
| FinalStatistics.Min | training-data/scripts/final_statistics.py:72 | the minimum is an element and below every element |
| FinalStatistics.Max | training-data/scripts/final_statistics.py:73 | the maximum is an element and above every element |
| FinalStatistics.SortAsc | training-data/scripts/final_statistics.py:75 | `sorted` gives a permutation in ascending order |
| FinalStatistics.Median | training-data/scripts/final_statistics.py:75 | the median is an element of the distribution |
| FinalStatistics.WordStatsOf | training-data/scripts/final_statistics.py:70-76 | present exactly for a non-empty distribution; min ≤ median ≤ max, all elements; avg × n = sum |
| FinalStatistics.Finish | training-data/scripts/final_statistics.py:62-76 | at most ten top sources, taken from the source counts; on consistent counters, one distribution entry per document, sources summing to the documents, word stats exactly with documents and their average equal to `avg_words_per_doc` |
| FinalStatistics.AveragesAgree | training-data/scripts/final_statistics.py:56-76 | one distribution entry per document; source counts sum to the documents; word stats exist exactly with documents, and their average is `avg_words_per_doc` |
| FinalStatistics.ScanSplit | training-data/scripts/final_statistics.py:41-56 | a file raises exactly when it has a line that is not JSON; otherwise the split's counts and the running totals grow by its records, blank lines skipped |
| FinalStatistics.AnalyzeCleanedDataset | training-data/scripts/final_statistics.py:14-98 | raises a decode error exactly when an existing split file has a non-JSON line, and otherwise a ZeroDivisionError exactly when split files exist but none holds a record; else the totals over the existing files in order, the split table and the derived metrics |
| FinalStatistics.ReportRaises | training-data/scripts/final_statistics.py:92-98 | the summary's shares divide by zero exactly when some split file exists and no file holds a record |
| FinalStatistics.Summarise | training-data/scripts/final_statistics.py:62-98 | after the files are read, the analysis raises ZeroDivisionError exactly when split files exist and none holds a record, and otherwise returns the derived metrics of the counters |
| FinalStatistics.ReadSplit | training-data/scripts/final_statistics.py:27-58 | a missing split file is skipped; an existing one is scanned and gets its row |
| FinalStatistics.CountFile | training-data/scripts/final_statistics.py:39-58 | an existing file raises exactly on a non-JSON line; otherwise the totals become those of all files so far and the table gains the file's row |
| FinalStatistics.MalformedStops | training-data/scripts/final_statistics.py:41-45 | a non-JSON line in any existing split file makes the whole analysis raise |
| Text.Words | training-data/scripts/clean_dataset.py:222 | `split()` gives non-empty whitespace-free words, none exactly for whitespace-only text, which together are the non-whitespace characters of the text in order |
| Text.WordsSplitAtSpace | training-data/scripts/clean_dataset.py:222 | a whitespace character separates words: the words of `a + c + b` are those of `a` followed by those of `b` |
| Text.WordsOfWord | training-data/scripts/clean_dataset.py:222 | a non-empty whitespace-free string is one word; with the previous row this fixes `split()` on every string |
| Text.Strip | training-data/scripts/clean_dataset.py:175 | `strip()` leaves no surrounding whitespace, is empty exactly for whitespace-only text, and keeps only input characters |
| Text.StripDropsBothEnds | training-data/scripts/assemble.py:246 | `strip()` drops the leading and then the trailing whitespace |
| Text.SplitOn | training-data/scripts/assemble.py:146 | `split('\n')` gives pieces without the separator that join back to the text |
| Text.Find | training-data/scripts/assemble.py:224 | `find` gives the first occurrence from the start index, or -1 when there is none |
| Text.Lower | training-data/scripts/clean_dataset.py:179 | `lower()` keeps the length, maps each character on its own, and leaves no ASCII capital |
| Rewrite.Filter | training-data/scripts/clean_dataset.py:150 | the filter keeps exactly the input characters the class allows |
| Rewrite.CollapseSpace | training-data/scripts/clean_dataset.py:153 | every whitespace run becomes one space: the only whitespace is ' ', never two in a row |
| Rewrite.CollapseBlankLines | training-data/scripts/clean_dataset.py:154 | the blank-line rewrite changes nothing in text without a newline |
| Rewrite.RemoveDelimited | training-data/scripts/clean_dataset.py:157-159 | removing delimited blocks only deletes characters, and nothing without an opening delimiter |
| Rewrite.RemoveTags | training-data/scripts/clean_dataset.py:162 | removing tags only deletes characters, leaves no `<[^>]+>` match (every '<' is followed by '>' or by no '>' at all), and changes nothing without '<' |
| Rewrite.NoTagFixed | training-data/scripts/clean_dataset.py:162 | text without a `<[^>]+>` match is unchanged by the rewrite |
| Rewrite.RemoveTagsIdempotent | training-data/scripts/clean_dataset.py:162 | removing tags a second time changes nothing |
| Rewrite.ReplaceUrls | training-data/scripts/clean_dataset.py:165 | URL replacement adds only the characters of "[URL]" |
| Rewrite.ReplaceEmails | training-data/scripts/clean_dataset.py:168 | e-mail replacement adds only the characters of "[EMAIL]" |
| Rewrite.CollapseRun | training-data/scripts/assemble.py:240-241 | a run rewrite keeps only input characters and the first character, and is empty exactly for empty input |
| Rewrite.CollapseRunAbsent | training-data/scripts/fast_clean.py:84 | a run rewrite changes nothing in text without the run character |
| Sorting.SortDesc | training-data/scripts/expand_collection.py:411 | the sort gives a permutation in descending key order |
| Sorting.SortDescStable | training-data/scripts/expand_collection.py:411 | the sort is stable: the elements of each key keep their order |
| Sorting.TakeSorted | training-data/scripts/final_statistics.py:67 | a prefix of a descending order comes from the list and dominates what it leaves out |
| Tally.Inc | training-data/scripts/final_statistics.py:51 | a counter increment adds one to that key only, one to the total, and keeps keys distinct |
| Tally.IncAllGet | training-data/scripts/clean_dataset.py:366 | counting a list of keys adds to each key the number of times it occurs in the list |

## Left out

- File and directory I/O, JSON encoding and decoding, and the sample-file and
  report writers. Files are given as sequences of already decoded lines, a
  missing file as a missing map key.
- The chunk file names, and the writes of each chunk's lines
  (`expand_collection.py:419-423, 436-439`). The model returns the chunks
  instead.
- The regex engine. The pattern tables are parameters.
  - Unicode NFKC is a parameter.
  - `\w` is a parameter.
  - `lower()` folds ASCII letters only.
- Floating point. Scores are exact hundredths; averages, the 1.25 token factor
  and `int(0.8 * n)` are exact (⌊8n/10⌋). Float rounding at the 0.5 boundary is
  not modelled.
- `random.shuffle`: the shuffled list is an input; only its being a permutation
  is used.
- Plotting, logging, `tqdm`, `print` and the progress messages.
- The estimated-token log of `fast_clean.py`.
- Git cloning, yt-dlp, web scraping and thread pools.
- The class-merging trick at `expand_collection.py:617-621`.
- `rglob`: its order is taken as given. Repositories and notebook files arrive
  as flat lists.
- `Path` normalisation: a path is its string.
- `process_markdown_files` (`assemble.py:168-195`) and `save_processed_data`
  are left out: they are file loops around `_process_single_file`, which is
  modelled.
- `datetime.now()`: the timestamp is a parameter of `ProcessSingleFile`.
- A notebook cell whose `source` is a string is given as the list of its
  one-character strings. `''.join` gives the same text.
- Corpus.FlattenTagged: the source sets `source_category` on the caller's dicts
  in place. The model returns tagged copies, so aliasing is not captured.
- Sorting.SortDesc: the in-place `list.sort` is a function on sequences, an
  insertion sort, rather than an in-place algorithm.
- DatasetCleaning.FirstRejection: the checks are stated one by one, with their
  order, but the `avg_word_length` and sentence checks are stated on the
  measured totals, not on Python float division.
- FinalStatistics.TopSources: stability among equal counts follows from
  `Sorting.SortDescStable`, but is not restated in its own contract.


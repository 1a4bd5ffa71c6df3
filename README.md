# movie_wordcloud: a verified model of the comment pipeline

`main.py` of movie_wordcloud collects the short reviews of a list of films
from a review site. For each film it:

- cleans each comment;
- builds a blacklist of cast-name pieces and filter words;
- segments and filters each comment;
- scores each comment's sentiment;
- turns the merged words and scores into a word cloud, a pie chart of
  sentiment bands and an Excel report (keyword frequencies with the top 50,
  a label per score and an overview with total, mean and positive/negative
  shares).

This project models that pipeline in Dafny and proves what each step
promises. The modules follow the source:

- `TextCleaner`: `_clean_text`. Each of the four regular-expression
  rewrites is a left-to-right scan, as `re.sub` performs it, and `strip()`
  follows them.
- `Fetcher`: `fetch_data` and `_fetch_page_comments`.
  - The cast page is data: a failed request, or the entries of
    `li.celebrity`, each with or without a `span.name`.
  - Every comment page is the answer of a function from the `start` offset
    to the raw texts, or a failure.
  - The page loop is a method proved against the function that specifies it.
- `Blacklist`: the split-and-extend loop and the set union of
  `analyze_movie`. The loop is a method.
- `CommentProcessor`:
  - `_process_comment` is a pure function. The tokenizer and the scorer are
    function parameters, and `None` stands for the exception caught at
    lines 211-212.
  - The merge loop over the futures is a method.
- `WordFrequency`: `Counter(words)` and `most_common(50)`.
  - The counter is a list of entries in insertion order. It is built by
    a loop method.
  - `most_common` is a stable sort by decreasing count, followed by a
    prefix. Ties therefore keep first-seen order.
- `Sentiment`: the three band counts of the pie chart, the label column of
  the report and the overview numbers.
- `Analyzer`: `analyze_movie` from fetching to the data handed to the three
  generators, with its early returns.

The per-film thread pools read their futures back in submission order.
Their loops are therefore modelled as sequential loops over the inputs.

Three points of the behaviour are easy to misread:

- The cast request and the page loop of `fetch_data` share one `try`
  (main.py:100-125). A failed cast request ends the whole collection, and
  so does a missing name span in one of the first eight cast entries while
  `filterRoleNames` is on: the film then gets no comment, although the cast
  list only feeds the blacklist. `Fetcher.CastFailureEmpties` states this.
- Pages are concatenated in page order, and comment results in submission
  order (main.py:120-121, 183-187). The model keeps the order, and
  `CommentProcessor.MergeIgnoresOrder` shows that the merged multisets do
  not depend on it.
- A film whose comments all fail processing is not skipped by the code
  (main.py:161-163). The model records that under "## Findings" and makes
  `Analyzer.Analyze` skip such a film, since the overview cannot be computed
  without a score.

## Model

| member | source | states |
|---|---|---|
| TextCleaner.StripTags | main.py:150 | deleting `<[^>]+>` matches never lengthens the text and introduces no character |
| TextCleaner.StripTagsLeavesNoTag | main.py:150 | after the deletion no position starts a tag match |
| TextCleaner.StripTagsKeepsTagFree | main.py:150 | a text without a tag match is left unchanged |
| TextCleaner.StripTagsIdempotent | main.py:150 | deleting tags twice is the same as deleting them once |
| TextCleaner.StripMentions | main.py:151 | deleting `@\w+\s?` never lengthens the text, introduces no character and leaves a text without `@` unchanged |
| TextCleaner.StripBrackets | main.py:152 | deleting lazy `【.*?】` spans (no newline inside) never lengthens the text, introduces no character and leaves a text without `【` unchanged |
| TextCleaner.ReplaceNonWord | main.py:153 | the replacement is one-for-one: word characters stay where they are and every other character becomes one space |
| TextCleaner.Strip | main.py:154 | `strip()` yields the contiguous piece of the input left after removing only whitespace at its start and end, with no whitespace at either end, and keeps a word-and-space text inside that alphabet |
| TextCleaner.Clean | main.py:148-154 | the cleaned text is never longer than the input, holds only word characters and spaces, and begins and ends with a word character |
| TextCleaner.CleanedHasNoMarkup | main.py:148-154 | cleaned text contains no `<`, `>`, `@`, `【` or `】` |
| TextCleaner.CleanedIsTagFree | main.py:150 | cleaned text has no tag match left |
| TextCleaner.CleanedIsSpaced | main.py:153 | the class replacement changes nothing in cleaned text |
| TextCleaner.CleanKeepsCleaned | main.py:148-154 | every step of the cleaner is a no-op on cleaned text |
| TextCleaner.CleanIdempotent | main.py:148-154 | cleaning twice is the same as cleaning once |
| Blacklist.Split | main.py:171 | every piece `str.split()` returns is non-empty and holds no whitespace |
| Blacklist.SplitKeepsText | main.py:171 | the pieces, put back together, are the entry with its whitespace removed |
| Blacklist.SplitJoin | main.py:171 | splitting a single-space join of pieces gives the pieces back |
| Blacklist.CastTokensMembers | main.py:170-172 | the extended `characters_arr` holds exactly the pieces of the cast entries |
| Blacklist.BlacklistMembers | main.py:170-175 | the blacklist holds exactly the pieces of every cast entry and every filter line, and the cast-derived members hold no whitespace |
| Blacklist.BuildBlacklist | main.py:168-175 | the split-and-extend loop followed by the union yields the blacklist specified by `BlacklistOf` |
| Blacklist.TwoVariantsAndOneLine | main.py:170-175 | the entry "李四 李某" and filter line "演员" give the blacklist {李四, 李某, 演员} |
| CommentProcessor.FilterTokens | main.py:203-205 | every kept token is longer than one character and is neither a stopword nor blacklisted, and the kept tokens keep their order |
| CommentProcessor.FilterCounts | main.py:203-205 | a token that passes the test occurs as often as in the segmentation, and any other token not at all |
| CommentProcessor.FilterKeepsKept | main.py:203-205 | a segmentation whose tokens all pass is kept whole |
| CommentProcessor.FilterIdempotent | main.py:203-205 | filtering the filtered words again changes nothing |
| CommentProcessor.ProcessComment | main.py:194-212 | a result exists exactly when both scorer and tokenizer succeed; it carries the scorer's value and exactly the filtered tokens of the segmentation |
| CommentProcessor.ProcessAll | main.py:178-184 | one result per comment in submission order, each `_process_comment` of that comment, present exactly when both scoring and segmentation succeed |
| CommentProcessor.SegmentedOccurrencesAtLeast | main.py:183-212 | each comment processed without raising contributes all occurrences of a token in its segmentation |
| CommentProcessor.MergedCountsKept | main.py:183-212 | a token passing the filter occurs in the merged words as often as in the segmentations of all successful comments, any other token never |
| CommentProcessor.MergedAppend | main.py:183-187 | merging a concatenation of results merges the parts in order |
| CommentProcessor.NoneIsSkipped | main.py:183-187 | a `None` result changes neither `words` nor `sentiment_results` |
| CommentProcessor.ScoresCountSuccesses | main.py:183-187 | `len(sentiment_results)` is the number of non-`None` results |
| CommentProcessor.MergedWordsOrigin | main.py:183-187 | every merged word is a word of a successful result |
| CommentProcessor.NoScoreNoWords | main.py:183-187 | when no score is merged, no word is either |
| CommentProcessor.MergeIgnoresOrder | main.py:178-187 | results in another order give the same multisets of words and scores |
| CommentProcessor.MergeResults | main.py:183-187 | the merge loop extends `words` with the words of each successful result and appends its score, in result order |
| WordFrequency.Bump | main.py:216 | one `counter[w] += 1` raises the count of `w` alone and adds `w` at the end when it is new |
| WordFrequency.CountWords | main.py:216 | the counting loop builds the counter `Tally(words)` |
| WordFrequency.TallyCounts | main.py:216 | the count of every word is its number of occurrences |
| WordFrequency.TallyTotal | main.py:216 | the counts add up to `len(words)` |
| WordFrequency.TallyKeys | main.py:216 | the keys are exactly the words that occur, each once |
| WordFrequency.TallyFirstSeen | main.py:216 | the keys come in the order of their first occurrence |
| WordFrequency.InsertByCount | main.py:272 | inserting an item into the sorted list keeps every item |
| WordFrequency.SortByCount | main.py:272 | the stable sort by count is a permutation of the counter |
| WordFrequency.SortIsStable | main.py:272 | the sorted list is in decreasing count, ties in key order |
| WordFrequency.MostCommon | main.py:272 | `most_common(n)` holds min(n, number of keys) items |
| WordFrequency.MostCommonChoosesFromInput | main.py:272 | every chosen item is an item of the counter |
| WordFrequency.MostCommonIsRanked | main.py:272 | the chosen items come in decreasing count, ties in key order |
| WordFrequency.MostCommonIsTop | main.py:272 | every item left out comes after each chosen one: a smaller count, or an equal count and a later key |
| WordFrequency.TopWordsCounts | main.py:271-273 | the top list has at most n items, each a word of `words` with its number of occurrences |
| WordFrequency.TopWordsOrder | main.py:271-273 | the top words come in decreasing count, and equal counts in first-seen order |
| WordFrequency.TopWordsAreTop | main.py:271-273 | every word left out occurs less often than each listed word, or as often and first seen later |
| WordFrequency.TopWordsDistinct | main.py:271-273 | no word is listed twice |
| Sentiment.ChartCount | main.py:240-244 | each chart count is at most the number of scores |
| Sentiment.Labels | main.py:265-267 | one label per score: 正面 above `high`, 中性 from `low` on, 负面 below |
| Sentiment.LabelIsChartBand | main.py:239-267 | with `low <= high` a score carries the label of the one band that counts it |
| Sentiment.BandsPartition | main.py:240-244 | with `low <= high` the three chart counts add up to `len(sentiments)` |
| Sentiment.LabelsMatchChart | main.py:239-267 | with `low <= high` each label occurs as often as the chart counts its band |
| Sentiment.ReversedThresholdsOvercount | main.py:240-244 | with `low > high` the three chart counts add up to the number of scores plus the number strictly between the thresholds |
| Sentiment.SumOfUnitScores | main.py:286 | scores in [0, 1] sum to between 0 and their number |
| Sentiment.Summarize | main.py:282-290 | for a non-empty score list the shares lie in [0, 1], add up to at most 1 with ordered thresholds, and the mean of scores in [0, 1] lies in [0, 1] |
| Fetcher.Names | main.py:107-108 | the name comprehension yields every entry's name in order, or fails when an entry has no name span |
| Fetcher.CastNames | main.py:106-108 | the cast list is empty without `filterRoleNames`, else the names of at most the first eight entries |
| Fetcher.CleanAll | main.py:139-140 | each page comment is the cleaned text of the matching `span.short` |
| Fetcher.PageComments | main.py:131-146 | `_fetch_page_comments` yields nothing when the request at offset `page * 20` fails, else one cleaned text per `span.short`, each of cleaned shape |
| Fetcher.FetchData | main.py:95-129 | `fetch_data` returns what `Fetch` specifies: empty lists after a cast failure, else the pages 0 .. page_limit-1 in order and the cast names |
| Fetcher.PagesSplit | main.py:120-121 | the concatenation of consecutive page ranges is the concatenation of the whole range |
| Fetcher.FailedPageSkipped | main.py:144-146 | a failed page contributes nothing and the pages before and after it are still collected |
| Fetcher.OnlyPageOffsetsMatter | main.py:134 | only the answers at offsets `p * 20` for the requested pages decide the comments |
| Fetcher.PagesOrigin | main.py:120-121 | every collected comment comes from one requested page |
| Fetcher.PageCleaned | main.py:139-146 | every comment a page yields is cleaned text |
| Fetcher.FetchedCommentsCleaned | main.py:120-140 | every comment `fetch_data` returns is cleaned text |
| Fetcher.FetchCast | main.py:106-108 | the cast list has at most eight names, is empty without `filterRoleNames`, and holds the names of the first entries in order |
| Fetcher.CastFailureEmpties | main.py:100-129 | a failed cast request, or a nameless entry among the first eight under `filterRoleNames`, leaves comments and cast empty |
| Fetcher.CastSuccessKeepsPages | main.py:100-121 | when the cast request succeeds and, under `filterRoleNames`, each of the first eight entries has a name, the comments are all pages in order |
| Analyzer.AnalyzeMovie | main.py:156-192 | `analyze_movie` computes `Analyze` of the fetched data |
| Analyzer.OutcomeCases | main.py:159-163 | the film is skipped exactly when it has no comment, or when none of its comments was processed |
| Analyzer.ReportCounts | main.py:183-192 | a report has one score per successful comment, at least one, and word counts adding up to the number of words |
| Analyzer.ReportTopWords | main.py:271-273 | the keyword sheet lists at most 50 distinct words in decreasing count |
| Analyzer.ReportBands | main.py:239-267 | with ordered thresholds the chart counts cover every score once and match the label column |
| Analyzer.CountedWordsFiltered | main.py:168-205 | no counted word is a single character, a stopword, a filter line or a piece of a cast entry |
| Analyzer.CountsAreKeptOccurrences | main.py:168-216 | the count of a word passing the filter is its number of occurrences in the segmentations of the successful comments; any other word has count 0 |
| Analyzer.KeptWordsCounted | main.py:168-216 | a token of a successful comment that passes the filter is a key of the counter |
| Analyzer.StatsAsWritten | main.py:286-288 | the overview as written fails exactly when there is no score |
| Analyzer.GuardAsWrittenDividesByZero | main.py:161-163 | one comment whose scoring raises passes the guard, and the overview then divides by zero |
| Analyzer.GuardAsWrittenMissesFailures | main.py:161-163 | for any scorer and tokenizer under which every comment raises, the guard lets the film through with no score |
| Analyzer.AllFailed | main.py:183-212 | when scoring or segmentation raises on every comment, no score is merged |
| Analyzer.NoSuccessNoScore | main.py:183-187 | with no successful result no score is merged |
| Analyzer.CorrectedGuardSkips | main.py:161-163 | for any scorer and tokenizer under which every comment raises, the corrected analysis skips the film |
| Analyzer.CorrectedGuardNeverDivides | main.py:286-288 | under the corrected guard the overview as written always has a value |

## Left out

- The network and the HTML parser are left out: `requests.get`, BeautifulSoup, user agents and proxies (main.py:84-93, 102-105, 134-138). Pages and the cast list enter as data.
- Thread pools, `time.sleep` jitter and `random` are left out (main.py:112-119, 141, 178-181). Futures are read in submission order, so a sequential loop has the same results.
- The internals of jieba and SnowNLP are left out (main.py:78, 198-202). They are function parameters, and a raised exception is `None`.
- Reading the stopword, filter and user-dictionary files is left out (main.py:78-82, 173-174). Their contents are parameters.
- WordCloud, matplotlib, pandas and the Excel writer are left out, with the font set-up (main.py:17-42, 218-258, 263-264, 274-300). The model stops at the data handed to them.
- `print` output is left out.
- The `__main__` loop over the configured films is left out (main.py:303-314). Each film is analysed independently.
- TextCleaner.IsWord covers only part of Python's Unicode `\w`: ASCII and all of Latin-1; CJK U+3400-U+4DBF and U+4E00-U+9FFF; `々`, `〆`, `〇` and the numerals U+3021-U+3029; hiragana U+3041-U+3096 and U+309D-U+309F; katakana U+30A1-U+30FA and U+30FC-U+30FF; halfwidth katakana U+FF66-U+FF9F; Hangul syllables; and fullwidth letters and digits. Every other character is classed as a non-word character. That includes letters and digits of other scripts (Latin Extended, Greek, Cyrillic, Arabic, Hangul jamo, CJK extensions beyond U+4DBF and U+9FFF, compatibility ideographs and so on) that Python counts as `\w`.
- Sentiment.Summarize uses exact real arithmetic, not floating point, so rounding of the mean and the shares is not modelled.
- The score bounds in Sentiment.Summarize hold only when every score is in [0, 1], which SnowNLP promises but the model does not enforce.
- Fetcher.FetchData models a non-2xx response like any parsed page: the selectors find whatever `span.short` texts it has.
- What the word-cloud library does with an empty frequency table is not modelled.

## Findings

| source | as written | input that shows it | evidently intended | confidence | as-written member | corrected member |
|---|---|---|---|---|---|---|
| main.py:161-163 | The only early return tests that `comments` is non-empty. The overview then divides by `len(sentiments)` (main.py:286-288), which is 0 when every comment's processing raised, and the exception ends the run over the remaining films. | One fetched comment "好看" whose SnowNLP scoring raises | Skip the film, with a warning, when no comment was processed | not executed; medium, because the word-cloud library, which is not modelled, is handed an empty table first and may raise before the division | Analyzer.GuardAsWrittenDividesByZero | Analyzer.CorrectedGuardSkips |

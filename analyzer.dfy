/** `MovieAnalyzer.analyze_movie`: fetch the film's data, stop when there is
    no comment, build the blacklist, process every comment, merge the
    results and compute what the word cloud, the sentiment chart and the
    Excel report are drawn from. The drawing and the file output are not
    modelled; the outcome is the data handed to them. */
module Analyzer {
  import opened Wrappers
  import opened Fetcher
  import opened Blacklist
  import opened CommentProcessor
  import opened WordFrequency
  import opened Sentiment

  /** The entries of `CONFIG` that the analysis reads. */
  datatype Config = Config(pageLimit: nat, filterRoleNames: bool, low: real, high: real)

  /** `page_limit` 5, `filterRoleNames` on, `sentiment_threshold` (0.4, 0.6). */
  const Default: Config := Config(5, true, 0.4, 0.6)

  /** The report lists `freq.most_common(50)`. */
  const TopN: nat := 50

  /** What the three report generators are given and compute. */
  datatype Report = Report(
    words: seq<string>,       // `words`, the input of both `Counter(words)`
    scores: seq<real>,        // `sentiment_results`
    freq: seq<Entry>,         // `Counter(words)`, keys in first-seen order
    top: seq<Entry>,          // `freq.most_common(50)`
    labels: seq<Band>,        // the '情感分类' column
    negative: nat,            // the chart's three counts
    neutral: nat,
    positive: nat,
    summary: Summary)         // the '统计概览' sheet

  /** How `analyze_movie` ends: skipped for want of comments, skipped for
      want of a successfully processed comment, or with a report. */
  datatype Outcome = NoComments | NoResults | Analyzed(report: Report)

  /** The per-comment results of a film, in submission order. */
  function ResultsOf(data: FilmData, filterLines: seq<string>, stopwords: set<string>,
                     scorer: string -> Option<real>, tokenizer: string -> Option<seq<string>>)
    : seq<Option<Processed>>
  {
    ProcessAll(data.comments, scorer, tokenizer, stopwords, BlacklistOf(data.characters, filterLines))
  }

  function BuildReport(words: seq<string>, scores: seq<real>, low: real, high: real): Report
    requires |scores| > 0
  {
    var freq := Tally(words);
    Report(words, scores, freq, MostCommon(freq, TopN), Labels(scores, low, high),
           ChartCount(scores, Negative, low, high), ChartCount(scores, Neutral, low, high),
           ChartCount(scores, Positive, low, high), Summarize(scores, low, high))
  }

  /** The analysis of fetched data. A film whose comments all fail to be
      processed is skipped like a film without comments, so that the
      statistics never divide by zero. */
  function Analyze(cfg: Config, data: FilmData, filterLines: seq<string>, stopwords: set<string>,
                   scorer: string -> Option<real>, tokenizer: string -> Option<seq<string>>): Outcome
  {
    if data.comments == [] then NoComments
    else
      var results := ResultsOf(data, filterLines, stopwords, scorer, tokenizer);
      var scores := MergedScores(results);
      if scores == [] then NoResults
      else Analyzed(BuildReport(MergedWords(results), scores, cfg.low, cfg.high))
  }

  /** `analyze_movie(movie_id, movie_name)`, its loops run in order. */
  method AnalyzeMovie(cfg: Config, cast: Option<seq<Option<string>>>, respond: nat -> Option<seq<string>>,
                      filterLines: seq<string>, stopwords: set<string>,
                      scorer: string -> Option<real>, tokenizer: string -> Option<seq<string>>)
    returns (outcome: Outcome)
    ensures outcome == Analyze(cfg, Fetch(cfg.pageLimit, cfg.filterRoleNames, cast, respond),
                               filterLines, stopwords, scorer, tokenizer)
  {
    var data := FetchData(cfg.pageLimit, cfg.filterRoleNames, cast, respond);
    if data.comments == [] {
      return NoComments;
    }
    var blacklist := BuildBlacklist(data.characters, filterLines);
    var results := ProcessAll(data.comments, scorer, tokenizer, stopwords, blacklist);
    var words, sentiments := MergeResults(results);
    if sentiments == [] {
      return NoResults;
    }
    var freq := CountWords(words);
    outcome := Analyzed(Report(words, sentiments, freq, MostCommon(freq, TopN),
                               Labels(sentiments, cfg.low, cfg.high),
                               ChartCount(sentiments, Negative, cfg.low, cfg.high),
                               ChartCount(sentiments, Neutral, cfg.low, cfg.high),
                               ChartCount(sentiments, Positive, cfg.low, cfg.high),
                               Summarize(sentiments, cfg.low, cfg.high)));
  }

  /** The analysis stops exactly when there is no comment, or when there is
      but none of them was processed successfully. */
  lemma OutcomeCases(cfg: Config, data: FilmData, filterLines: seq<string>, stopwords: set<string>,
                     scorer: string -> Option<real>, tokenizer: string -> Option<seq<string>>)
    ensures Analyze(cfg, data, filterLines, stopwords, scorer, tokenizer).NoComments? <==> data.comments == []
    ensures Analyze(cfg, data, filterLines, stopwords, scorer, tokenizer).NoResults?
            <==> data.comments != [] && Successes(ResultsOf(data, filterLines, stopwords, scorer, tokenizer)) == 0
  {
    ScoresCountSuccesses(ResultsOf(data, filterLines, stopwords, scorer, tokenizer));
  }

  /** A report has one score per successfully processed comment, at least
      one, and word counts that add up to the number of words. */
  lemma ReportCounts(cfg: Config, data: FilmData, filterLines: seq<string>, stopwords: set<string>,
                     scorer: string -> Option<real>, tokenizer: string -> Option<seq<string>>)
    requires Analyze(cfg, data, filterLines, stopwords, scorer, tokenizer).Analyzed?
    ensures var r := Analyze(cfg, data, filterLines, stopwords, scorer, tokenizer).report;
            && |r.scores| == Successes(ResultsOf(data, filterLines, stopwords, scorer, tokenizer)) > 0
            && r.summary.total == |r.scores|
            && Total(r.freq) == |r.words|
  {
    var results := ResultsOf(data, filterLines, stopwords, scorer, tokenizer);
    ScoresCountSuccesses(results);
    TallyTotal(MergedWords(results));
  }

  /** The keyword sheet lists at most fifty distinct words, most frequent
      first. */
  lemma ReportTopWords(cfg: Config, data: FilmData, filterLines: seq<string>, stopwords: set<string>,
                       scorer: string -> Option<real>, tokenizer: string -> Option<seq<string>>)
    requires Analyze(cfg, data, filterLines, stopwords, scorer, tokenizer).Analyzed?
    ensures var r := Analyze(cfg, data, filterLines, stopwords, scorer, tokenizer).report;
            && |r.top| <= TopN
            && DistinctKeys(r.top)
            && forall i, j :: 0 <= i < j < |r.top| ==> r.top[i].count >= r.top[j].count
  {
    var r := Analyze(cfg, data, filterLines, stopwords, scorer, tokenizer).report;
    TopWordsCounts(r.words, TopN);
    TopWordsDistinct(r.words, TopN);
    TopWordsOrder(r.words, TopN);
  }

  /** With ordered thresholds the chart's three counts cover every score
      once, and each label of the report occurs as often as the chart
      counts its band. */
  lemma ReportBands(cfg: Config, data: FilmData, filterLines: seq<string>, stopwords: set<string>,
                    scorer: string -> Option<real>, tokenizer: string -> Option<seq<string>>)
    requires Analyze(cfg, data, filterLines, stopwords, scorer, tokenizer).Analyzed?
    requires cfg.low <= cfg.high
    ensures var r := Analyze(cfg, data, filterLines, stopwords, scorer, tokenizer).report;
            && r.negative + r.neutral + r.positive == |r.scores|
            && Occurrences(r.labels, Negative) == r.negative
            && Occurrences(r.labels, Neutral) == r.neutral
            && Occurrences(r.labels, Positive) == r.positive
  {
    var r := Analyze(cfg, data, filterLines, stopwords, scorer, tokenizer).report;
    BandsPartition(r.scores, cfg.low, cfg.high);
    LabelsMatchChart(r.scores, cfg.low, cfg.high, Negative);
    LabelsMatchChart(r.scores, cfg.low, cfg.high, Neutral);
    LabelsMatchChart(r.scores, cfg.low, cfg.high, Positive);
  }

  /** Every counted word has more than one character, is no stopword, no
      line of the filter file and no whitespace-separated piece of a cast
      entry. */
  lemma CountedWordsFiltered(cfg: Config, data: FilmData, filterLines: seq<string>, stopwords: set<string>,
                             scorer: string -> Option<real>, tokenizer: string -> Option<seq<string>>, w: string)
    requires Analyze(cfg, data, filterLines, stopwords, scorer, tokenizer).Analyzed?
    requires w in Keys(Analyze(cfg, data, filterLines, stopwords, scorer, tokenizer).report.freq)
    ensures |w| > 1 && w !in stopwords && w !in filterLines
    ensures forall i :: 0 <= i < |data.characters| ==> w !in Split(data.characters[i])
  {
    var results := ResultsOf(data, filterLines, stopwords, scorer, tokenizer);
    var blacklist := BlacklistOf(data.characters, filterLines);
    TallyKeys(MergedWords(results));
    MergedWordsOrigin(results, w);
    var i :| 0 <= i < |results| && results[i].Some? && w in results[i].value.words;
    var k :| 0 <= k < |results[i].value.words| && results[i].value.words[k] == w;
    assert Keep(w, stopwords, blacklist);
    BlacklistMembers(data.characters, filterLines);
  }

  /** Conversely, the counter holds every token that passes the filter as
      often as it occurs in the segmentations of the comments processed
      without raising, and no other word. */
  lemma CountsAreKeptOccurrences(cfg: Config, data: FilmData, filterLines: seq<string>, stopwords: set<string>,
                                 scorer: string -> Option<real>, tokenizer: string -> Option<seq<string>>, w: string)
    requires Analyze(cfg, data, filterLines, stopwords, scorer, tokenizer).Analyzed?
    ensures CountOf(Analyze(cfg, data, filterLines, stopwords, scorer, tokenizer).report.freq, w)
            == if Keep(w, stopwords, BlacklistOf(data.characters, filterLines))
               then SegmentedOccurrences(data.comments, scorer, tokenizer, w) else 0
  {
    var results := ResultsOf(data, filterLines, stopwords, scorer, tokenizer);
    TallyCounts(MergedWords(results));
    MergedCountsKept(data.comments, scorer, tokenizer, stopwords, BlacklistOf(data.characters, filterLines), w);
  }

  /** A token of a successfully processed comment that passes the filter is
      a key of the counter. */
  lemma KeptWordsCounted(cfg: Config, data: FilmData, filterLines: seq<string>, stopwords: set<string>,
                         scorer: string -> Option<real>, tokenizer: string -> Option<seq<string>>,
                         i: nat, w: string)
    requires Analyze(cfg, data, filterLines, stopwords, scorer, tokenizer).Analyzed?
    requires i < |data.comments| && scorer(data.comments[i]).Some? && tokenizer(data.comments[i]).Some?
    requires w in tokenizer(data.comments[i]).value && Keep(w, stopwords, BlacklistOf(data.characters, filterLines))
    ensures w in Keys(Analyze(cfg, data, filterLines, stopwords, scorer, tokenizer).report.freq)
  {
    var words := MergedWords(ResultsOf(data, filterLines, stopwords, scorer, tokenizer));
    SegmentedOccurrencesAtLeast(data.comments, scorer, tokenizer, w, i);
    CountsAreKeptOccurrences(cfg, data, filterLines, stopwords, scorer, tokenizer, w);
    TallyCounts(words);
    TallyKeys(words);
    assert w in multiset(words);
  }

  // ---------------------------------------------------------------------
  // The guard of analyze_movie as written

  /** `analyze_movie` as written returns early only when there is no
      comment. */
  predicate GuardAsWritten(data: FilmData)
  {
    data.comments != []
  }

  /** The '统计概览' numbers as written: `sum(sentiments) / len(sentiments)`
      raises ZeroDivisionError (`None` here) when no score was merged. */
  function StatsAsWritten(scores: seq<real>, low: real, high: real): (r: Option<Summary>)
    ensures r.None? <==> scores == []
    ensures r.Some? ==> r.value.total == |scores|
  {
    if scores == [] then None else Some(Summarize(scores, low, high))
  }

  /** A scorer that raises on every comment. */
  function NeverScores(comment: string): Option<real>
  {
    None
  }

  /** A tokenizer that returns the comment as its one token. */
  function WholeComment(comment: string): Option<seq<string>>
  {
    Some([comment])
  }

  /** One comment whose scoring raises passes the guard as written, and the
      statistics then divide by zero; no word is merged either. */
  lemma GuardAsWrittenDividesByZero()
    ensures var data := FilmData(["好看"], []);
            var results := ResultsOf(data, [], {}, NeverScores, WholeComment);
            && GuardAsWritten(data)
            && MergedWords(results) == []
            && StatsAsWritten(MergedScores(results), Default.low, Default.high).None?
  {
    var data := FilmData(["好看"], []);
    var results := ResultsOf(data, [], {}, NeverScores, WholeComment);
    assert results == [None];
    assert results[..0] == [];
  }

  /** Whenever scoring or segmentation raises on every comment, the guard
      as written lets the film through while no score exists. */
  lemma GuardAsWrittenMissesFailures(cfg: Config, data: FilmData, filterLines: seq<string>,
                                     stopwords: set<string>, scorer: string -> Option<real>,
                                     tokenizer: string -> Option<seq<string>>)
    requires data.comments != []
    requires forall c :: c in data.comments ==> scorer(c).None? || tokenizer(c).None?
    ensures GuardAsWritten(data)
    ensures StatsAsWritten(MergedScores(ResultsOf(data, filterLines, stopwords, scorer, tokenizer)),
                           cfg.low, cfg.high).None?
  {
    AllFailed(data, filterLines, stopwords, scorer, tokenizer);
  }

  /** When every comment fails, every result is `None`. */
  lemma AllFailed(data: FilmData, filterLines: seq<string>, stopwords: set<string>,
                  scorer: string -> Option<real>, tokenizer: string -> Option<seq<string>>)
    requires forall c :: c in data.comments ==> scorer(c).None? || tokenizer(c).None?
    ensures MergedScores(ResultsOf(data, filterLines, stopwords, scorer, tokenizer)) == []
  {
    var results := ResultsOf(data, filterLines, stopwords, scorer, tokenizer);
    forall i | 0 <= i < |results| ensures results[i].None? {
      assert data.comments[i] in data.comments;
    }
    NoSuccessNoScore(results);
  }

  lemma {:induction false} NoSuccessNoScore(results: seq<Option<Processed>>)
    requires forall i :: 0 <= i < |results| ==> results[i].None?
    ensures MergedScores(results) == []
    decreases |results|
  {
    if results != [] {
      NoSuccessNoScore(results[..|results| - 1]);
    }
  }

  /** The corrected guard skips such a film instead. */
  lemma CorrectedGuardSkips(cfg: Config, data: FilmData, filterLines: seq<string>, stopwords: set<string>,
                            scorer: string -> Option<real>, tokenizer: string -> Option<seq<string>>)
    requires data.comments != []
    requires forall c :: c in data.comments ==> scorer(c).None? || tokenizer(c).None?
    ensures Analyze(cfg, data, filterLines, stopwords, scorer, tokenizer) == NoResults
  {
    AllFailed(data, filterLines, stopwords, scorer, tokenizer);
  }

  /** Under the corrected guard the statistics as written never fail: a
      report's scores are never empty. */
  lemma CorrectedGuardNeverDivides(cfg: Config, data: FilmData, filterLines: seq<string>,
                                   stopwords: set<string>, scorer: string -> Option<real>,
                                   tokenizer: string -> Option<seq<string>>)
    requires Analyze(cfg, data, filterLines, stopwords, scorer, tokenizer).Analyzed?
    ensures var r := Analyze(cfg, data, filterLines, stopwords, scorer, tokenizer).report;
            StatsAsWritten(r.scores, cfg.low, cfg.high) == Some(r.summary)
  {
  }
}

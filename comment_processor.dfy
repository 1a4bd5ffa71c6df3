/** `MovieAnalyzer._process_comment` and the loop of `analyze_movie` that
    merges its results. The sentiment scorer (SnowNLP) and the segmenter
    (jieba) are opaque: each is a function from the comment text to a result,
    `None` standing for the exception that `_process_comment` catches. */
module CommentProcessor {
  import opened Wrappers

  /** The dictionary `{'words': ..., 'sentiment': ...}` of one comment. */
  datatype Processed = Processed(words: seq<string>, sentiment: real)

  /** The test of the filter comprehension: longer than one character and
      neither a stopword nor blacklisted. */
  predicate Keep(w: string, stopwords: set<string>, blacklist: set<string>)
  {
    |w| > 1 && w !in stopwords && w !in blacklist
  }

  /** `a` is `b` with some elements left out, the others in their order. */
  predicate IsSubsequence<T(==)>(a: seq<T>, b: seq<T>)
    decreases |b|
  {
    || a == []
    || (b != [] && ((a[0] == b[0] && IsSubsequence(a[1..], b[1..])) || IsSubsequence(a, b[1..])))
  }

  /** `[w for w in seg if len(w) > 1 and w not in stopwords and w not in
      blacklist]`: exactly the kept tokens, each as often as in `seg`, in
      their order in `seg`. */
  function FilterTokens(seg: seq<string>, stopwords: set<string>, blacklist: set<string>): (r: seq<string>)
    ensures forall i :: 0 <= i < |r| ==> Keep(r[i], stopwords, blacklist)
    ensures IsSubsequence(r, seg)
  {
    if seg == [] then []
    else
      var rest := FilterTokens(seg[1..], stopwords, blacklist);
      if Keep(seg[0], stopwords, blacklist) then
        assert ([seg[0]] + rest)[1..] == rest;
        [seg[0]] + rest
      else rest
  }

  /** Each kept token occurs in the filtered list as often as in `seg`;
      every other token not at all. */
  lemma {:induction false} FilterCounts(seg: seq<string>, stopwords: set<string>, blacklist: set<string>)
    ensures forall w :: multiset(FilterTokens(seg, stopwords, blacklist))[w]
                        == if Keep(w, stopwords, blacklist) then multiset(seg)[w] else 0
    decreases |seg|
  {
    if seg != [] {
      assert seg == [seg[0]] + seg[1..];
      FilterCounts(seg[1..], stopwords, blacklist);
    }
  }

  lemma {:induction false} FilterKeepsKept(seg: seq<string>, stopwords: set<string>, blacklist: set<string>)
    requires forall i :: 0 <= i < |seg| ==> Keep(seg[i], stopwords, blacklist)
    ensures FilterTokens(seg, stopwords, blacklist) == seg
    decreases |seg|
  {
    if seg != [] {
      FilterKeepsKept(seg[1..], stopwords, blacklist);
    }
  }

  /** Filtering the filtered words again changes nothing. */
  lemma FilterIdempotent(seg: seq<string>, stopwords: set<string>, blacklist: set<string>)
    ensures FilterTokens(FilterTokens(seg, stopwords, blacklist), stopwords, blacklist)
            == FilterTokens(seg, stopwords, blacklist)
  {
    FilterKeepsKept(FilterTokens(seg, stopwords, blacklist), stopwords, blacklist);
  }

  /** One comment: the score and the token list are produced together or the
      whole result is `None`; a failure of either library yields `None`. */
  function ProcessComment(comment: string, scorer: string -> Option<real>,
                          tokenizer: string -> Option<seq<string>>,
                          stopwords: set<string>, blacklist: set<string>): (r: Option<Processed>)
    ensures r.Some? <==> scorer(comment).Some? && tokenizer(comment).Some?
    ensures r.Some? ==> r.value.sentiment == scorer(comment).value
    ensures r.Some? ==> r.value.words == FilterTokens(tokenizer(comment).value, stopwords, blacklist)
    ensures r.Some? ==> IsSubsequence(r.value.words, tokenizer(comment).value)
    ensures r.Some? ==> forall i :: 0 <= i < |r.value.words| ==> Keep(r.value.words[i], stopwords, blacklist)
  {
    match scorer(comment)
    case None => None
    case Some(sentiment) =>
      match tokenizer(comment)
      case None => None
      case Some(seg) => Some(Processed(FilterTokens(seg, stopwords, blacklist), sentiment))
  }

  /** The futures of the pool, read back in submission order. */
  function ProcessAll(comments: seq<string>, scorer: string -> Option<real>,
                      tokenizer: string -> Option<seq<string>>,
                      stopwords: set<string>, blacklist: set<string>): (r: seq<Option<Processed>>)
    ensures |r| == |comments|
    ensures forall i :: 0 <= i < |r| ==> r[i] == ProcessComment(comments[i], scorer, tokenizer, stopwords, blacklist)
    ensures forall i :: 0 <= i < |r| ==>
              (r[i].Some? <==> scorer(comments[i]).Some? && tokenizer(comments[i]).Some?)
  {
    seq(|comments|, i requires 0 <= i < |comments| =>
      ProcessComment(comments[i], scorer, tokenizer, stopwords, blacklist))
  }

  /** How often `w` occurs in the segmentations of the comments that both
      libraries process without raising. */
  function SegmentedOccurrences(comments: seq<string>, scorer: string -> Option<real>,
                                tokenizer: string -> Option<seq<string>>, w: string): nat
  {
    if comments == [] then 0
    else
      var c := comments[|comments| - 1];
      SegmentedOccurrences(comments[..|comments| - 1], scorer, tokenizer, w)
        + (if scorer(c).Some? && tokenizer(c).Some? then multiset(tokenizer(c).value)[w] else 0)
  }

  /** A successfully processed comment contributes all its occurrences of
      `w` to the total. */
  lemma {:induction false} SegmentedOccurrencesAtLeast(comments: seq<string>, scorer: string -> Option<real>,
                                                       tokenizer: string -> Option<seq<string>>, w: string, i: nat)
    requires i < |comments| && scorer(comments[i]).Some? && tokenizer(comments[i]).Some?
    ensures SegmentedOccurrences(comments, scorer, tokenizer, w) >= multiset(tokenizer(comments[i]).value)[w]
    decreases |comments|
  {
    var init := comments[..|comments| - 1];
    if i < |init| {
      assert init[i] == comments[i];
      SegmentedOccurrencesAtLeast(init, scorer, tokenizer, w, i);
    }
  }

  // ---------------------------------------------------------------------
  // Merging the per-comment results

  function WordsOf(result: Option<Processed>): seq<string>
  {
    if result.Some? then result.value.words else []
  }

  function ScoresOf(result: Option<Processed>): seq<real>
  {
    if result.Some? then [result.value.sentiment] else []
  }

  /** `words` after the merge loop has seen `results`. */
  function MergedWords(results: seq<Option<Processed>>): seq<string>
  {
    if results == [] then []
    else MergedWords(results[..|results| - 1]) + WordsOf(results[|results| - 1])
  }

  /** `sentiment_results` after the merge loop has seen `results`. */
  function MergedScores(results: seq<Option<Processed>>): seq<real>
  {
    if results == [] then []
    else MergedScores(results[..|results| - 1]) + ScoresOf(results[|results| - 1])
  }

  /** The number of results that are not `None`. */
  function Successes(results: seq<Option<Processed>>): nat
  {
    if results == [] then 0
    else Successes(results[1..]) + (if results[0].Some? then 1 else 0)
  }

  /** Merging a concatenation merges the parts one after the other. */
  lemma {:induction false} MergedAppend(a: seq<Option<Processed>>, b: seq<Option<Processed>>)
    ensures MergedWords(a + b) == MergedWords(a) + MergedWords(b)
    ensures MergedScores(a + b) == MergedScores(a) + MergedScores(b)
    decreases |b|
  {
    if b == [] {
      assert a + b == a;
    } else {
      var init := b[..|b| - 1];
      assert (a + b)[..|a + b| - 1] == a + init;
      assert (a + b)[|a + b| - 1] == b[|b| - 1];
      MergedAppend(a, init);
    }
  }

  /** A `None` anywhere in the results changes neither list. */
  lemma NoneIsSkipped(a: seq<Option<Processed>>, b: seq<Option<Processed>>)
    ensures MergedWords(a + [None] + b) == MergedWords(a + b)
    ensures MergedScores(a + [None] + b) == MergedScores(a + b)
  {
    var withNone := a + [None];
    MergedAppend(withNone, b);
    assert withNone[..|withNone| - 1] == a;
    assert MergedWords(withNone) == MergedWords(a) && MergedScores(withNone) == MergedScores(a);
    MergedAppend(a, b);
  }

  /** One score per successful result. */
  lemma {:induction false} ScoresCountSuccesses(results: seq<Option<Processed>>)
    ensures |MergedScores(results)| == Successes(results)
    decreases |results|
  {
    if results != [] {
      assert results == [results[0]] + results[1..];
      MergedAppend([results[0]], results[1..]);
      ScoresCountSuccesses(results[1..]);
      assert [results[0]][..0] == [];
    }
  }

  /** Every merged word is a word of one of the successful results. */
  lemma {:induction false} MergedWordsOrigin(results: seq<Option<Processed>>, w: string)
    requires w in MergedWords(results)
    ensures exists i :: 0 <= i < |results| && results[i].Some? && w in results[i].value.words
    decreases |results|
  {
    var init := results[..|results| - 1];
    if w in MergedWords(init) {
      MergedWordsOrigin(init, w);
      var i :| 0 <= i < |init| && init[i].Some? && w in init[i].value.words;
      assert results[i] == init[i];
    }
  }

  /** Words and scores come from the same results: when no score was
      merged, no word was either. */
  lemma {:induction false} NoScoreNoWords(results: seq<Option<Processed>>)
    ensures MergedScores(results) == [] ==> MergedWords(results) == []
    decreases |results|
  {
    if results != [] {
      NoScoreNoWords(results[..|results| - 1]);
    }
  }

  /** The merged words of all comments hold a token that passes the filter
      as often as the segmentations of the successfully processed comments
      hold it, and any other token not at all. */
  lemma {:induction false} MergedCountsKept(comments: seq<string>, scorer: string -> Option<real>,
                                            tokenizer: string -> Option<seq<string>>,
                                            stopwords: set<string>, blacklist: set<string>, w: string)
    ensures multiset(MergedWords(ProcessAll(comments, scorer, tokenizer, stopwords, blacklist)))[w]
            == if Keep(w, stopwords, blacklist) then SegmentedOccurrences(comments, scorer, tokenizer, w) else 0
    decreases |comments|
  {
    if comments != [] {
      var init, c := comments[..|comments| - 1], comments[|comments| - 1];
      var results := ProcessAll(comments, scorer, tokenizer, stopwords, blacklist);
      assert results[..|results| - 1] == ProcessAll(init, scorer, tokenizer, stopwords, blacklist);
      MergedCountsKept(init, scorer, tokenizer, stopwords, blacklist, w);
      var last := results[|results| - 1];
      assert last == ProcessComment(c, scorer, tokenizer, stopwords, blacklist);
      if last.Some? {
        FilterCounts(tokenizer(c).value, stopwords, blacklist);
      }
      assert multiset(MergedWords(results))
             == multiset(MergedWords(results[..|results| - 1])) + multiset(WordsOf(last));
    }
  }

  lemma MergedAround(a: seq<Option<Processed>>, x: Option<Processed>, b: seq<Option<Processed>>)
    ensures MergedWords(a + [x] + b) == MergedWords(a) + WordsOf(x) + MergedWords(b)
    ensures MergedScores(a + [x] + b) == MergedScores(a) + ScoresOf(x) + MergedScores(b)
  {
    MergedAppend(a + [x], b);
    assert (a + [x])[..|a + [x]| - 1] == a;
  }

  lemma CancelOne<T>(init: seq<T>, x: T, a: seq<T>, b: seq<T>)
    requires multiset(init + [x]) == multiset(a + [x] + b)
    ensures multiset(init) == multiset(a + b)
  {
    assert multiset(init + [x]) == multiset(init) + multiset{x};
    assert multiset(a + [x] + b) == multiset(a + b) + multiset{x};
    forall y ensures multiset(init)[y] == multiset(a + b)[y] {
      assert (multiset(init) + multiset{x})[y] == (multiset(a + b) + multiset{x})[y];
    }
  }

  lemma Regroup<T>(p: seq<T>, q: seq<T>, r: seq<T>)
    ensures multiset(p + q + r) == multiset(p + r) + multiset(q)
  {
  }

  /** The merged lists depend only on which results there are, not on the
      order in which the futures are read back. */
  lemma {:induction false} MergeIgnoresOrder(rs: seq<Option<Processed>>, qs: seq<Option<Processed>>)
    requires multiset(rs) == multiset(qs)
    ensures multiset(MergedWords(rs)) == multiset(MergedWords(qs))
    ensures multiset(MergedScores(rs)) == multiset(MergedScores(qs))
    decreases |rs|
  {
    if rs == [] {
      assert |qs| == |multiset(qs)| == 0;
    } else {
      var x := rs[|rs| - 1];
      var init := rs[..|rs| - 1];
      assert rs == init + [x];
      assert x in multiset(qs);
      var k :| 0 <= k < |qs| && qs[k] == x;
      var a, b := qs[..k], qs[k + 1..];
      assert qs == a + [x] + b;
      CancelOne(init, x, a, b);
      MergeIgnoresOrder(init, a + b);
      MergedAppend(a, b);
      MergedAround(a, x, b);
      assert rs[..|rs| - 1] == init;
      Regroup(MergedWords(a), WordsOf(x), MergedWords(b));
      Regroup(MergedScores(a), ScoresOf(x), MergedScores(b));
    }
  }

  /** The loop `for future in futures: result = future.result(); if result:
      words.extend(result['words']); sentiment_results.append(result['sentiment'])`.
      A result dictionary is never empty, so only `None` is skipped. */
  method MergeResults(results: seq<Option<Processed>>) returns (words: seq<string>, sentiments: seq<real>)
    ensures words == MergedWords(results)
    ensures sentiments == MergedScores(results)
  {
    words, sentiments := [], [];
    for i := 0 to |results|
      invariant words == MergedWords(results[..i])
      invariant sentiments == MergedScores(results[..i])
    {
      assert results[..i + 1][..i] == results[..i];
      var result := results[i];
      if result.Some? {
        words := words + result.value.words;
        sentiments := sentiments + [result.value.sentiment];
      }
    }
    assert results[..|results|] == results;
  }
}

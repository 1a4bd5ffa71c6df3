/** `Counter(words)` and `Counter.most_common(n)` as the report uses them.
    A Counter is a dict, which remembers the order in which keys were first
    inserted; `most_common` relies on that order to break ties, so the model
    keeps the items as a sequence in insertion order. */
module WordFrequency {
  import opened Numbers

  /** One item of a Counter: a word and how often it was counted. */
  datatype Entry = Entry(word: string, count: nat)

  function Keys(es: seq<Entry>): (ks: seq<string>)
    ensures |ks| == |es|
    ensures forall i :: 0 <= i < |es| ==> ks[i] == es[i].word
  {
    if es == [] then [] else [es[0].word] + Keys(es[1..])
  }

  predicate DistinctKeys(es: seq<Entry>)
  {
    forall i, j :: 0 <= i < j < |es| ==> es[i].word != es[j].word
  }

  /** `counter[w]`: the count stored for `w`, 0 for a missing key. */
  function CountOf(es: seq<Entry>, w: string): nat
  {
    if es == [] then 0
    else if es[0].word == w then es[0].count
    else CountOf(es[1..], w)
  }

  /** The sum of all counts. */
  function Total(es: seq<Entry>): nat
  {
    if es == [] then 0 else es[0].count + Total(es[1..])
  }

  /** `counter[w] += 1`: an existing key keeps its place, a new key goes to
      the end with count 1. */
  function Bump(es: seq<Entry>, w: string): (r: seq<Entry>)
    ensures forall v :: CountOf(r, v) == CountOf(es, v) + (if v == w then 1 else 0)
    ensures Total(r) == Total(es) + 1
    ensures Keys(r) == if w in Keys(es) then Keys(es) else Keys(es) + [w]
  {
    if es == [] then [Entry(w, 1)]
    else if es[0].word == w then [Entry(w, es[0].count + 1)] + es[1..]
    else
      var rest := Bump(es[1..], w);
      assert Keys(es) == [es[0].word] + Keys(es[1..]);
      [es[0]] + rest
  }

  /** `Counter(words)`: the words counted one after the other. */
  function Tally(words: seq<string>): seq<Entry>
  {
    if words == [] then []
    else Bump(Tally(words[..|words| - 1]), words[|words| - 1])
  }

  /** Index of the first occurrence of `w` in `ws`, or `|ws|`. */
  function Position(ws: seq<string>, w: string): (k: nat)
    ensures k <= |ws|
    ensures forall i :: 0 <= i < k ==> ws[i] != w
    ensures k < |ws| <==> w in ws
    ensures k < |ws| ==> ws[k] == w
  {
    if ws == [] then 0
    else if ws[0] == w then 0
    else 1 + Position(ws[1..], w)
  }

  lemma PositionAfterAppend(ws: seq<string>, v: string, w: string)
    ensures w in ws ==> Position(ws + [v], w) == Position(ws, w)
    ensures w !in ws && w == v ==> Position(ws + [v], w) == |ws|
  {
    var k, k' := Position(ws, w), Position(ws + [v], w);
    if w in ws {
      assert (ws + [v])[k] == w;
      assert k' <= k;
      assert k' < |ws| && ws[k'] == (ws + [v])[k'];
    } else if w == v {
      assert (ws + [v])[|ws|] == w;
      assert forall i :: 0 <= i < |ws| ==> (ws + [v])[i] != w;
    }
  }

  // ---------------------------------------------------------------------
  // What Counter(words) holds

  /** Each word is counted as often as it occurs. */
  lemma {:induction false} TallyCounts(words: seq<string>)
    ensures forall w :: CountOf(Tally(words), w) == multiset(words)[w]
    decreases |words|
  {
    if words != [] {
      var init := words[..|words| - 1];
      assert words == init + [words[|words| - 1]];
      TallyCounts(init);
    }
  }

  /** The counts add up to the number of words. */
  lemma {:induction false} TallyTotal(words: seq<string>)
    ensures Total(Tally(words)) == |words|
    decreases |words|
  {
    if words != [] {
      TallyTotal(words[..|words| - 1]);
    }
  }

  /** The keys are the distinct words, each once. */
  lemma {:induction false} TallyKeys(words: seq<string>)
    ensures forall w :: w in Keys(Tally(words)) <==> w in words
    ensures DistinctKeys(Tally(words))
    decreases |words|
  {
    if words != [] {
      var init, v := words[..|words| - 1], words[|words| - 1];
      assert words == init + [v];
      TallyKeys(init);
      var before, after := Tally(init), Tally(words);
      forall i, j | 0 <= i < j < |after| ensures after[i].word != after[j].word {
        assert Keys(after)[i] == after[i].word && Keys(after)[j] == after[j].word;
        if j < |before| {
          assert Keys(before)[i] == before[i].word && Keys(before)[j] == before[j].word;
        } else {
          assert Keys(before)[i] == before[i].word;
        }
      }
    }
  }

  /** The keys come in the order in which the words first occur. */
  lemma {:induction false} TallyFirstSeen(words: seq<string>)
    ensures forall i, j :: 0 <= i < j < |Tally(words)| ==>
              Position(words, Tally(words)[i].word) < Position(words, Tally(words)[j].word)
    decreases |words|
  {
    if words != [] {
      var init, v := words[..|words| - 1], words[|words| - 1];
      assert words == init + [v];
      TallyFirstSeen(init);
      TallyKeys(init);
      var before, after := Tally(init), Tally(words);
      assert |before| <= |after|;
      forall i | 0 <= i < |before|
        ensures after[i].word == before[i].word
        ensures Position(words, after[i].word) == Position(init, before[i].word)
      {
        assert Keys(after)[i] == after[i].word && Keys(before)[i] == before[i].word;
        PositionAfterAppend(init, v, before[i].word);
      }
      if |after| > |before| {
        assert Keys(after) == Keys(before) + [v];
        assert Keys(after)[|before|] == after[|before|].word;
        PositionAfterAppend(init, v, v);
      }
      forall i, j | 0 <= i < j < |after|
        ensures Position(words, after[i].word) < Position(words, after[j].word)
      {
        if j >= |before| {
          assert Keys(before)[i] == before[i].word;
          assert before[i].word in init;
        }
      }
    }
  }

  lemma {:induction false} CountOfEntry(es: seq<Entry>, k: nat)
    requires DistinctKeys(es) && k < |es|
    ensures CountOf(es, es[k].word) == es[k].count
    decreases k
  {
    if k > 0 {
      CountOfEntry(es[1..], k - 1);
    }
  }

  /** The loop by which `Counter(words)` counts: `counter[w] += 1` for each
      word in turn. */
  method CountWords(words: seq<string>) returns (freq: seq<Entry>)
    ensures freq == Tally(words)
  {
    freq := [];
    for i := 0 to |words|
      invariant freq == Tally(words[..i])
    {
      assert words[..i + 1][..i] == words[..i];
      freq := Bump(freq, words[i]);
    }
    assert words[..|words|] == words;
  }

  // ---------------------------------------------------------------------
  // most_common(n): a stable sort by decreasing count, then the first n

  /** `a` comes before `b` in a stable sort by decreasing count when `rank`
      is the order of the input. */
  predicate Precedes(a: Entry, b: Entry, rank: string -> nat)
  {
    a.count > b.count || (a.count == b.count && rank(a.word) < rank(b.word))
  }

  predicate Ranked(es: seq<Entry>, rank: string -> nat)
  {
    forall i, j :: 0 <= i < j < |es| ==> Precedes(es[i], es[j], rank)
  }

  /** Place `e` in front of the first item whose count does not exceed its
      own. */
  function InsertByCount(e: Entry, es: seq<Entry>): (r: seq<Entry>)
    ensures multiset(r) == multiset(es) + multiset{e}
  {
    if es == [] then [e]
    else if es[0].count <= e.count then [e] + es
    else
      assert es == [es[0]] + es[1..];
      [es[0]] + InsertByCount(e, es[1..])
  }

  /** `sorted(items, key=count, reverse=True)`, which keeps the input order
      among equal counts. */
  function SortByCount(es: seq<Entry>): (r: seq<Entry>)
    ensures multiset(r) == multiset(es)
    ensures |r| == |es|
  {
    if es == [] then []
    else
      assert es == [es[0]] + es[1..];
      InsertByCount(es[0], SortByCount(es[1..]))
  }

  lemma {:induction false} InsertKeepsRanked(e: Entry, es: seq<Entry>, rank: string -> nat)
    requires Ranked(es, rank)
    requires forall x :: x in es ==> rank(e.word) < rank(x.word)
    ensures Ranked(InsertByCount(e, es), rank)
    decreases |es|
  {
    if es != [] {
      if es[0].count <= e.count {
        var r := [e] + es;
        forall i, j | 0 <= i < j < |r| ensures Precedes(r[i], r[j], rank) {
          if i == 0 {
            assert r[j] == es[j - 1];
            if j > 1 { assert Precedes(es[0], es[j - 1], rank); }
          } else {
            assert r[i] == es[i - 1] && r[j] == es[j - 1];
          }
        }
      } else {
        var rest := InsertByCount(e, es[1..]);
        InsertKeepsRanked(e, es[1..], rank);
        var r := [es[0]] + rest;
        forall i, j | 0 <= i < j < |r| ensures Precedes(r[i], r[j], rank) {
          if i == 0 {
            assert r[j] in multiset(es[1..]) + multiset{e};
            if r[j] != e {
              assert r[j] in es[1..];
              var k :| 0 <= k < |es[1..]| && es[1..][k] == r[j];
              assert es[k + 1] == r[j];
            }
          } else {
            assert r[i] == rest[i - 1] && r[j] == rest[j - 1];
          }
        }
      }
    }
  }

  /** Sorting a list whose order is `rank` gives decreasing counts, and
      among equal counts the input order. */
  lemma {:induction false} SortIsStable(es: seq<Entry>, rank: string -> nat)
    requires forall i, j :: 0 <= i < j < |es| ==> rank(es[i].word) < rank(es[j].word)
    ensures Ranked(SortByCount(es), rank)
    decreases |es|
  {
    if es != [] {
      SortIsStable(es[1..], rank);
      var sorted := SortByCount(es[1..]);
      forall x | x in sorted ensures rank(es[0].word) < rank(x.word) {
        assert x in multiset(es[1..]);
        var k :| 0 <= k < |es[1..]| && es[1..][k] == x;
        assert es[k + 1] == x;
      }
      InsertKeepsRanked(es[0], sorted, rank);
    }
  }

  /** `most_common(n)`. */
  function MostCommon(es: seq<Entry>, n: nat): (r: seq<Entry>)
    ensures |r| == Min(n, |es|)
  {
    SortByCount(es)[..Min(n, |es|)]
  }

  /** The chosen items are items of the input. */
  lemma MostCommonChoosesFromInput(es: seq<Entry>, n: nat)
    ensures forall e :: e in MostCommon(es, n) ==> e in es
  {
    var sorted := SortByCount(es);
    forall e | e in MostCommon(es, n) ensures e in es {
      assert e in multiset(sorted);
    }
  }

  /** The chosen items come in decreasing count, ties in input order. */
  lemma MostCommonIsRanked(es: seq<Entry>, n: nat, rank: string -> nat)
    requires forall i, j :: 0 <= i < j < |es| ==> rank(es[i].word) < rank(es[j].word)
    ensures Ranked(MostCommon(es, n), rank)
  {
    SortIsStable(es, rank);
    var sorted := SortByCount(es);
    var r := MostCommon(es, n);
    assert r == sorted[..Min(n, |es|)];
    forall i, j | 0 <= i < j < |r| ensures Precedes(r[i], r[j], rank) {
      assert r[i] == sorted[i] && r[j] == sorted[j];
    }
  }

  /** Every chosen item precedes every item left out: its count is larger,
      or equal with an earlier key. */
  lemma MostCommonIsTop(es: seq<Entry>, n: nat, rank: string -> nat, e: Entry, i: nat)
    requires forall i, j :: 0 <= i < j < |es| ==> rank(es[i].word) < rank(es[j].word)
    requires e in es && e !in MostCommon(es, n) && i < |MostCommon(es, n)|
    ensures Precedes(MostCommon(es, n)[i], e, rank)
  {
    var sorted := SortByCount(es);
    var r := MostCommon(es, n);
    SortIsStable(es, rank);
    assert r == sorted[..|r|];
    assert e in multiset(sorted);
    var k :| 0 <= k < |sorted| && sorted[k] == e;
    assert forall q :: 0 <= q < |r| ==> r[q] == sorted[q];
    assert k >= |r|;
    assert Precedes(sorted[i], sorted[k], rank);
  }

  function FirstSeen(words: seq<string>): string -> nat
  {
    w => Position(words, w)
  }

  /** The order of a Counter's keys is the order of first occurrence. */
  lemma TallyRanked(words: seq<string>)
    ensures forall i, j :: 0 <= i < j < |Tally(words)| ==>
              FirstSeen(words)(Tally(words)[i].word) < FirstSeen(words)(Tally(words)[j].word)
  {
    TallyFirstSeen(words);
  }

  /** `Counter(words).most_common(n)` holds at most `n` words of `words`,
      each with its number of occurrences. */
  lemma TopWordsCounts(words: seq<string>, n: nat)
    ensures |MostCommon(Tally(words), n)| <= n
    ensures forall e :: e in MostCommon(Tally(words), n) ==>
              e.word in words && e.count == multiset(words)[e.word]
  {
    var t := Tally(words);
    var r := MostCommon(t, n);
    TallyKeys(words);
    TallyCounts(words);
    MostCommonChoosesFromInput(t, n);
    forall e | e in r ensures e.word in words && e.count == multiset(words)[e.word] {
      var k :| 0 <= k < |t| && t[k] == e;
      CountOfEntry(t, k);
      assert Keys(t)[k] == e.word;
    }
  }

  /** The words of `most_common(n)` come in decreasing count, and words with
      equal counts in the order in which they first occur. */
  lemma TopWordsOrder(words: seq<string>, n: nat)
    ensures forall i, j :: 0 <= i < j < |MostCommon(Tally(words), n)| ==>
              || MostCommon(Tally(words), n)[i].count > MostCommon(Tally(words), n)[j].count
              || (&& MostCommon(Tally(words), n)[i].count == MostCommon(Tally(words), n)[j].count
                  && Position(words, MostCommon(Tally(words), n)[i].word)
                     < Position(words, MostCommon(Tally(words), n)[j].word))
  {
    TallyRanked(words);
    MostCommonIsRanked(Tally(words), n, FirstSeen(words));
  }

  /** The item that `Counter(words)` holds for a word of `words`. */
  lemma TallyEntry(words: seq<string>, w: string) returns (k: nat)
    requires w in words
    ensures k < |Tally(words)| && Tally(words)[k].word == w
    ensures Tally(words)[k].count == multiset(words)[w]
  {
    var t := Tally(words);
    TallyKeys(words);
    assert w in Keys(t);
    k :| 0 <= k < |t| && Keys(t)[k] == w;
    CountOfEntry(t, k);
    TallyCounts(words);
  }

  lemma TopWordAtLeast(words: seq<string>, n: nat, w: string, i: nat)
    requires w in words && w !in Keys(MostCommon(Tally(words), n))
    requires i < |MostCommon(Tally(words), n)|
    ensures || multiset(words)[w] < MostCommon(Tally(words), n)[i].count
            || (&& multiset(words)[w] == MostCommon(Tally(words), n)[i].count
                && Position(words, MostCommon(Tally(words), n)[i].word) < Position(words, w))
  {
    var t := Tally(words);
    var r := MostCommon(t, n);
    var k := TallyEntry(words, w);
    assert t[k] !in r by {
      assert forall q :: 0 <= q < |r| ==> Keys(r)[q] == r[q].word;
    }
    TallyRanked(words);
    MostCommonIsTop(t, n, FirstSeen(words), t[k], i);
  }

  /** No word left out of `most_common(n)` occurs more often than a word in
      it, and a left-out word as frequent as a listed one first occurs after
      it: at the cut, the word seen first wins. */
  lemma TopWordsAreTop(words: seq<string>, n: nat)
    ensures forall w, i :: (w in words && w !in Keys(MostCommon(Tally(words), n))
                            && 0 <= i < |MostCommon(Tally(words), n)|) ==>
              || multiset(words)[w] < MostCommon(Tally(words), n)[i].count
              || (&& multiset(words)[w] == MostCommon(Tally(words), n)[i].count
                  && Position(words, MostCommon(Tally(words), n)[i].word) < Position(words, w))
  {
    forall w, i | w in words && w !in Keys(MostCommon(Tally(words), n)) && 0 <= i < |MostCommon(Tally(words), n)|
      ensures || multiset(words)[w] < MostCommon(Tally(words), n)[i].count
              || (&& multiset(words)[w] == MostCommon(Tally(words), n)[i].count
                  && Position(words, MostCommon(Tally(words), n)[i].word) < Position(words, w))
    {
      TopWordAtLeast(words, n, w, i);
    }
  }
  /** In a list with distinct keys every item occurs once. */
  lemma DistinctOnce(es: seq<Entry>, k: nat)
    requires DistinctKeys(es) && k < |es|
    ensures multiset(es)[es[k]] == 1
  {
    var e := es[k];
    assert es == es[..k] + [e] + es[k + 1..];
    assert e !in es[..k] by {
      forall q | 0 <= q < k ensures es[..k][q] != e { assert es[q].word != es[k].word; }
    }
    var after := es[k + 1..];
    assert e !in after by {
      forall q | 0 <= q < |after| ensures after[q] != e { assert after[q] == es[k + 1 + q]; }
    }
  }

  /** Two positions of a list whose items occur at most once hold
      different items. */
  lemma AtMostOnce(r: seq<Entry>, i: nat, j: nat)
    requires forall x :: multiset(r)[x] <= 1
    requires i < j < |r|
    ensures r[i] != r[j]
  {
    assert r == r[..j] + r[j..];
    assert r[..j][i] == r[i] && r[j..][0] == r[j];
    assert multiset(r)[r[j]] == multiset(r[..j])[r[j]] + multiset(r[j..])[r[j]];
  }

  /** Reordering a list with distinct keys keeps them distinct. */
  lemma PermutationKeepsDistinct(es: seq<Entry>, r: seq<Entry>)
    requires DistinctKeys(es) && multiset(r) == multiset(es)
    ensures DistinctKeys(r)
  {
    forall x ensures multiset(r)[x] <= 1 {
      if x in es {
        var k :| 0 <= k < |es| && es[k] == x;
        DistinctOnce(es, k);
      }
    }
    forall i, j | 0 <= i < j < |r| ensures r[i].word != r[j].word {
      AtMostOnce(r, i, j);
      assert r[i] in multiset(es) && r[j] in multiset(es);
      var ki :| 0 <= ki < |es| && es[ki] == r[i];
      var kj :| 0 <= kj < |es| && es[kj] == r[j];
      assert ki != kj;
    }
  }

  /** `most_common(n)` never names a word twice. */
  lemma TopWordsDistinct(words: seq<string>, n: nat)
    ensures DistinctKeys(MostCommon(Tally(words), n))
  {
    TallyKeys(words);
    PermutationKeepsDistinct(Tally(words), SortByCount(Tally(words)));
  }
}

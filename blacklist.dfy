/** The per-film name blacklist of `MovieAnalyzer.analyze_movie`: every cast
    entry is split on whitespace, the pieces are collected in order, and the
    set of them is united with the lines of the filter file. */
module Blacklist {
  import opened TextCleaner

  /** A piece that `str.split()` can return: non-empty, without whitespace. */
  predicate IsToken(t: string)
  {
    t != [] && forall i :: 0 <= i < |t| ==> !IsSpace(t[i])
  }

  /** `s.split()` with no separator: the maximal runs of non-whitespace
      characters, in order. */
  function Split(s: string): (r: seq<string>)
    ensures forall i :: 0 <= i < |r| ==> IsToken(r[i])
    decreases |s|
  {
    if s == [] then []
    else if IsSpace(s[0]) then Split(s[1..])
    else
      var n := Find(s, IsSpace);
      [s[..n]] + Split(s[n..])
  }

  function Concat(ts: seq<string>): string
  {
    if ts == [] then [] else ts[0] + Concat(ts[1..])
  }

  /** `s` with its whitespace characters removed. */
  function NonSpace(s: string): string
  {
    if s == [] then [] else (if IsSpace(s[0]) then [] else [s[0]]) + NonSpace(s[1..])
  }

  lemma {:induction false} NonSpaceAppend(a: string, b: string)
    ensures NonSpace(a + b) == NonSpace(a) + NonSpace(b)
    decreases |a|
  {
    if a == [] {
      assert a + b == b;
    } else {
      assert (a + b)[1..] == a[1..] + b;
      NonSpaceAppend(a[1..], b);
    }
  }

  lemma {:induction false} NonSpaceOfRun(t: string)
    requires forall i :: 0 <= i < |t| ==> !IsSpace(t[i])
    ensures NonSpace(t) == t
    decreases |t|
  {
    if t != [] {
      NonSpaceOfRun(t[1..]);
    }
  }

  /** Splitting loses exactly the whitespace: the pieces, put back together,
      are the text with its whitespace removed. */
  lemma {:induction false} SplitKeepsText(s: string)
    ensures Concat(Split(s)) == NonSpace(s)
    decreases |s|
  {
    if s != [] {
      if IsSpace(s[0]) {
        SplitKeepsText(s[1..]);
      } else {
        var n := Find(s, IsSpace);
        assert s == s[..n] + s[n..];
        SplitKeepsText(s[n..]);
        NonSpaceAppend(s[..n], s[n..]);
        NonSpaceOfRun(s[..n]);
      }
    }
  }

  /** `" ".join(ts)`. */
  function Join(ts: seq<string>): string
  {
    if ts == [] then []
    else if |ts| == 1 then ts[0]
    else ts[0] + " " + Join(ts[1..])
  }

  lemma SplitToken(t: string, rest: string)
    requires IsToken(t)
    requires rest == [] || IsSpace(rest[0])
    ensures Split(t + rest) == [t] + Split(rest)
  {
    var s := t + rest;
    var n := Find(s, IsSpace);
    forall i | 0 <= i < |t| ensures !IsSpace(s[i]) {
      assert s[i] == t[i];
    }
    if rest != [] {
      assert s[|t|] == rest[0];
    }
    assert n == |t|;
    assert s[..n] == t && s[n..] == rest;
  }

  /** Splitting undoes joining with single spaces, for pieces that split()
      could have produced. */
  lemma {:induction false} SplitJoin(ts: seq<string>)
    requires forall i :: 0 <= i < |ts| ==> IsToken(ts[i])
    ensures Split(Join(ts)) == ts
    decreases |ts|
  {
    if |ts| == 1 {
      SplitToken(ts[0], []);
      assert ts[0] + [] == ts[0];
    } else if |ts| > 1 {
      var rest := " " + Join(ts[1..]);
      assert ts[0] + " " + Join(ts[1..]) == ts[0] + rest;
      SplitToken(ts[0], rest);
      assert Split(rest) == Split(Join(ts[1..])) by { assert rest[1..] == Join(ts[1..]); }
      SplitJoin(ts[1..]);
    }
  }

  /** `characters_arr` after the loop over the first entries of `characters`. */
  function CastTokens(characters: seq<string>): seq<string>
  {
    if characters == [] then []
    else CastTokens(characters[..|characters| - 1]) + Split(characters[|characters| - 1])
  }

  lemma {:induction false} CastTokensMembers(characters: seq<string>)
    ensures forall w :: w in CastTokens(characters) <==>
              exists i :: 0 <= i < |characters| && w in Split(characters[i])
    ensures forall w :: w in CastTokens(characters) ==> IsToken(w)
    decreases |characters|
  {
    if characters != [] {
      var init := characters[..|characters| - 1];
      CastTokensMembers(init);
      assert CastTokens(characters) == CastTokens(init) + Split(characters[|characters| - 1]);
      forall w | w in CastTokens(characters)
        ensures exists i :: 0 <= i < |characters| && w in Split(characters[i])
      {
        if w !in Split(characters[|characters| - 1]) {
          var i :| 0 <= i < |init| && w in Split(init[i]);
          assert characters[i] == init[i];
        }
      }
      forall w, i | 0 <= i < |characters| && w in Split(characters[i])
        ensures w in CastTokens(characters)
      {
        if i < |init| { assert init[i] == characters[i]; }
      }
    }
  }

  /** `set(characters_arr + list(filter_text))`. */
  function BlacklistOf(characters: seq<string>, filterLines: seq<string>): set<string>
  {
    set w | w in CastTokens(characters) + filterLines
  }

  /** The blacklist holds every whitespace-separated piece of every cast
      entry and every filter line, and nothing else; the cast-derived pieces
      are non-empty and free of whitespace. */
  lemma BlacklistMembers(characters: seq<string>, filterLines: seq<string>)
    ensures forall w :: w in BlacklistOf(characters, filterLines) <==>
              w in filterLines || exists i :: 0 <= i < |characters| && w in Split(characters[i])
    ensures forall w :: w in BlacklistOf(characters, filterLines) && w !in filterLines ==> IsToken(w)
  {
    CastTokensMembers(characters);
  }

  /** The loop of main.py that extends `characters_arr` with the pieces of
      each cast entry, then the set union with the filter lines. */
  method BuildBlacklist(characters: seq<string>, filterLines: seq<string>) returns (blacklist: set<string>)
    ensures blacklist == BlacklistOf(characters, filterLines)
  {
    var arr: seq<string> := [];
    for i := 0 to |characters|
      invariant arr == CastTokens(characters[..i])
    {
      assert characters[..i + 1][..i] == characters[..i];
      arr := arr + Split(characters[i]);
    }
    assert characters[..|characters|] == characters;
    blacklist := set w | w in arr + filterLines;
  }

  /** A cast entry holding two name variants and one filter line. */
  lemma TwoVariantsAndOneLine()
    ensures BlacklistOf(["李四 李某"], ["演员"]) == {"李四", "李某", "演员"}
  {
    assert Join(["李四", "李某"]) == "李四 李某";
    SplitJoin(["李四", "李某"]);
    assert CastTokens(["李四 李某"]) == ["李四", "李某"] by {
      assert ["李四 李某"][..0] == [];
    }
  }
}

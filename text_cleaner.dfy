/** `MovieAnalyzer._clean_text`: four regular-expression rewrites applied in
    order, then `strip()`. Each rewrite is modelled as the left-to-right scan
    that Python's `re.sub` performs: at each position either the pattern
    matches (the match is dropped or replaced and the scan resumes after it)
    or the character is copied and the scan moves on by one. */
module TextCleaner {

  /** Python's `\w` on a str pattern, for the scripts this model knows: ASCII
      letters, digits and underscore, the Latin-1 letters and digits (`ª`,
      `²`, `³`, `µ`, `¹`, `º`, `¼`-`¾` and U+C0..U+FF but for `×` and `÷`), CJK ideographs (the
      range U+4E00..U+9FFF that the cleaner's class names, and extension A),
      the ideographic marks and numerals `々`, `〆`, `〇` and U+3021..U+3029,
      hiragana and katakana with their iteration and prolonged-sound marks,
      halfwidth katakana, Hangul syllables and fullwidth letters and
      digits. */
  predicate IsWord(c: char)
  {
    || ('a' <= c <= 'z') || ('A' <= c <= 'Z') || ('0' <= c <= '9') || c == '_'
    || c == '\U{AA}' || c == '\U{B2}' || c == '\U{B3}' || c == '\U{B5}' || c == '\U{B9}' || c == '\U{BA}'
    || ('\U{BC}' <= c <= '\U{BE}')
    || ('\U{C0}' <= c <= '\U{FF}' && c != '\U{D7}' && c != '\U{F7}')
    || ('\U{3400}' <= c <= '\U{4DBF}') || ('\U{4E00}' <= c <= '\U{9FFF}')
    || ('\U{3005}' <= c <= '\U{3007}') || ('\U{3021}' <= c <= '\U{3029}')
    || ('\U{3041}' <= c <= '\U{3096}') || ('\U{309D}' <= c <= '\U{309F}')
    || ('\U{30A1}' <= c <= '\U{30FA}') || ('\U{30FC}' <= c <= '\U{30FF}')
    || ('\U{FF66}' <= c <= '\U{FF9F}')
    || ('\U{AC00}' <= c <= '\U{D7A3}')
    || ('\U{FF10}' <= c <= '\U{FF19}') || ('\U{FF21}' <= c <= '\U{FF3A}') || ('\U{FF41}' <= c <= '\U{FF5A}')
  }

  /** The characters for which Python's `str.isspace()` holds; `\s` in a str
      pattern, `strip()` and `split()` all use this class. */
  predicate IsSpace(c: char)
  {
    || ('\t' <= c <= '\r')                       // \t \n \x0b \x0c \r
    || ('\U{1C}' <= c <= '\U{1F}') || c == ' '
    || c == '\U{85}' || c == '\U{A0}' || c == '\U{1680}'
    || ('\U{2000}' <= c <= '\U{200A}') || c == '\U{2028}' || c == '\U{2029}'
    || c == '\U{202F}' || c == '\U{205F}' || c == '\U{3000}'
  }

  predicate NotWord(c: char) { !IsWord(c) }

  predicate IsTagClose(c: char) { c == '>' }

  /** What stops the lazy `.*?` of the bracket pattern: the closing bracket,
      or a newline, which `.` does not match. */
  predicate EndsBracket(c: char) { c == '\U{3011}' || c == '\n' }

  /** Index of the first character of `s` that satisfies `stop`, or `|s|`. */
  function Find(s: string, stop: char -> bool): (k: nat)
    ensures k <= |s|
    ensures forall i :: 0 <= i < k ==> !stop(s[i])
    ensures k < |s| ==> stop(s[k])
  {
    if s == [] || stop(s[0]) then 0 else 1 + Find(s[1..], stop)
  }

  // ---------------------------------------------------------------------
  // Step 1: re.sub(r'<[^>]+>', '', text)

  /** Length of the match of `<[^>]+>` at the start of `s`, 0 if none. */
  function TagLength(s: string): (n: nat)
    ensures n <= |s|
    ensures n > 0 ==> 3 <= n && s[0] == '<' && s[n - 1] == '>'
    ensures n > 0 ==> forall i :: 1 <= i < n - 1 ==> s[i] != '>'
    ensures n == 0 && s != [] && s[0] == '<' ==>
              (|s| > 1 && s[1] == '>') || forall i :: 1 <= i < |s| ==> s[i] != '>'
  {
    if s != [] && s[0] == '<' then
      var k := Find(s[1..], IsTagClose);
      if 1 <= k < |s| - 1 then k + 2 else 0
    else 0
  }

  /** No position of `s` starts a match of `<[^>]+>`. */
  predicate NoTag(s: string)
  {
    forall i :: 0 <= i < |s| ==> TagLength(s[i..]) == 0
  }

  function StripTags(s: string): (r: string)
    ensures |r| <= |s|
    ensures forall c :: c in r ==> c in s
    decreases |s|
  {
    if s == [] then []
    else
      var n := TagLength(s);
      if n > 0 then StripTags(s[n..]) else [s[0]] + StripTags(s[1..])
  }

  /** A text without a complete tag is left as it is. */
  lemma {:induction false} StripTagsKeepsTagFree(s: string)
    requires NoTag(s)
    ensures StripTags(s) == s
    decreases |s|
  {
    if s != [] {
      assert TagLength(s[0..]) == 0 by { assert s[0..] == s; }
      forall i | 0 <= i < |s[1..]| ensures TagLength(s[1..][i..]) == 0 {
        assert s[1..][i..] == s[i + 1..];
      }
      StripTagsKeepsTagFree(s[1..]);
    }
  }

  /** The scan never leaves a complete tag behind: deleting a tag cannot
      glue a `<` to a later `>` with something in between. */
  lemma {:induction false} StripTagsLeavesNoTag(s: string)
    ensures NoTag(StripTags(s))
    decreases |s|
  {
    if s != [] {
      var n := TagLength(s);
      if n > 0 {
        StripTagsLeavesNoTag(s[n..]);
      } else {
        var rest := StripTags(s[1..]);
        var r := [s[0]] + rest;
        StripTagsLeavesNoTag(s[1..]);
        forall i | 1 <= i < |r| ensures TagLength(r[i..]) == 0 {
          assert r[i..] == rest[i - 1..];
        }
        if s[0] == '<' {
          if |s| > 1 && s[1] == '>' {
            assert TagLength(s[1..]) == 0;
            assert r[1] == '>';
            assert Find(r[1..], IsTagClose) == 0;
          } else {
            assert forall i :: 1 <= i < |s| ==> s[i] != '>';
            assert '>' !in s[1..];
            assert '>' !in r[1..];
            assert Find(r[1..], IsTagClose) == |r| - 1;
          }
        }
        assert TagLength(r[0..]) == 0 by { assert r[0..] == r; }
      }
    }
  }

  lemma StripTagsIdempotent(s: string)
    ensures StripTags(StripTags(s)) == StripTags(s)
  {
    StripTagsLeavesNoTag(s);
    StripTagsKeepsTagFree(StripTags(s));
  }

  // ---------------------------------------------------------------------
  // Step 2: re.sub(r'@\w+\s?', '', text)

  /** Length of the match of `@\w+\s?` at the start of `s`, 0 if none; `\w+`
      is greedy, so it takes the whole run of word characters. */
  function MentionLength(s: string): (n: nat)
    ensures n <= |s|
    ensures n > 0 ==> 2 <= n && s[0] == '@' && IsWord(s[1])
    ensures n == 0 ==> |s| < 2 || s[0] != '@' || !IsWord(s[1])
  {
    if 2 <= |s| && s[0] == '@' && IsWord(s[1]) then
      var w := 1 + Find(s[1..], NotWord);
      if w < |s| && IsSpace(s[w]) then w + 1 else w
    else 0
  }

  function StripMentions(s: string): (r: string)
    ensures |r| <= |s|
    ensures forall c :: c in r ==> c in s
    ensures '@' !in s ==> r == s
    decreases |s|
  {
    if s == [] then []
    else
      var n := MentionLength(s);
      if n > 0 then StripMentions(s[n..]) else [s[0]] + StripMentions(s[1..])
  }

  // ---------------------------------------------------------------------
  // Step 3: re.sub(r'【.*?】', '', text)

  /** Length of the match of the lazy `【.*?】` at the start of `s`, 0 if
      none: the span ends at the first closing bracket and may not cross a
      newline. */
  function BracketLength(s: string): (n: nat)
    ensures n <= |s|
    ensures n > 0 ==> 2 <= n && s[0] == '\U{3010}' && s[n - 1] == '\U{3011}'
    ensures n > 0 ==> forall i :: 1 <= i < n - 1 ==> !EndsBracket(s[i])
  {
    if s != [] && s[0] == '\U{3010}' then
      var k := Find(s[1..], EndsBracket);
      if k < |s| - 1 && s[k + 1] == '\U{3011}' then k + 2 else 0
    else 0
  }

  function StripBrackets(s: string): (r: string)
    ensures |r| <= |s|
    ensures forall c :: c in r ==> c in s
    ensures '\U{3010}' !in s ==> r == s
    decreases |s|
  {
    if s == [] then []
    else
      var n := BracketLength(s);
      if n > 0 then StripBrackets(s[n..]) else [s[0]] + StripBrackets(s[1..])
  }

  // ---------------------------------------------------------------------
  // Step 4: re.sub(r'[^\w一-鿿]', ' ', text)

  /** Every character outside the word class becomes one space. */
  function ReplaceNonWord(s: string): (r: string)
    ensures |r| == |s|
    ensures forall i :: 0 <= i < |s| ==> IsWord(r[i]) || r[i] == ' '
    ensures forall i :: 0 <= i < |s| && IsWord(s[i]) ==> r[i] == s[i]
    ensures forall i :: 0 <= i < |s| && !IsWord(s[i]) ==> r[i] == ' '
  {
    if s == [] then []
    else [if IsWord(s[0]) then s[0] else ' '] + ReplaceNonWord(s[1..])
  }

  // ---------------------------------------------------------------------
  // Step 5: str.strip()

  function TrimStart(s: string): (r: string)
    ensures |r| <= |s| && r == s[|s| - |r|..]
    ensures forall i :: 0 <= i < |s| - |r| ==> IsSpace(s[i])
    ensures r != [] ==> !IsSpace(r[0])
    decreases |s|
  {
    if s != [] && IsSpace(s[0]) then TrimStart(s[1..]) else s
  }

  function TrimEnd(s: string): (r: string)
    ensures |r| <= |s| && r == s[..|r|]
    ensures forall i :: |r| <= i < |s| ==> IsSpace(s[i])
    ensures r != [] ==> !IsSpace(r[|r| - 1])
    decreases |s|
  {
    if s != [] && IsSpace(s[|s| - 1]) then TrimEnd(s[..|s| - 1]) else s
  }

  /** `r` is `s` with the first `a` characters and everything after
      `a + |r|` removed, and all the removed characters are whitespace. */
  predicate TrimmedAt(s: string, a: nat, r: string)
  {
    && a + |r| <= |s| && r == s[a..a + |r|]
    && (forall i :: 0 <= i < a ==> IsSpace(s[i]))
    && (forall i :: a + |r| <= i < |s| ==> IsSpace(s[i]))
  }

  /** `s.strip()`: the longest infix of `s` that neither starts nor ends
      with whitespace, obtained by dropping whitespace at both ends only. */
  function Strip(s: string): (r: string)
    ensures |r| <= |s|
    ensures r != [] ==> !IsSpace(r[0]) && !IsSpace(r[|r| - 1])
    ensures exists a: nat :: TrimmedAt(s, a, r)
    ensures (forall i :: 0 <= i < |s| ==> IsWord(s[i]) || s[i] == ' ') ==>
              forall i :: 0 <= i < |r| ==> IsWord(r[i]) || r[i] == ' '
  {
    var t := TrimStart(s);
    var r := TrimEnd(t);
    TrimBoth(s, |s| - |t|, t, r);
    r
  }

  /** Dropping `a` leading whitespace characters and then trailing
      whitespace leaves an infix of the input. */
  lemma TrimBoth(s: string, a: nat, t: string, r: string)
    requires a <= |s| && t == s[a..] && forall i :: 0 <= i < a ==> IsSpace(s[i])
    requires |r| <= |t| && r == t[..|r|] && forall i :: |r| <= i < |t| ==> IsSpace(t[i])
    ensures TrimmedAt(s, a, r)
    ensures forall i :: 0 <= i < |r| ==> r[i] == s[a + i]
  {
    assert s[a..a + |r|] == s[a..][..|r|];
    forall i | a + |r| <= i < |s| ensures IsSpace(s[i]) {
      assert s[i] == t[i - a];
    }
  }

  // ---------------------------------------------------------------------
  // The whole cleaner

  /** The shape of every cleaner output: word characters and plain spaces
      only, beginning and ending with a word character. */
  predicate IsCleaned(t: string)
  {
    && (forall i :: 0 <= i < |t| ==> IsWord(t[i]) || t[i] == ' ')
    && (t != [] ==> IsWord(t[0]) && IsWord(t[|t| - 1]))
  }

  function Clean(text: string): (r: string)
    ensures |r| <= |text|
    ensures IsCleaned(r)
  {
    Strip(ReplaceNonWord(StripBrackets(StripMentions(StripTags(text)))))
  }

  /** A cleaned text holds none of the characters the patterns key on. */
  lemma CleanedHasNoMarkup(t: string)
    requires IsCleaned(t)
    ensures '<' !in t && '>' !in t && '@' !in t && '\U{3010}' !in t && '\U{3011}' !in t
  {
    forall i | 0 <= i < |t|
      ensures t[i] != '<' && t[i] != '>' && t[i] != '@' && t[i] != '\U{3010}' && t[i] != '\U{3011}'
    {
      assert IsWord(t[i]) || t[i] == ' ';
    }
  }

  lemma CleanedIsTagFree(t: string)
    requires IsCleaned(t)
    ensures NoTag(t)
  {
    forall i | 0 <= i < |t| ensures TagLength(t[i..]) == 0 {
      assert t[i..][0] == t[i];
      assert IsWord(t[i]) || t[i] == ' ';
    }
  }

  lemma CleanedIsSpaced(t: string)
    requires IsCleaned(t)
    ensures ReplaceNonWord(t) == t
  {
    var u := ReplaceNonWord(t);
    forall i | 0 <= i < |t| ensures u[i] == t[i] {
      assert IsWord(t[i]) || t[i] == ' ';
    }
  }

  /** On a cleaned text every step of the cleaner is a no-op. */
  lemma CleanKeepsCleaned(t: string)
    requires IsCleaned(t)
    ensures Clean(t) == t
  {
    CleanedIsTagFree(t);
    StripTagsKeepsTagFree(t);
    CleanedHasNoMarkup(t);
    assert StripMentions(t) == t;
    assert StripBrackets(t) == t;
    CleanedIsSpaced(t);
    if t != [] {
      WordIsNotSpace(t[0]);
      WordIsNotSpace(t[|t| - 1]);
    }
    assert TrimStart(t) == t;
    assert TrimEnd(t) == t;
  }

  lemma WordIsNotSpace(c: char)
    requires IsWord(c)
    ensures !IsSpace(c)
  {
  }

  lemma CleanIdempotent(text: string)
    ensures Clean(Clean(text)) == Clean(text)
  {
    CleanKeepsCleaned(Clean(text));
  }
}

/** `MovieAnalyzer.fetch_data` and `_fetch_page_comments`. The network and
    the HTML parser are outside the model: the cast page arrives as
    `Option<seq<Option<string>>>`, with `None` for a failed request and one
    entry per `li.celebrity` that is `None` when the entry has no
    `span.name`. A comment page arrives through `respond`, which maps the
    `start` offset of the request to the raw `span.short` texts, or to
    `None` when the request or the parsing raises. */
module Fetcher {
  import opened Wrappers
  import opened Numbers
  import opened TextCleaner

  /** Comments per page: page `p` is requested with `start = p * 20`. */
  const PageSize: nat := 20

  /** Only the first eight cast entries are read. */
  const MaxCast: nat := 8

  /** The dictionary returned by `fetch_data`. */
  datatype FilmData = FilmData(comments: seq<string>, characters: seq<string>)

  /** The list comprehension over the cast entries: the names of all of them,
      or `None` when one of them has no name span and `.text` raises. */
  function Names(entries: seq<Option<string>>): (r: Option<seq<string>>)
    ensures r.Some? <==> forall i :: 0 <= i < |entries| ==> entries[i].Some?
    ensures r.Some? ==> |r.value| == |entries|
    ensures r.Some? ==> forall i :: 0 <= i < |entries| ==> r.value[i] == entries[i].value
  {
    if entries == [] then Some([])
    else
      match entries[0]
      case None => None
      case Some(name) =>
        var rest := Names(entries[1..]);
        if rest.None? then None else Some([name] + rest.value)
  }

  /** `character_blacklist` after the cast step: left empty when role names
      are not filtered, otherwise the names of the first `MaxCast` entries. */
  function CastNames(filterRoleNames: bool, entries: seq<Option<string>>): (r: Option<seq<string>>)
    ensures !filterRoleNames ==> r == Some([])
    ensures r.Some? ==> |r.value| <= MaxCast
    ensures filterRoleNames ==> r == Names(entries[..Min(|entries|, MaxCast)])
  {
    if filterRoleNames then Names(entries[..Min(|entries|, MaxCast)]) else Some([])
  }

  /** `[self._clean_text(span.get_text()) for span in ...]`. */
  function CleanAll(texts: seq<string>): (r: seq<string>)
    ensures |r| == |texts|
    ensures forall i :: 0 <= i < |texts| ==> r[i] == Clean(texts[i])
  {
    seq(|texts|, i requires 0 <= i < |texts| => Clean(texts[i]))
  }

  /** What `_fetch_page_comments(movie_id, page)` returns: the cleaned texts
      of the page at offset `page * PageSize`, or `[]` when it fails. */
  function PageComments(respond: nat -> Option<seq<string>>, page: nat): (r: seq<string>)
    ensures respond(page * PageSize).None? ==> r == []
    ensures respond(page * PageSize).Some? ==>
              var texts := respond(page * PageSize).value;
              |r| == |texts| && forall i :: 0 <= i < |texts| ==> r[i] == Clean(texts[i])
    ensures forall i :: 0 <= i < |r| ==> IsCleaned(r[i])
  {
    match respond(page * PageSize)
    case None => []
    case Some(texts) => CleanAll(texts)
  }

  /** The result of every page, as the futures hand it back. */
  function CommentsOf(respond: nat -> Option<seq<string>>): nat -> seq<string>
  {
    (page: nat) => PageComments(respond, page)
  }

  /** The results of pages `lo` up to but excluding `hi`, concatenated in
      page order. */
  function Pages(results: nat -> seq<string>, lo: nat, hi: nat): seq<string>
    decreases hi
  {
    if hi <= lo then [] else Pages(results, lo, hi - 1) + results(hi - 1)
  }

  /** The whole of `fetch_data`. The cast request and the page loop share
      one `try`: a failed cast request, or a cast entry without a name span
      when role names are filtered, skips the page loop and both lists stay
      empty. */
  function Fetch(pageLimit: nat, filterRoleNames: bool, cast: Option<seq<Option<string>>>,
                 respond: nat -> Option<seq<string>>): FilmData
  {
    if cast.None? then FilmData([], [])
    else
      var names := CastNames(filterRoleNames, cast.value);
      if names.None? then FilmData([], [])
      else FilmData(Pages(CommentsOf(respond), 0, pageLimit), names.value)
  }

  /** `fetch_data`: the cast step, then `all_comments.extend(future.result())`
      for the futures of pages `0 .. pageLimit - 1` in submission order. */
  method FetchData(pageLimit: nat, filterRoleNames: bool, cast: Option<seq<Option<string>>>,
                   respond: nat -> Option<seq<string>>) returns (data: FilmData)
    ensures data == Fetch(pageLimit, filterRoleNames, cast, respond)
  {
    var allComments: seq<string> := [];
    var characterBlacklist: seq<string> := [];
    if cast.None? {
      return FilmData(allComments, characterBlacklist);
    }
    if filterRoleNames {
      var names := CastNames(filterRoleNames, cast.value);
      if names.None? {
        return FilmData(allComments, characterBlacklist);
      }
      characterBlacklist := names.value;
    }
    var results := CommentsOf(respond);
    for page := 0 to pageLimit
      invariant allComments == Pages(results, 0, page)
    {
      allComments := allComments + results(page);
    }
    data := FilmData(allComments, characterBlacklist);
  }

  /** Consecutive page ranges concatenate. */
  lemma {:induction false} PagesSplit(results: nat -> seq<string>, lo: nat, mid: nat, hi: nat)
    requires lo <= mid <= hi
    ensures Pages(results, lo, hi) == Pages(results, lo, mid) + Pages(results, mid, hi)
    decreases hi
  {
    if hi == mid {
      assert Pages(results, lo, mid) + [] == Pages(results, lo, mid);
    } else {
      PagesSplit(results, lo, mid, hi - 1);
    }
  }

  /** An empty page contributes nothing, and the pages before and after
      it are still collected. */
  lemma EmptyPageSkipped(results: nat -> seq<string>, lo: nat, q: nat, hi: nat)
    requires lo <= q < hi
    requires results(q) == []
    ensures Pages(results, lo, hi) == Pages(results, lo, q) + Pages(results, q + 1, hi)
  {
    PagesSplit(results, lo, q, hi);
    PagesSplit(results, q, q + 1, hi);
    assert Pages(results, q, q + 1) == Pages(results, q, q) + results(q);
  }

  /** A page whose request fails contributes nothing, and the pages before
      and after it are still collected. */
  lemma FailedPageSkipped(respond: nat -> Option<seq<string>>, lo: nat, q: nat, hi: nat)
    requires lo <= q < hi
    requires respond(q * PageSize).None?
    ensures Pages(CommentsOf(respond), lo, hi)
            == Pages(CommentsOf(respond), lo, q) + Pages(CommentsOf(respond), q + 1, hi)
  {
    assert CommentsOf(respond)(q) == PageComments(respond, q) == [];
    EmptyPageSkipped(CommentsOf(respond), lo, q, hi);
  }

  /** Only the offsets `p * PageSize` of the requested pages matter: two
      servers that answer those requests alike give the same comments. */
  lemma {:induction false} OnlyPageOffsetsMatter(respond: nat -> Option<seq<string>>,
                                                 other: nat -> Option<seq<string>>, lo: nat, hi: nat)
    requires forall p: nat :: lo <= p < hi ==> respond(p * PageSize) == other(p * PageSize)
    ensures Pages(CommentsOf(respond), lo, hi) == Pages(CommentsOf(other), lo, hi)
    decreases hi
  {
    if lo < hi {
      OnlyPageOffsetsMatter(respond, other, lo, hi - 1);
      assert respond((hi - 1) * PageSize) == other((hi - 1) * PageSize);
      assert CommentsOf(respond)(hi - 1) == CommentsOf(other)(hi - 1);
    }
  }

  /** Every collected comment comes from one of the requested pages. */
  lemma {:induction false} PagesOrigin(results: nat -> seq<string>, lo: nat, hi: nat, c: string)
    requires c in Pages(results, lo, hi)
    ensures exists p: nat :: lo <= p < hi && c in results(p)
    decreases hi
  {
    if lo < hi && c !in results(hi - 1) {
      PagesOrigin(results, lo, hi - 1, c);
    }
  }

  /** Every comment of a page is already cleaned: word characters and
      plain spaces only, with a word character at either end. */
  lemma PageCleaned(respond: nat -> Option<seq<string>>, page: nat)
    ensures forall c :: c in CommentsOf(respond)(page) ==> IsCleaned(c)
  {
    match respond(page * PageSize)
    case None =>
    case Some(texts) =>
      forall c | c in CleanAll(texts) ensures IsCleaned(c) {
        var i :| 0 <= i < |texts| && CleanAll(texts)[i] == c;
        assert c == Clean(texts[i]);
      }
  }

  /** Every comment `fetch_data` returns is already cleaned. */
  lemma FetchedCommentsCleaned(pageLimit: nat, filterRoleNames: bool, cast: Option<seq<Option<string>>>,
                               respond: nat -> Option<seq<string>>, c: string)
    requires c in Fetch(pageLimit, filterRoleNames, cast, respond).comments
    ensures IsCleaned(c)
  {
    PagesOrigin(CommentsOf(respond), 0, pageLimit, c);
    var p: nat :| p < pageLimit && c in CommentsOf(respond)(p);
    PageCleaned(respond, p);
  }

  /** The cast list is never longer than eight names, is empty when role
      names are not filtered, and holds the names of the first entries of
      the cast page in order. */
  lemma FetchCast(pageLimit: nat, filterRoleNames: bool, cast: Option<seq<Option<string>>>,
                  respond: nat -> Option<seq<string>>)
    ensures var data := Fetch(pageLimit, filterRoleNames, cast, respond);
            && |data.characters| <= MaxCast
            && (!filterRoleNames ==> data.characters == [])
            && (forall i :: 0 <= i < |data.characters| ==> cast.Some? && i < |cast.value| && data.characters[i] == cast.value[i].value)
  {
    if cast.Some? && filterRoleNames {
      var k := Min(|cast.value|, MaxCast);
      var names := Names(cast.value[..k]);
      if names.Some? {
        assert forall i :: 0 <= i < k ==> names.value[i] == cast.value[..k][i].value == cast.value[i].value;
      }
    }
  }

  /** A failed cast request, or a nameless cast entry among the first eight
      when role names are filtered, loses every comment as well. */
  lemma CastFailureEmpties(pageLimit: nat, filterRoleNames: bool, cast: Option<seq<Option<string>>>,
                           respond: nat -> Option<seq<string>>)
    requires cast.None? || (filterRoleNames && exists i :: 0 <= i < Min(|cast.value|, MaxCast) && cast.value[i].None?)
    ensures Fetch(pageLimit, filterRoleNames, cast, respond) == FilmData([], [])
  {
    if cast.Some? {
      var i :| 0 <= i < Min(|cast.value|, MaxCast) && cast.value[i].None?;
      assert cast.value[..Min(|cast.value|, MaxCast)][i].None?;
    }
  }

  /** When the cast request succeeds and, with role names filtered, each of
      the first eight entries has a name, the comments are all the pages in
      order; with `CastFailureEmpties` this decides exactly when comments
      are collected. */
  lemma CastSuccessKeepsPages(pageLimit: nat, filterRoleNames: bool, entries: seq<Option<string>>,
                              respond: nat -> Option<seq<string>>)
    requires filterRoleNames ==> forall i :: 0 <= i < Min(|entries|, MaxCast) ==> entries[i].Some?
    ensures Fetch(pageLimit, filterRoleNames, Some(entries), respond).comments
            == Pages(CommentsOf(respond), 0, pageLimit)
  {
    var k := Min(|entries|, MaxCast);
    assert forall i :: 0 <= i < k ==> entries[..k][i] == entries[i];
  }
}

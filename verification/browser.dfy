/**
 * The browser window: turning typed text into an address, the visit
 * history (newest first, at most 100 entries), bookmarks, and the
 * suggestions shown while typing. Opening the address in a real tab, URL
 * parsing and URL encoding are outside the model: the host name of an
 * address and the encoding of a search query are functions the browser is
 * given.
 */
module Browser {
  import opened Strings
  import opened Lists

  datatype HistoryEntry = HistoryEntry(url: string, title: string, timestamp: nat)

  datatype Bookmark = Bookmark(id: string, url: string, title: string)

  const MaxHistory: nat := 100
  const HistorySuggestions: nat := 3
  const BookmarkSuggestions: nat := 2
  const MaxSuggestions: nat := 5
  const Http: string := "http://"
  const Https: string := "https://"
  const SearchPrefix: string := "https://www.google.com/search?q="

  predicate IsWebAddress(url: string) {
    StartsWith(url, Http) || StartsWith(url, Https)
  }

  /**
   * The address a navigation goes to: a web address as typed; otherwise
   * text with a dot and no space taken as a host name over https; otherwise
   * a search for the text.
   */
  function Normalized(url: string, encode: string -> string): (r: string)
    ensures IsWebAddress(url) ==> r == url
    ensures !IsWebAddress(url) && '.' in url && ' ' !in url ==> r == Https + url
    ensures !IsWebAddress(url) && !('.' in url && ' ' !in url) ==> r == SearchPrefix + encode(url)
  {
    if IsWebAddress(url) then url
    else if '.' in url && ' ' !in url then Https + url
    else SearchPrefix + encode(url)
  }

  /** Every navigation ends at a web address, so normalizing twice changes nothing more. */
  lemma NormalizedIsWebAddress(url: string, encode: string -> string)
    ensures IsWebAddress(Normalized(url, encode))
    ensures Normalized(Normalized(url, encode), encode) == Normalized(url, encode)
  {
    var r := Normalized(url, encode);
    if !IsWebAddress(url) {
      if '.' in url && ' ' !in url {
        assert (Https + url)[..|Https|] == Https;
      } else {
        assert (SearchPrefix + encode(url))[..|Https|] == Https;
      }
    }
  }

  /** The history after a visit: the new entry first, then the newest 99 earlier entries. */
  function Visited(history: seq<HistoryEntry>, entry: HistoryEntry): (r: seq<HistoryEntry>)
    ensures 1 <= |r| <= MaxHistory && r[0] == entry
    ensures r[1..] <= history
    ensures |history| < MaxHistory ==> r[1..] == history
    ensures |history| >= MaxHistory ==> r[1..] == history[..MaxHistory - 1]
  {
    [entry] + history[..if |history| < MaxHistory - 1 then |history| else MaxHistory - 1]
  }

  /** The case-insensitive match of typed text against an address or its title. */
  predicate Matches(url: string, title: string, query: string) {
    ContainsIgnoringCase(url, query) || ContainsIgnoringCase(title, query)
  }

  /**
   * The addresses of a run of history entries, in order: the history half's
   * `.map(h => h.url)`. `BookmarkUrls` is the same mapping over bookmarks,
   * as the source writes the two `.map` calls separately.
   */
  function HistoryUrls(hs: seq<HistoryEntry>): (r: seq<string>)
    ensures |r| == |hs| && forall k :: 0 <= k < |hs| ==> r[k] == hs[k].url
  {
    seq(|hs|, k requires 0 <= k < |hs| => hs[k].url)
  }

  /** The addresses of the bookmarks of a run, in order. */
  function BookmarkUrls(bs: seq<Bookmark>): (r: seq<string>)
    ensures |r| == |bs| && forall k :: 0 <= k < |bs| ==> r[k] == bs[k].url
  {
    seq(|bs|, k requires 0 <= k < |bs| => bs[k].url)
  }

  /** The addresses of the history entries that match, in history order: `history.filter(…).map(h => h.url)`. */
  function MatchingHistory(history: seq<HistoryEntry>, query: string): (r: seq<string>)
    ensures |r| <= |history|
    ensures forall u :: u in r ==> exists k :: 0 <= k < |history| && history[k].url == u && Matches(u, history[k].title, query)
    ensures forall k :: 0 <= k < |history| && Matches(history[k].url, history[k].title, query) ==> history[k].url in r
  {
    var matching := Filter(history, (h: HistoryEntry) => Matches(h.url, h.title, query));
    var r := HistoryUrls(matching);
    assert forall u :: u in r ==> exists k :: 0 <= k < |history| && history[k].url == u && Matches(u, history[k].title, query) by {
      forall u | u in r
        ensures exists k :: 0 <= k < |history| && history[k].url == u && Matches(u, history[k].title, query)
      {
        var i :| 0 <= i < |matching| && r[i] == u;
        assert matching[i] in matching;
        var k :| 0 <= k < |history| && history[k] == matching[i];
      }
    }
    assert forall k :: 0 <= k < |history| && Matches(history[k].url, history[k].title, query) ==> history[k].url in r by {
      forall k | 0 <= k < |history| && Matches(history[k].url, history[k].title, query)
        ensures history[k].url in r
      {
        assert history[k] in matching;
        var i :| 0 <= i < |matching| && matching[i] == history[k];
        assert r[i] == history[k].url;
      }
    }
    r
  }

  /** The addresses of the bookmarks that match, in bookmark order: `bookmarks.filter(…).map(b => b.url)`. */
  function MatchingBookmarks(bookmarks: seq<Bookmark>, query: string): (r: seq<string>)
    ensures |r| <= |bookmarks|
    ensures forall u :: u in r ==> exists k :: 0 <= k < |bookmarks| && bookmarks[k].url == u && Matches(u, bookmarks[k].title, query)
    ensures forall k :: 0 <= k < |bookmarks| && Matches(bookmarks[k].url, bookmarks[k].title, query) ==> bookmarks[k].url in r
  {
    var matching := Filter(bookmarks, (b: Bookmark) => Matches(b.url, b.title, query));
    var r := BookmarkUrls(matching);
    assert forall u :: u in r ==> exists k :: 0 <= k < |bookmarks| && bookmarks[k].url == u && Matches(u, bookmarks[k].title, query) by {
      forall u | u in r
        ensures exists k :: 0 <= k < |bookmarks| && bookmarks[k].url == u && Matches(u, bookmarks[k].title, query)
      {
        var i :| 0 <= i < |matching| && r[i] == u;
        assert matching[i] in matching;
        var k :| 0 <= k < |bookmarks| && bookmarks[k] == matching[i];
      }
    }
    assert forall k :: 0 <= k < |bookmarks| && Matches(bookmarks[k].url, bookmarks[k].title, query) ==> bookmarks[k].url in r by {
      forall k | 0 <= k < |bookmarks| && Matches(bookmarks[k].url, bookmarks[k].title, query)
        ensures bookmarks[k].url in r
      {
        assert bookmarks[k] in matching;
        var i :| 0 <= i < |matching| && matching[i] == bookmarks[k];
        assert r[i] == bookmarks[k].url;
      }
    }
    r
  }

  /** At most the first n elements. */
  function Take<T>(s: seq<T>, n: nat): (r: seq<T>)
    ensures r <= s && |r| <= n
    ensures |s| <= n ==> r == s
  {
    if |s| <= n then s else s[..n]
  }

  predicate Distinct(s: seq<string>) {
    forall i, j :: 0 <= i < j < |s| ==> s[i] != s[j]
  }

  function Itself(u: string): string { u }

  /** Where `u` first occurs in `s`, or -1. */
  function FirstAt(s: seq<string>, u: string): int {
    FindIndex(s, Itself, u)
  }

  /** Growing a list at the end keeps where its elements first occur. */
  lemma FirstAtSnoc(s: seq<string>, x: string, u: string)
    requires u in s
    ensures FirstAt(s + [x], u) == FirstAt(s, u)
  {
    var k, k' := FirstAt(s, u), FirstAt(s + [x], u);
    assert s[k] == u;
    assert (s + [x])[k] == u;
  }

  /** The elements in order of first appearance, each once, as spreading a Set does. */
  function Dedup(s: seq<string>): (r: seq<string>)
    ensures Distinct(r) && |r| <= |s|
    ensures forall u :: u in r <==> u in s
    ensures s != [] ==> r != [] && r[0] == s[0]
    ensures forall i, j :: 0 <= i < j < |r| ==> FirstAt(s, r[i]) < FirstAt(s, r[j])
  {
    if s == [] then []
    else
      var init, x := s[..|s| - 1], s[|s| - 1];
      var rest := Dedup(init);
      assert s == init + [x];
      DedupStep(init, x, rest);
      if x in rest then rest else rest + [x]
  }

  /** One more element at the end is kept only when new, and then it comes last in order of first appearance. */
  lemma DedupStep(init: seq<string>, x: string, rest: seq<string>)
    requires Distinct(rest) && |rest| <= |init|
    requires forall u :: u in rest <==> u in init
    requires init != [] ==> rest != [] && rest[0] == init[0]
    requires forall i, j :: 0 <= i < j < |rest| ==> FirstAt(init, rest[i]) < FirstAt(init, rest[j])
    ensures var r := if x in rest then rest else rest + [x];
      && Distinct(r) && |r| <= |init + [x]|
      && (forall u :: u in r <==> u in init + [x])
      && r != [] && r[0] == (init + [x])[0]
      && forall i, j :: 0 <= i < j < |r| ==> FirstAt(init + [x], r[i]) < FirstAt(init + [x], r[j])
  {
    var s := init + [x];
    forall u | u in init
      ensures FirstAt(s, u) == FirstAt(init, u)
    {
      FirstAtSnoc(init, x, u);
    }
    if x !in rest {
      var r := rest + [x];
      assert FirstAt(s, x) == |s| - 1 by {
        assert Itself(s[|s| - 1]) == x;
        forall j | 0 <= j < |init|
          ensures Itself(s[j]) != x
        {
          assert s[j] == init[j];
        }
      }
      forall i, j | 0 <= i < j < |r|
        ensures FirstAt(s, r[i]) < FirstAt(s, r[j])
      {
        assert r[i] == rest[i] && rest[i] in init;
        if j < |rest| {
          assert r[j] == rest[j] && rest[j] in init;
        }
      }
    }
  }

  /**
   * The suggestions for typed text: none for text whose `length` (in
   * UTF-16 code units) is one or less; otherwise the first three matching history addresses and the
   * first two matching bookmark addresses, each address once, at most five.
   */
  function Suggestions(value: string, history: seq<HistoryEntry>, bookmarks: seq<Bookmark>): (r: seq<string>)
    ensures Utf16Length(value) <= 1 ==> r == []
    ensures Distinct(r) && |r| <= MaxSuggestions
    ensures Utf16Length(value) > 1 ==> forall u :: u in r <==>
      u in Take(MatchingHistory(history, value), HistorySuggestions) || u in Take(MatchingBookmarks(bookmarks, value), BookmarkSuggestions)
  {
    if Utf16Length(value) > 1 then
      var fromHistory := Take(MatchingHistory(history, value), HistorySuggestions);
      var fromBookmarks := Take(MatchingBookmarks(bookmarks, value), BookmarkSuggestions);
      Take(Dedup(fromHistory + fromBookmarks), MaxSuggestions)
    else []
  }

  /** Every suggestion is the address of a history entry or bookmark that matches the typed text. */
  lemma SuggestionsMatch(value: string, history: seq<HistoryEntry>, bookmarks: seq<Bookmark>, u: string)
    requires u in Suggestions(value, history, bookmarks)
    ensures Utf16Length(value) > 1
    ensures || (exists k :: 0 <= k < |history| && history[k].url == u && Matches(u, history[k].title, value))
            || (exists k :: 0 <= k < |bookmarks| && bookmarks[k].url == u && Matches(u, bookmarks[k].title, value))
  {
    var h := MatchingHistory(history, value);
    var b := MatchingBookmarks(bookmarks, value);
    if u in Take(h, HistorySuggestions) {
      assert u in h;
    } else {
      assert u in Take(b, BookmarkSuggestions);
      assert u in b;
    }
  }

  /** The five-address cut never bites: three history and two bookmark suggestions already make at most five. */
  lemma SuggestionsNeverCut(value: string, history: seq<HistoryEntry>, bookmarks: seq<Bookmark>)
    requires Utf16Length(value) > 1
    ensures Suggestions(value, history, bookmarks)
      == Dedup(Take(MatchingHistory(history, value), HistorySuggestions) + Take(MatchingBookmarks(bookmarks, value), BookmarkSuggestions))
  {
  }

  /** History suggestions come before bookmark suggestions: an address from the history is never preceded by one that is only a bookmark's. */
  lemma SuggestionsHistoryFirst(value: string, history: seq<HistoryEntry>, bookmarks: seq<Bookmark>)
    ensures var fromHistory := Take(MatchingHistory(history, value), HistorySuggestions);
      var r := Suggestions(value, history, bookmarks);
      forall i, j :: 0 <= i < j < |r| && r[j] in fromHistory ==> r[i] in fromHistory
  {
    var h := Take(MatchingHistory(history, value), HistorySuggestions);
    var r := Suggestions(value, history, bookmarks);
    if Utf16Length(value) > 1 {
      var b := Take(MatchingBookmarks(bookmarks, value), BookmarkSuggestions);
      var hb := h + b;
      SuggestionsNeverCut(value, history, bookmarks);
      forall i, j | 0 <= i < j < |r| && r[j] in h
        ensures r[i] in h
      {
        var m :| 0 <= m < |h| && h[m] == r[j];
        assert Itself(hb[m]) == r[j];
        var k := FirstAt(hb, r[i]);
        assert k < FirstAt(hb, r[j]) <= m;
        assert r[i] in hb;
        assert hb[k] == r[i] && k < |h|;
        assert hb[k] == h[k];
      }
    }
  }

  /** The bookmarks left after removing every one with the id. */
  function WithoutBookmark(bookmarks: seq<Bookmark>, id: string): (r: seq<Bookmark>)
    ensures forall b :: b in r <==> b in bookmarks && b.id != id
    ensures (forall k :: 0 <= k < |bookmarks| ==> bookmarks[k].id != id) ==> r == bookmarks
  {
    Filter(bookmarks, (b: Bookmark) => b.id != id)
  }

  /** Removing a just-added bookmark under a fresh id restores the list. */
  lemma AddThenRemoveBookmark(bookmarks: seq<Bookmark>, b: Bookmark)
    requires forall k :: 0 <= k < |bookmarks| ==> bookmarks[k].id != b.id
    ensures WithoutBookmark([b] + bookmarks, b.id) == bookmarks
  {
    assert ([b] + bookmarks)[1..] == bookmarks;
  }

  /** The history left after removing every entry with the timestamp. */
  function WithoutVisit(history: seq<HistoryEntry>, timestamp: nat): (r: seq<HistoryEntry>)
    ensures forall h :: h in r <==> h in history && h.timestamp != timestamp
    ensures |r| <= |history|
  {
    Filter(history, (h: HistoryEntry) => h.timestamp != timestamp)
  }

  class Browser {
    /** The host name of an address, used as a history entry's title. */
    const hostname: string -> string
    /** The encoding a search query gets in the search address. */
    const encode: string -> string
    var inputUrl: string
    var history: seq<HistoryEntry>
    var bookmarks: seq<Bookmark>
    var showHistory: bool
    var showBookmarks: bool
    var searchSuggestions: seq<string>

    /** The history never holds more than 100 entries. */
    ghost predicate Valid()
      reads this`history
    {
      |history| <= MaxHistory
    }

    constructor (hostname: string -> string, encode: string -> string)
      ensures Valid()
      ensures this.hostname == hostname && this.encode == encode
      ensures inputUrl == "" && history == [] && bookmarks == [] && searchSuggestions == []
      ensures !showHistory && !showBookmarks
    {
      this.hostname := hostname;
      this.encode := encode;
      inputUrl := "";
      history := [];
      bookmarks := [];
      showHistory := false;
      showBookmarks := false;
      searchSuggestions := [];
    }

    /**
     * Navigate: blank text does nothing; otherwise the normalized address
     * is recorded first in the history and the input and suggestions are
     * cleared.
     */
    method Navigate(url: string, now: nat)
      requires Valid()
      modifies this`history, this`inputUrl, this`searchSuggestions
      ensures Valid()
      ensures IsBlank(url) ==>
        history == old(history) && inputUrl == old(inputUrl) && searchSuggestions == old(searchSuggestions)
      ensures !IsBlank(url) ==>
        && var u := Normalized(url, encode);
        && history == Visited(old(history), HistoryEntry(u, hostname(u), now))
        && IsWebAddress(history[0].url)
        && inputUrl == "" && searchSuggestions == []
    {
      TrimEmptyIffBlank(url);
      if Trim(url) == [] {
        return;
      }
      var u := Normalized(url, encode);
      NormalizedIsWebAddress(url, encode);
      history := Visited(history, HistoryEntry(u, hostname(u), now));
      inputUrl := "";
      searchSuggestions := [];
    }

    /** Typing: the input changes and the suggestions are recomputed for it. */
    method InputChange(value: string)
      modifies this`inputUrl, this`searchSuggestions
      ensures inputUrl == value && searchSuggestions == Suggestions(value, history, bookmarks)
    {
      inputUrl := value;
      searchSuggestions := Suggestions(value, history, bookmarks);
    }

    /** A new bookmark goes first. */
    method AddBookmark(id: string, url: string, title: string)
      modifies this`bookmarks
      ensures bookmarks == [Bookmark(id, url, title)] + old(bookmarks)
    {
      bookmarks := [Bookmark(id, url, title)] + bookmarks;
    }

    method RemoveBookmark(id: string)
      modifies this`bookmarks
      ensures bookmarks == WithoutBookmark(old(bookmarks), id)
      ensures forall b :: b in bookmarks ==> b.id != id
    {
      bookmarks := WithoutBookmark(bookmarks, id);
    }

    method RemoveHistoryEntry(timestamp: nat)
      requires Valid()
      modifies this`history
      ensures Valid()
      ensures history == WithoutVisit(old(history), timestamp)
      ensures forall h :: h in history ==> h.timestamp != timestamp
    {
      history := WithoutVisit(history, timestamp);
    }

    method ClearHistory()
      modifies this`history
      ensures Valid() && history == []
    {
      history := [];
    }

    method ToggleHistory()
      modifies this`showHistory
      ensures showHistory == !old(showHistory)
    {
      showHistory := !showHistory;
    }

    method ToggleBookmarks()
      modifies this`showBookmarks
      ensures showBookmarks == !old(showBookmarks)
    {
      showBookmarks := !showBookmarks;
    }
  }
}

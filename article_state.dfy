/**
 * The immutable screen state of an article and the `copy` transitions the
 * `ArticleViewModel` handlers apply to it, with the two projections the
 * bottom bar and the submenu render.
 */
module ArticleStates {
  import opened Wrappers
  import opened StringSearch

  /**
   * `ArticleState` with its defaults. `categoryIcon` and `author` (typed
   * `Any?`) and the entries of `reviews` (typed `Any`) are held as strings;
   * nothing modelled here reads them.
   */
  datatype ArticleState = ArticleState(
    isAuth: bool := false,
    isLoadingContent: bool := true,
    isLoadingReviews: bool := true,
    isLike: bool := false,
    isBookmark: bool := false,
    isShowMenu: bool := false,
    isDarkMode: bool := false,
    isBigText: bool := false,
    isSearch: bool := false,
    searchQuery: Option<string> := None,
    searchResults: seq<(int, int)> := [],
    searchPosition: int := 0,
    shareLink: Option<string> := None,
    title: Option<string> := None,
    category: Option<string> := None,
    categoryIcon: Option<string> := None,
    date: Option<string> := None,
    author: Option<string> := None,
    poster: Option<string> := None,
    content: seq<string> := [],
    reviews: seq<string> := [])

  datatype BottombarData = BottombarData(
    isLike: bool := false,
    isBookmark: bool := false,
    isShowMenu: bool := false,
    isSearch: bool := false,
    resultsCount: int := 0,
    searchPosition: int := 0)

  datatype SubmenuData = SubmenuData(isShowMenu: bool := false, isBigText: bool := false, isDarkMode: bool := false)

  /** The state a fresh view model starts from. */
  function InitialState(): (st: ArticleState)
    ensures st.isLoadingContent && st.isLoadingReviews && !st.isSearch && !st.isShowMenu
    ensures st.searchPosition == 0 && st.searchResults == [] && st.searchQuery.None? && st.content == []
  {
    ArticleState()
  }

  // ---------------------------------------------------------------------------
  // The transitions handed to `updateState`.
  // ---------------------------------------------------------------------------

  /** `handleToggleMenu`'s copy. */
  function ToggledMenu(st: ArticleState): (r: ArticleState)
    ensures r.isShowMenu == !st.isShowMenu && r.(isShowMenu := st.isShowMenu) == st
  {
    st.(isShowMenu := !st.isShowMenu)
  }

  /** `hideMenu`'s copy. */
  function HiddenMenu(st: ArticleState): (r: ArticleState)
    ensures !r.isShowMenu && r.(isShowMenu := st.isShowMenu) == st
  {
    st.(isShowMenu := false)
  }

  /** `showMenu`'s copy: the menu flag comes back from the remembered `menuIsShown`. */
  function ShownMenu(st: ArticleState, menuIsShown: bool): (r: ArticleState)
    ensures r.isShowMenu == menuIsShown && r.(isShowMenu := st.isShowMenu) == st
  {
    st.(isShowMenu := menuIsShown)
  }

  /** `handleSearchQuery`'s copy. */
  function WithQuery(st: ArticleState, query: Option<string>): (r: ArticleState)
    ensures r.searchQuery == query && r.(searchQuery := st.searchQuery) == st
  {
    st.(searchQuery := query)
  }

  /** `handleIsSearch`'s copy. */
  function WithIsSearch(st: ArticleState, isSearch: bool): (r: ArticleState)
    ensures r.isSearch == isSearch && r.(isSearch := st.isSearch) == st
  {
    st.(isSearch := isSearch)
  }

  /** `handleSearchMode`'s copy: entering or leaving search closes the menu and rewinds the position. */
  function InSearchMode(st: ArticleState, isSearch: bool): (r: ArticleState)
    ensures r.isSearch == isSearch && !r.isShowMenu && r.searchPosition == 0
    ensures r.(isSearch := st.isSearch, isShowMenu := st.isShowMenu, searchPosition := st.searchPosition) == st
  {
    st.(isSearch := isSearch, isShowMenu := false, searchPosition := 0)
  }

  /** `handleUpResult`'s copy: `searchPosition.dec()`, with no lower bound. */
  function UpResult(st: ArticleState): (r: ArticleState)
    ensures r.searchPosition == st.searchPosition - 1 && r.(searchPosition := st.searchPosition) == st
  {
    st.(searchPosition := st.searchPosition - 1)
  }

  /** `handleDownResult`'s copy: `searchPosition.inc()`, with no upper bound. */
  function DownResult(st: ArticleState): (r: ArticleState)
    ensures r.searchPosition == st.searchPosition + 1 && r.(searchPosition := st.searchPosition) == st
  {
    st.(searchPosition := st.searchPosition + 1)
  }

  /** `content.firstOrNull()`. */
  function FirstOrNull(content: seq<string>): (r: Option<string>)
    ensures r.Some? <==> content != []
    ensures r.Some? ==> r.value == content[0]
  {
    if content == [] then None else Some(content[0])
  }

  /** `map { it to it + length }`: each start paired with the end of a span of `length` chars there. */
  function Ranges(starts: seq<nat>, length: nat): (r: seq<(int, int)>)
    ensures |r| == |starts|
    ensures forall k :: 0 <= k < |r| ==> r[k] == (starts[k] as int, starts[k] + length)
  {
    if starts == [] then [] else [(starts[0] as int, starts[0] + length)] + Ranges(starts[1..], length)
  }

  /**
   * The result ranges of `handleSearch`: `(i, i + |query|)` for every start
   * `i` that `indexesOf(query)` (ignoring case) finds in the first content
   * string, in increasing order.
   */
  function SearchResults(content: seq<string>, query: string): (r: seq<(int, int)>)
    ensures content == [] ==> r == []
    ensures content != [] ==> |r| == |Occurrences(content[0], query, true)|
  {
    Ranges(if content == [] then [] else Occurrences(content[0], query, true), |query|)
  }

  /** `handleSearch`'s copy for a non-null query. */
  function Searched(st: ArticleState, query: string): (r: ArticleState)
    ensures r.searchQuery == Some(query) && r.searchResults == SearchResults(st.content, query)
    ensures r.(searchQuery := st.searchQuery, searchResults := st.searchResults) == st
  {
    st.(searchQuery := Some(query), searchResults := SearchResults(st.content, query))
  }

  // ---------------------------------------------------------------------------
  // Projections.
  // ---------------------------------------------------------------------------

  /** `toBottombarData`: the bottom bar shows the like, bookmark, menu and search flags, the result count and the position. */
  function ToBottombarData(st: ArticleState): (r: BottombarData)
    ensures r.isLike == st.isLike && r.isBookmark == st.isBookmark
    ensures r.isShowMenu == st.isShowMenu && r.isSearch == st.isSearch
    ensures r.resultsCount == |st.searchResults| && r.searchPosition == st.searchPosition
  {
    BottombarData(st.isLike, st.isBookmark, st.isShowMenu, st.isSearch, |st.searchResults|, st.searchPosition)
  }

  /** `toSubmenuData`: the submenu shows the menu, text-size and dark-mode flags. */
  function ToSubmenuData(st: ArticleState): (r: SubmenuData)
    ensures r.isShowMenu == st.isShowMenu && r.isBigText == st.isBigText && r.isDarkMode == st.isDarkMode
  {
    SubmenuData(st.isShowMenu, st.isBigText, st.isDarkMode)
  }

  // ---------------------------------------------------------------------------
  // Properties.
  // ---------------------------------------------------------------------------

  /**
   * Every result range is the span of a case-insensitive occurrence of the
   * query in the first content string, the ranges are in increasing order,
   * and every occurrence starting inside that string has its range.
   */
  lemma {:induction false} SearchResultsSpec(content: seq<string>, query: string)
    requires content != []
    ensures var r := SearchResults(content, query);
      && (forall k :: 0 <= k < |r| ==>
            && 0 <= r[k].0 < |content[0]| && r[k].1 == r[k].0 + |query|
            && OccursAt(content[0], query, r[k].0, true))
      && (forall k, l :: 0 <= k < l < |r| ==> r[k].0 < r[l].0)
      && (forall p :: 0 <= p < |content[0]| && OccursAt(content[0], query, p, true) ==>
            exists k :: 0 <= k < |r| && r[k].0 == p && r[k].1 == p + |query|)
  {
    var s, starts, r := content[0], Occurrences(content[0], query, true), SearchResults(content, query);
    assert r == Ranges(starts, |query|);
    OccurrencesBelowSpec(s, query, true, |s|);
    forall p | 0 <= p < |s| && OccursAt(s, query, p, true)
      ensures exists k :: 0 <= k < |r| && r[k].0 == p && r[k].1 == p + |query|
    {
      var k :| 0 <= k < |starts| && starts[k] == p;
      assert r[k].0 == p && r[k].1 == p + |query|;
    }
  }

  /** The bottom bar counts exactly the occurrences the search found. */
  lemma SearchedCount(st: ArticleState, query: string)
    requires st.content != []
    ensures ToBottombarData(Searched(st, query)).resultsCount == |Occurrences(st.content[0], query, true)|
    ensures ToBottombarData(Searched(st, query)).searchPosition == st.searchPosition
  {
  }

  /** Searching without content finds nothing. */
  lemma SearchedNoContent(st: ArticleState, query: string)
    requires st.content == []
    ensures Searched(st, query).searchResults == [] && ToBottombarData(Searched(st, query)).resultsCount == 0
  {
  }

  /** Up and down undo each other: the position moves by exactly one each way. */
  lemma UpDownInverse(st: ArticleState)
    ensures DownResult(UpResult(st)) == st && UpResult(DownResult(st)) == st
    ensures UpResult(st).searchPosition == st.searchPosition - 1
    ensures DownResult(st).searchPosition == st.searchPosition + 1
  {
  }

  /** Toggling twice restores the state. */
  lemma ToggleTwice(st: ArticleState)
    ensures ToggledMenu(ToggledMenu(st)) == st
  {
  }

  /**
   * `showMenu` after `handleToggleMenu` undoes the toggle, because the toggle
   * stores the flag as it was before toggling in `menuIsShown`.
   */
  lemma ShowAfterToggle(st: ArticleState)
    ensures ShownMenu(ToggledMenu(st), st.isShowMenu) == st
  {
  }

  /** Search mode closes the menu in both projections and leaves the position at zero, whatever came before. */
  lemma SearchModeClosesMenu(st: ArticleState, isSearch: bool)
    ensures !ToBottombarData(InSearchMode(st, isSearch)).isShowMenu
    ensures !ToSubmenuData(InSearchMode(st, isSearch)).isShowMenu
    ensures ToBottombarData(InSearchMode(st, isSearch)).searchPosition == 0
    ensures ToBottombarData(InSearchMode(st, isSearch)).isSearch == isSearch
    ensures InSearchMode(InSearchMode(st, isSearch), isSearch) == InSearchMode(st, isSearch)
  {
  }
}

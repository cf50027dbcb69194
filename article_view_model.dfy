/**
 * `ArticleViewModel`'s search, menu and position handlers. Each one replaces
 * the held state through `updateState` with one of the copies of
 * `ArticleStates`; `handleToggleMenu` also writes the private `menuIsShown`.
 * The LiveData plumbing around `updateState` is not part of this model: the
 * held state is the `currentState` field.
 */
module ArticleViewModels {
  import opened Wrappers
  import opened StringSearch
  import opened ArticleStates

  class ArticleViewModel {
    var currentState: ArticleState
    var menuIsShown: bool

    constructor()
      ensures currentState == InitialState() && !menuIsShown
    {
      currentState := ArticleState();
      menuIsShown := false;
    }

    /** Flips the menu and remembers, in `menuIsShown`, whether it was shown before the flip. */
    method HandleToggleMenu()
      modifies this
      ensures currentState == ToggledMenu(old(currentState))
      ensures menuIsShown == old(currentState).isShowMenu
    {
      var next := currentState.(isShowMenu := !currentState.isShowMenu);
      currentState := next;
      menuIsShown := !next.isShowMenu;
    }

    method HideMenu()
      modifies this`currentState
      ensures currentState == HiddenMenu(old(currentState))
    {
      currentState := currentState.(isShowMenu := false);
    }

    method ShowMenu()
      modifies this`currentState
      ensures currentState == ShownMenu(old(currentState), menuIsShown)
    {
      currentState := currentState.(isShowMenu := menuIsShown);
    }

    method HandleSearchQuery(query: Option<string>)
      modifies this`currentState
      ensures currentState == WithQuery(old(currentState), query)
    {
      currentState := currentState.(searchQuery := query);
    }

    method HandleIsSearch(isSearch: bool)
      modifies this`currentState
      ensures currentState == WithIsSearch(old(currentState), isSearch)
    {
      currentState := currentState.(isSearch := isSearch);
    }

    method HandleSearchMode(isSearch: bool)
      modifies this`currentState
      ensures currentState == InSearchMode(old(currentState), isSearch)
    {
      currentState := currentState.(isSearch := isSearch, isShowMenu := false, searchPosition := 0);
    }

    /** A null query changes nothing; otherwise the query and the ranges of its occurrences are stored. */
    method HandleSearch(query: Option<string>)
      modifies this`currentState
      ensures query.None? ==> currentState == old(currentState)
      ensures query.Some? ==> currentState == Searched(old(currentState), query.value)
    {
      if query.None? {
        return;
      }
      var q := query.value;
      var starts := IndexesOf(FirstOrNull(currentState.content), q, true);
      var result := Ranges(starts, |q|);
      currentState := currentState.(searchQuery := Some(q), searchResults := result);
    }

    method HandleUpResult()
      modifies this`currentState
      ensures currentState == UpResult(old(currentState))
    {
      currentState := currentState.(searchPosition := currentState.searchPosition - 1);
    }

    method HandleDownResult()
      modifies this`currentState
      ensures currentState == DownResult(old(currentState))
    {
      currentState := currentState.(searchPosition := currentState.searchPosition + 1);
    }
  }
}

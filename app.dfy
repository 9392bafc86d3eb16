/** The application shell (src/App.jsx): whether a user is logged in, the
    active tab, and the film and series selections the tabs open with. */
module App {
  import opened Wrappers
  import Profile

  /** The logged-in user's credentials, the part of `userData` the pages
      read. */
  datatype User = User(username: string, password: string)

  /** The navigation state: the active tab and the two selection groups,
      the series id and category and the film id and category. */
  datatype Nav = Nav(activeTab: string, seriesId: Option<string>, movieId: Option<string>,
                     movieCategory: Option<string>, seriesCategory: Option<string>)

  const Initial := Nav("home", None, None, None, None)

  predicate SeriesSelected(n: Nav) {
    n.seriesId.Some? || n.seriesCategory.Some?
  }

  predicate MovieSelected(n: Nav) {
    n.movieId.Some? || n.movieCategory.Some?
  }

  /** At most one selection group holds a value. */
  predicate OneGroup(n: Nav) {
    !(SeriesSelected(n) && MovieSelected(n))
  }

  /** `handleTabChange(tab)`: the tab becomes active, the series group is
      cleared unless it is the series tab and the film group unless it is
      the film tab. */
  function TabChange(n: Nav, tab: string): (r: Nav)
    ensures r.activeTab == tab
    ensures tab != "series" ==> !SeriesSelected(r)
    ensures tab != "movies" ==> !MovieSelected(r)
    ensures tab == "series" ==> r.seriesId == n.seriesId && r.seriesCategory == n.seriesCategory
    ensures tab == "movies" ==> r.movieId == n.movieId && r.movieCategory == n.movieCategory
  {
    Nav(tab,
        if tab != "series" then None else n.seriesId,
        if tab != "movies" then None else n.movieId,
        if tab != "movies" then None else n.movieCategory,
        if tab != "series" then None else n.seriesCategory)
  }

  /** After a tab change at most one selection group survives, and a
      second change to the same tab changes nothing more. */
  lemma TabChangeOneGroup(n: Nav, tab: string)
    ensures OneGroup(TabChange(n, tab))
    ensures TabChange(TabChange(n, tab), tab) == TabChange(n, tab)
  {
  }

  /** `handleNavigateToSeries(id)`. */
  function NavigateToSeries(n: Nav, id: string): Nav {
    n.(seriesId := Some(id), activeTab := "series")
  }

  /** `handleNavigateToMovie(id)`. */
  function NavigateToMovie(n: Nav, id: string): Nav {
    n.(movieId := Some(id), activeTab := "movies")
  }

  /** Navigating to an item sets its id and its tab and leaves the other
      group as it was, so a series selection survives the opening of a
      film, unlike a tab change. */
  lemma NavigateKeepsOtherGroup(n: Nav, id: string)
    ensures var r := NavigateToMovie(n, id);
      r.activeTab == "movies" && r.movieId == Some(id) && r.movieCategory == n.movieCategory &&
      r.seriesId == n.seriesId && r.seriesCategory == n.seriesCategory
    ensures var r := NavigateToSeries(n, id);
      r.activeTab == "series" && r.seriesId == Some(id) && r.seriesCategory == n.seriesCategory &&
      r.movieId == n.movieId && r.movieCategory == n.movieCategory
    ensures SeriesSelected(n) ==> !OneGroup(NavigateToMovie(n, id))
    ensures MovieSelected(n) ==> !OneGroup(NavigateToSeries(n, id))
  {
  }

  /** `handleProfileNavigation(type, id)`: only the film and series types
      navigate. */
  function ProfileNavigation(n: Nav, kind: string, id: string): (r: Nav)
    ensures kind != "movies" && kind != "series" ==> r == n
    ensures kind == "movies" ==> r == NavigateToMovie(n, id)
    ensures kind == "series" ==> r == NavigateToSeries(n, id)
  {
    if kind == "movies" then NavigateToMovie(n, id)
    else if kind == "series" then NavigateToSeries(n, id)
    else n
  }

  /** `handleCategorySelect(tabType, categoryId)`: only the category of the
      matching tab type changes. */
  function CategorySelect(n: Nav, tabType: string, categoryId: Option<string>): (r: Nav)
    ensures tabType == "movies" ==> r == n.(movieCategory := categoryId)
    ensures tabType == "series" ==> r == n.(seriesCategory := categoryId)
    ensures tabType != "movies" && tabType != "series" ==> r == n
  {
    if tabType == "movies" then n.(movieCategory := categoryId)
    else if tabType == "series" then n.(seriesCategory := categoryId)
    else n
  }

  /** A category picked in the header's menu (a tab change followed by a
      category selection for the same tab) opens that tab with that
      category and no selection of the other group; picking the menu entry
      itself clears the category. */
  lemma MenuCategoryPick(n: Nav, tab: string, categoryId: Option<string>)
    requires tab == "movies" || tab == "series"
    ensures var r := CategorySelect(TabChange(n, tab), tab, categoryId);
      r.activeTab == tab && OneGroup(r) &&
      (tab == "movies" ==> r.movieCategory == categoryId && r.movieId == n.movieId && !SeriesSelected(r)) &&
      (tab == "series" ==> r.seriesCategory == categoryId && r.seriesId == n.seriesId && !MovieSelected(r))
  {
  }

  /** The effects of a watchlist click, applied in order. */
  function ApplyEffects(n: Nav, effects: seq<Profile.Effect>): Nav
    decreases |effects|
  {
    if effects == [] then n
    else
      var n' := match effects[0]
        case Close => n
        case Navigate(page, id) => ProfileNavigation(n, page, id);
      ApplyEffects(n', effects[1..])
  }

  /** A click on a watchlist film or series of the profile dialog opens
      that item: its tab becomes active with its id selected; a click on an
      item of another kind leaves the navigation as it was. */
  lemma WatchlistClickOpensItem(n: Nav, item: Profile.WatchItem)
    ensures var r := ApplyEffects(n, Profile.ItemClick(item, true));
      (item.kind == "movie" ==> r == NavigateToMovie(n, item.id)) &&
      (item.kind == "series" ==> r == NavigateToSeries(n, item.id)) &&
      (item.kind != "movie" && item.kind != "series" ==> r == n)
  {
    var effects := Profile.ItemClick(item, true);
    if item.kind == "movie" || item.kind == "series" {
      var page := if item.kind == "movie" then "movies" else "series";
      assert effects == [Profile.Close, Profile.Navigate(page, item.id)];
      assert effects[1..] == [Profile.Navigate(page, item.id)];
      assert effects[1..][1..] == [];
      assert ApplyEffects(n, effects) == ApplyEffects(n, effects[1..]);
      assert ApplyEffects(n, effects[1..]) == ApplyEffects(ProfileNavigation(n, page, item.id), []);
    } else {
      assert effects == [Profile.Close];
      assert effects[1..] == [];
    }
  }

  /** The application state. */
  class AppState {
    var isLoggedIn: bool
    var userData: Option<User>
    var activeTab: string
    var selectedSeriesId: Option<string>
    var selectedMovieId: Option<string>
    var selectedMovieCategory: Option<string>
    var selectedSeriesCategory: Option<string>

    function Snapshot(): Nav
      reads this
    {
      Nav(activeTab, selectedSeriesId, selectedMovieId, selectedMovieCategory, selectedSeriesCategory)
    }

    constructor()
      ensures !isLoggedIn && userData.None? && Snapshot() == Initial
    {
      isLoggedIn := false;
      userData := None;
      activeTab := "home";
      selectedSeriesId := None;
      selectedMovieId := None;
      selectedMovieCategory := None;
      selectedSeriesCategory := None;
    }

    /** `handleLogin`. */
    method HandleLogin(credentials: User)
      modifies this
      ensures isLoggedIn && userData == Some(credentials) && Snapshot() == old(Snapshot())
    {
      userData := Some(credentials);
      isLoggedIn := true;
    }

    /** `handleLogout`. The page also removes the saved credentials from
        local storage, which this state does not hold. */
    method HandleLogout()
      modifies this
      ensures !isLoggedIn && userData.None? && Snapshot() == old(Snapshot())
    {
      isLoggedIn := false;
      userData := None;
    }

    method HandleNavigateToSeries(seriesId: string)
      modifies this
      ensures Snapshot() == NavigateToSeries(old(Snapshot()), seriesId)
      ensures isLoggedIn == old(isLoggedIn) && userData == old(userData)
    {
      selectedSeriesId := Some(seriesId);
      activeTab := "series";
    }

    method HandleNavigateToMovie(movieId: string)
      modifies this
      ensures Snapshot() == NavigateToMovie(old(Snapshot()), movieId)
      ensures isLoggedIn == old(isLoggedIn) && userData == old(userData)
    {
      selectedMovieId := Some(movieId);
      activeTab := "movies";
    }

    method HandleProfileNavigation(kind: string, itemId: string)
      modifies this
      ensures Snapshot() == ProfileNavigation(old(Snapshot()), kind, itemId)
      ensures isLoggedIn == old(isLoggedIn) && userData == old(userData)
    {
      if kind == "movies" {
        HandleNavigateToMovie(itemId);
      } else if kind == "series" {
        HandleNavigateToSeries(itemId);
      }
    }

    method HandleTabChange(tab: string)
      modifies this
      ensures Snapshot() == TabChange(old(Snapshot()), tab)
      ensures isLoggedIn == old(isLoggedIn) && userData == old(userData)
    {
      activeTab := tab;
      if tab != "series" {
        selectedSeriesId := None;
        selectedSeriesCategory := None;
      }
      if tab != "movies" {
        selectedMovieId := None;
        selectedMovieCategory := None;
      }
    }

    method HandleCategorySelect(tabType: string, categoryId: Option<string>)
      modifies this
      ensures Snapshot() == CategorySelect(old(Snapshot()), tabType, categoryId)
      ensures isLoggedIn == old(isLoggedIn) && userData == old(userData)
    {
      if tabType == "movies" {
        selectedMovieCategory := categoryId;
      } else if tabType == "series" {
        selectedSeriesCategory := categoryId;
      }
    }
  }
}

/** The page header (src/Header.jsx): the category lists of the megamenu,
    their split into columns, the masked password and the expiry date of
    the profile panel. */
module Header {
  import opened Wrappers
  import JsString
  import Profile

  /** A megamenu entry; the "all" entry has no category id. */
  datatype MenuCategory = MenuCategory(categoryId: Option<string>, categoryName: string)

  const DefaultAllSeries := "Alle Serien"
  const DefaultAllMovies := "Alle Filme"

  /** The label of the "all" entry: the translation when it is not empty,
      else the German default (`t.nav.allSeries || 'Alle Serien'`). */
  function AllLabel(menuId: string, allSeries: string, allMovies: string): (r: string)
    ensures r != ""
    ensures menuId == "series" ==> r == (if allSeries != "" then allSeries else DefaultAllSeries)
    ensures menuId != "series" ==> r == (if allMovies != "" then allMovies else DefaultAllMovies)
  {
    if menuId == "series" then (if allSeries != "" then allSeries else DefaultAllSeries)
    else (if allMovies != "" then allMovies else DefaultAllMovies)
  }

  /** `getCategories(menuId)`: for the series and the film menus the "all"
      entry followed by the loaded categories of that kind; nothing for any
      other menu. */
  function GetCategories(menuId: string, seriesCategories: seq<MenuCategory>, moviesCategories: seq<MenuCategory>,
                         allSeries: string, allMovies: string): (r: seq<MenuCategory>)
    ensures menuId != "series" && menuId != "movies" ==> r == []
    ensures menuId == "series" ==> |r| == 1 + |seriesCategories| && r[1..] == seriesCategories
    ensures menuId == "movies" ==> |r| == 1 + |moviesCategories| && r[1..] == moviesCategories
    ensures menuId == "series" || menuId == "movies" ==>
      r[0].categoryId.None? && r[0].categoryName == AllLabel(menuId, allSeries, allMovies)
  {
    var all := MenuCategory(None, AllLabel(menuId, allSeries, allMovies));
    if menuId == "series" then [all] + seriesCategories
    else if menuId == "movies" then [all] + moviesCategories
    else []
  }

  /** The menu items of the navigation bar; only the series and the film
      items have a dropdown. */
  datatype NavItem = NavItem(id: string, hasDropdown: bool)

  const NavItems := [NavItem("series", true), NavItem("movies", true), NavItem("live", false)]

  /** The megamenu of an item with a dropdown always has entries, the "all"
      entry at least, even before any category has been loaded; the one
      item without a dropdown would have none. */
  lemma DropdownsHaveEntries(seriesCategories: seq<MenuCategory>, moviesCategories: seq<MenuCategory>,
                             allSeries: string, allMovies: string, k: nat)
    requires k < |NavItems|
    ensures NavItems[k].hasDropdown <==>
      |GetCategories(NavItems[k].id, seriesCategories, moviesCategories, allSeries, allMovies)| > 0
  {
  }

  const ItemsPerColumn := 7

  /** `Math.ceil(n / itemsPerColumn)`. */
  function ColumnCount(n: nat): (c: nat)
    ensures (c - 1) * ItemsPerColumn < n <= c * ItemsPerColumn || (n == 0 && c == 0)
  {
    (n + ItemsPerColumn - 1) / ItemsPerColumn
  }

  function Min(a: int, b: int): int {
    if a <= b then a else b
  }

  /** `s.slice(lo, hi)` for `0 <= lo <= hi`: the bounds are clamped to the
      length. */
  function Slice<T>(s: seq<T>, lo: nat, hi: nat): seq<T>
    requires lo <= hi
  {
    s[Min(lo, |s|)..Min(hi, |s|)]
  }

  /** The columns laid end to end. */
  function Flatten<T>(columns: seq<seq<T>>): seq<T>
    decreases |columns|
  {
    if columns == [] then [] else Flatten(columns[..|columns| - 1]) + columns[|columns| - 1]
  }

  /** The megamenu's column split: `columnCount` columns, the `i`th being
      `categories.slice(i * 7, (i + 1) * 7)`. There are ceil(n / 7)
      columns, none empty and none longer than 7, every one but the last
      exactly 7 long, and laid end to end they give the categories back in
      their order. */
  method SplitColumns<T>(categories: seq<T>) returns (columns: seq<seq<T>>)
    ensures |columns| == ColumnCount(|categories|)
    ensures forall i :: 0 <= i < |columns| ==> 1 <= |columns[i]| <= ItemsPerColumn
    ensures forall i :: 0 <= i < |columns| - 1 ==> |columns[i]| == ItemsPerColumn
    ensures Flatten(columns) == categories
  {
    var n := |categories|;
    var columnCount := ColumnCount(n);
    columns := [];
    var i := 0;
    while i < columnCount
      invariant 0 <= i <= columnCount
      invariant |columns| == i
      invariant forall j :: 0 <= j < i ==> 1 <= |columns[j]| <= ItemsPerColumn
      invariant forall j :: 0 <= j < i - 1 ==> |columns[j]| == ItemsPerColumn
      invariant i < columnCount ==> i * ItemsPerColumn < n
      invariant i > 0 ==> |columns[i - 1]| == Min(i * ItemsPerColumn, n) - (i - 1) * ItemsPerColumn
      invariant Flatten(columns) == categories[..Min(i * ItemsPerColumn, n)]
    {
      var column := Slice(categories, i * ItemsPerColumn, (i + 1) * ItemsPerColumn);
      assert column == categories[i * ItemsPerColumn..Min((i + 1) * ItemsPerColumn, n)];
      assert i + 1 < columnCount ==> (i + 1) * ItemsPerColumn < n;
      var next := columns + [column];
      assert next[..|next| - 1] == columns;
      assert categories[..Min((i + 1) * ItemsPerColumn, n)] ==
             categories[..i * ItemsPerColumn] + column;
      columns := next;
      i := i + 1;
    }
    assert categories[..n] == categories;
  }

  /** `maskPassword(password)`: a bullet per character of the password, or
      eight bullets for a missing or empty password. */
  function MaskPassword(password: Option<string>): (r: string)
    ensures password.Some? && password.value != "" ==> |r| == |password.value|
    ensures password.None? || password.value == "" ==> |r| == 8
    ensures forall i :: 0 <= i < |r| ==> r[i] == '•'
  {
    var n := if password.Some? && |password.value| > 0 then |password.value| else 8;
    seq(n, _ => '•')
  }

  /** The header's `formatExpiryDate` is the profile panel's with the
      German date format: a missing, empty or `'0'` date shows the
      "unlimited" label, and any other date depends only on the number of
      seconds it parses to. */
  lemma ExpiryDateUnlimited(expDate: Option<string>, other: Option<string>, unlimited: string,
                            deDate: Option<int> -> string)
    ensures expDate.None? || expDate == Some("") || expDate == Some("0") ==>
      Profile.FormatExpiryDate(expDate, unlimited, deDate) == unlimited
    ensures (expDate.Some? && other.Some? && expDate.value !in {"", "0"} && other.value !in {"", "0"} &&
             JsString.ParseInt(expDate.value) == JsString.ParseInt(other.value)) ==>
      Profile.FormatExpiryDate(expDate, unlimited, deDate) == Profile.FormatExpiryDate(other, unlimited, deDate)
  {
  }
}

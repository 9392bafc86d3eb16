/** The profile dialog (src/components/Profile.jsx): the watchlist keys
    are turned back into film and series ids, the ids are resolved against
    the playlist and the series list of the server, and a click on an item
    closes the dialog and opens the item's page. */
module Profile {
  import opened Wrappers
  import JsString
  import Playlist
  import UserPrefs

  const MoviePrefix := "movie_"
  const SeriesPrefix := "series_"

  /** The ids of the watchlist keys of one type:
      `watchlist.filter(key => key.startsWith(prefix)).map(key => key.replace(prefix, ''))`. */
  function IdsWithPrefix(watchlist: seq<string>, prefix: string): (r: seq<string>)
    ensures |r| <= |watchlist|
    ensures forall id :: id in r <==> prefix + id in watchlist
  {
    if watchlist == [] then []
    else
      var key := watchlist[0];
      var rest := IdsWithPrefix(watchlist[1..], prefix);
      assert forall k :: k in watchlist <==> k == key || k in watchlist[1..];
      if JsString.StartsWith(key, prefix) then
        JsString.ReplacePrefix(key, prefix);
        assert key == prefix + key[|prefix|..];
        assert forall id :: prefix + id == key ==> id == key[|prefix|..] by {
          forall id | prefix + id == key ensures id == key[|prefix|..] {
            assert (prefix + id)[|prefix|..] == id;
          }
        }
        [JsString.Replace(key, prefix, "")] + rest
      else
        assert forall id :: prefix + id != key by {
          forall id ensures prefix + id != key {
            assert (prefix + id)[..|prefix|] == prefix;
          }
        }
        rest
  }

  /** The extraction keeps the order of the watchlist: the ids of a
      concatenation are the ids of each part. */
  lemma {:induction false} IdsWithPrefixConcat(a: seq<string>, b: seq<string>, prefix: string)
    ensures IdsWithPrefix(a + b, prefix) == IdsWithPrefix(a, prefix) + IdsWithPrefix(b, prefix)
  {
    if a != [] {
      assert (a + b)[1..] == a[1..] + b;
      IdsWithPrefixConcat(a[1..], b, prefix);
    } else {
      assert a + b == b;
    }
  }

  /** One key gives its id when it has the prefix and nothing otherwise. */
  lemma IdsWithPrefixSingle(key: string, prefix: string)
    ensures JsString.StartsWith(key, prefix) ==> IdsWithPrefix([key], prefix) == [key[|prefix|..]]
    ensures !JsString.StartsWith(key, prefix) ==> IdsWithPrefix([key], prefix) == []
  {
    if JsString.StartsWith(key, prefix) {
      JsString.ReplacePrefix(key, prefix);
    }
  }

  /** The key that `toggleWatchlist(id, 'movie')` stores gives back `id`
      as a film id and no series id. */
  lemma MovieKeyRoundTrip(id: string)
    ensures IdsWithPrefix([UserPrefs.ItemKey(id, "movie")], MoviePrefix) == [id]
    ensures IdsWithPrefix([UserPrefs.ItemKey(id, "movie")], SeriesPrefix) == []
  {
    var key := UserPrefs.ItemKey(id, "movie");
    assert key == MoviePrefix + id;
    assert JsString.StartsWith(key, MoviePrefix) by { assert key[..6] == MoviePrefix; }
    IdsWithPrefixSingle(key, MoviePrefix);
    assert key[6..] == id;
    assert !JsString.StartsWith(key, SeriesPrefix) by {
      if |SeriesPrefix| <= |key| {
        assert key[..|SeriesPrefix|][0] == key[0] == 'm' != SeriesPrefix[0];
      }
    }
    IdsWithPrefixSingle(key, SeriesPrefix);
  }

  /** The same for series keys. */
  lemma SeriesKeyRoundTrip(id: string)
    ensures IdsWithPrefix([UserPrefs.ItemKey(id, "series")], SeriesPrefix) == [id]
    ensures IdsWithPrefix([UserPrefs.ItemKey(id, "series")], MoviePrefix) == []
  {
    var key := UserPrefs.ItemKey(id, "series");
    assert key == SeriesPrefix + id;
    assert JsString.StartsWith(key, SeriesPrefix) by { assert key[..7] == SeriesPrefix; }
    IdsWithPrefixSingle(key, SeriesPrefix);
    assert key[7..] == id;
    assert !JsString.StartsWith(key, MoviePrefix) by {
      if |MoviePrefix| <= |key| {
        assert key[..|MoviePrefix|][0] == key[0] == 's' != MoviePrefix[0];
      }
    }
    IdsWithPrefixSingle(key, MoviePrefix);
  }

  // ---------------------------------------------------------------------
  // Resolving the ids

  /** One record of the server's `get_series` answer; a `series_id` that
      is not a number is `None`. */
  datatype SeriesInfo = SeriesInfo(seriesId: Option<int>, name: Option<string>, cover: Option<string>,
                                   category: Option<string>)

  /** One entry of the dialog's watchlist. */
  datatype WatchItem = WatchItem(id: string, kind: string, name: Option<string>, image: Option<string>,
                                 category: Option<string>)

  /** `movies.find(m => m.stream_id === id)`. */
  function FindMovie(movies: seq<Playlist.PlaylistItem>, id: string): (r: Option<Playlist.PlaylistItem>)
    ensures r.Some? ==> exists k :: 0 <= k < |movies| && movies[k] == r.value && r.value.streamId == Some(id) &&
                                    forall j :: 0 <= j < k ==> movies[j].streamId != Some(id)
    ensures r.None? ==> forall m :: m in movies ==> m.streamId != Some(id)
  {
    if movies == [] then None
    else if movies[0].streamId == Some(id) then Some(movies[0])
    else
      var r := FindMovie(movies[1..], id);
      assert forall m :: m in movies ==> m == movies[0] || m in movies[1..];
      if r.Some? then
        var k :| 0 <= k < |movies[1..]| && movies[1..][k] == r.value && r.value.streamId == Some(id) &&
                 forall j :: 0 <= j < k ==> movies[1..][j].streamId != Some(id);
        assert movies[k + 1] == r.value;
        assert forall j :: 0 <= j < k + 1 ==> movies[j].streamId != Some(id) by {
          forall j | 0 <= j < k + 1 ensures movies[j].streamId != Some(id) {
            if j > 0 { assert movies[j] == movies[1..][j - 1]; }
          }
        }
        r
      else r
  }

  /** `series_id === parseInt(id)`: false when the id is not a number. */
  predicate SeriesMatches(s: SeriesInfo, id: string) {
    JsString.ParseInt(id).Some? && s.seriesId == JsString.ParseInt(id)
  }

  /** `list.find(s => s.series_id === parseInt(id))`. */
  function FindSeries(list: seq<SeriesInfo>, id: string): (r: Option<SeriesInfo>)
    ensures r.Some? ==> r.value in list && SeriesMatches(r.value, id)
    ensures r.Some? ==> exists k :: 0 <= k < |list| && list[k] == r.value &&
                                    forall j :: 0 <= j < k ==> !SeriesMatches(list[j], id)
    ensures r.None? ==> forall s :: s in list ==> !SeriesMatches(s, id)
  {
    if list == [] then None
    else if SeriesMatches(list[0], id) then Some(list[0])
    else
      var r := FindSeries(list[1..], id);
      assert forall s :: s in list ==> s == list[0] || s in list[1..];
      if r.Some? then
        var k :| 0 <= k < |list[1..]| && list[1..][k] == r.value &&
                 forall j :: 0 <= j < k ==> !SeriesMatches(list[1..][j], id);
        assert list[k + 1] == r.value;
        assert forall j :: 0 <= j < k + 1 ==> !SeriesMatches(list[j], id) by {
          forall j | 0 <= j < k + 1 ensures !SeriesMatches(list[j], id) {
            if j > 0 { assert list[j] == list[1..][j - 1]; }
          }
        }
        r
      else r
  }

  /** `movie.stream_icon || movie.cover`; the playlist entries have no
      cover, so an empty icon gives none. */
  function Image(icon: Option<string>): Option<string> {
    if icon.Some? && icon.value != "" then icon else None
  }

  function MovieItem(id: string, m: Playlist.PlaylistItem): WatchItem {
    WatchItem(id, "movie", m.name, Image(m.streamIcon), m.categoryName)
  }

  function SeriesItem(id: string, s: SeriesInfo): WatchItem {
    WatchItem(id, "series", s.name, s.cover, s.category)
  }

  /** The items the film loop pushes for the ids in order. */
  function MovieItems(ids: seq<string>, movies: seq<Playlist.PlaylistItem>): seq<WatchItem>
    decreases |ids|
  {
    if ids == [] then []
    else
      var m := FindMovie(movies, ids[|ids| - 1]);
      MovieItems(ids[..|ids| - 1], movies) + (if m.Some? then [MovieItem(ids[|ids| - 1], m.value)] else [])
  }

  /** The items the series loop pushes for the ids in order. */
  function SeriesItems(ids: seq<string>, list: seq<SeriesInfo>): seq<WatchItem>
    decreases |ids|
  {
    if ids == [] then []
    else
      var s := FindSeries(list, ids[|ids| - 1]);
      SeriesItems(ids[..|ids| - 1], list) + (if s.Some? then [SeriesItem(ids[|ids| - 1], s.value)] else [])
  }

  /** A film item is listed exactly for an id that some film of the
      playlist carries as its stream id. */
  lemma {:induction false} MovieItemsSpec(ids: seq<string>, movies: seq<Playlist.PlaylistItem>, x: WatchItem)
    ensures x in MovieItems(ids, movies) ==>
      x.kind == "movie" && x.id in ids && exists m :: m in movies && m.streamId == Some(x.id)
    ensures forall id :: id in ids && (exists m :: m in movies && m.streamId == Some(id)) ==>
      exists y :: y in MovieItems(ids, movies) && y.id == id
    decreases |ids|
  {
    if ids != [] {
      var p := ids[..|ids| - 1];
      var last := ids[|ids| - 1];
      assert forall id :: id in ids <==> id in p || id == last;
      MovieItemsSpec(p, movies, x);
      forall id | id in ids && (exists m :: m in movies && m.streamId == Some(id))
        ensures exists y :: y in MovieItems(ids, movies) && y.id == id
      {
        if id == last {
          var m := FindMovie(movies, last);
          assert MovieItem(last, m.value) in MovieItems(ids, movies);
        } else {
          MovieItemsSpec(p, movies, x);
          var y :| y in MovieItems(p, movies) && y.id == id;
          assert y in MovieItems(ids, movies);
        }
      }
    }
  }

  /** A series item is listed exactly for an id whose number is the
      `series_id` of some series of the server. */
  lemma {:induction false} SeriesItemsSpec(ids: seq<string>, list: seq<SeriesInfo>, x: WatchItem)
    ensures x in SeriesItems(ids, list) ==>
      x.kind == "series" && x.id in ids && exists s :: s in list && SeriesMatches(s, x.id)
    ensures forall id :: id in ids && (exists s :: s in list && SeriesMatches(s, id)) ==>
      exists y :: y in SeriesItems(ids, list) && y.id == id
    decreases |ids|
  {
    if ids != [] {
      var p := ids[..|ids| - 1];
      var last := ids[|ids| - 1];
      assert forall id :: id in ids <==> id in p || id == last;
      SeriesItemsSpec(p, list, x);
      forall id | id in ids && (exists s :: s in list && SeriesMatches(s, id))
        ensures exists y :: y in SeriesItems(ids, list) && y.id == id
      {
        if id == last {
          var s := FindSeries(list, last);
          assert SeriesItem(last, s.value) in SeriesItems(ids, list);
        } else {
          SeriesItemsSpec(p, list, x);
          var y :| y in SeriesItems(p, list) && y.id == id;
          assert y in SeriesItems(ids, list);
        }
      }
    }
  }

  /** What `loadWatchlistItems` stores. `playlistData` is what
      `loadPlaylist` returned and `seriesAnswer` the `get_series` answer:
      `Err` when the request throws, which empties the whole list, and
      `Ok(None)` when its data is not an array. */
  function WatchlistOutcome(watchlist: seq<string>, hasUser: bool, playlistData: Option<seq<Playlist.PlaylistItem>>,
                            seriesAnswer: Result<Option<seq<SeriesInfo>>>): seq<WatchItem>
  {
    if watchlist == [] || !hasUser then []
    else
      var movieIds := IdsWithPrefix(watchlist, MoviePrefix);
      var seriesIds := IdsWithPrefix(watchlist, SeriesPrefix);
      var films := if movieIds != [] && playlistData.Some? then
                     MovieItems(movieIds, Playlist.FilterByType("movies", playlistData))
                   else [];
      if seriesIds == [] then films
      else if seriesAnswer.Err? then []
      else if seriesAnswer.value.None? then films
      else films + SeriesItems(seriesIds, seriesAnswer.value.value)
  }

  /** The film `forEach` loop of `loadWatchlistItems`. */
  method ResolveMovies(ids: seq<string>, movies: seq<Playlist.PlaylistItem>) returns (items: seq<WatchItem>)
    ensures items == MovieItems(ids, movies)
  {
    items := [];
    var i := 0;
    while i < |ids|
      invariant 0 <= i <= |ids|
      invariant items == MovieItems(ids[..i], movies)
    {
      var m := FindMovie(movies, ids[i]);
      assert ids[..i + 1][..i] == ids[..i];
      if m.Some? {
        items := items + [MovieItem(ids[i], m.value)];
      }
      i := i + 1;
    }
    assert ids[..i] == ids;
  }

  /** The series `forEach` loop of `loadWatchlistItems`. */
  method ResolveSeries(ids: seq<string>, list: seq<SeriesInfo>) returns (items: seq<WatchItem>)
    ensures items == SeriesItems(ids, list)
  {
    items := [];
    var i := 0;
    while i < |ids|
      invariant 0 <= i <= |ids|
      invariant items == SeriesItems(ids[..i], list)
    {
      var s := FindSeries(list, ids[i]);
      assert ids[..i + 1][..i] == ids[..i];
      if s.Some? {
        items := items + [SeriesItem(ids[i], s.value)];
      }
      i := i + 1;
    }
    assert ids[..i] == ids;
  }

  /** `loadWatchlistItems`: the films first, then the series. */
  method LoadWatchlistItems(watchlist: seq<string>, hasUser: bool, playlistData: Option<seq<Playlist.PlaylistItem>>,
                            seriesAnswer: Result<Option<seq<SeriesInfo>>>)
    returns (items: seq<WatchItem>)
    ensures items == WatchlistOutcome(watchlist, hasUser, playlistData, seriesAnswer)
  {
    if watchlist == [] || !hasUser {
      return [];
    }
    items := [];
    var movieIds := IdsWithPrefix(watchlist, MoviePrefix);
    var seriesIds := IdsWithPrefix(watchlist, SeriesPrefix);
    if movieIds != [] && playlistData.Some? {
      items := ResolveMovies(movieIds, Playlist.FilterByType("movies", playlistData));
    }
    if seriesIds != [] {
      if seriesAnswer.Err? {
        return [];
      }
      if seriesAnswer.value.Some? {
        var more := ResolveSeries(seriesIds, seriesAnswer.value.value);
        items := items + more;
      }
    }
  }

  /** Every listed item comes from a watchlist key of its type and has a
      match: a film of the playlist with that stream id, or a series whose
      `series_id` is the id's number. Nothing is listed without a user, and
      without playlist data only series are listed. */
  lemma WatchlistOutcomeSpec(watchlist: seq<string>, hasUser: bool, playlistData: Option<seq<Playlist.PlaylistItem>>,
                             seriesAnswer: Result<Option<seq<SeriesInfo>>>, x: WatchItem)
    requires x in WatchlistOutcome(watchlist, hasUser, playlistData, seriesAnswer)
    ensures hasUser
    ensures
      (x.kind == "movie" && MoviePrefix + x.id in watchlist && playlistData.Some? &&
       exists m :: m in Playlist.FilterByType("movies", playlistData) && m.streamId == Some(x.id)) ||
      (x.kind == "series" && SeriesPrefix + x.id in watchlist && seriesAnswer.Ok? && seriesAnswer.value.Some? &&
       exists s :: s in seriesAnswer.value.value && SeriesMatches(s, x.id))
    ensures playlistData.None? ==> x.kind == "series"
  {
    var movieIds := IdsWithPrefix(watchlist, MoviePrefix);
    var seriesIds := IdsWithPrefix(watchlist, SeriesPrefix);
    if playlistData.Some? {
      MovieItemsSpec(movieIds, Playlist.FilterByType("movies", playlistData), x);
    }
    if seriesAnswer.Ok? && seriesAnswer.value.Some? {
      SeriesItemsSpec(seriesIds, seriesAnswer.value.value, x);
    }
  }

  // ---------------------------------------------------------------------
  // Clicks and dates

  /** What a click on an item does, in order. */
  datatype Effect = Close | Navigate(page: string, id: string)

  /** `handleItemClick(item)`: close the dialog, then (when the dialog was
      given a navigation handler) open the film or series page of the
      item. */
  function ItemClick(item: WatchItem, hasNavigate: bool): (r: seq<Effect>)
    ensures 1 <= |r| <= 2 && r[0] == Close
    ensures |r| == 2 <==> hasNavigate && (item.kind == "movie" || item.kind == "series")
    ensures |r| == 2 ==> r[1].Navigate? && r[1].id == item.id && (r[1].page == "movies" <==> item.kind == "movie")
  {
    if hasNavigate && item.kind == "movie" then [Close, Navigate("movies", item.id)]
    else if hasNavigate && item.kind == "series" then [Close, Navigate("series", item.id)]
    else [Close]
  }

  /** `formatExpiryDate(expDate)`: the "unlimited" label for a missing,
      empty or `'0'` date; otherwise the date of `parseInt(expDate)`
      seconds, as `format` renders milliseconds (`None` for NaN). */
  function FormatExpiryDate(expDate: Option<string>, unlimited: string, format: Option<int> -> string): (r: string)
    ensures expDate.None? || expDate == Some("") || expDate == Some("0") ==> r == unlimited
    ensures expDate.Some? && expDate.value != "" && expDate.value != "0" && JsString.ParseInt(expDate.value).Some? ==>
      r == format(Some(JsString.ParseInt(expDate.value).value * 1000))
  {
    if expDate.None? || expDate.value == "" || expDate.value == "0" then unlimited
    else
      var n := JsString.ParseInt(expDate.value);
      format(if n.Some? then Some(n.value * 1000) else None)
  }
}

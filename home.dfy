/** The home page (src/Home.jsx): the VOD list and the series list of the
    server, each merged by normalised name, and the ten best rated of each
    that have a picture. */
module Home {
  import opened Wrappers
  import Seqs
  import Sorting
  import Merge
  import Movies

  // ---------------------------------------------------------------------
  // Films

  /** A merged film: the record, with `stream_icon` and `stream_id`
      updated by later copies, and its distinct category names. */
  datatype HomeMovie = HomeMovie(vod: Movies.Vod, categories: seq<string>)

  /** The entry a first occurrence creates: its category name, if any. */
  function FirstMovie(v: Movies.Vod): HomeMovie {
    HomeMovie(v, if Merge.Truthy(v.categoryName) then [v.categoryName.value] else [])
  }

  /** A later copy: its category name is appended when truthy and absent,
      and the record is updated as on the film page. */
  function AbsorbMovie(e: HomeMovie, v: Movies.Vod): HomeMovie {
    HomeMovie(Movies.AbsorbVod(e.vod, v), Merge.AddAbsent(e.categories, v.categoryName))
  }

  function CategoryNameOf(v: Movies.Vod): Option<string> {
    v.categoryName
  }

  /** `uniqueMovies` of the home page. */
  function UniqueMovies(items: seq<Movies.Vod>): seq<HomeMovie> {
    Merge.MergeAllKeys(items, Movies.Key, FirstMovie, AbsorbMovie);
    Merge.Values(Merge.MergeAll(items, Movies.Key, FirstMovie, AbsorbMovie))
  }

  /** The `else` branch of the `forEach`: a later copy merged into the
      entry of its name. */
  method MergeCopy(existing: HomeMovie, movie: Movies.Vod) returns (merged: HomeMovie)
    ensures merged == AbsorbMovie(existing, movie)
  {
    var categories := existing.categories;
    if Merge.Truthy(movie.categoryName) && movie.categoryName.value !in categories {
      categories := categories + [movie.categoryName.value];
    }
    var vod := existing.vod;
    if Merge.Truthy(movie.streamIcon) && !Merge.Truthy(vod.streamIcon) {
      vod := vod.(streamIcon := movie.streamIcon);
    }
    if movie.streamId > vod.streamId {
      vod := vod.(streamId := movie.streamId);
    }
    merged := HomeMovie(vod, categories);
  }

  /** The `vodRes.data.forEach` loop followed by `Array.from(values())`. */
  method MergeMovies(items: seq<Movies.Vod>) returns (movies: seq<HomeMovie>)
    ensures movies == UniqueMovies(items)
  {
    var keys: seq<string> := [];
    var entries: map<string, HomeMovie> := map[];
    var i := 0;
    while i < |items|
      invariant 0 <= i <= |items|
      invariant Merge.Table(keys, entries) == Merge.MergeUpTo(items, i, Movies.Key, FirstMovie, AbsorbMovie)
    {
      keys, entries := AddMovie(keys, entries, items[i]);
      Merge.MergeUpToStep(items, i, Movies.Key, FirstMovie, AbsorbMovie, Merge.Table(keys, entries));
      i := i + 1;
    }
    Merge.MergeUpToComplete(items, Movies.Key, FirstMovie, AbsorbMovie);
    movies := Merge.Values(Merge.Table(keys, entries));
  }

  /** One `forEach` step over a film: a new name gets a first entry, a known
      one absorbs the copy. */
  method AddMovie(keys0: seq<string>, entries0: map<string, HomeMovie>, movie: Movies.Vod)
    returns (keys: seq<string>, entries: map<string, HomeMovie>)
    ensures Merge.Table(keys, entries) ==
      Merge.Insert(Merge.Table(keys0, entries0), movie, Movies.Key, FirstMovie, AbsorbMovie)
  {
    keys, entries := keys0, entries0;
    var name := Movies.Key(movie);
    if name != "" {
      if name !in entries {
        keys := keys + [name];
        entries := entries[name := HomeMovie(movie, if Merge.Truthy(movie.categoryName) then [movie.categoryName.value] else [])];
        assert entries == entries0[name := FirstMovie(movie)];
      } else {
        var merged := MergeCopy(entries[name], movie);
        entries := entries[name := merged];
      }
    }
  }

  /** A merged group: the record is the film page's merged record and the
      categories are the distinct truthy category names of the group, in
      the order they first appear. */
  lemma {:induction false} MovieGroup(g: seq<Movies.Vod>)
    requires |g| >= 1
    ensures Merge.FoldGroup(g, FirstMovie, AbsorbMovie).vod == Movies.VodFold(g)
    ensures Merge.FoldGroup(g, FirstMovie, AbsorbMovie).categories == Seqs.Dedup(Merge.TruthyValues(g, CategoryNameOf))
    decreases |g|
  {
    var p := g[..|g| - 1];
    if |g| == 1 {
      assert p == [];
      assert Merge.TruthyValues(g, CategoryNameOf) == Merge.TruthyValues(p, CategoryNameOf) + (if Merge.Truthy(g[0].categoryName) then [g[0].categoryName.value] else []);
    } else {
      assert p[0] == g[0];
      MovieGroup(p);
      Merge.AddAbsentDedup(Merge.TruthyValues(p, CategoryNameOf), g[|g| - 1].categoryName);
    }
  }

  /** The films of the home page: one per distinct non-empty name, in the
      order the names first appear; each has the largest stream id and the
      first truthy icon of its copies, and the distinct category names of
      its copies. */
  lemma UniqueMoviesSpec(items: seq<Movies.Vod>, i: int)
    requires 0 <= i < |Seqs.Dedup(Merge.Keys(items, Movies.Key))|
    ensures |UniqueMovies(items)| == |Seqs.Dedup(Merge.Keys(items, Movies.Key))|
    ensures var g := Merge.Group(items, Movies.Key, Seqs.Dedup(Merge.Keys(items, Movies.Key))[i]);
      |g| >= 1 && Movies.Key(g[0]) == Seqs.Dedup(Merge.Keys(items, Movies.Key))[i] &&
      UniqueMovies(items)[i].vod == Movies.VodFold(g) &&
      UniqueMovies(items)[i].categories == Seqs.Dedup(Merge.TruthyValues(g, CategoryNameOf))
  {
    var ks := Seqs.Dedup(Merge.Keys(items, Movies.Key));
    Merge.MergeAllKeys(items, Movies.Key, FirstMovie, AbsorbMovie);
    assert ks[i] in ks;
    Merge.MergeAllEntry(items, Movies.Key, FirstMovie, AbsorbMovie, ks[i]);
    var g := Merge.Group(items, Movies.Key, ks[i]);
    assert g[0] in g;
    MovieGroup(g);
  }

  // ---------------------------------------------------------------------
  // Series

  /** A record of `get_series` with the fields the page reads; `rating`
      as `parseFloat` reads it, `None` for NaN. */
  datatype SeriesRec = SeriesRec(name: Option<string>, seriesId: int, cover: Option<string>,
                                 categoryId: Option<string>, categoryName: Option<string>, rating: Option<real>)

  /** A merged series: the record, with `cover` and `series_id` updated by
      later copies, and its distinct category ids and names. */
  datatype HomeSeries = HomeSeries(series: SeriesRec, categories: seq<string>, categoryNames: seq<string>)

  function SeriesKey(s: SeriesRec): string {
    Merge.NameKey(s.name)
  }

  /** The entry a first occurrence creates. */
  function FirstSeries(s: SeriesRec): HomeSeries {
    HomeSeries(s, if Merge.Truthy(s.categoryId) then [s.categoryId.value] else [],
               if Merge.Truthy(s.categoryName) then [s.categoryName.value] else [])
  }

  /** The record of an entry after absorbing a later copy: its cover is
      taken when the entry has none, and its series id when it is larger. */
  function AbsorbRec(e: SeriesRec, s: SeriesRec): SeriesRec {
    e.(cover := if Merge.Truthy(s.cover) && !Merge.Truthy(e.cover) then s.cover else e.cover,
       seriesId := if s.seriesId > e.seriesId then s.seriesId else e.seriesId)
  }

  /** A later copy: its category id and name are appended when truthy and
      absent, and the record is updated. */
  function AbsorbSeries(e: HomeSeries, s: SeriesRec): HomeSeries {
    HomeSeries(AbsorbRec(e.series, s), Merge.AddAbsent(e.categories, s.categoryId),
               Merge.AddAbsent(e.categoryNames, s.categoryName))
  }

  function CategoryIdOf(s: SeriesRec): Option<string> {
    s.categoryId
  }

  function SeriesCategoryNameOf(s: SeriesRec): Option<string> {
    s.categoryName
  }

  /** The merged record of a group. */
  function SeriesFold(g: seq<SeriesRec>): SeriesRec
    requires |g| >= 1
    decreases |g|
  {
    if |g| == 1 then g[0] else AbsorbRec(SeriesFold(g[..|g| - 1]), g[|g| - 1])
  }

  /** A merged series record keeps its first copy's fields apart from the
      cover and the series id. */
  lemma {:induction false} SeriesFoldFields(g: seq<SeriesRec>)
    requires |g| >= 1
    ensures SeriesFold(g).(cover := g[0].cover, seriesId := g[0].seriesId) == g[0]
    decreases |g|
  {
    if |g| > 1 {
      var p := g[..|g| - 1];
      assert p[0] == g[0];
      SeriesFoldFields(p);
    }
  }

  /** Its series id is the largest of the group's. */
  lemma {:induction false} SeriesFoldId(g: seq<SeriesRec>)
    requires |g| >= 1
    ensures forall x :: x in g ==> x.seriesId <= SeriesFold(g).seriesId
    ensures exists i :: 0 <= i < |g| && g[i].seriesId == SeriesFold(g).seriesId
    decreases |g|
  {
    if |g| > 1 {
      var p := g[..|g| - 1];
      var y := g[|g| - 1];
      SeriesFoldId(p);
      assert forall x :: x in g ==> x in p || x == y;
      if y.seriesId > SeriesFold(p).seriesId {
        assert g[|g| - 1].seriesId == SeriesFold(g).seriesId;
      } else {
        var i :| 0 <= i < |p| && p[i].seriesId == SeriesFold(p).seriesId;
        assert g[i] == p[i];
      }
    } else {
      assert g[0].seriesId == SeriesFold(g).seriesId;
    }
  }

  /** Its cover is the first truthy one of the group, or the first copy's
      when none is truthy. */
  lemma {:induction false} SeriesFoldCover(g: seq<SeriesRec>)
    requires |g| >= 1
    ensures Merge.Truthy(SeriesFold(g).cover) <==> exists i :: 0 <= i < |g| && Merge.Truthy(g[i].cover)
    ensures forall i :: (0 <= i < |g| && Merge.Truthy(g[i].cover) &&
                         (forall j :: 0 <= j < i ==> !Merge.Truthy(g[j].cover))) ==>
      SeriesFold(g).cover == g[i].cover
    ensures (forall i :: 0 <= i < |g| ==> !Merge.Truthy(g[i].cover)) ==> SeriesFold(g).cover == g[0].cover
    decreases |g|
  {
    if |g| > 1 {
      var p := g[..|g| - 1];
      assert p[0] == g[0];
      SeriesFoldCover(p);
      assert forall i :: 0 <= i < |p| ==> g[i] == p[i];
    }
  }

  /** A merged series group: the merged record, the distinct truthy
      category ids and the distinct truthy category names of the group. */
  lemma {:induction false} SeriesGroup(g: seq<SeriesRec>)
    requires |g| >= 1
    ensures Merge.FoldGroup(g, FirstSeries, AbsorbSeries).series == SeriesFold(g)
    ensures Merge.FoldGroup(g, FirstSeries, AbsorbSeries).categories == Seqs.Dedup(Merge.TruthyValues(g, CategoryIdOf))
    ensures Merge.FoldGroup(g, FirstSeries, AbsorbSeries).categoryNames ==
      Seqs.Dedup(Merge.TruthyValues(g, SeriesCategoryNameOf))
    decreases |g|
  {
    var p := g[..|g| - 1];
    if |g| == 1 {
      assert p == [];
      assert Merge.TruthyValues(g, CategoryIdOf) ==
        Merge.TruthyValues(p, CategoryIdOf) + (if Merge.Truthy(g[0].categoryId) then [g[0].categoryId.value] else []);
      assert Merge.TruthyValues(g, SeriesCategoryNameOf) ==
        Merge.TruthyValues(p, SeriesCategoryNameOf) + (if Merge.Truthy(g[0].categoryName) then [g[0].categoryName.value] else []);
    } else {
      assert p[0] == g[0];
      SeriesGroup(p);
      Merge.AddAbsentDedup(Merge.TruthyValues(p, CategoryIdOf), g[|g| - 1].categoryId);
      Merge.AddAbsentDedup(Merge.TruthyValues(p, SeriesCategoryNameOf), g[|g| - 1].categoryName);
    }
  }

  /** `uniqueSeries`. */
  function UniqueSeries(items: seq<SeriesRec>): seq<HomeSeries> {
    Merge.MergeAllKeys(items, SeriesKey, FirstSeries, AbsorbSeries);
    Merge.Values(Merge.MergeAll(items, SeriesKey, FirstSeries, AbsorbSeries))
  }

  /** The `else` branch of the `forEach`: a later copy merged into the
      entry of its name. */
  method MergeSeriesCopy(existing: HomeSeries, s: SeriesRec) returns (merged: HomeSeries)
    ensures merged == AbsorbSeries(existing, s)
  {
    var categories := existing.categories;
    if Merge.Truthy(s.categoryId) && s.categoryId.value !in categories {
      categories := categories + [s.categoryId.value];
    }
    var categoryNames := existing.categoryNames;
    if Merge.Truthy(s.categoryName) && s.categoryName.value !in categoryNames {
      categoryNames := categoryNames + [s.categoryName.value];
    }
    var rec := existing.series;
    if Merge.Truthy(s.cover) && !Merge.Truthy(rec.cover) {
      rec := rec.(cover := s.cover);
    }
    if s.seriesId > rec.seriesId {
      rec := rec.(seriesId := s.seriesId);
    }
    merged := HomeSeries(rec, categories, categoryNames);
  }

  /** The `seriesRes.data.forEach` loop followed by `Array.from(values())`. */
  method MergeSeries(items: seq<SeriesRec>) returns (series: seq<HomeSeries>)
    ensures series == UniqueSeries(items)
  {
    var keys: seq<string> := [];
    var entries: map<string, HomeSeries> := map[];
    var i := 0;
    while i < |items|
      invariant 0 <= i <= |items|
      invariant Merge.Table(keys, entries) == Merge.MergeUpTo(items, i, SeriesKey, FirstSeries, AbsorbSeries)
    {
      keys, entries := AddSeries(keys, entries, items[i]);
      Merge.MergeUpToStep(items, i, SeriesKey, FirstSeries, AbsorbSeries, Merge.Table(keys, entries));
      i := i + 1;
    }
    Merge.MergeUpToComplete(items, SeriesKey, FirstSeries, AbsorbSeries);
    series := Merge.Values(Merge.Table(keys, entries));
  }

  /** One `forEach` step over a series: a new name gets a first entry, a
      known one absorbs the copy. */
  method AddSeries(keys0: seq<string>, entries0: map<string, HomeSeries>, s: SeriesRec)
    returns (keys: seq<string>, entries: map<string, HomeSeries>)
    ensures Merge.Table(keys, entries) ==
      Merge.Insert(Merge.Table(keys0, entries0), s, SeriesKey, FirstSeries, AbsorbSeries)
  {
    keys, entries := keys0, entries0;
    var name := SeriesKey(s);
    if name != "" {
      if name !in entries {
        keys := keys + [name];
        entries := entries[name := HomeSeries(s, if Merge.Truthy(s.categoryId) then [s.categoryId.value] else [],
                                              if Merge.Truthy(s.categoryName) then [s.categoryName.value] else [])];
        assert entries == entries0[name := FirstSeries(s)];
      } else {
        var merged := MergeSeriesCopy(entries[name], s);
        entries := entries[name := merged];
      }
    }
  }

  /** The series of the home page: one per distinct non-empty name, in the
      order the names first appear, each the merge of its copies. */
  lemma UniqueSeriesSpec(items: seq<SeriesRec>, i: int)
    requires 0 <= i < |Seqs.Dedup(Merge.Keys(items, SeriesKey))|
    ensures |UniqueSeries(items)| == |Seqs.Dedup(Merge.Keys(items, SeriesKey))|
    ensures var g := Merge.Group(items, SeriesKey, Seqs.Dedup(Merge.Keys(items, SeriesKey))[i]);
      |g| >= 1 && SeriesKey(g[0]) == Seqs.Dedup(Merge.Keys(items, SeriesKey))[i] &&
      UniqueSeries(items)[i].series == SeriesFold(g) &&
      UniqueSeries(items)[i].categories == Seqs.Dedup(Merge.TruthyValues(g, CategoryIdOf)) &&
      UniqueSeries(items)[i].categoryNames == Seqs.Dedup(Merge.TruthyValues(g, SeriesCategoryNameOf))
  {
    var ks := Seqs.Dedup(Merge.Keys(items, SeriesKey));
    Merge.MergeAllKeys(items, SeriesKey, FirstSeries, AbsorbSeries);
    assert ks[i] in ks;
    Merge.MergeAllEntry(items, SeriesKey, FirstSeries, AbsorbSeries, ks[i]);
    var g := Merge.Group(items, SeriesKey, ks[i]);
    assert g[0] in g;
    SeriesGroup(g);
  }

  // ---------------------------------------------------------------------
  // The ten best rated

  /** `parseFloat(rating) || 0`: NaN counts as 0. */
  function Rating(r: Option<real>): real {
    if r.Some? then r.value else 0.0
  }

  /** At most ten, as `slice(0, 10)` takes. */
  const TopCount := 10

  /** `filter(keep).sort((a, b) => rank(a) - rank(b)).slice(0, 10)`; the
      page's comparator `ratingB - ratingA` is ascending in the negated
      rating. */
  function TopTen<T(!new)>(s: seq<T>, keep: T -> bool, rank: T -> real): (r: seq<T>)
    ensures |r| <= TopCount
  {
    var sorted := Sorting.SortBy(Seqs.Filter(s, keep), rank);
    sorted[..if |sorted| < TopCount then |sorted| else TopCount]
  }

  /** The selection is ten of the kept elements, or all of them when there
      are fewer; it is ordered by rank, and no kept element left out ranks
      before a selected one. */
  lemma TopTenSpec<T(!new)>(s: seq<T>, keep: T -> bool, rank: T -> real)
    ensures var r := TopTen(s, keep, rank);
      |r| == (if |Seqs.Filter(s, keep)| < TopCount then |Seqs.Filter(s, keep)| else TopCount) &&
      (forall x :: x in r ==> x in s && keep(x)) &&
      Sorting.SortedBy(r, rank) &&
      (forall x, y :: x in r && y in Seqs.Filter(s, keep) && y !in r ==> rank(x) <= rank(y))
  {
    var f := Seqs.Filter(s, keep);
    var sorted := Sorting.SortBy(f, rank);
    var r := TopTen(s, keep, rank);
    Sorting.SortBySorted(f, rank);
    assert r == sorted[..|r|];
    forall x | x in r ensures x in s && keep(x) {
      Sorting.SortByMembers(f, rank, x);
    }
    forall x, y | x in r && y in f && y !in r ensures rank(x) <= rank(y) {
      Sorting.SortByMembers(f, rank, y);
      var rest := sorted[|r|..];
      assert sorted == r + rest;
      assert y in rest;
      var i :| 0 <= i < |r| && r[i] == x;
      var k :| 0 <= k < |rest| && rest[k] == y;
      assert sorted[i] == x && sorted[|r| + k] == y;
    }
  }

  /** No element is selected more often than the filter keeps it. */
  lemma TopTenMultiplicity<T(!new)>(s: seq<T>, keep: T -> bool, rank: T -> real)
    ensures multiset(TopTen(s, keep, rank)) <= multiset(Seqs.Filter(s, keep))
  {
    var sorted := Sorting.SortBy(Seqs.Filter(s, keep), rank);
    var r := TopTen(s, keep, rank);
    assert sorted == r + sorted[|r|..];
    assert multiset(sorted) == multiset(r) + multiset(sorted[|r|..]);
  }

  /** `m => m.stream_icon || m.cover`. */
  predicate HasImage(m: HomeMovie) {
    Merge.Truthy(m.vod.streamIcon) || Merge.Truthy(m.vod.cover)
  }

  function MovieRank(m: HomeMovie): real {
    -Rating(m.vod.rating)
  }

  /** `s => s.cover`. */
  predicate HasCover(s: HomeSeries) {
    Merge.Truthy(s.series.cover)
  }

  function SeriesRank(s: HomeSeries): real {
    -Rating(s.series.rating)
  }

  /** The top films: at most ten, each with an icon or a cover, by rating
      from high to low, and none left out with a picture rates higher than
      one chosen. */
  lemma TopMoviesSpec(movies: seq<HomeMovie>)
    ensures var r := TopTen(movies, HasImage, MovieRank);
      |r| <= 10 &&
      (forall m :: m in r ==> m in movies && HasImage(m)) &&
      (forall i, j :: 0 <= i < j < |r| ==> Rating(r[i].vod.rating) >= Rating(r[j].vod.rating)) &&
      (forall m, n :: m in r && n in movies && HasImage(n) && n !in r ==> Rating(n.vod.rating) <= Rating(m.vod.rating))
  {
    TopTenSpec(movies, HasImage, MovieRank);
  }

  /** The top series: at most ten, each with a cover, by rating from high
      to low, and none left out with a cover rates higher than one
      chosen. */
  lemma TopSeriesSpec(series: seq<HomeSeries>)
    ensures var r := TopTen(series, HasCover, SeriesRank);
      |r| <= 10 &&
      (forall s :: s in r ==> s in series && HasCover(s)) &&
      (forall i, j :: 0 <= i < j < |r| ==> Rating(r[i].series.rating) >= Rating(r[j].series.rating)) &&
      (forall s, t :: s in r && t in series && HasCover(t) && t !in r ==> Rating(t.series.rating) <= Rating(s.series.rating))
  {
    TopTenSpec(series, HasCover, SeriesRank);
  }

  // ---------------------------------------------------------------------
  // The page state

  class HomePage {
    var topMovies: seq<HomeMovie>
    var topSeries: seq<HomeSeries>
    var isLoading: bool
    var hasLoaded: bool

    constructor()
      ensures topMovies == [] && topSeries == [] && isLoading && !hasLoaded
    {
      topMovies := [];
      topSeries := [];
      isLoading := true;
      hasLoaded := false;
    }

    /** The load effect. It does nothing when the tab is inactive, the data
        is loaded, or there is no user. Otherwise the VOD request is
        answered and, if it did not fail, the series request; an answer
        that is an array sets the matching top list. The page counts as
        loaded only when neither request failed. */
    method LoadTopContent(isActive: bool, hasUser: bool, vodAnswer: Result<Option<seq<Movies.Vod>>>,
                          seriesAnswer: Result<Option<seq<SeriesRec>>>)
      modifies this
      ensures !isActive || old(hasLoaded) || !hasUser ==>
        topMovies == old(topMovies) && topSeries == old(topSeries) && isLoading == old(isLoading) &&
        hasLoaded == old(hasLoaded)
      ensures isActive && !old(hasLoaded) && hasUser ==>
        !isLoading &&
        topMovies == (if vodAnswer.Ok? && vodAnswer.value.Some?
                      then TopTen(UniqueMovies(vodAnswer.value.value), HasImage, MovieRank) else old(topMovies)) &&
        topSeries == (if vodAnswer.Ok? && seriesAnswer.Ok? && seriesAnswer.value.Some?
                      then TopTen(UniqueSeries(seriesAnswer.value.value), HasCover, SeriesRank) else old(topSeries)) &&
        hasLoaded == (vodAnswer.Ok? && seriesAnswer.Ok?)
    {
      if !isActive || hasLoaded || !hasUser {
        return;
      }
      isLoading := true;
      if vodAnswer.Ok? {
        if vodAnswer.value.Some? {
          var unique := MergeMovies(vodAnswer.value.value);
          topMovies := TopTen(unique, HasImage, MovieRank);
        }
        if seriesAnswer.Ok? {
          if seriesAnswer.value.Some? {
            var unique := MergeSeries(seriesAnswer.value.value);
            topSeries := TopTen(unique, HasCover, SeriesRank);
          }
          hasLoaded := true;
        }
      }
      isLoading := false;
    }
  }
}

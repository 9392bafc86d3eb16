/** The film page (src/Movies.jsx): the VOD list of the server is merged
    by normalised name, each merged film carrying the categories of all
    its copies, and then filtered by a search text and a category. */
module Movies {
  import opened Wrappers
  import JsString
  import Seqs
  import Merge

  /** A VOD record of `get_vod_streams` with the fields the pages read;
      `rating` is the value `parseFloat` reads from the rating field, with
      `None` for NaN. */
  datatype Vod = Vod(name: Option<string>, streamId: int, streamIcon: Option<string>, cover: Option<string>,
                     categoryId: Option<string>, categoryName: Option<string>, genre: Option<string>,
                     rating: Option<real>)

  /** A record of `get_vod_categories`; the page's own first entry has no id. */
  datatype Category = Category(categoryId: Option<string>, categoryName: Option<string>)

  /** A merged film: the first copy's fields, with `stream_icon` and
      `stream_id` updated by later copies, and the two category lists. */
  datatype Movie = Movie(vod: Vod, categories: seq<string>, categoryNames: seq<string>)

  // ---------------------------------------------------------------------
  // The category-name map

  /** A category the map records: one with a name and an id. */
  predicate Registers(c: Category) {
    Merge.Truthy(c.categoryName) && Merge.Truthy(c.categoryId)
  }

  /** The lower-cased, trimmed name a category is recorded under. */
  function CategoryKey(c: Category): string {
    Merge.NameKey(c.categoryName)
  }

  /** `categoryNameToId`: each recorded category sets its key, so a later
      category of the same key overwrites an earlier one. */
  function NameToId(cats: seq<Category>): map<string, string> {
    RecordAll(cats, CategoryKey)
  }

  /** The `forEach` that fills the map, for a given key function. */
  function RecordAll(cats: seq<Category>, key: Category -> string): map<string, string>
    decreases |cats|
  {
    if cats == [] then map[]
    else
      var c := cats[|cats| - 1];
      var m := RecordAll(cats[..|cats| - 1], key);
      if Registers(c) then m[key(c) := c.categoryId.value] else m
  }

  /** The map has a key exactly when some recorded category has it, and
      no value is empty. */
  lemma {:induction false} RecordAllKeys(cats: seq<Category>, key: Category -> string)
    ensures forall k :: k in RecordAll(cats, key) <==>
      exists i :: 0 <= i < |cats| && Registers(cats[i]) && key(cats[i]) == k
    ensures forall k :: k in RecordAll(cats, key) ==> RecordAll(cats, key)[k] != ""
    decreases |cats|
  {
    if cats != [] {
      var p := cats[..|cats| - 1];
      RecordAllKeys(p, key);
      var c := cats[|cats| - 1];
      var m := RecordAll(cats, key);
      var mp := RecordAll(p, key);
      assert m == if Registers(c) then mp[key(c) := c.categoryId.value] else mp;
      forall k ensures k in m <==> exists i :: 0 <= i < |cats| && Registers(cats[i]) && key(cats[i]) == k {
        if k in m {
          if Registers(c) && k == key(c) {
            assert cats[|cats| - 1] == c;
          } else {
            var i :| 0 <= i < |p| && Registers(p[i]) && key(p[i]) == k;
            assert cats[i] == p[i];
          }
        }
        if exists i :: 0 <= i < |cats| && Registers(cats[i]) && key(cats[i]) == k {
          var i :| 0 <= i < |cats| && Registers(cats[i]) && key(cats[i]) == k;
          if i < |p| {
            assert cats[i] == p[i];
          }
        }
      }
    }
  }

  /** Later categories overwrite earlier ones: the value of a recorded
      category's key is its id when no later recorded category has that
      key. */
  lemma {:induction false} RecordAllLastWins(cats: seq<Category>, key: Category -> string, i: int)
    requires 0 <= i < |cats| && Registers(cats[i])
    requires forall j :: i < j < |cats| && Registers(cats[j]) ==> key(cats[j]) != key(cats[i])
    ensures key(cats[i]) in RecordAll(cats, key)
    ensures RecordAll(cats, key)[key(cats[i])] == cats[i].categoryId.value
    decreases |cats|
  {
    if i < |cats| - 1 {
      var p := cats[..|cats| - 1];
      assert p[i] == cats[i];
      forall j | i < j < |p| && Registers(p[j]) ensures key(p[j]) != key(p[i]) {
        assert p[j] == cats[j];
      }
      RecordAllLastWins(p, key, i);
    }
  }

  /** The category-name map: a key for every recorded category's
      lower-cased, trimmed name, never an empty id, and for each key the
      id of the last category recorded under it. */
  lemma NameToIdSpec(cats: seq<Category>, i: int)
    requires 0 <= i < |cats| && Registers(cats[i])
    requires forall j :: i < j < |cats| && Registers(cats[j]) ==> CategoryKey(cats[j]) != CategoryKey(cats[i])
    ensures var m := NameToId(cats);
      (forall k :: k in m <==> exists i :: 0 <= i < |cats| && Registers(cats[i]) && CategoryKey(cats[i]) == k) &&
      (forall k :: k in m ==> m[k] != "") &&
      m[CategoryKey(cats[i])] == cats[i].categoryId.value
  {
    RecordAllKeys(cats, CategoryKey);
    RecordAllLastWins(cats, CategoryKey, i);
  }

  // ---------------------------------------------------------------------
  // Categories of a first occurrence, from its genres

  /** `genre.charAt(0).toUpperCase() + genre.slice(1)`. */
  function Capitalize(g: string): (r: string)
    ensures |r| == |g|
    ensures g != "" ==> r[0] == JsString.UpperChar(g[0]) && r[1..] == g[1..]
  {
    if g == "" then "" else [JsString.UpperChar(g[0])] + g[1..]
  }

  /** `movie.genre.split(',').map(g => g.trim())`. */
  function Genres(genre: string): (r: seq<string>)
    ensures |r| == |JsString.Split(genre, ',')|
    ensures forall i :: 0 <= i < |r| ==> r[i] == JsString.Trim(JsString.Split(genre, ',')[i])
  {
    var parts := JsString.Split(genre, ',');
    seq(|parts|, i requires 0 <= i < |parts| => JsString.Trim(parts[i]))
  }

  /** The id a genre names: the map's value for its lower-case form, when
      that is truthy. */
  function GenreId(m: map<string, string>, g: string): Option<string> {
    var key := JsString.Lower(g);
    if key in m && m[key] != "" then Some(m[key]) else None
  }

  /** The ids the genres name, in order, repeats included. */
  function Matched(gs: seq<string>, m: map<string, string>): seq<string>
    decreases |gs|
  {
    if gs == [] then []
    else
      var id := GenreId(m, gs[|gs| - 1]);
      Matched(gs[..|gs| - 1], m) + (if id.Some? then [id.value] else [])
  }

  /** `genreCategories` and `genreCategoryNames`. */
  datatype GenreCats = GenreCats(ids: seq<string>, names: seq<string>)

  /** The `genres.forEach`: a genre whose id is not yet listed appends
      the id and its capitalised name. */
  function GenreFold(gs: seq<string>, m: map<string, string>): GenreCats
    decreases |gs|
  {
    if gs == [] then GenreCats([], [])
    else
      var acc := GenreFold(gs[..|gs| - 1], m);
      var g := gs[|gs| - 1];
      var id := GenreId(m, g);
      if id.Some? && id.value !in acc.ids then GenreCats(acc.ids + [id.value], acc.names + [Capitalize(g)])
      else acc
  }

  /** The ids are the distinct ids the genres name, in the order they are
      first named, with one name per id. */
  lemma {:induction false} GenreFoldSpec(gs: seq<string>, m: map<string, string>)
    ensures GenreFold(gs, m).ids == Seqs.Dedup(Matched(gs, m))
    ensures |GenreFold(gs, m).names| == |GenreFold(gs, m).ids|
    decreases |gs|
  {
    if gs != [] {
      var p := gs[..|gs| - 1];
      GenreFoldSpec(p, m);
      var id := GenreId(m, gs[|gs| - 1]);
      var s := Matched(gs, m);
      if id.Some? {
        assert s == Matched(p, m) + [id.value];
        assert s[..|s| - 1] == Matched(p, m);
      } else {
        assert s == Matched(p, m);
      }
    }
  }

  /** The genre categories of a record: none without a genre. */
  function GenreCategories(genre: Option<string>, m: map<string, string>): (r: GenreCats)
    ensures Seqs.NoDups(r.ids) && |r.names| == |r.ids|
    ensures forall id :: id in r.ids <==> Merge.Truthy(genre) && id in Matched(Genres(genre.value), m)
    ensures |r.ids| > 0 <==> Merge.Truthy(genre) && Matched(Genres(genre.value), m) != []
  {
    if Merge.Truthy(genre) then
      var s := Matched(Genres(genre.value), m);
      GenreFoldSpec(Genres(genre.value), m);
      assert s != [] ==> s[0] in Seqs.Dedup(s);
      GenreFold(Genres(genre.value), m)
    else GenreCats([], [])
  }

  /** The inner `if (movie.genre)` block as the page runs it. */
  method ParseGenres(genre: Option<string>, m: map<string, string>) returns (ids: seq<string>, names: seq<string>)
    ensures GenreCats(ids, names) == GenreCategories(genre, m)
  {
    ids, names := [], [];
    if Merge.Truthy(genre) {
      ids, names := FoldGenres(Genres(genre.value), m);
    }
  }

  /** The `genres.forEach` loop. */
  method FoldGenres(gs: seq<string>, m: map<string, string>) returns (ids: seq<string>, names: seq<string>)
    ensures GenreCats(ids, names) == GenreFold(gs, m)
  {
    ids, names := [], [];
    var i := 0;
    while i < |gs|
      invariant 0 <= i <= |gs|
      invariant GenreCats(ids, names) == GenreFold(gs[..i], m)
    {
      assert gs[..i + 1][..i] == gs[..i];
      var key := JsString.Lower(gs[i]);
      if key in m && m[key] != "" && m[key] !in ids {
        ids := ids + [m[key]];
        names := names + [Capitalize(gs[i])];
      }
      i := i + 1;
    }
    assert gs[..i] == gs;
  }

  /** The entry a first occurrence creates, as the page writes it: its
      genre categories, or else its category name, and its genre names, or
      else its category name. The fallback of `categories` is thus a name,
      while every other value in that list, and the value the category
      filter compares it with, is a category id. */
  function FirstMovie(m: map<string, string>, v: Vod): Movie {
    var gc := GenreCategories(v.genre, m);
    Movie(v,
          if |gc.ids| > 0 then gc.ids else if Merge.Truthy(v.categoryName) then [v.categoryName.value] else [],
          if |gc.names| > 0 then gc.names else if Merge.Truthy(v.categoryName) then [v.categoryName.value] else [])
  }

  /** The categories of a first occurrence are distinct: the ids its genres
      name when there are any, else its own truthy category name; its
      names are distinct as well, the genre names or else its category
      name. */
  lemma FirstMovieCategories(m: map<string, string>, v: Vod)
    ensures FirstMovie(m, v).vod == v
    ensures Seqs.NoDups(FirstMovie(m, v).categories) && Seqs.NoDups(FirstMovie(m, v).categoryNames)
    ensures forall c :: c in FirstMovie(m, v).categories <==>
      if Merge.Truthy(v.genre) && Matched(Genres(v.genre.value), m) != [] then c in Matched(Genres(v.genre.value), m)
      else Merge.Truthy(v.categoryName) && c == v.categoryName.value
    ensures !(Merge.Truthy(v.genre) && Matched(Genres(v.genre.value), m) != []) ==>
      FirstMovie(m, v).categoryNames == (if Merge.Truthy(v.categoryName) then [v.categoryName.value] else [])
  {
    var gc := GenreCategories(v.genre, m);
    if Merge.Truthy(v.genre) {
      GenreNamesNoDups(Genres(v.genre.value), m);
      assert gc == GenreFold(Genres(v.genre.value), m);
    }
  }

  /** Two genres with the same capitalised form agree up to case, so
      they name the same id. */
  lemma CapitalizeLower(a: string, b: string)
    ensures Capitalize(a) == Capitalize(b) ==> JsString.Lower(a) == JsString.Lower(b)
  {
    if Capitalize(a) == Capitalize(b) && a != "" {
      assert |b| == |a|;
      forall i | 0 <= i < |a| ensures JsString.LowerChar(a[i]) == JsString.LowerChar(b[i]) {
        if i > 0 {
          assert a[i] == Capitalize(a)[i] == Capitalize(b)[i] == b[i];
        } else {
          assert JsString.UpperChar(a[0]) == Capitalize(a)[0] == Capitalize(b)[0] == JsString.UpperChar(b[0]);
        }
      }
    }
  }

  /** Each listed name is the capitalised form of a genre that names the
      id at the same position. */
  lemma {:induction false} GenreNamesIds(gs: seq<string>, m: map<string, string>)
    ensures var r := GenreFold(gs, m);
      |r.names| == |r.ids| &&
      forall i :: 0 <= i < |r.names| ==>
        exists j :: 0 <= j < |gs| && Capitalize(gs[j]) == r.names[i] && GenreId(m, gs[j]) == Some(r.ids[i])
    decreases |gs|
  {
    if gs != [] {
      var p := gs[..|gs| - 1];
      GenreNamesIds(p, m);
      var acc := GenreFold(p, m);
      var r := GenreFold(gs, m);
      forall i | 0 <= i < |r.names|
        ensures exists j :: 0 <= j < |gs| && Capitalize(gs[j]) == r.names[i] && GenreId(m, gs[j]) == Some(r.ids[i])
      {
        if i < |acc.names| {
          var j :| 0 <= j < |p| && Capitalize(p[j]) == acc.names[i] && GenreId(m, p[j]) == Some(acc.ids[i]);
          assert gs[j] == p[j];
        } else {
          assert gs[|gs| - 1] == gs[|p|];
        }
      }
    }
  }

  /** The names the genre fold lists are distinct as well: two genres with
      the same capitalised form name the same id, and only the first of
      them is listed. */
  lemma {:induction false} GenreNamesNoDups(gs: seq<string>, m: map<string, string>)
    ensures Seqs.NoDups(GenreFold(gs, m).names)
    decreases |gs|
  {
    if gs != [] {
      var p := gs[..|gs| - 1];
      GenreNamesNoDups(p, m);
      GenreNamesIds(p, m);
      var acc := GenreFold(p, m);
      var g := gs[|gs| - 1];
      var id := GenreId(m, g);
      if id.Some? && id.value !in acc.ids {
        forall i | 0 <= i < |acc.names| ensures acc.names[i] != Capitalize(g) {
          var j :| 0 <= j < |p| && Capitalize(p[j]) == acc.names[i] && GenreId(m, p[j]) == Some(acc.ids[i]);
          assert acc.ids[i] in acc.ids;
          CapitalizeLower(p[j], g);
        }
        var r := acc.names + [Capitalize(g)];
        forall i, j | 0 <= i < j < |r| ensures r[i] != r[j] {
          if j == |acc.names| { assert r[i] == acc.names[i]; }
          else { assert r[i] == acc.names[i] && r[j] == acc.names[j]; }
        }
      }
    }
  }

  // ---------------------------------------------------------------------
  // The merge by name

  /** The key a record is merged under. */
  function Key(v: Vod): string {
    Merge.NameKey(v.name)
  }

  /** The entry a first occurrence creates, as a function value. */
  function First(m: map<string, string>): Vod -> Movie {
    v => FirstMovie(m, v)
  }

  /** The record of an entry after absorbing a later copy: the copy's
      icon is taken when the entry has none, and its stream id when it is
      larger. */
  function AbsorbVod(e: Vod, v: Vod): Vod {
    e.(streamIcon := if Merge.Truthy(v.streamIcon) && !Merge.Truthy(e.streamIcon) then v.streamIcon else e.streamIcon,
       streamId := if v.streamId > e.streamId then v.streamId else e.streamId)
  }

  /** A later copy absorbed into the entry: its category id and name are
      appended when truthy and absent, and the record is updated. */
  function Absorb(e: Movie, v: Vod): Movie {
    Movie(AbsorbVod(e.vod, v), Merge.AddAbsent(e.categories, v.categoryId), Merge.AddAbsent(e.categoryNames, v.categoryName))
  }

  /** The record of a merged group: the first copy, absorbing the others in
      turn. */
  function VodFold(g: seq<Vod>): Vod
    requires |g| >= 1
    decreases |g|
  {
    if |g| == 1 then g[0] else AbsorbVod(VodFold(g[..|g| - 1]), g[|g| - 1])
  }

  /** A merged record keeps its first copy's fields apart from the icon and
      the stream id, and its stream id is the largest of the group's. */
  lemma {:induction false} VodFoldSpec(g: seq<Vod>)
    requires |g| >= 1
    ensures VodFold(g).(streamIcon := g[0].streamIcon, streamId := g[0].streamId) == g[0]
    ensures forall x :: x in g ==> x.streamId <= VodFold(g).streamId
    ensures exists i :: 0 <= i < |g| && g[i].streamId == VodFold(g).streamId
    decreases |g|
  {
    if |g| > 1 {
      var p := g[..|g| - 1];
      assert p[0] == g[0];
      VodFoldSpec(p);
      assert forall x :: x in g ==> x in p || x == g[|g| - 1];
      var i :| 0 <= i < |p| && p[i].streamId == VodFold(p).streamId;
      assert g[i] == p[i];
    }
  }

  /** The icon of a merged record is the first truthy icon of its group,
      or the first copy's when none is truthy. */
  lemma {:induction false} VodFoldIcon(g: seq<Vod>)
    requires |g| >= 1
    ensures Merge.Truthy(VodFold(g).streamIcon) <==> exists i :: 0 <= i < |g| && Merge.Truthy(g[i].streamIcon)
    ensures forall i :: (0 <= i < |g| && Merge.Truthy(g[i].streamIcon) &&
                         (forall j :: 0 <= j < i ==> !Merge.Truthy(g[j].streamIcon))) ==>
      VodFold(g).streamIcon == g[i].streamIcon
    ensures (forall i :: 0 <= i < |g| ==> !Merge.Truthy(g[i].streamIcon)) ==> VodFold(g).streamIcon == g[0].streamIcon
    decreases |g|
  {
    if |g| > 1 {
      var p := g[..|g| - 1];
      assert p[0] == g[0];
      VodFoldIcon(p);
      assert forall i :: 0 <= i < |p| ==> g[i] == p[i];
    }
  }

  /** `uniqueMovies`: the merged entries in the order their names first
      appear. */
  function UniqueMovies(items: seq<Vod>, m: map<string, string>): seq<Movie> {
    Merge.MergeAllKeys(items, Key, First(m), Absorb);
    Merge.Values(Merge.MergeAll(items, Key, First(m), Absorb))
  }

  /** The first branch of the `forEach`: the entry of a name seen for the
      first time. */
  method NewEntry(movie: Vod, m: map<string, string>) returns (entry: Movie)
    ensures entry == FirstMovie(m, movie)
  {
    var ids, names := ParseGenres(movie.genre, m);
    var categories := if |ids| > 0 then ids
                      else if Merge.Truthy(movie.categoryName) then [movie.categoryName.value] else [];
    var categoryNames := if |names| > 0 then names
                         else if Merge.Truthy(movie.categoryName) then [movie.categoryName.value] else [];
    entry := Movie(movie, categories, categoryNames);
  }

  /** The `else` branch of the `forEach`: a later copy merged into the
      entry of its name. */
  method MergeCopy(existing: Movie, movie: Vod) returns (merged: Movie)
    ensures merged == Absorb(existing, movie)
  {
    var categories := existing.categories;
    if Merge.Truthy(movie.categoryId) && movie.categoryId.value !in categories {
      categories := categories + [movie.categoryId.value];
    }
    var categoryNames := existing.categoryNames;
    if Merge.Truthy(movie.categoryName) && movie.categoryName.value !in categoryNames {
      categoryNames := categoryNames + [movie.categoryName.value];
    }
    var vod := existing.vod;
    if Merge.Truthy(movie.streamIcon) && !Merge.Truthy(vod.streamIcon) {
      vod := vod.(streamIcon := movie.streamIcon);
    }
    if movie.streamId > vod.streamId {
      vod := vod.(streamId := movie.streamId);
    }
    merged := Movie(vod, categories, categoryNames);
  }

  /** The `movieItems.forEach` loop followed by `Array.from(values())`. */
  method MergeMovies(items: seq<Vod>, m: map<string, string>) returns (movies: seq<Movie>)
    ensures movies == UniqueMovies(items, m)
  {
    var keys: seq<string> := [];
    var entries: map<string, Movie> := map[];
    var i := 0;
    while i < |items|
      invariant 0 <= i <= |items|
      invariant Merge.Table(keys, entries) == Merge.MergeUpTo(items, i, Key, First(m), Absorb)
    {
      keys, entries := AddMovie(keys, entries, items[i], m);
      Merge.MergeUpToStep(items, i, Key, First(m), Absorb, Merge.Table(keys, entries));
      i := i + 1;
    }
    Merge.MergeUpToComplete(items, Key, First(m), Absorb);
    movies := Merge.Values(Merge.Table(keys, entries));
  }

  /** One `forEach` step over a film: a new name gets its first entry with
      the genre categories, a known one absorbs the copy. */
  method AddMovie(keys0: seq<string>, entries0: map<string, Movie>, movie: Vod, m: map<string, string>)
    returns (keys: seq<string>, entries: map<string, Movie>)
    ensures Merge.Table(keys, entries) == Merge.Insert(Merge.Table(keys0, entries0), movie, Key, First(m), Absorb)
  {
    keys, entries := keys0, entries0;
    var name := Key(movie);
    if name != "" {
      if name !in entries {
        var entry := NewEntry(movie, m);
        keys := keys + [name];
        entries := entries[name := entry];
        assert entries == entries0[name := First(m)(movie)];
      } else {
        var merged := MergeCopy(entries[name], movie);
        entries := entries[name := merged];
      }
    }
  }

  /** The record of a merged film is the merged record of its group, for
      any first entry that keeps the record. */
  lemma {:induction false} GroupVod(g: seq<Vod>, first: Vod -> Movie)
    requires |g| >= 1 && first(g[0]).vod == g[0]
    ensures Merge.FoldGroup(g, first, Absorb).vod == VodFold(g)
    decreases |g|
  {
    if |g| > 1 {
      var p := g[..|g| - 1];
      assert p[0] == g[0];
      GroupVod(p, first);
    }
  }

  /** The category lists of a merged film stay free of duplicates when the
      first entry's are; its categories are those of the first entry and
      the truthy category ids of the later copies, and its names likewise. */
  lemma {:induction false} GroupCategories(g: seq<Vod>, first: Vod -> Movie)
    requires |g| >= 1 && Seqs.NoDups(first(g[0]).categories) && Seqs.NoDups(first(g[0]).categoryNames)
    ensures Seqs.NoDups(Merge.FoldGroup(g, first, Absorb).categories)
    ensures Seqs.NoDups(Merge.FoldGroup(g, first, Absorb).categoryNames)
    ensures forall c :: c in Merge.FoldGroup(g, first, Absorb).categories <==>
      c in first(g[0]).categories ||
      exists i :: 1 <= i < |g| && Merge.Truthy(g[i].categoryId) && g[i].categoryId.value == c
    ensures forall c :: c in Merge.FoldGroup(g, first, Absorb).categoryNames <==>
      c in first(g[0]).categoryNames ||
      exists i :: 1 <= i < |g| && Merge.Truthy(g[i].categoryName) && g[i].categoryName.value == c
    decreases |g|
  {
    if |g| > 1 {
      var p := g[..|g| - 1];
      assert p[0] == g[0];
      GroupCategories(p, first);
      assert forall i :: 0 <= i < |p| ==> g[i] == p[i];
    }
  }

  /** The films merged from a list: one per distinct non-empty name, in
      the order each name first appears, each named after its key. */
  lemma UniqueMoviesKeys(items: seq<Vod>, m: map<string, string>)
    ensures var ks := Seqs.Dedup(Merge.Keys(items, Key));
      |UniqueMovies(items, m)| == |ks| &&
      forall i :: 0 <= i < |ks| ==> Key(UniqueMovies(items, m)[i].vod) == ks[i] && ks[i] != ""
  {
    var ks := Seqs.Dedup(Merge.Keys(items, Key));
    var t := Merge.MergeAll(items, Key, First(m), Absorb);
    Merge.MergeAllKeys(items, Key, First(m), Absorb);
    forall i | 0 <= i < |ks| ensures Key(UniqueMovies(items, m)[i].vod) == ks[i] && ks[i] != "" {
      assert ks[i] in ks;
      Merge.MergeAllEntry(items, Key, First(m), Absorb, ks[i]);
      var g := Merge.Group(items, Key, ks[i]);
      FirstMovieCategories(m, g[0]);
      GroupVod(g, First(m));
      VodFoldSpec(g);
      assert g[0] in g;
    }
  }

  /** The film at position `i` is the fold of the copies named like it. */
  lemma UniqueMovie(items: seq<Vod>, m: map<string, string>, i: int)
    requires 0 <= i < |Seqs.Dedup(Merge.Keys(items, Key))|
    ensures var g := Merge.Group(items, Key, Seqs.Dedup(Merge.Keys(items, Key))[i]);
      |g| >= 1 && i < |UniqueMovies(items, m)| && UniqueMovies(items, m)[i] == Merge.FoldGroup(g, First(m), Absorb)
  {
    var ks := Seqs.Dedup(Merge.Keys(items, Key));
    Merge.MergeAllKeys(items, Key, First(m), Absorb);
    assert ks[i] in ks;
    Merge.MergeAllEntry(items, Key, First(m), Absorb, ks[i]);
  }

  /** What the page promises about each merged film: it keeps its first
      copy's name, its stream id is the largest of the copies named like
      it and its icon the first truthy one of theirs, and both category
      lists are free of duplicates and hold the first copy's categories
      and the truthy ids and names of the later copies. */
  lemma MergedMovieSpec(items: seq<Vod>, m: map<string, string>, i: int)
    requires 0 <= i < |UniqueMovies(items, m)|
    ensures var mv := UniqueMovies(items, m)[i];
      var g := Merge.Group(items, Key, Key(mv.vod));
      |g| >= 1 && Key(mv.vod) != "" && mv.vod.name == g[0].name &&
      (forall x :: x in g ==> x.streamId <= mv.vod.streamId) &&
      (exists j :: 0 <= j < |g| && g[j].streamId == mv.vod.streamId) &&
      (Merge.Truthy(mv.vod.streamIcon) <==> exists j :: 0 <= j < |g| && Merge.Truthy(g[j].streamIcon)) &&
      (forall j :: (0 <= j < |g| && Merge.Truthy(g[j].streamIcon) &&
                    (forall k :: 0 <= k < j ==> !Merge.Truthy(g[k].streamIcon))) ==>
        mv.vod.streamIcon == g[j].streamIcon) &&
      Seqs.NoDups(mv.categories) && Seqs.NoDups(mv.categoryNames) &&
      (forall c :: c in mv.categories <==>
        c in FirstMovie(m, g[0]).categories ||
        exists j :: 1 <= j < |g| && Merge.Truthy(g[j].categoryId) && g[j].categoryId.value == c) &&
      (forall c :: c in mv.categoryNames <==>
        c in FirstMovie(m, g[0]).categoryNames ||
        exists j :: 1 <= j < |g| && Merge.Truthy(g[j].categoryName) && g[j].categoryName.value == c)
  {
    UniqueMoviesKeys(items, m);
    UniqueMovie(items, m, i);
    var ks := Seqs.Dedup(Merge.Keys(items, Key));
    var g := Merge.Group(items, Key, ks[i]);
    FirstMovieCategories(m, g[0]);
    GroupVod(g, First(m));
    VodFoldSpec(g);
    VodFoldIcon(g);
    GroupCategories(g, First(m));
  }

  // ---------------------------------------------------------------------
  // The fallback category of a first occurrence

  /** The entry a first occurrence would create with the category id as
      the fallback of `categories`, as the later copies and the home
      page's series use it. */
  function FirstMovieFixed(m: map<string, string>, v: Vod): Movie {
    var gc := GenreCategories(v.genre, m);
    Movie(v,
          if |gc.ids| > 0 then gc.ids else if Merge.Truthy(v.categoryId) then [v.categoryId.value] else [],
          if |gc.names| > 0 then gc.names else if Merge.Truthy(v.categoryName) then [v.categoryName.value] else [])
  }

  /** The corrected first entry, as a function value. */
  function FirstFixed(m: map<string, string>): Vod -> Movie {
    v => FirstMovieFixed(m, v)
  }

  /** A film with no genre, category id "5" and category name "Action" is
      filed under "Action" by the page, so selecting its own category "5"
      does not show it. */
  lemma FallbackHidesMovie()
    ensures var mv := FirstMovie(map[], FallbackFilm);
      FallbackFilm.categoryId == Some("5") && mv.categories == ["Action"] && !Shown(mv, "", Some("5"))
  {
  }

  /** A list of one named film merges into that film's first entry. */
  lemma UniqueMoviesSingle(v: Vod, m: map<string, string>)
    requires Key(v) != ""
    ensures UniqueMovies([v], m) == [FirstMovie(m, v)]
  {
    Merge.MergeAllSingle(v, Key, First(m), Absorb);
  }

  /** The film of the counterexample: no genre, category id "5",
      category name "Action". */
  const FallbackFilm := Vod(Some("Film"), 1, None, None, Some("5"), Some("Action"), None, None)

  /** The name "Film" has the merge key "film". */
  lemma FilmKey()
    ensures Key(FallbackFilm) == "film"
  {
    var l := JsString.Lower("Film");
    assert l == "film" by {
      assert l[0] == 'f' && l[1] == 'i' && l[2] == 'l' && l[3] == 'm';
    }
    JsString.TrimUnchanged(l);
  }

  /** A film the test rejects is not among the films listed. */
  lemma FilteredOne(mv: Movie, query: string, selected: Option<string>)
    requires !Shown(mv, query, selected)
    ensures FilteredMovies([mv], query, selected) == []
  {
  }

  /** The same film loaded by the page on its own, with no category
      list: the merged list holds it, and selecting its category "5" lists
      nothing. */
  lemma FallbackHidesMovieOnPage()
    ensures var movies := UniqueMovies([FallbackFilm], NameToId([]));
      |movies| == 1 && movies[0].vod == FallbackFilm && FilteredMovies(movies, "", Some("5")) == []
  {
    assert NameToId([]) == map[];
    FilmKey();
    UniqueMoviesSingle(FallbackFilm, map[]);
    FallbackHidesMovie();
    FilteredOne(FirstMovie(map[], FallbackFilm), "", Some("5"));
  }

  /** With the id as the fallback, a film is listed under the category id
      of every copy when its first copy's genres name no category. */
  lemma FallbackShowsMovie(g: seq<Vod>, m: map<string, string>, i: int)
    requires |g| >= 1 && GenreCategories(g[0].genre, m).ids == []
    requires 0 <= i < |g| && Merge.Truthy(g[i].categoryId)
    ensures g[i].categoryId.value in Merge.FoldGroup(g, FirstFixed(m), Absorb).categories
  {
    var f := FirstMovieFixed(m, g[0]);
    assert Seqs.NoDups(f.categoryNames) by {
      if Merge.Truthy(g[0].genre) {
        GenreNamesNoDups(Genres(g[0].genre.value), m);
        assert GenreCategories(g[0].genre, m) == GenreFold(Genres(g[0].genre.value), m);
      }
    }
    GroupCategories(g, FirstFixed(m));
    var c := g[i].categoryId.value;
    if i == 0 {
      assert f.categories == [c];
      assert c in FirstFixed(m)(g[0]).categories;
    } else {
      assert 1 <= i < |g| && Merge.Truthy(g[i].categoryId) && g[i].categoryId.value == c;
    }
  }

  // ---------------------------------------------------------------------
  // Search, category filter and counts

  /** `filteredMovies`' test: the name includes the query, ignoring case,
      and no category is selected or the film is in it. */
  predicate Shown(mv: Movie, query: string, selected: Option<string>) {
    mv.vod.name.Some? && JsString.Includes(JsString.Lower(mv.vod.name.value), JsString.Lower(query)) &&
    (selected.None? || selected.value in mv.categories)
  }

  function ShownBy(query: string, selected: Option<string>): Movie -> bool {
    (mv: Movie) => Shown(mv, query, selected)
  }

  /** `filteredMovies`: the films passing the test, in their order. */
  function FilteredMovies(movies: seq<Movie>, query: string, selected: Option<string>): (r: seq<Movie>)
    ensures |r| <= |movies|
    ensures forall mv :: mv in r <==> mv in movies && Shown(mv, query, selected)
  {
    Seqs.Filter(movies, ShownBy(query, selected))
  }

  function InCategory(c: string): Movie -> bool {
    (mv: Movie) => c in mv.categories
  }

  /** `getCategoryCount`: all films for the null id, else those in the
      category. */
  function CategoryCount(movies: seq<Movie>, categoryId: Option<string>): (n: nat)
    ensures n <= |movies|
    ensures categoryId.None? ==> n == |movies|
    ensures categoryId.Some? ==> (n == 0 <==> forall mv :: mv in movies ==> categoryId.value !in mv.categories)
  {
    if categoryId.None? then |movies| else Seqs.Count(movies, InCategory(categoryId.value))
  }

  /** The count of a category is the number of films the page lists for
      it with an empty search, since every merged film has a name. */
  lemma CountMatchesFilter(items: seq<Vod>, m: map<string, string>, categoryId: Option<string>)
    ensures var movies := UniqueMovies(items, m);
      CategoryCount(movies, categoryId) == |FilteredMovies(movies, "", categoryId)|
  {
    var movies := UniqueMovies(items, m);
    UniqueMoviesKeys(items, m);
    forall mv | mv in movies ensures mv.vod.name.Some? {
      var i :| 0 <= i < |movies| && movies[i] == mv;
    }
    forall mv | mv in movies ensures JsString.Includes(JsString.Lower(mv.vod.name.value), JsString.Lower("")) {
      JsString.IncludesTrivially(JsString.Lower(mv.vod.name.value));
    }
    if categoryId.None? {
      Seqs.FilterAll(movies, ShownBy("", categoryId));
    } else {
      Seqs.FilterSame(movies, ShownBy("", categoryId), InCategory(categoryId.value));
    }
  }

  // ---------------------------------------------------------------------
  // The page state

  /** The message shown when the VOD list is not an array, or an error
      has no message. */
  const LoadError := "Fehler beim Laden der Filme"

  /** `err.message || 'Fehler beim Laden der Filme'`. */
  function ErrorText(message: string): string {
    if message == "" then LoadError else message
  }

  /** The category list: the page's own "all films" entry without an id,
      then the server's categories when they came as an array. */
  function CategoryList(answer: Option<seq<Category>>, allLabel: string): (r: seq<Category>)
    ensures |r| >= 1 && r[0] == Category(None, Some(allLabel))
    ensures r[1..] == answer.GetOr([])
  {
    [Category(None, Some(allLabel))] + answer.GetOr([])
  }

  class MoviesPage {
    var categories: seq<Category>
    var movies: seq<Movie>
    var hasLoaded: bool
    var isLoading: bool
    var error: Option<string>
    var selectedCategory: Option<string>
    var searchQuery: string

    /** The initial state; `initialSelectedCategory || null` turns an empty
        id into no selection. */
    constructor(initialCategory: Option<string>)
      ensures categories == [] && movies == [] && !hasLoaded && isLoading && error.None?
      ensures selectedCategory == (if Merge.Truthy(initialCategory) then initialCategory else None)
      ensures searchQuery == ""
    {
      categories := [];
      movies := [];
      hasLoaded := false;
      isLoading := true;
      error := None;
      selectedCategory := if Merge.Truthy(initialCategory) then initialCategory else None;
      searchQuery := "";
    }

    /** The load effect. It does nothing when the tab is inactive, the data
        is loaded, or there is no user. Otherwise the category request and
        then the VOD request are answered; a failed request or a VOD answer
        that is not an array sets the error and leaves the lists, and a
        list of records is merged and stored with the category list. */
    method LoadData(isActive: bool, hasUser: bool, categoriesAnswer: Result<Option<seq<Category>>>,
                    vodAnswer: Result<Option<seq<Vod>>>, allLabel: string)
      modifies this
      ensures selectedCategory == old(selectedCategory) && searchQuery == old(searchQuery)
      ensures !isActive || old(hasLoaded) || !hasUser ==>
        categories == old(categories) && movies == old(movies) && hasLoaded == old(hasLoaded) &&
        isLoading == old(isLoading) && error == old(error)
      ensures isActive && !old(hasLoaded) && hasUser ==>
        !isLoading &&
        (if categoriesAnswer.Err? || vodAnswer.Err? || vodAnswer.value.None? then
           categories == old(categories) && movies == old(movies) && !hasLoaded &&
           error == Some(if categoriesAnswer.Err? then ErrorText(categoriesAnswer.error)
                         else if vodAnswer.Err? then ErrorText(vodAnswer.error)
                         else LoadError)
         else
           categories == CategoryList(categoriesAnswer.value, allLabel) &&
           movies == UniqueMovies(vodAnswer.value.value, NameToId(categoriesAnswer.value.GetOr([]))) &&
           hasLoaded && error.None?)
    {
      if !isActive || hasLoaded || !hasUser {
        return;
      }
      isLoading := true;
      error := None;
      if categoriesAnswer.Err? {
        error := Some(ErrorText(categoriesAnswer.error));
      } else if vodAnswer.Err? {
        error := Some(ErrorText(vodAnswer.error));
      } else if vodAnswer.value.None? {
        error := Some(LoadError);
      } else {
        var nameToId := NameToId(categoriesAnswer.value.GetOr([]));
        var unique := MergeMovies(vodAnswer.value.value, nameToId);
        categories := CategoryList(categoriesAnswer.value, allLabel);
        movies := unique;
        hasLoaded := true;
      }
      isLoading := false;
    }

    /** The films the page lists. */
    function Visible(): seq<Movie>
      reads this
    {
      FilteredMovies(movies, searchQuery, selectedCategory)
    }
  }
}

/** The live-TV page (src/LiveTV.jsx): its own M3U parser and URL rewriter,
    the filter that drops video-on-demand entries, the category list built
    from the `group-title` attributes, and the search and category filters
    of the channel list. */
module LiveTv {
  import opened Wrappers
  import JsString
  import Seqs
  import opened Web
  import opened M3u
  import Playlist

  /** One channel of the page; an attribute missing from the `#EXTINF` line
      is `None`. A channel still waiting for its URL line has the empty URL. */
  datatype Channel = Channel(
    xuiId: Option<string>,
    tvgId: Option<string>,
    tvgName: Option<string>,
    tvgLogo: Option<string>,
    groupTitle: Option<string>,
    name: Option<string>,
    url: string)

  /** The server paths this page's rewriter shortens. */
  predicate ShortenedPath(path: string) {
    JsString.StartsWith(path, "/play/") || JsString.StartsWith(path, "/images/")
  }

  /** This page's `rewriteUrlForProxy(url)`: a stream or image URL becomes
      its path, query and fragment, with no `/api` prefix; it throws when
      the configured server address does not parse. */
  function RewriteUrlForProxy(url: string, env: Env): (r: Result<string>)
    ensures url == "" ==> r == Ok(url)
    ensures ContextProxy(env).Ok? ==> r.Ok?
    ensures ContextProxy(env) == Ok(false) ==> r == Ok(url)
    ensures url != "" && ContextProxy(env).Err? ==> r.Err?
    ensures url != "" && ContextProxy(env) == Ok(true) && env.parse(url).Some? &&
            ShortenedPath(env.parse(url).value.pathname) ==>
      var u := env.parse(url).value; r == Ok(u.pathname + u.search + u.hash)
    ensures (url != "" && ContextProxy(env) == Ok(true) &&
             (env.parse(url).None? || !ShortenedPath(env.parse(url).value.pathname))) ==> r == Ok(url)
  {
    if url == "" then Ok(url)
    else
      var proxy := ContextProxy(env);
      if proxy.Err? then Err(proxy.error)
      else if !proxy.value then Ok(url)
      else
        var u := env.parse(url);
        if u.Some? && ShortenedPath(u.value.pathname) then Ok(u.value.pathname + u.value.search + u.value.hash)
        else Ok(url)
  }

  /** A shortened URL is a path of the page's own origin, so rewriting it
      again changes nothing as long as the URL parser rejects paths. */
  lemma RewriteUrlForProxyIdempotent(url: string, env: Env)
    requires forall s :: JsString.StartsWith(s, "/") ==> env.parse(s).None?
    requires RewriteUrlForProxy(url, env).Ok?
    ensures RewriteUrlForProxy(RewriteUrlForProxy(url, env).value, env) == RewriteUrlForProxy(url, env)
  {
    var r := RewriteUrlForProxy(url, env).value;
    if r != url {
      var u := env.parse(url).value;
      ShortenedIsPath(u.pathname, u.search, u.hash);
      assert env.parse(r).None?;
    }
  }

  lemma ShortenedIsPath(p: string, search: string, hash: string)
    requires ShortenedPath(p)
    ensures JsString.StartsWith(p + search + hash, "/")
  {
    assert p[..1] == "/" by {
      if JsString.StartsWith(p, "/play/") { assert p[..1] == p[..6][..1]; }
      else { assert p[..1] == p[..8][..1]; }
    }
    var r := p + search + hash;
    assert r == p + (search + hash);
    assert r[..1] == p[..1];
  }

  // ---------------------------------------------------------------------
  // The parser

  /** The channel opened by a trimmed `#EXTINF` line; its name is the
      trimmed text after the comma that `/,(.+)$/` finds. */
  function HeaderOf(line: string, env: Env): (h: Result<Channel>)
    ensures ContextProxy(env).Ok? ==> h.Ok?
    ensures ContextProxy(env).Err? && Attr(line, "tvg-logo", true).Some? && Attr(line, "tvg-logo", true).value != "" ==>
      h.Err?
  {
    var logo := Attr(line, "tvg-logo", true);
    var icon := if logo.None? then Ok(None)
                else var r := RewriteUrlForProxy(logo.value, env); if r.Err? then Err(r.error) else Ok(Some(r.value));
    var name := AfterComma(line);
    if icon.Err? then Err(icon.error)
    else Ok(Channel(Attr(line, "xui-id", false), Attr(line, "tvg-id", true), Attr(line, "tvg-name", false),
                    icon.value, Attr(line, "group-title", false),
                    if name.None? then None else Some(JsString.Trim(name.value)), ""))
  }

  /** The channel completed by a trimmed URL line. */
  function WithUrl(channel: Channel, line: string, env: Env): (r: Result<Channel>)
    ensures ContextProxy(env).Ok? ==> r.Ok?
  {
    var r := RewriteUrlForProxy(line, env);
    if r.Err? then Err(r.error) else Ok(channel.(url := r.value))
  }

  function HeaderStep(env: Env): string -> Result<Channel> {
    line => HeaderOf(line, env)
  }

  function UrlStep(env: Env): (Channel, string) -> Result<Channel> {
    (channel, line) => WithUrl(channel, line, env)
  }

  /** What this page's `parseM3U(text)` returns, or the error it throws. */
  function ParseM3UOutcome(text: string, env: Env): Result<seq<Channel>> {
    Entries(Lines(text), Classify, HeaderStep(env), UrlStep(env))
  }

  /** `parseM3U`: the line loop over the trimmed lines of the text. */
  method ParseM3U(text: string, env: Env) returns (r: Result<seq<Channel>>)
    ensures r == ParseM3UOutcome(text, env)
  {
    var lines := Lines(text);
    r := ScanLines(lines, Classify, HeaderStep(env), UrlStep(env));
  }

  lemma HeaderStepOk(env: Env, l: string)
    requires ContextProxy(env).Ok?
    ensures HeaderStep(env)(l).Ok?
  {
  }

  lemma UrlStepOk(env: Env, channel: Channel, l: string)
    requires ContextProxy(env).Ok?
    ensures UrlStep(env)(channel, l).Ok?
  {
  }

  /** When the server address parses, no step of the parse throws. */
  lemma TotalSteps(env: Env)
    requires ContextProxy(env).Ok?
    ensures Total(HeaderStep(env), UrlStep(env))
  {
    forall l ensures HeaderStep(env)(l).Ok? {
      HeaderStepOk(env, l);
    }
    forall channel, l ensures UrlStep(env)(channel, l).Ok? {
      UrlStepOk(env, channel, l);
    }
    TotalOf(HeaderStep(env), UrlStep(env));
  }

  /** The lines pair up exactly as in the playlist context: one channel per
      `#EXTINF` line and the next URL line after it. */
  lemma ParseM3USpec(text: string, env: Env, x: Channel)
    requires ContextProxy(env).Ok?
    ensures Total(HeaderStep(env), UrlStep(env))
    ensures ParseM3UOutcome(text, env).Ok?
    ensures x in ParseM3UOutcome(text, env).value <==>
      Produced(Lines(text), Classify, HeaderStep(env), UrlStep(env), x)
  {
    TotalSteps(env);
    EntriesSpec(Lines(text), Classify, HeaderStep(env), UrlStep(env), x);
  }

  /** The channel of header line `i` and URL line `j` is the header's
      channel with the rewritten URL line as its URL. */
  lemma EntryOfPair(lines: seq<string>, env: Env, i: nat, j: nat)
    requires ContextProxy(env).Ok?
    requires i < |lines| && j < |lines|
    ensures Total(HeaderStep(env), UrlStep(env))
    ensures Entry(lines, HeaderStep(env), UrlStep(env), i, j) ==
      HeaderOf(lines[i], env).value.(url := RewriteUrlForProxy(lines[j], env).value)
  {
    TotalSteps(env);
    HeaderStepOk(env, lines[i]);
    var h := HeaderStep(env)(lines[i]).value;
    UrlStepOk(env, h, lines[j]);
    assert Entry(lines, HeaderStep(env), UrlStep(env), i, j) == UrlStep(env)(h, lines[j]).value;
  }

  /** An unparsable server address makes the parse throw at the first URL
      line that completes a channel, as well as at any `#EXTINF` line
      with a non-empty `tvg-logo`. */
  lemma ParseM3UThrows(text: string, env: Env, i: nat, j: nat)
    requires ContextProxy(env).Err?
    requires Paired(Lines(text), Classify, i, j)
    ensures ParseM3UOutcome(text, env).Err?
  {
    PairedThrows(Lines(text), env, i, j);
  }

  lemma PairedThrows(lines: seq<string>, env: Env, i: nat, j: nat)
    requires ContextProxy(env).Err?
    requires Paired(lines, Classify, i, j)
    ensures Entries(lines, Classify, HeaderStep(env), UrlStep(env)).Err?
  {
    forall p ensures UrlStep(env)(p, lines[j]).Err? {
      assert lines[j] != "";
    }
    PairedFailureFails(lines, Classify, HeaderStep(env), UrlStep(env), i, j);
  }

  /** The channel fields of a header line: `xui-id`, `tvg-id`, `tvg-name`,
      `tvg-logo` (rewritten) and `group-title` as attributes, `tvg-id` and
      `tvg-logo` possibly empty, and the name after the leftmost comma that
      starts a match of `/,(.+)$/`, trimmed. */
  lemma HeaderOfSpec(line: string, env: Env)
    requires ContextProxy(env).Ok?
    ensures var h := HeaderOf(line, env);
      h.Ok? && h.value.xuiId == Attr(line, "xui-id", false) && h.value.tvgId == Attr(line, "tvg-id", true) &&
      h.value.tvgName == Attr(line, "tvg-name", false) && h.value.groupTitle == Attr(line, "group-title", false) &&
      (Attr(line, "tvg-logo", true).None? ==> h.value.tvgLogo.None?) &&
      (Attr(line, "tvg-logo", true).Some? ==>
         h.value.tvgLogo == Some(RewriteUrlForProxy(Attr(line, "tvg-logo", true).value, env).value)) &&
      (AfterComma(line).None? ==> h.value.name.None?) &&
      (AfterComma(line).Some? ==> h.value.name == Some(JsString.Trim(AfterComma(line).value)))
  {
  }

  // ---------------------------------------------------------------------
  // Video on demand, categories, filters

  /** The lower-cased URL contains none of the video-file extensions. */
  predicate IsLiveChannel(c: Channel) {
    var u := JsString.Lower(c.url);
    !JsString.Includes(u, ".mp4") && !JsString.Includes(u, ".mkv") && !JsString.Includes(u, ".avi") &&
    !JsString.Includes(u, ".mov") && !JsString.Includes(u, ".flv") && !JsString.Includes(u, ".wmv")
  }

  /** The channels the page keeps from the parsed playlist. */
  function LiveChannels(items: seq<Channel>): (r: seq<Channel>)
    ensures forall c :: c in r <==> c in items && IsLiveChannel(c)
    ensures forall k :: 0 <= k < |r| ==> IsLiveChannel(r[k])
  {
    Seqs.Filter(items, IsLiveChannel)
  }

  /** A URL containing `#.mp4` or `#.mkv` contains `.mp4` or `.mkv`. */
  lemma IncludesSuffix(s: string, mark: string)
    requires JsString.Includes(s, "#" + mark)
    ensures JsString.Includes(s, mark)
  {
    var i := JsString.IndexOf(s, "#" + mark);
    assert s[i + 1..][..|mark|] == s[i..][..|mark| + 1][1..];
    JsString.IncludesAt(s, mark, i + 1);
  }

  /** A channel this page keeps is neither a film nor a series for the
      playlist context, whose marks are `#.mp4` and `#.mkv`. */
  lemma LiveChannelNotVod(c: Channel, item: Playlist.PlaylistItem)
    requires IsLiveChannel(c) && item.url == c.url
    ensures !Playlist.IsMovie(item) && !Playlist.IsSeries(item)
  {
    var u := JsString.Lower(c.url);
    assert !JsString.Includes(u, ".mp4") && !JsString.Includes(u, ".mkv");
    assert "#" + ".mp4" == "#.mp4" && "#" + ".mkv" == "#.mkv";
    NoMark(u, ".mp4");
    NoMark(u, ".mkv");
  }

  lemma NoMark(u: string, mark: string)
    requires !JsString.Includes(u, mark)
    ensures !JsString.Includes(u, "#" + mark)
  {
    if JsString.Includes(u, "#" + mark) {
      IncludesSuffix(u, mark);
    }
  }

  /** One entry of the category list; the first, "all channels", has no
      id. */
  datatype Category = Category(id: Option<string>, name: string)

  /** The non-empty `group-title` values, in channel order. */
  function GroupTitles(channels: seq<Channel>): seq<string> {
    if channels == [] then []
    else
      var c := channels[|channels| - 1];
      GroupTitles(channels[..|channels| - 1]) + TitleStep(c.groupTitle)
  }

  /** The group titles are exactly the non-empty titles some channel
      carries. */
  lemma {:induction false} GroupTitlesMembers(channels: seq<Channel>)
    ensures forall g :: g in GroupTitles(channels) <==> g != "" && exists c :: c in channels && c.groupTitle == Some(g)
    decreases |channels|
  {
    if channels != [] {
      var p := channels[..|channels| - 1];
      var c := channels[|channels| - 1];
      GroupTitlesMembers(p);
      assert channels == p + [c];
      assert forall d :: d in channels <==> d in p || d == c;
    }
  }

  /** The title a channel adds to the list of group titles, if any. */
  function TitleStep(t: Option<string>): seq<string> {
    if t.Some? && t.value != "" then [t.value] else []
  }

  /** The category list: the "all channels" entry with no id, then one
      entry per distinct group title, named by it. */
  function Categories(groups: seq<string>, allLabel: string): (r: seq<Category>)
    ensures |r| == |groups| + 1 && r[0] == Category(None, allLabel)
    ensures forall k :: 1 <= k < |r| ==> r[k] == Category(Some(groups[k - 1]), groups[k - 1])
  {
    [Category(None, allLabel)] + seq(|groups|, k requires 0 <= k < |groups| => Category(Some(groups[k]), groups[k]))
  }

  /** The group titles of the first `i` channels, counted from the front
      as the `forEach` goes. */
  ghost function TitlesUpTo(channels: seq<Channel>, i: nat): seq<string>
    requires i <= |channels|
  {
    if i == 0 then [] else TitlesUpTo(channels, i - 1) + TitleStep(channels[i - 1].groupTitle)
  }

  lemma {:induction false} TitlesUpToPrefix(channels: seq<Channel>, i: nat)
    requires i <= |channels|
    ensures TitlesUpTo(channels, i) == GroupTitles(channels[..i])
  {
    if i > 0 {
      TitlesUpToPrefix(channels, i - 1);
      assert channels[..i][..i - 1] == channels[..i - 1];
    }
  }

  /** The keys of `categoryMap` after the first `i` channels: a non-empty
      title not yet among them is appended. */
  ghost function KeysUpTo(channels: seq<Channel>, i: nat): seq<string>
    requires i <= |channels|
  {
    if i == 0 then []
    else
      var keys := KeysUpTo(channels, i - 1);
      var t := channels[i - 1].groupTitle;
      if t.Some? && t.value != "" && t.value !in keys then keys + [t.value] else keys
  }

  /** Appending a title when it is not among the distinct titles so far
      extends them by the title's step. */
  lemma AddTitle(before: seq<string>, keys: seq<string>, t: Option<string>)
    requires keys == Seqs.Dedup(before)
    ensures (if t.Some? && t.value != "" && t.value !in keys then keys + [t.value] else keys) ==
      Seqs.Dedup(before + TitleStep(t))
  {
    if t.Some? && t.value != "" {
      Seqs.DedupSnoc(before, t.value);
    } else {
      assert before + [] == before;
    }
  }

  /** Those keys are the distinct titles so far, in order of first
      appearance. */
  lemma {:induction false} KeysUpToDedup(channels: seq<Channel>, i: nat)
    requires i <= |channels|
    ensures KeysUpTo(channels, i) == Seqs.Dedup(TitlesUpTo(channels, i))
  {
    if i > 0 {
      KeysUpToDedup(channels, i - 1);
      AddTitle(TitlesUpTo(channels, i - 1), KeysUpTo(channels, i - 1), channels[i - 1].groupTitle);
    }
  }

  /** The `forEach` that fills `categoryMap` with the first channel of each
      group title. The map is represented by its keys in insertion order,
      the entry of a key being the category named by it; `has` is
      membership among the keys. */
  method ExtractGroups(channels: seq<Channel>) returns (groups: seq<string>)
    ensures groups == Seqs.Dedup(GroupTitles(channels))
  {
    groups := [];
    var i := 0;
    while i < |channels|
      invariant 0 <= i <= |channels|
      invariant groups == KeysUpTo(channels, i)
    {
      var t := channels[i].groupTitle;
      if t.Some? && t.value != "" && t.value !in groups {
        groups := groups + [t.value];
      }
      i := i + 1;
    }
    KeysUpToDedup(channels, i);
    TitlesUpToPrefix(channels, i);
    assert channels[..i] == channels;
  }

  /** Distinct groups give distinct categories, the "all channels" entry
      being the only one without an id. */
  lemma CategoriesDistinct(groups: seq<string>, allLabel: string)
    requires Seqs.NoDups(groups)
    ensures Seqs.NoDups(Categories(groups, allLabel))
  {
    var r := Categories(groups, allLabel);
    forall a, b | 0 <= a < b < |r| ensures r[a] != r[b] {
      if a > 0 {
        assert groups[a - 1] != groups[b - 1];
      }
    }
  }

  /** The category list has no duplicate entry and names each group title
      of the channels once after the "all channels" entry. */
  lemma CategoriesSpec(channels: seq<Channel>, allLabel: string, g: string)
    ensures var r := Categories(Seqs.Dedup(GroupTitles(channels)), allLabel);
      r[0].id.None? && Seqs.NoDups(r) &&
      ((exists k :: 1 <= k < |r| && r[k].id == Some(g)) <==>
         g != "" && exists c :: c in channels && c.groupTitle == Some(g))
  {
    GroupTitlesMembers(channels);
    var d := Seqs.Dedup(GroupTitles(channels));
    CategoriesDistinct(d, allLabel);
    CategoriesIds(d, allLabel, g);
  }

  /** A category after the first has id `g` exactly when `g` is a group. */
  lemma CategoriesIds(groups: seq<string>, allLabel: string, g: string)
    ensures var r := Categories(groups, allLabel);
      (exists k :: 1 <= k < |r| && r[k].id == Some(g)) <==> g in groups
  {
    var r := Categories(groups, allLabel);
    if exists k :: 1 <= k < |r| && r[k].id == Some(g) {
      var k :| 1 <= k < |r| && r[k].id == Some(g);
      assert groups[k - 1] in groups;
    }
    if g in groups {
      var k :| 0 <= k < |groups| && groups[k] == g;
      assert r[k + 1].id == Some(g);
    }
  }

  /** The categories are listed in the order in which their group titles
      first appear among the channels. */
  lemma CategoriesOrder(channels: seq<Channel>, allLabel: string, i: int, j: int)
    ensures var r := Categories(Seqs.Dedup(GroupTitles(channels)), allLabel);
      1 <= i < j < |r| ==>
        Seqs.FirstIndex(GroupTitles(channels), r[i].name) < Seqs.FirstIndex(GroupTitles(channels), r[j].name)
  {
    CategoriesOrderOf(GroupTitles(channels), allLabel, i, j);
  }

  lemma CategoriesOrderOf(titles: seq<string>, allLabel: string, i: int, j: int)
    ensures var r := Categories(Seqs.Dedup(titles), allLabel);
      1 <= i < j < |r| ==> Seqs.FirstIndex(titles, r[i].name) < Seqs.FirstIndex(titles, r[j].name)
  {
    var d := Seqs.Dedup(titles);
    var r := Categories(d, allLabel);
    if 1 <= i < j < |r| {
      assert r[i].name == d[i - 1] && r[j].name == d[j - 1];
      Seqs.DedupOrder(titles, i - 1, j - 1);
    }
  }

  /** The search filter: the name or the `tvg-name` contains the query,
      ignoring case, and no category is chosen or it is the group title. */
  predicate Shown(s: Channel, searchQuery: string, selectedCategory: Option<string>) {
    var q := JsString.Lower(searchQuery);
    ((s.name.Some? && JsString.Includes(JsString.Lower(s.name.value), q)) ||
     (s.tvgName.Some? && JsString.Includes(JsString.Lower(s.tvgName.value), q))) &&
    (selectedCategory.None? || s.groupTitle == selectedCategory)
  }

  /** The group filter of `getCategoryCount`. */
  predicate InGroup(s: Channel, id: string) {
    s.groupTitle == Some(id)
  }

  /** `filteredStreams`. */
  function FilteredStreams(streams: seq<Channel>, searchQuery: string, selectedCategory: Option<string>): (r: seq<Channel>)
    ensures forall s :: s in r <==> s in streams && Shown(s, searchQuery, selectedCategory)
  {
    Seqs.Filter(streams, s => Shown(s, searchQuery, selectedCategory))
  }

  /** `getCategoryCount(id)`. */
  function CategoryCount(streams: seq<Channel>, id: Option<string>): (n: nat)
    ensures id.None? ==> n == |streams|
    ensures id.Some? ==> n == |Seqs.Filter(streams, s => InGroup(s, id.value))|
    ensures id.Some? ==> (n == 0 <==> forall s :: s in streams ==> s.groupTitle != id)
  {
    if id.None? then |streams| else Seqs.Count(streams, s => InGroup(s, id.value))
  }

  /** Every group listed in the sidebar counts at least one channel. */
  lemma ListedCategoriesNonEmpty(channels: seq<Channel>, allLabel: string, k: int)
    requires 0 <= k < |Categories(Seqs.Dedup(GroupTitles(channels)), allLabel)|
    ensures CategoryCount(channels, Categories(Seqs.Dedup(GroupTitles(channels)), allLabel)[k].id) > 0 ||
            channels == []
  {
    GroupTitlesMembers(channels);
    var d := Seqs.Dedup(GroupTitles(channels));
    if k > 0 {
      assert d[k - 1] in d;
    }
  }

  /** With an empty search and no category every stream is shown, in
      order. */
  lemma EverythingShown(streams: seq<Channel>)
    requires forall s :: s in streams ==> s.name.Some? || s.tvgName.Some?
    ensures FilteredStreams(streams, "", None) == streams
  {
    forall s | s in streams ensures Shown(s, "", None) {
      if s.name.Some? {
        JsString.IncludesTrivially(JsString.Lower(s.name.value));
      } else {
        JsString.IncludesTrivially(JsString.Lower(s.tvgName.value));
      }
    }
    Seqs.FilterAll(streams, s => Shown(s, "", None));
  }

  // ---------------------------------------------------------------------
  // Loading

  const NoUserData := "No user data available"

  /** The body of the `try` in the loading effect, up to the filtered
      channels; `playlistUrl` is what `buildPlaylistUrl()` returned. */
  function LoadOutcome(playlistUrl: Option<string>, fetch: string -> Result<string>, env: Env): Result<seq<Channel>> {
    if playlistUrl.None? then Err(Playlist.NotConfigured)
    else
      var text := fetch(playlistUrl.value);
      if text.Err? then Err(text.error)
      else
        var items := ParseM3UOutcome(text.value, env);
        if items.Err? then Err(items.error) else Ok(LiveChannels(items.value))
  }

  /** The steps of that `try`: fetch the playlist, parse it and keep its
      live channels, stopping at the first error. */
  method Load(playlistUrl: Option<string>, fetch: string -> Result<string>, env: Env) returns (r: Result<seq<Channel>>)
    ensures r == LoadOutcome(playlistUrl, fetch, env)
  {
    if playlistUrl.None? {
      return Err(Playlist.NotConfigured);
    }
    var text := fetch(playlistUrl.value);
    if text.Err? {
      return Err(text.error);
    }
    var items := ParseM3U(text.value, env);
    if items.Err? {
      return Err(items.error);
    }
    r := Ok(LiveChannels(items.value));
  }

  class LiveTvPage {
    var categories: seq<Category>
    var streams: seq<Channel>
    var isLoading: bool
    var error: Option<string>
    var selectedCategory: Option<string>
    var searchQuery: string

    constructor()
      ensures categories == [] && streams == [] && isLoading && error.None? && selectedCategory.None? && searchQuery == ""
    {
      categories := [];
      streams := [];
      isLoading := true;
      error := None;
      selectedCategory := None;
      searchQuery := "";
    }

    /** The loading effect: no user gives an error; otherwise the playlist
        is fetched and parsed, and either the live channels and their
        categories or the error's message are stored. */
    method LoadPlaylist(hasUser: bool, playlistUrl: Option<string>, fetch: string -> Result<string>, env: Env,
                        allLabel: string)
      modifies this
      ensures !isLoading && selectedCategory == old(selectedCategory) && searchQuery == old(searchQuery)
      ensures !hasUser ==> error == Some(NoUserData) && categories == old(categories) && streams == old(streams)
      ensures hasUser && LoadOutcome(playlistUrl, fetch, env).Ok? ==>
        var channels := LoadOutcome(playlistUrl, fetch, env).value;
        error.None? && streams == channels && categories == Categories(Seqs.Dedup(GroupTitles(channels)), allLabel)
      ensures hasUser && LoadOutcome(playlistUrl, fetch, env).Err? ==>
        error == Some(Playlist.ErrorText(LoadOutcome(playlistUrl, fetch, env).error)) &&
        categories == old(categories) && streams == old(streams)
    {
      if !hasUser {
        error := Some(NoUserData);
        isLoading := false;
        return;
      }
      isLoading := true;
      error := None;
      var outcome := Load(playlistUrl, fetch, env);
      if outcome.Err? {
        error := Some(Playlist.ErrorText(outcome.error));
      } else {
        var groups := ExtractGroups(outcome.value);
        categories := Categories(groups, allLabel);
        streams := outcome.value;
      }
      isLoading := false;
    }

    method SetSelectedCategory(id: Option<string>)
      modifies this
      ensures selectedCategory == id
      ensures categories == old(categories) && streams == old(streams) && searchQuery == old(searchQuery)
      ensures isLoading == old(isLoading) && error == old(error)
    {
      selectedCategory := id;
    }

    method SetSearchQuery(q: string)
      modifies this
      ensures searchQuery == q
      ensures categories == old(categories) && streams == old(streams) && selectedCategory == old(selectedCategory)
      ensures isLoading == old(isLoading) && error == old(error)
    {
      searchQuery := q;
    }

    /** The channel list as shown. */
    function Filtered(): seq<Channel>
      reads this
    {
      FilteredStreams(streams, searchQuery, selectedCategory)
    }
  }
}

/** The playlist context (src/contexts/PlaylistContext.jsx): the M3U
    playlist of the subscriber, loaded once and cached, split by the
    shape of each entry's URL into live channels, films and series. */
module Playlist {
  import opened Wrappers
  import JsString
  import Seqs
  import opened Web
  import opened M3u

  /** One playlist entry; an attribute missing from the `#EXTINF` line is
      `None`. An entry still waiting for its URL line has the empty URL. */
  datatype PlaylistItem = PlaylistItem(
    streamId: Option<string>,
    tvgId: Option<string>,
    name: Option<string>,
    streamIcon: Option<string>,
    categoryName: Option<string>,
    url: string)

  /** The server paths the context sends through `/api`. */
  predicate ProxiedPath(path: string) {
    JsString.StartsWith(path, "/play/") || JsString.StartsWith(path, "/images/") ||
    JsString.StartsWith(path, "/live/") || JsString.StartsWith(path, "/movie/") ||
    JsString.StartsWith(path, "/series/")
  }

  /** `rewriteUrlForProxy(url)`, which throws when the configured server
      address does not parse. */
  function RewriteUrlForProxy(url: string, env: Env): (r: Result<string>)
    ensures url == "" ==> r == Ok(url)
    ensures ContextProxy(env).Ok? ==> r.Ok?
    ensures ContextProxy(env) == Ok(false) ==> r == Ok(url)
    ensures url != "" && ContextProxy(env).Err? ==> r.Err?
    ensures url != "" && ContextProxy(env) == Ok(true) && env.parse(url).Some? &&
            ProxiedPath(env.parse(url).value.pathname) ==>
      var u := env.parse(url).value; r == Ok("/api" + u.pathname + u.search + u.hash)
    ensures (url != "" && ContextProxy(env) == Ok(true) &&
             (env.parse(url).None? || !ProxiedPath(env.parse(url).value.pathname))) ==> r == Ok(url)
  {
    if url == "" then Ok(url)
    else
      var proxy := ContextProxy(env);
      if proxy.Err? then Err(proxy.error)
      else if !proxy.value then Ok(url)
      else
        var u := env.parse(url);
        if u.Some? && ProxiedPath(u.value.pathname) then Ok("/api" + u.value.pathname + u.value.search + u.value.hash)
        else Ok(url)
  }

  lemma StartsWithApi(rest: string)
    ensures JsString.StartsWith("/api" + rest, "/")
  {
    assert ("/api" + rest)[..1] == "/";
  }

  /** A URL the rewriter changes becomes a non-empty path starting with
      `/`, and only when proxying is on. */
  lemma RewrittenRelative(url: string, env: Env)
    requires RewriteUrlForProxy(url, env).Ok?
    ensures var r := RewriteUrlForProxy(url, env).value;
      r == url || (ContextProxy(env) == Ok(true) && r != "" && JsString.StartsWith(r, "/"))
  {
    var r := RewriteUrlForProxy(url, env).value;
    if url != "" && ContextProxy(env) == Ok(true) && env.parse(url).Some? &&
       ProxiedPath(env.parse(url).value.pathname) {
      var u := env.parse(url).value;
      var rest := u.pathname + u.search + u.hash;
      assert r == "/api" + rest;
      StartsWithApi(rest);
    } else {
      assert r == url;
    }
  }

  /** A URL the parser rejects is kept. */
  lemma UnparsedKept(url: string, env: Env)
    requires ContextProxy(env).Ok? && env.parse(url).None?
    ensures RewriteUrlForProxy(url, env) == Ok(url)
  {
  }

  /** A rewritten URL is never rewritten again, as long as the URL parser
      rejects relative paths (`new URL('/api/...')` throws). */
  lemma RewriteUrlForProxyIdempotent(url: string, env: Env)
    requires forall s :: JsString.StartsWith(s, "/") ==> env.parse(s).None?
    requires RewriteUrlForProxy(url, env).Ok?
    ensures RewriteUrlForProxy(RewriteUrlForProxy(url, env).value, env) == RewriteUrlForProxy(url, env)
  {
    var r := RewriteUrlForProxy(url, env).value;
    RewrittenRelative(url, env);
    if r != url {
      assert env.parse(r).None?;
      UnparsedKept(r, env);
    }
  }

  /** The entry opened by a trimmed `#EXTINF` line. */
  function HeaderOf(line: string, env: Env): (h: Result<PlaylistItem>)
    ensures ContextProxy(env).Ok? ==> h.Ok?
    ensures ContextProxy(env).Err? && Attr(line, "tvg-logo", true).Some? && Attr(line, "tvg-logo", true).value != "" ==>
      h.Err?
  {
    var logo := Attr(line, "tvg-logo", true);
    var icon := if logo.None? then Ok(None)
                else var r := RewriteUrlForProxy(logo.value, env); if r.Err? then Err(r.error) else Ok(Some(r.value));
    if icon.Err? then Err(icon.error)
    else Ok(PlaylistItem(Attr(line, "xui-id", false), Attr(line, "tvg-id", true), Attr(line, "tvg-name", false),
                         icon.value, Attr(line, "group-title", false), ""))
  }

  /** The entry completed by a trimmed URL line. */
  function WithUrl(item: PlaylistItem, line: string, env: Env): (r: Result<PlaylistItem>)
    ensures ContextProxy(env).Ok? ==> r.Ok?
  {
    var r := RewriteUrlForProxy(line, env);
    if r.Err? then Err(r.error) else Ok(item.(url := r.value))
  }

  function HeaderStep(env: Env): string -> Result<PlaylistItem> {
    line => HeaderOf(line, env)
  }

  function UrlStep(env: Env): (PlaylistItem, string) -> Result<PlaylistItem> {
    (item, line) => WithUrl(item, line, env)
  }

  /** What `parseM3U(text)` returns, or the error it throws. */
  function ParseM3UOutcome(text: string, env: Env): Result<seq<PlaylistItem>> {
    Entries(Lines(text), Classify, HeaderStep(env), UrlStep(env))
  }

  /** `parseM3U`: the line loop over the trimmed lines of the text. */
  method ParseM3U(text: string, env: Env) returns (r: Result<seq<PlaylistItem>>)
    ensures r == ParseM3UOutcome(text, env)
  {
    var lines := Lines(text);
    r := ScanLines(lines, Classify, HeaderStep(env), UrlStep(env));
  }

  lemma HeaderStepOk(env: Env, l: string)
    requires ContextProxy(env).Ok?
    ensures HeaderStep(env)(l).Ok?
  {
  }

  lemma UrlStepOk(env: Env, item: PlaylistItem, l: string)
    requires ContextProxy(env).Ok?
    ensures UrlStep(env)(item, l).Ok?
  {
  }

  /** When the server address parses, no step of the parse throws. */
  lemma TotalSteps(env: Env)
    requires ContextProxy(env).Ok?
    ensures Total(HeaderStep(env), UrlStep(env))
  {
    forall l ensures HeaderStep(env)(l).Ok? {
      HeaderStepOk(env, l);
    }
    forall item, l ensures UrlStep(env)(item, l).Ok? {
      UrlStepOk(env, item, l);
    }
    TotalOf(HeaderStep(env), UrlStep(env));
  }

  /** When the rewriter cannot throw, the parse yields exactly one entry
      per `#EXTINF` line and the next URL line after it (empty and `#`
      lines skipped). */
  lemma ParseM3USpec(text: string, env: Env, x: PlaylistItem)
    requires ContextProxy(env).Ok?
    ensures Total(HeaderStep(env), UrlStep(env))
    ensures ParseM3UOutcome(text, env).Ok?
    ensures x in ParseM3UOutcome(text, env).value <==>
      Produced(Lines(text), Classify, HeaderStep(env), UrlStep(env), x)
  {
    TotalSteps(env);
    EntriesSpec(Lines(text), Classify, HeaderStep(env), UrlStep(env), x);
  }

  /** The entry of header line `i` and URL line `j` is the header's entry
      with the rewritten URL line as its URL. */
  lemma EntryOfPair(lines: seq<string>, env: Env, i: nat, j: nat)
    requires ContextProxy(env).Ok?
    requires i < |lines| && j < |lines|
    ensures Total(HeaderStep(env), UrlStep(env))
    ensures Entry(lines, HeaderStep(env), UrlStep(env), i, j) ==
      HeaderOf(lines[i], env).value.(url := RewriteUrlForProxy(lines[j], env).value)
  {
    TotalSteps(env);
    HeaderStepOk(env, lines[i]);
    var h := HeaderStep(env)(lines[i]).value;
    UrlStepOk(env, h, lines[j]);
    assert Entry(lines, HeaderStep(env), UrlStep(env), i, j) == UrlStep(env)(h, lines[j]).value;
  }

  /** An unparsable server address makes the whole parse throw as soon as
      one `#EXTINF` line carries a non-empty `tvg-logo`, even one whose
      entry is later dropped. */
  lemma ParseM3UThrows(text: string, env: Env, k: nat)
    requires ContextProxy(env).Err?
    requires k < |Lines(text)| && JsString.StartsWith(Lines(text)[k], "#EXTINF:")
    requires var logo := Attr(Lines(text)[k], "tvg-logo", true); logo.Some? && logo.value != ""
    ensures ParseM3UOutcome(text, env).Err?
  {
    var lines := Lines(text);
    assert HeaderStep(env)(lines[k]).Err?;
    HeaderFailureFails(lines, k, Classify, HeaderStep(env), UrlStep(env));
  }

  /** An attribute whose name does not occur on the line is left unset. */
  lemma AttrAbsent(line: string, name: string, allowEmpty: bool)
    requires !JsString.Includes(line, name + "=\"")
    ensures Attr(line, name, allowEmpty).None?
  {
    var key := name + "=\"";
    if Attr(line, name, allowEmpty).Some? {
      var q :| 0 <= q && MatchesAt(line, key, allowEmpty, q);
      assert JsString.StartsWith(line[q..], key);
    }
  }

  /** The entry fields of a header line: `xui-id` is the stream id,
      `tvg-id` the guide id, `tvg-name` the name, `tvg-logo` (rewritten)
      the icon and `group-title` the category; `tvg-id` and `tvg-logo` may
      be empty, the others not. */
  lemma HeaderOfSpec(line: string, env: Env)
    requires ContextProxy(env).Ok?
    ensures var h := HeaderOf(line, env);
      h.Ok? && h.value.streamId == Attr(line, "xui-id", false) && h.value.tvgId == Attr(line, "tvg-id", true) &&
      h.value.name == Attr(line, "tvg-name", false) && h.value.categoryName == Attr(line, "group-title", false) &&
      (Attr(line, "tvg-logo", true).None? ==> h.value.streamIcon.None?) &&
      (Attr(line, "tvg-logo", true).Some? ==>
         h.value.streamIcon == Some(RewriteUrlForProxy(Attr(line, "tvg-logo", true).value, env).value))
  {
  }

  // ---------------------------------------------------------------------
  // Filtering by type

  predicate IsLive(item: PlaylistItem) {
    var u := JsString.Lower(item.url);
    JsString.Includes(u, "/m3u8") && !JsString.Includes(u, "#.mp4") && !JsString.Includes(u, "#.mkv") &&
    !JsString.Includes(u, "#.avi") && !JsString.Includes(u, "#.mov")
  }

  predicate IsMovie(item: PlaylistItem) {
    JsString.Includes(JsString.Lower(item.url), "#.mp4")
  }

  predicate IsSeries(item: PlaylistItem) {
    JsString.Includes(JsString.Lower(item.url), "#.mkv")
  }

  /** `filterByType(type, data)` on the chosen data (`None` for null). */
  function FilterByType(kind: string, data: Option<seq<PlaylistItem>>): seq<PlaylistItem> {
    if data.None? then []
    else if kind == "live" then Seqs.Filter(data.value, IsLive)
    else if kind == "movies" then Seqs.Filter(data.value, IsMovie)
    else if kind == "series" then Seqs.Filter(data.value, IsSeries)
    else data.value
  }

  /** Each type keeps exactly the entries whose lower-cased URL has its
      marks; an unknown type keeps everything and no data gives nothing. */
  lemma FilterByTypeSpec(data: Option<seq<PlaylistItem>>, x: PlaylistItem)
    ensures data.None? ==> forall kind :: FilterByType(kind, data) == []
    ensures data.Some? ==>
      (x in FilterByType("live", data) <==> x in data.value && IsLive(x)) &&
      (x in FilterByType("movies", data) <==> x in data.value && IsMovie(x)) &&
      (x in FilterByType("series", data) <==> x in data.value && IsSeries(x))
    ensures forall kind :: kind != "live" && kind != "movies" && kind != "series" && data.Some? ==>
      FilterByType(kind, data) == data.value
  {
  }

  /** No live channel is also a film or a series. */
  lemma LiveDisjoint(data: Option<seq<PlaylistItem>>, x: PlaylistItem)
    requires x in FilterByType("live", data)
    ensures x !in FilterByType("movies", data) && x !in FilterByType("series", data)
  {
    assert IsLive(x);
  }

  // ---------------------------------------------------------------------
  // The provider

  const NotConfigured := "Server nicht konfiguriert"
  const LoadFailed := "Failed to load playlist"

  /** Fetching and parsing the playlist named by `playlistUrl`, the result
      of `buildPlaylistUrl` (`None` without server settings or user). */
  function LoadOutcome(playlistUrl: Option<string>, fetch: string -> Result<string>, env: Env): Result<seq<PlaylistItem>> {
    if playlistUrl.None? then Err(NotConfigured)
    else
      var text := fetch(playlistUrl.value);
      if text.Err? then Err(text.error) else ParseM3UOutcome(text.value, env)
  }

  /** `err.message || 'Failed to load playlist'`. */
  function ErrorText(message: string): (r: string)
    ensures r != ""
  {
    if message == "" then LoadFailed else message
  }

  /** The body of the `try` in `loadPlaylist`: build the URL, fetch, parse. */
  method Load(playlistUrl: Option<string>, fetch: string -> Result<string>, env: Env) returns (o: Result<seq<PlaylistItem>>)
    ensures o == LoadOutcome(playlistUrl, fetch, env)
  {
    if playlistUrl.None? {
      return Err(NotConfigured);
    }
    var text := fetch(playlistUrl.value);
    if text.Err? {
      return Err(text.error);
    }
    o := ParseM3U(text.value, env);
  }

  class PlaylistProvider {
    var playlist: Option<seq<PlaylistItem>>
    var isLoading: bool
    var error: Option<string>

    constructor()
      ensures playlist.None? && !isLoading && error.None?
    {
      playlist := None;
      isLoading := false;
      error := None;
    }

    /** `loadPlaylist(userData)`: the cached playlist when there is one,
        null while a load is running, otherwise one load whose result is
        cached, or whose error is recorded. */
    method LoadPlaylist(playlistUrl: Option<string>, fetch: string -> Result<string>, env: Env)
      returns (r: Option<seq<PlaylistItem>>)
      modifies this
      ensures old(playlist).Some? ==> r == old(playlist) && unchanged(this)
      ensures old(playlist).None? && old(isLoading) ==> r.None? && unchanged(this)
      ensures old(playlist).None? && !old(isLoading) ==> !isLoading
      ensures old(playlist).None? && !old(isLoading) && LoadOutcome(playlistUrl, fetch, env).Ok? ==>
        r == Some(LoadOutcome(playlistUrl, fetch, env).value) && playlist == r && error.None?
      ensures old(playlist).None? && !old(isLoading) && LoadOutcome(playlistUrl, fetch, env).Err? ==>
        r.None? && playlist.None? && error == Some(ErrorText(LoadOutcome(playlistUrl, fetch, env).error))
    {
      if playlist.Some? {
        return playlist;
      }
      if isLoading {
        return None;
      }
      isLoading := true;
      error := None;
      var o := Load(playlistUrl, fetch, env);
      if o.Err? {
        error := Some(ErrorText(o.error));
        r := None;
      } else {
        playlist := Some(o.value);
        r := playlist;
      }
      isLoading := false;
    }

    /** `filterByType(type, playlistData)`: the given data, or else the
        cached playlist. */
    function FilterByTypeOf(kind: string, playlistData: Option<seq<PlaylistItem>>): seq<PlaylistItem>
      reads this
    {
      FilterByType(kind, if playlistData.Some? then playlistData else playlist)
    }
  }
}

/** The shared URL rewriter (src/utils/urlRewriter.js): image and stream
    URLs of the IPTV server are turned into same-origin paths that the
    web server forwards, when the page could not load them directly. */
module UrlRewriter {
  import opened Wrappers
  import JsString
  import opened Web

  /** `needsProxy()`: no stored settings or a relative server URL mean no
      proxy; otherwise mixed content or a foreign origin do, and when the
      server address does not parse only mixed content does. */
  function NeedsProxy(env: Env): (r: bool)
    ensures env.settings.None? ==> !r
    ensures env.settings.Some? && JsString.StartsWith(TrimSlash(env.settings.value.serverUrl), "/") ==> !r
    ensures env.settings.Some? && !JsString.StartsWith(TrimSlash(env.settings.value.serverUrl), "/") ==>
      var base := TrimSlash(env.settings.value.serverUrl);
      var b := if base == "" then base else WithScheme(base);
      var mixed := env.pageHttps && JsString.StartsWith(b, "http://");
      var server := env.parse(ServerAddress(b, env.settings.value.port));
      (server.None? ==> r == mixed) &&
      (server.Some? ==> r == (mixed || env.pageOrigin != server.value.origin))
  {
    if env.settings.None? then false
    else
      var base := TrimSlash(env.settings.value.serverUrl);
      if JsString.StartsWith(base, "/") then false
      else
        var b := if base != "" && !HasScheme(base) then "http://" + base else base;
        var mixed := env.pageHttps && JsString.StartsWith(b, "http://");
        var server := env.parse(ServerAddress(b, env.settings.value.port));
        if server.None? then mixed else mixed || env.pageOrigin != server.value.origin
  }

  /** `getIptvServerHost()`: the host of the configured server, `None`
      without settings, for an empty or relative server URL, or when the
      address does not parse. */
  function IptvServerHost(env: Env): (r: Option<string>)
    ensures env.settings.None? ==> r.None?
    ensures env.settings.Some? && TrimSlash(env.settings.value.serverUrl) == "" ==> r.None?
    ensures env.settings.Some? && JsString.StartsWith(TrimSlash(env.settings.value.serverUrl), "/") ==> r.None?
    ensures r.Some? ==> exists u :: env.parse(ServerAddress(WithScheme(TrimSlash(env.settings.value.serverUrl)),
                                                          env.settings.value.port)) == Some(u) && u.host == r.value
    ensures env.settings.Some? && TrimSlash(env.settings.value.serverUrl) != "" &&
            !JsString.StartsWith(TrimSlash(env.settings.value.serverUrl), "/") ==>
      var server := env.parse(ServerAddress(WithScheme(TrimSlash(env.settings.value.serverUrl)), env.settings.value.port));
      (r.Some? <==> server.Some?) && (server.Some? ==> r == Some(server.value.host))
  {
    if env.settings.None? then None
    else
      var base := TrimSlash(env.settings.value.serverUrl);
      if base == "" || JsString.StartsWith(base, "/") then None
      else
        var server := env.parse(ServerAddress(WithScheme(base), env.settings.value.port));
        if server.None? then None else Some(server.value.host)
  }

  /** The parsed URL is on the IPTV server (`iptvHost && urlObj.host === iptvHost`). */
  predicate OnServer(u: UrlParts, env: Env) {
    var host := IptvServerHost(env);
    host.Some? && host.value != "" && u.host == host.value
  }

  /** The URLs `rewriteImageUrl` passes through untouched before looking
      at the environment. */
  predicate ImageSkipped(url: string) {
    url == "" || JsString.StartsWith(url, "/") || JsString.StartsWith(url, "data:") ||
    JsString.Includes(url, "placeholder.com")
  }

  /** `rewriteImageUrl(url)`. */
  function RewriteImageUrl(url: string, env: Env): string {
    if ImageSkipped(url) || !NeedsProxy(env) then url
    else
      var u := env.parse(url);
      if u.None? || !OnServer(u.value, env) then url
      else if JsString.StartsWith(u.value.pathname, "/images/") then u.value.pathname + u.value.search
      else "/api" + u.value.pathname + u.value.search
  }

  /** The server paths the web server forwards as streams. */
  predicate StreamPath(path: string) {
    JsString.StartsWith(path, "/play/") || JsString.StartsWith(path, "/live/") ||
    JsString.StartsWith(path, "/movie/") || JsString.StartsWith(path, "/series/")
  }

  /** `rewriteStreamUrl(url)`. */
  function RewriteStreamUrl(url: string, env: Env): string {
    if url == "" || JsString.StartsWith(url, "/") || !NeedsProxy(env) then url
    else
      var u := env.parse(url);
      if u.None? || !OnServer(u.value, env) then url
      else if StreamPath(u.value.pathname) then u.value.pathname + u.value.search
      else "/api" + u.value.pathname + u.value.search
  }

  const ImageExtensions: seq<string> := ["jpg", "jpeg", "png", "gif", "webp", "svg"]

  /** The extension `ext` follows a dot at `i`, in any letter case, and is
      followed by `?` or the end of the URL. */
  predicate ExtensionAt(url: string, i: int, ext: string) {
    0 <= i && i + 1 + |ext| <= |url| && url[i] == '.' &&
    JsString.Lower(url[i + 1..i + 1 + |ext|]) == ext &&
    (i + 1 + |ext| == |url| || url[i + 1 + |ext|] == '?')
  }

  /** `/\.(jpg|jpeg|png|gif|webp|svg)(\?|$)/i.test(url)`. */
  predicate HasImageExtension(url: string) {
    exists i, k :: 0 <= i < |url| && 0 <= k < |ImageExtensions| && ExtensionAt(url, i, ImageExtensions[k])
  }

  /** `rewriteUrl(url)`: images by path or extension, streams otherwise. */
  function RewriteUrl(url: string, env: Env): string {
    if url == "" then url
    else if JsString.Includes(url, "/images/") || HasImageExtension(url) then RewriteImageUrl(url, env)
    else RewriteStreamUrl(url, env)
  }

  // ---------------------------------------------------------------------
  // Properties

  /** `rewriteImageUrl` leaves a URL alone when it is empty, relative, a
      data URL or a placeholder, when no proxy is needed, when it does not
      parse and when it is on another host. */
  lemma RewriteImageUrlKeeps(url: string, env: Env)
    ensures ImageSkipped(url) || !NeedsProxy(env) ==> RewriteImageUrl(url, env) == url
    ensures env.parse(url).None? || !OnServer(env.parse(url).value, env) ==> RewriteImageUrl(url, env) == url
  {
  }

  /** A URL of the IPTV server becomes its path and query, an `/images/`
      path as it is and any other path under `/api`; its fragment is
      dropped. */
  lemma RewriteImageUrlServer(url: string, env: Env)
    requires !ImageSkipped(url) && NeedsProxy(env) && env.parse(url).Some? && OnServer(env.parse(url).value, env)
    ensures var u := env.parse(url).value;
      RewriteImageUrl(url, env) ==
        (if JsString.StartsWith(u.pathname, "/images/") then "" else "/api") + u.pathname + u.search
  {
    var u := env.parse(url).value;
    if JsString.StartsWith(u.pathname, "/images/") {
      assert "" + u.pathname + u.search == u.pathname + u.search;
    }
  }

  /** `rewriteStreamUrl` likewise leaves empty and relative URLs, URLs
      when no proxy is needed, and unparsable and foreign URLs alone. */
  lemma RewriteStreamUrlKeeps(url: string, env: Env)
    ensures url == "" || JsString.StartsWith(url, "/") || !NeedsProxy(env) ==> RewriteStreamUrl(url, env) == url
    ensures env.parse(url).None? || !OnServer(env.parse(url).value, env) ==> RewriteStreamUrl(url, env) == url
  {
  }

  /** A stream path of the IPTV server becomes its path and query, any
      other path of it goes under `/api`. */
  lemma RewriteStreamUrlServer(url: string, env: Env)
    requires url != "" && !JsString.StartsWith(url, "/") && NeedsProxy(env) && env.parse(url).Some?
    requires OnServer(env.parse(url).value, env)
    ensures var u := env.parse(url).value;
      RewriteStreamUrl(url, env) == (if StreamPath(u.pathname) then "" else "/api") + u.pathname + u.search
  {
    var u := env.parse(url).value;
    if StreamPath(u.pathname) {
      assert "" + u.pathname + u.search == u.pathname + u.search;
    }
  }

  lemma StartsWithConcat(a: string, b: string, p: string)
    requires JsString.StartsWith(a, p)
    ensures JsString.StartsWith(a + b, p)
  {
    assert (a + b)[..|p|] == a[..|p|];
  }

  /** A rewritten URL is a path on the page's own origin (it starts with
      `/`), so both rewriters hand it back unchanged. */
  lemma RewrittenIsRelative(url: string, env: Env)
    ensures var r := RewriteImageUrl(url, env); r == url || JsString.StartsWith(r, "/")
    ensures var r := RewriteStreamUrl(url, env); r == url || JsString.StartsWith(r, "/")
  {
    var u := env.parse(url);
    if u.Some? {
      var p := u.value.pathname;
      if JsString.StartsWith(p, "/images/") {
        assert p[..1] == p[..8][..1];
        StartsWithConcat(p, u.value.search, "/");
      }
      if StreamPath(p) {
        assert p[..1] == "/";
        StartsWithConcat(p, u.value.search, "/");
      }
      StartsWithConcat("/api", p + u.value.search, "/");
      assert "/api" + p + u.value.search == "/api" + (p + u.value.search);
    }
  }

  /** `rewriteUrl` sends image URLs (by path or extension) to the image
      rewriter and everything else to the stream rewriter, and rewriting
      an already rewritten URL changes nothing. */
  lemma RewriteUrlSpec(url: string, env: Env)
    ensures url != "" && (JsString.Includes(url, "/images/") || HasImageExtension(url)) ==>
      RewriteUrl(url, env) == RewriteImageUrl(url, env)
    ensures !(JsString.Includes(url, "/images/") || HasImageExtension(url)) ==>
      RewriteUrl(url, env) == RewriteStreamUrl(url, env)
    ensures RewriteUrl(RewriteUrl(url, env), env) == RewriteUrl(url, env)
  {
    RewrittenIsRelative(url, env);
    var r := RewriteUrl(url, env);
    if r != url {
      RelativeFixed(r, env);
    }
  }

  /** A same-origin path is never rewritten. */
  lemma RelativeFixed(r: string, env: Env)
    requires JsString.StartsWith(r, "/")
    ensures RewriteUrl(r, env) == r
  {
    assert r != "";
    assert ImageSkipped(r);
    assert RewriteImageUrl(r, env) == r;
    assert RewriteStreamUrl(r, env) == r;
  }

  /** Any URL ending in `.png` counts as an image URL. */
  lemma PngIsImage(s: string)
    ensures HasImageExtension(s + ".png")
  {
    var url := s + ".png";
    assert url[|s| + 1..|s| + 4] == "png";
    assert JsString.Lower("png") == "png";
    assert ImageExtensions[2] == "png";
    assert ExtensionAt(url, |s|, ImageExtensions[2]);
  }
}

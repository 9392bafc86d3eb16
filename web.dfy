/** The browser environment the URL rewriters consult: the stored server
    settings (`adminServerSettings`), the page's protocol and origin, and
    the WHATWG `URL` parser, which is the function `parse` (`None` where
    `new URL(text)` throws). */
module Web {
  import opened Wrappers
  import JsString

  /** The fields of `adminServerSettings` that the rewriters read; an
      absent or empty port is the empty text. */
  datatype ServerSettings = ServerSettings(serverUrl: string, port: string)

  /** The components of a parsed URL. */
  datatype UrlParts = UrlParts(origin: string, host: string, pathname: string, search: string, hash: string)

  datatype Env = Env(
    settings: Option<ServerSettings>,
    pageHttps: bool,
    pageOrigin: string,
    parse: string -> Option<UrlParts>)

  /** The message of the `TypeError` that `new URL` throws; its exact text
      is the browser's. */
  const InvalidUrl := "Invalid URL"

  /** The server URL without one trailing slash. */
  function TrimSlash(s: string): (r: string)
    ensures JsString.EndsWith(s, "/") ==> r + "/" == s
    ensures !JsString.EndsWith(s, "/") ==> r == s
  {
    if JsString.EndsWith(s, "/") then s[..|s| - 1] else s
  }

  predicate HasScheme(b: string) {
    JsString.StartsWith(b, "http://") || JsString.StartsWith(b, "https://")
  }

  /** The base URL with `http://` put in front unless it names a scheme. */
  function WithScheme(b: string): (r: string)
    ensures HasScheme(r)
    ensures JsString.EndsWith(r, b)
    ensures HasScheme(b) ==> r == b
    ensures !HasScheme(b) ==> r == "http://" + b
  {
    if HasScheme(b) then b
    else
      assert ("http://" + b)[..7] == "http://";
      assert ("http://" + b)[|"http://" + b| - |b|..] == b;
      "http://" + b
  }

  /** The text given to `new URL` for the IPTV server. */
  function ServerAddress(base: string, port: string): string {
    if port != "" then base + ":" + port else base
  }

  /** Whether the playlist and live-TV views rewrite URLs through the
      proxy: never without stored settings or with a relative server URL;
      otherwise when an https page would load http content or the server's
      origin differs from the page's. The server address is parsed outside
      any `try`, so an unparsable one makes the rewriter throw. */
  function ContextProxy(env: Env): (r: Result<bool>)
    ensures env.settings.None? ==> r == Ok(false)
    ensures env.settings.Some? && JsString.StartsWith(TrimSlash(env.settings.value.serverUrl), "/") ==> r == Ok(false)
    ensures env.settings.Some? && !JsString.StartsWith(TrimSlash(env.settings.value.serverUrl), "/") ==>
      var b := WithScheme(TrimSlash(env.settings.value.serverUrl));
      var server := env.parse(ServerAddress(b, env.settings.value.port));
      (r.Err? <==> server.None?) &&
      (server.None? ==> r == Err(InvalidUrl)) &&
      (server.Some? ==> r == Ok((env.pageHttps && JsString.StartsWith(b, "http://")) ||
                                env.pageOrigin != server.value.origin))
  {
    if env.settings.None? then Ok(false)
    else
      var base := TrimSlash(env.settings.value.serverUrl);
      if JsString.StartsWith(base, "/") then Ok(false)
      else
        var b := WithScheme(base);
        var server := env.parse(ServerAddress(b, env.settings.value.port));
        if server.None? then Err(InvalidUrl)
        else Ok((env.pageHttps && JsString.StartsWith(b, "http://")) || env.pageOrigin != server.value.origin)
  }
}

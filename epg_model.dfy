/** The records the EPG service keeps: registered sources, the settings,
    and the per-source guide data, with the pure list and map operations
    that the service applies to them (src/services/epg.js). */
module EpgModel {
  import opened Wrappers
  import JsString

  /** A registered EPG source. `lastError` is `None` while the property is
      absent from the record; the other optional fields are JSON null. */
  datatype EpgSource = EpgSource(
    id: string,
    name: string,
    url: string,
    enabled: bool,
    lastFetch: Option<string>,
    lastSuccess: Option<string>,
    lastError: Option<string>,
    channelCount: nat,
    programCount: nat,
    createdAt: string)

  /** The properties of an update object passed to `updateEpgSource`;
      `None` means the property is not in the object. */
  datatype SourceUpdate = SourceUpdate(
    name: Option<string>,
    url: Option<string>,
    enabled: Option<bool>,
    lastFetch: Option<string>,
    lastSuccess: Option<string>,
    lastError: Option<string>,
    channelCount: Option<nat>,
    programCount: Option<nat>)

  /** The stored settings record. */
  datatype EpgSettings = EpgSettings(
    autoUpdate: bool,
    updateInterval: int,
    lastAutoUpdate: Option<string>,
    corsProxyUrl: string,
    useCorsProxy: bool)

  /** A channel as stored: `id` is `None` when the element had no `id`
      attribute. */
  datatype Channel = Channel(id: Option<string>, displayName: string, icon: string)

  /** A programme as stored. `start` and `stop` are instants in
      milliseconds since the epoch, `None` for JSON null (no timestamp, or
      one that did not form a valid date). */
  datatype Programme = Programme(
    channelId: Option<string>,
    start: Option<int>,
    stop: Option<int>,
    title: string,
    desc: string,
    category: string,
    icon: string)

  /** What `parseEpgXml` returns. */
  datatype EpgData = EpgData(channels: seq<Channel>, programs: seq<Programme>)

  /** The value stored for one source: the parsed data plus `updatedAt`. */
  datatype StoredData = StoredData(channels: seq<Channel>, programs: seq<Programme>, updatedAt: string)

  /** The stored `epg_data` object: its entries in property order. */
  type Store = seq<(string, StoredData)>

  // ---------------------------------------------------------------------
  // Source registry

  /** The record `addEpgSource` creates: the id is the current time in
      milliseconds as text. */
  function NewSource(name: string, url: string, nowMs: nat, nowIso: string): (s: EpgSource)
    ensures s.id == JsString.IntToString(nowMs) && s.name == name && s.url == url
    ensures s.enabled && s.lastFetch.None? && s.lastSuccess.None? && s.lastError.None?
    ensures s.channelCount == 0 && s.programCount == 0 && s.createdAt == nowIso
  {
    EpgSource(JsString.IntToString(nowMs), name, url, true, None, None, None, 0, 0, nowIso)
  }

  function Pick<T>(update: Option<T>, current: T): T {
    if update.Some? then update.value else current
  }

  /** `{ ...source, ...updates }`. */
  function Merge(s: EpgSource, u: SourceUpdate): EpgSource {
    EpgSource(
      s.id,
      Pick(u.name, s.name),
      Pick(u.url, s.url),
      Pick(u.enabled, s.enabled),
      if u.lastFetch.Some? then u.lastFetch else s.lastFetch,
      if u.lastSuccess.Some? then u.lastSuccess else s.lastSuccess,
      if u.lastError.Some? then u.lastError else s.lastError,
      Pick(u.channelCount, s.channelCount),
      Pick(u.programCount, s.programCount),
      s.createdAt)
  }

  /** The index `findIndex` returns for `s.id === id`, or -1. */
  function FindIndex(sources: seq<EpgSource>, id: string): (i: int)
    ensures -1 <= i < |sources|
    ensures i >= 0 ==> sources[i].id == id && forall j :: 0 <= j < i ==> sources[j].id != id
    ensures i == -1 ==> forall j :: 0 <= j < |sources| ==> sources[j].id != id
  {
    if sources == [] then -1
    else if sources[0].id == id then 0
    else
      var k := FindIndex(sources[1..], id);
      if k < 0 then -1 else k + 1
  }

  /** The registry after `updateEpgSource(id, u)`. */
  function Updated(sources: seq<EpgSource>, id: string, u: SourceUpdate): seq<EpgSource> {
    var i := FindIndex(sources, id);
    if i < 0 then sources else sources[i := Merge(sources[i], u)]
  }

  /** The registry after `deleteEpgSource(id)`: `filter(s => s.id !== id)`. */
  function Deleted(sources: seq<EpgSource>, id: string): seq<EpgSource> {
    if sources == [] then []
    else (if sources[0].id == id then [] else [sources[0]]) + Deleted(sources[1..], id)
  }

  /** The update merges the given properties into the first record with
      the id only; an unknown id leaves the registry as it was. */
  lemma UpdatedSpec(sources: seq<EpgSource>, id: string, u: SourceUpdate)
    ensures |Updated(sources, id, u)| == |sources|
    ensures (forall j :: 0 <= j < |sources| ==> sources[j].id != id) ==> Updated(sources, id, u) == sources
    ensures forall j :: 0 <= j < |sources| && j != FindIndex(sources, id) ==> Updated(sources, id, u)[j] == sources[j]
    ensures FindIndex(sources, id) >= 0 ==>
      var m := Updated(sources, id, u)[FindIndex(sources, id)];
      m == Merge(sources[FindIndex(sources, id)], u) && m.id == id
  {
  }

  /** `{ ...source, ...updates }`: every property the update carries
      overrides the record's, every other property, the id and the
      creation time among them, is kept. */
  lemma MergeFields(s: EpgSource, u: SourceUpdate)
    ensures var m := Merge(s, u);
      m.id == s.id && m.createdAt == s.createdAt &&
      m.name == (if u.name.Some? then u.name.value else s.name) &&
      m.url == (if u.url.Some? then u.url.value else s.url) &&
      m.enabled == (if u.enabled.Some? then u.enabled.value else s.enabled) &&
      m.lastFetch == (if u.lastFetch.Some? then u.lastFetch else s.lastFetch) &&
      m.lastSuccess == (if u.lastSuccess.Some? then u.lastSuccess else s.lastSuccess) &&
      m.lastError == (if u.lastError.Some? then u.lastError else s.lastError) &&
      m.channelCount == (if u.channelCount.Some? then u.channelCount.value else s.channelCount) &&
      m.programCount == (if u.programCount.Some? then u.programCount.value else s.programCount)
  {
  }

  /** Deleting keeps, in order, exactly the records with another id. */
  lemma {:induction false} DeletedSpec(sources: seq<EpgSource>, id: string)
    ensures forall s :: s in Deleted(sources, id) <==> s in sources && s.id != id
    ensures |Deleted(sources, id)| <= |sources|
  {
    if sources != [] {
      DeletedSpec(sources[1..], id);
      assert sources == [sources[0]] + sources[1..];
    }
  }

  /** Deleting twice is the same as deleting once. */
  lemma {:induction false} DeletedIdempotent(sources: seq<EpgSource>, id: string)
    ensures Deleted(Deleted(sources, id), id) == Deleted(sources, id)
  {
    if sources != [] {
      DeletedIdempotent(sources[1..], id);
      if sources[0].id != id {
        assert Deleted(sources, id) == [sources[0]] + Deleted(sources[1..], id);
        assert ([sources[0]] + Deleted(sources[1..], id))[1..] == Deleted(sources[1..], id);
      } else {
        assert Deleted(sources, id) == Deleted(sources[1..], id);
      }
    }
  }

  /** Deleting an id that is not registered changes nothing. */
  lemma {:induction false} DeletedAbsent(sources: seq<EpgSource>, id: string)
    requires forall j :: 0 <= j < |sources| ==> sources[j].id != id
    ensures Deleted(sources, id) == sources
  {
    if sources != [] {
      DeletedAbsent(sources[1..], id);
      assert sources == [sources[0]] + sources[1..];
    }
  }

  /** The update `fetchEpgSource` applies after a successful fetch. */
  function SuccessUpdate(nowIso: string, channels: nat, programs: nat): SourceUpdate {
    SourceUpdate(None, None, None, Some(nowIso), Some(nowIso), None, Some(channels), Some(programs))
  }

  /** The update `fetchEpgSource` applies after a failed fetch. */
  function FailureUpdate(nowIso: string, message: string): SourceUpdate {
    SourceUpdate(None, None, None, Some(nowIso), None, Some(message), None, None)
  }

  /** After a success the counts are the parsed lengths and both times are
      set, but an earlier `lastError` stays; after a failure only
      `lastFetch` and `lastError` change. */
  lemma FetchUpdates(s: EpgSource, nowIso: string, channels: nat, programs: nat, message: string)
    ensures var m := Merge(s, SuccessUpdate(nowIso, channels, programs));
      m == s.(lastFetch := Some(nowIso), lastSuccess := Some(nowIso), channelCount := channels, programCount := programs) &&
      m.lastError == s.lastError
    ensures Merge(s, FailureUpdate(nowIso, message)) == s.(lastFetch := Some(nowIso), lastError := Some(message))
  {
  }

  /** An update with no properties changes nothing. */
  lemma MergeEmpty(s: EpgSource)
    ensures Merge(s, SourceUpdate(None, None, None, None, None, None, None, None)) == s
  {
  }

  // ---------------------------------------------------------------------
  // Settings

  /** The settings used when none are stored. */
  const DefaultSettings := EpgSettings(true, 6, None, DefaultProxy + "{URL}", true)

  /** The default proxy template up to its `{URL}` placeholder. */
  const DefaultProxy := "https://api.allorigins.win/raw?url="

  /** In `p + sub + q`, the first occurrence of `sub` is right after `p`
      when the first character of `sub` does not occur in `p`. */
  lemma IndexAfterPrefix(p: string, sub: string, q: string)
    requires sub != [] && sub[0] !in p
    ensures JsString.IndexOf(p + sub + q, sub) == |p|
  {
    var t := p + sub + q;
    assert t[|p|..] == sub + q;
    JsString.IncludesAt(t, sub, |p|);
    forall j | 0 <= j < |p| ensures !JsString.StartsWith(t[j..], sub) {
      assert t[j..][0] == p[j];
    }
  }

  /** The URL `downloadEpgFile` requests: the proxy template with its first
      `{URL}` replaced by the percent-encoded target, when a proxy is
      configured and enabled; otherwise the target itself. */
  function RequestUrl(url: string, settings: EpgSettings): string {
    if settings.useCorsProxy && settings.corsProxyUrl != "" then
      JsString.Replace(settings.corsProxyUrl, "{URL}", JsString.EncodeUriComponent(url))
    else url
  }

  lemma RequestUrlSpec(url: string, settings: EpgSettings)
    ensures !(settings.useCorsProxy && settings.corsProxyUrl != "") ==> RequestUrl(url, settings) == url
    ensures settings.useCorsProxy && settings.corsProxyUrl != "" ==>
      var t := settings.corsProxyUrl;
      var i := JsString.IndexOf(t, "{URL}");
      (i < 0 ==> RequestUrl(url, settings) == t) &&
      (i >= 0 ==> RequestUrl(url, settings) == t[..i] + JsString.EncodeUriComponent(url) + t[i + 5..])
  {
    JsString.ReplaceLiteral(settings.corsProxyUrl, "{URL}", JsString.EncodeUriComponent(url));
  }

  /** With the default settings the request goes through the public
      allorigins proxy, the target passed as its `url` query parameter. */
  lemma DefaultRequestUrl(url: string)
    ensures RequestUrl(url, DefaultSettings) == DefaultProxy + JsString.EncodeUriComponent(url)
  {
    var t := DefaultSettings.corsProxyUrl;
    assert '{' !in DefaultProxy;
    IndexAfterPrefix(DefaultProxy, "{URL}", "");
    assert t == DefaultProxy + "{URL}" + "";
    RequestUrlSpec(url, DefaultSettings);
    assert t[|DefaultProxy| + 5..] == [];
  }

  // ---------------------------------------------------------------------
  // Data store

  /** `allData[sourceId] || null`. */
  function Lookup(store: Store, id: string): (r: Option<StoredData>)
    ensures r.Some? <==> exists i :: 0 <= i < |store| && store[i].0 == id
  {
    if store == [] then None
    else if store[0].0 == id then Some(store[0].1)
    else
      var r := Lookup(store[1..], id);
      assert forall i :: 0 < i < |store| ==> store[i] == store[1..][i - 1];
      r
  }

  /** `allData[sourceId] = value`: an existing property keeps its place and
      gets the new value; a new one is appended. */
  function Saved(store: Store, id: string, d: StoredData): (r: Store)
    ensures |r| == |store| || |r| == |store| + 1
    ensures forall i :: 0 <= i < |store| ==> r[i].0 == store[i].0
    ensures |r| == |store| + 1 <==> forall i :: 0 <= i < |store| ==> store[i].0 != id
    ensures |r| == |store| + 1 ==> r[|store|] == (id, d)
  {
    if store == [] then [(id, d)]
    else if store[0].0 == id then [(id, d)] + store[1..]
    else [store[0]] + Saved(store[1..], id, d)
  }

  /** Property names occur at most once, as in a JavaScript object. */
  predicate UniqueKeys(store: Store) {
    forall i, j :: 0 <= i < j < |store| ==> store[i].0 != store[j].0
  }

  /** After saving, the id reads back the saved value and every other id
      reads what it read before. */
  lemma {:induction false} SavedLookup(store: Store, id: string, d: StoredData, k: string)
    ensures Lookup(Saved(store, id, d), k) == if k == id then Some(d) else Lookup(store, k)
  {
    if store != [] && store[0].0 != id {
      SavedLookup(store[1..], id, d, k);
      assert Saved(store, id, d)[1..] == Saved(store[1..], id, d);
    }
  }

  /** Saving twice for the same id leaves only the second value: the
      store does not accumulate. */
  lemma {:induction false} SavedTwice(store: Store, id: string, d1: StoredData, d2: StoredData)
    ensures Saved(Saved(store, id, d1), id, d2) == Saved(store, id, d2)
  {
    if store != [] && store[0].0 != id {
      SavedTwice(store[1..], id, d1, d2);
      assert Saved(store, id, d1)[1..] == Saved(store[1..], id, d1);
    }
  }

  /** Saving keeps property names unique and grows the store only for a
      new id. */
  lemma SavedUnique(store: Store, id: string, d: StoredData)
    requires UniqueKeys(store)
    ensures UniqueKeys(Saved(store, id, d))
    ensures |Saved(store, id, d)| == if Lookup(store, id).Some? then |store| else |store| + 1
  {
  }
}

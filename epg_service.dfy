/** The EPG service (src/services/epg.js): the source registry, the
    settings and the guide data store, which the code keeps in browser
    storage, are the fields of one object whose methods are the service's
    exported operations. */
module Epg {
  import opened Wrappers
  import JsString
  import opened EpgModel
  import opened EpgParse
  import opened EpgDownload
  import opened EpgQuery

  /** What `testEpgSource` resolves to. */
  datatype TestOutcome =
    | TestPassed(channelCount: nat, programCount: nat, message: string)
    | TestFailed(error: string)

  /** `parseEpgXml` applied to the downloaded text, the DOM parser being
      the function `parser`. */
  function ParseOutcome(xml: string, parser: string -> XmlDocument, localTime: string -> Option<int>): Result<EpgData> {
    var doc := parser(xml);
    if doc.hasParserError then Err(XmlParsingError) else Ok(Extracted(doc, localTime))
  }

  /** Download followed by parse, as `fetchEpgSource` and `testEpgSource`
      both do it. */
  function GuideOutcome(url: string, settings: EpgSettings, fetch: string -> FetchOutcome,
                        ungzip: seq<Byte> -> Result<string>, parser: string -> XmlDocument,
                        localTime: string -> Option<int>): Result<EpgData>
  {
    var d := DownloadOutcome(url, settings, fetch, ungzip);
    if d.Err? then Err(d.error) else ParseOutcome(d.value, parser, localTime)
  }

  /** The progress events of download followed by parse. */
  function GuideEvents(url: string, settings: EpgSettings, fetch: string -> FetchOutcome,
                       ungzip: seq<Byte> -> Result<string>, parser: string -> XmlDocument): seq<Progress>
  {
    var d := DownloadOutcome(url, settings, fetch, ungzip);
    DownloadEvents(url, settings, fetch, ungzip) +
      (if d.Err? then []
       else if parser(d.value).hasParserError then [Progress(Parsing, 0)]
       else ParseEvents(parser(d.value)))
  }

  function TestMessage(channels: nat, programs: nat): string {
    "Successfully parsed " + JsString.IntToString(channels) + " channels and " +
    JsString.IntToString(programs) + " programs"
  }

  /** The guide store after a fetch with outcome `r`: the parsed data is
      saved under the id when the fetch succeeded and the write fits. */
  function StoreAfterFetch(store: Store, id: string, r: Result<EpgData>, nowIso: string, fits: bool): Store {
    if r.Ok? && fits then Saved(store, id, StoredData(r.value.channels, r.value.programs, nowIso)) else store
  }

  /** The registry after a fetch with outcome `r`: the success or the
      failure update of the source, when the write fits. */
  function SourcesAfterFetch(sources: seq<EpgSource>, id: string, r: Result<EpgData>, nowIso: string, fits: bool): seq<EpgSource> {
    if !fits then sources
    else if r.Ok? then Updated(sources, id, SuccessUpdate(nowIso, |r.value.channels|, |r.value.programs|))
    else Updated(sources, id, FailureUpdate(nowIso, r.error))
  }

  /** The error of a fetch whose data could not be stored. */
  const SaveFailed := "Saving EPG data failed"

  /** The outcome the fetch evidently means to report: the guide outcome,
      except that a success whose save failed is an error. */
  function CheckedOutcome(g: Result<EpgData>, fits: bool): (r: Result<EpgData>)
    ensures r.Ok? <==> g.Ok? && fits
    ensures r.Ok? ==> r == g
    ensures g.Err? ==> r == g
    ensures g.Ok? && !fits ==> r == Err(SaveFailed)
  {
    if g.Ok? && !fits then Err(SaveFailed) else g
  }

  /** As written, a write that does not fit leaves the store as it was
      while the fetch reports the parsed data: a source with nothing
      stored before still reads as null after a reported success. */
  lemma UnsavedSuccess(store: Store, id: string, data: EpgData, nowIso: string)
    requires Lookup(store, id).None?
    ensures Lookup(StoreAfterFetch(store, id, Ok(data), nowIso, false), id).None?
    ensures Lookup(StoreAfterFetch(store, id, Ok(data), nowIso, true), id) == Some(StoredData(data.channels, data.programs, nowIso))
  {
    SavedLookup(store, id, StoredData(data.channels, data.programs, nowIso), id);
  }

  /** With the checked outcome, every reported success has its data
      stored under the source's id, and every other id reads as before. */
  lemma CheckedSuccessStored(store: Store, id: string, g: Result<EpgData>, nowIso: string, fits: bool)
    ensures var r := CheckedOutcome(g, fits);
      r.Ok? ==> Lookup(StoreAfterFetch(store, id, r, nowIso, fits), id) == Some(StoredData(r.value.channels, r.value.programs, nowIso))
    ensures forall k :: k != id ==> Lookup(StoreAfterFetch(store, id, CheckedOutcome(g, fits), nowIso, fits), k) == Lookup(store, k)
  {
    var r := CheckedOutcome(g, fits);
    if r.Ok? {
      var d := StoredData(r.value.channels, r.value.programs, nowIso);
      SavedLookup(store, id, d, id);
      forall k | k != id
        ensures Lookup(Saved(store, id, d), k) == Lookup(store, k)
      {
        SavedLookup(store, id, d, k);
      }
    }
  }

  class EpgService {
    /** The `epg_sources` list. */
    var sources: seq<EpgSource>
    /** The `epg_data` object. */
    var store: Store
    /** The `epg_settings` record, `None` while nothing is stored. */
    var storedSettings: Option<EpgSettings>

    ghost predicate Valid()
      reads this
    {
      UniqueKeys(store)
    }

    constructor()
      ensures Valid()
      ensures sources == [] && store == [] && storedSettings == None
    {
      sources := [];
      store := [];
      storedSettings := None;
    }

    /** `getEpgSettings`: the stored record, or the defaults. */
    function Settings(): EpgSettings
      reads this
    {
      storedSettings.GetOr(DefaultSettings)
    }

    /** `saveEpgSettings`. `fits` says whether `localStorage.setItem`
        accepts the value; when it throws (the storage quota is exceeded)
        the call reports false and the stored record stays as it was. */
    method SaveEpgSettings(settings: EpgSettings, fits: bool) returns (ok: bool)
      modifies this
      ensures ok == fits
      ensures fits ==> Settings() == settings && storedSettings == Some(settings)
      ensures !fits ==> storedSettings == old(storedSettings)
      ensures sources == old(sources) && store == old(store)
    {
      if fits {
        storedSettings := Some(settings);
      }
      ok := fits;
    }

    /** `saveEpgSources`: the registry becomes `list` when the write fits,
        and stays as it was otherwise. */
    method SaveEpgSources(list: seq<EpgSource>, fits: bool) returns (ok: bool)
      modifies this
      ensures ok == fits
      ensures sources == if fits then list else old(sources)
      ensures store == old(store) && storedSettings == old(storedSettings)
    {
      if fits {
        sources := list;
      }
      ok := fits;
    }

    /** `addEpgSource`: appends one new record; the others stay as they
        were. The record is returned even when the write fails, and the
        registry is then unchanged. */
    method AddEpgSource(name: string, url: string, nowMs: nat, nowIso: string, fits: bool) returns (s: EpgSource)
      modifies this
      ensures s == NewSource(name, url, nowMs, nowIso)
      ensures sources == if fits then old(sources) + [s] else old(sources)
      ensures store == old(store) && storedSettings == old(storedSettings)
    {
      s := NewSource(name, url, nowMs, nowIso);
      var _ := SaveEpgSources(sources + [s], fits);
    }

    /** `updateEpgSource`: merges the update into the first record with the
        id and returns it, or returns null and changes nothing. The merged
        record is returned even when the write fails, and the registry is
        then unchanged. */
    method UpdateEpgSource(id: string, u: SourceUpdate, fits: bool) returns (r: Option<EpgSource>)
      modifies this
      ensures sources == if fits then Updated(old(sources), id, u) else old(sources)
      ensures FindIndex(old(sources), id) < 0 ==> r.None? && sources == old(sources)
      ensures FindIndex(old(sources), id) >= 0 ==>
        r == Some(Merge(old(sources)[FindIndex(old(sources), id)], u))
      ensures store == old(store) && storedSettings == old(storedSettings)
    {
      var index := FindIndex(sources, id);
      if index != -1 {
        var list := sources[index := Merge(sources[index], u)];
        var _ := SaveEpgSources(list, fits);
        return Some(list[index]);
      }
      return None;
    }

    /** `deleteEpgSource`: removes every record with the id; the stored
        guide data is not touched. It reports success even when the write
        fails, and the registry is then unchanged. */
    method DeleteEpgSource(id: string, fits: bool) returns (ok: bool)
      modifies this
      ensures ok
      ensures sources == if fits then Deleted(old(sources), id) else old(sources)
      ensures store == old(store) && storedSettings == old(storedSettings)
    {
      var _ := SaveEpgSources(Deleted(sources, id), fits);
      ok := true;
    }

    /** `saveEpgData`: stores the data with its `updatedAt` under the id,
        replacing what was stored there before; when the write fails it
        reports false and the store stays as it was. */
    method SaveEpgData(id: string, data: EpgData, nowIso: string, fits: bool) returns (ok: bool)
      requires Valid()
      modifies this
      ensures Valid() && ok == fits
      ensures store == if fits then Saved(old(store), id, StoredData(data.channels, data.programs, nowIso)) else old(store)
      ensures sources == old(sources) && storedSettings == old(storedSettings)
    {
      if fits {
        SavedUnique(store, id, StoredData(data.channels, data.programs, nowIso));
        store := Saved(store, id, StoredData(data.channels, data.programs, nowIso));
      }
      ok := fits;
    }

    /** `getChannelPrograms(name, hours)` at instant `now`: every source's
        matching programmes are collected, in property order, and the
        collection is sorted by start time. */
    method GetChannelPrograms(name: string, hours: int, now: int) returns (r: seq<Listed>)
      ensures r == ChannelPrograms(store, name, hours, now)
    {
      var programs: seq<Listed> := [];
      var i := 0;
      while i < |store|
        invariant 0 <= i <= |store|
        invariant programs == AllMatches(store, i, Select(name, hours, now))
      {
        var found := SourcePrograms(store[i].1, Select(name, hours, now));
        programs := programs + found;
        i := i + 1;
      }
      r := Sorting.SortBy(programs, StartKey);
    }

    /** `fetchEpgSource`: download and parse; on success save the data and
        record the counts, on failure record only the time and the error
        and pass the error on. `dataFits` and `sourcesFits` say whether
        the two storage writes succeed. As written, the outcome does not
        depend on them: `saveEpgData`'s false is ignored, and the fetch
        reports success with the counts though nothing was stored. */
    method FetchEpgSource(source: EpgSource, fetch: string -> FetchOutcome, ungzip: seq<Byte> -> Result<string>,
                          parser: string -> XmlDocument, localTime: string -> Option<int>, nowIso: string,
                          dataFits: bool, sourcesFits: bool)
      returns (r: Result<EpgData>, events: seq<Progress>)
      requires Valid()
      modifies this
      ensures Valid()
      ensures r == GuideOutcome(source.url, old(Settings()), fetch, ungzip, parser, localTime)
      ensures store == StoreAfterFetch(old(store), source.id, r, nowIso, dataFits)
      ensures sources == SourcesAfterFetch(old(sources), source.id, r, nowIso, sourcesFits)
      ensures events == GuideEvents(source.url, old(Settings()), fetch, ungzip, parser) +
                        (if r.Ok? then [Progress(Saving, 0), Progress(Complete, 100)] else [])
      ensures storedSettings == old(storedSettings)
    {
      var downloaded, downloadEvents := DownloadEpgFile(source.url, Settings(), fetch, ungzip);
      events := downloadEvents;
      if downloaded.Err? {
        var _ := UpdateEpgSource(source.id, FailureUpdate(nowIso, downloaded.error), sourcesFits);
        return Err(downloaded.error), events;
      }
      var parsed, parseEvents := ParseEpgXml(parser(downloaded.value), localTime);
      events := events + parseEvents;
      if parsed.Err? {
        var _ := UpdateEpgSource(source.id, FailureUpdate(nowIso, parsed.error), sourcesFits);
        return Err(parsed.error), events;
      }
      var data := parsed.value;
      events := events + [Progress(Saving, 0)];
      var _ := SaveEpgData(source.id, data, nowIso, dataFits);
      var _ := UpdateEpgSource(source.id, SuccessUpdate(nowIso, |data.channels|, |data.programs|), sourcesFits);
      events := events + [Progress(Complete, 100)];
      r := Ok(data);
    }

    /** `fetchEpgSource` as evidently intended: a failed save of the
        guide data is a failure of the fetch, recorded on the source like
        any other error, so a reported success always has its data
        stored. */
    method FetchEpgSourceChecked(source: EpgSource, fetch: string -> FetchOutcome, ungzip: seq<Byte> -> Result<string>,
                                 parser: string -> XmlDocument, localTime: string -> Option<int>, nowIso: string,
                                 dataFits: bool, sourcesFits: bool)
      returns (r: Result<EpgData>, events: seq<Progress>)
      requires Valid()
      modifies this
      ensures Valid()
      ensures r == CheckedOutcome(GuideOutcome(source.url, old(Settings()), fetch, ungzip, parser, localTime), dataFits)
      ensures store == StoreAfterFetch(old(store), source.id, r, nowIso, dataFits)
      ensures r.Ok? ==> Lookup(store, source.id) == Some(StoredData(r.value.channels, r.value.programs, nowIso))
      ensures sources == SourcesAfterFetch(old(sources), source.id, r, nowIso, sourcesFits)
      ensures events == GuideEvents(source.url, old(Settings()), fetch, ungzip, parser) +
                        (if r.Ok? then [Progress(Saving, 0), Progress(Complete, 100)]
                         else if GuideOutcome(source.url, old(Settings()), fetch, ungzip, parser, localTime).Ok?
                         then [Progress(Saving, 0)] else [])
      ensures storedSettings == old(storedSettings)
    {
      ghost var g := GuideOutcome(source.url, Settings(), fetch, ungzip, parser, localTime);
      ghost var before := store;
      var downloaded, downloadEvents := DownloadEpgFile(source.url, Settings(), fetch, ungzip);
      events := downloadEvents;
      if downloaded.Err? {
        var _ := UpdateEpgSource(source.id, FailureUpdate(nowIso, downloaded.error), sourcesFits);
        return Err(downloaded.error), events;
      }
      var parsed, parseEvents := ParseEpgXml(parser(downloaded.value), localTime);
      events := events + parseEvents;
      if parsed.Err? {
        var _ := UpdateEpgSource(source.id, FailureUpdate(nowIso, parsed.error), sourcesFits);
        return Err(parsed.error), events;
      }
      var data := parsed.value;
      events := events + [Progress(Saving, 0)];
      var saved := SaveEpgData(source.id, data, nowIso, dataFits);
      if !saved {
        var _ := UpdateEpgSource(source.id, FailureUpdate(nowIso, SaveFailed), sourcesFits);
        return Err(SaveFailed), events;
      }
      var _ := UpdateEpgSource(source.id, SuccessUpdate(nowIso, |data.channels|, |data.programs|), sourcesFits);
      events := events + [Progress(Complete, 100)];
      r := Ok(data);
      CheckedSuccessStored(before, source.id, g, nowIso, dataFits);
    }

    /** `testEpgSource`: download and parse without storing anything, and
        report the counts or the error message instead of throwing. */
    method TestEpgSource(url: string, fetch: string -> FetchOutcome, ungzip: seq<Byte> -> Result<string>,
                         parser: string -> XmlDocument, localTime: string -> Option<int>)
      returns (r: TestOutcome, events: seq<Progress>)
      ensures var g := GuideOutcome(url, Settings(), fetch, ungzip, parser, localTime);
        (g.Ok? ==> r == TestPassed(|g.value.channels|, |g.value.programs|,
                                   TestMessage(|g.value.channels|, |g.value.programs|))) &&
        (g.Err? ==> r == TestFailed(g.error))
      ensures events == GuideEvents(url, Settings(), fetch, ungzip, parser)
    {
      var downloaded, downloadEvents := DownloadEpgFile(url, Settings(), fetch, ungzip);
      events := downloadEvents;
      if downloaded.Err? {
        return TestFailed(downloaded.error), events;
      }
      var parsed, parseEvents := ParseEpgXml(parser(downloaded.value), localTime);
      events := events + parseEvents;
      if parsed.Err? {
        return TestFailed(parsed.error), events;
      }
      var channels := |parsed.value.channels|;
      var programs := |parsed.value.programs|;
      r := TestPassed(channels, programs, TestMessage(channels, programs));
    }
  }
}

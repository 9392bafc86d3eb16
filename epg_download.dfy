/** Downloading a gzip-compressed guide (src/services/epg.js,
    `downloadEpgFile`). The network is the function `fetch` from the
    request URL to its outcome, the response body is the list of chunks
    the stream reader delivers, and gzip decompression is the function
    `ungzip`. */
module EpgDownload {
  import opened Wrappers
  import JsString
  import opened EpgModel
  import opened EpgParse

  type Byte = b: int | 0 <= b < 256

  datatype HttpResponse = HttpResponse(
    ok: bool,
    status: int,
    statusText: string,
    contentLength: Option<string>,
    chunks: seq<seq<Byte>>)

  /** A rejected `fetch` carries its error message. */
  datatype FetchOutcome = NetworkFailure(message: string) | Received(response: HttpResponse)

  /** The chunks concatenated, in order. */
  function Flatten(chunks: seq<seq<Byte>>): (r: seq<Byte>)
  {
    if chunks == [] then [] else Flatten(chunks[..|chunks| - 1]) + chunks[|chunks| - 1]
  }

  lemma FlattenStep(chunks: seq<seq<Byte>>, k: nat)
    requires k < |chunks|
    ensures Flatten(chunks[..k + 1]) == Flatten(chunks[..k]) + chunks[k]
  {
    assert chunks[..k + 1][..k] == chunks[..k];
  }

  /** The `content-length` header as `parseInt(..., 10)`, 0 when absent or
      empty, and 0 when not a number (NaN is never greater than 0, which is
      all the code asks of it). */
  function Total(r: HttpResponse): int {
    if r.contentLength.None? || r.contentLength.value == "" then 0
    else JsString.ParseInt10(r.contentLength.value).GetOr(0)
  }

  /** The error thrown for a response that is not ok. */
  function HttpError(r: HttpResponse): string {
    "HTTP " + JsString.IntToString(r.status) + ": " + r.statusText
  }

  /** The events reported while the first `k` chunks are read: one per
      chunk with the percentage loaded, when the total is known. */
  function ReadEvents(chunks: seq<seq<Byte>>, k: nat, total: int): seq<Progress>
    requires k <= |chunks|
  {
    if k == 0 then []
    else
      var step := if total > 0 then [Progress(Downloading, RoundDiv(|Flatten(chunks[..k])| * 100, total))] else [];
      ReadEvents(chunks, k - 1, total) + step
  }

  /** What `downloadEpgFile(url)` resolves to, or the message it throws. */
  function DownloadOutcome(url: string, settings: EpgSettings, fetch: string -> FetchOutcome,
                           ungzip: seq<Byte> -> Result<string>): Result<string>
  {
    match fetch(RequestUrl(url, settings))
    case NetworkFailure(m) => Err(m)
    case Received(response) =>
      if !response.ok then Err(HttpError(response)) else ungzip(Flatten(response.chunks))
  }

  /** The progress events of `downloadEpgFile(url)`. */
  function DownloadEvents(url: string, settings: EpgSettings, fetch: string -> FetchOutcome,
                          ungzip: seq<Byte> -> Result<string>): seq<Progress>
  {
    match fetch(RequestUrl(url, settings))
    case NetworkFailure(_) => [Progress(Downloading, 0)]
    case Received(response) =>
      if !response.ok then [Progress(Downloading, 0)]
      else ReceivedEvents(response.chunks, Total(response), ungzip(Flatten(response.chunks)).Ok?)
  }

  /** The events of a response that is ok: the opening event, one per
      chunk read, and the decompression events, the last one only when
      decompression succeeds. */
  function ReceivedEvents(chunks: seq<seq<Byte>>, total: int, decompressed: bool): seq<Progress> {
    [Progress(Downloading, 0)] + ReadEvents(chunks, |chunks|, total) +
    [Progress(Decompressing, 0)] + (if decompressed then [Progress(Decompressing, 100)] else [])
  }

  lemma {:induction false} FlattenPrefixLength(chunks: seq<seq<Byte>>, k: nat)
    requires k <= |chunks|
    ensures |Flatten(chunks[..k])| <= |Flatten(chunks)|
    decreases |chunks| - k
  {
    if k < |chunks| {
      FlattenStep(chunks, k);
      FlattenPrefixLength(chunks, k + 1);
    } else {
      assert chunks[..k] == chunks;
    }
  }

  lemma {:induction false} ReadEventsBound(chunks: seq<seq<Byte>>, k: nat, total: int)
    requires k <= |chunks| && total >= |Flatten(chunks)|
    ensures forall e :: e in ReadEvents(chunks, k, total) ==> e.stage == Downloading && 0 <= e.percent <= 100
    ensures total > 0 ==> |ReadEvents(chunks, k, total)| == k
    ensures total <= 0 ==> ReadEvents(chunks, k, total) == []
  {
    if k > 0 {
      ReadEventsBound(chunks, k - 1, total);
      if total > 0 {
        FlattenPrefixLength(chunks, k);
        RoundDivBound(|Flatten(chunks[..k])|, total, 100);
      }
    }
  }

  /** When the announced length is at least the body's real length, the
      download reports one percentage per chunk, each within 0..100; the
      events of a successful download end with decompression at 0 and
      then 100. A download without a usable length reports no
      percentages. */
  lemma DownloadEventsSpec(url: string, settings: EpgSettings, fetch: string -> FetchOutcome,
                           ungzip: seq<Byte> -> Result<string>)
    requires fetch(RequestUrl(url, settings)).Received?
    ensures var response := fetch(RequestUrl(url, settings)).response;
      var ev := DownloadEvents(url, settings, fetch, ungzip);
      ev[0] == Progress(Downloading, 0) &&
      (DownloadOutcome(url, settings, fetch, ungzip).Ok? ==>
         |ev| >= 3 && ev[|ev| - 2] == Progress(Decompressing, 0) && ev[|ev| - 1] == Progress(Decompressing, 100)) &&
      (response.ok && Total(response) >= |Flatten(response.chunks)| ==>
         forall e :: e in ev ==> 0 <= e.percent <= 100) &&
      (response.ok && Total(response) <= 0 && DownloadOutcome(url, settings, fetch, ungzip).Ok? ==>
         ev == [Progress(Downloading, 0), Progress(Decompressing, 0), Progress(Decompressing, 100)])
  {
    var response := fetch(RequestUrl(url, settings)).response;
    if response.ok {
      var d := ungzip(Flatten(response.chunks)).Ok?;
      assert DownloadEvents(url, settings, fetch, ungzip) == ReceivedEvents(response.chunks, Total(response), d);
      assert DownloadOutcome(url, settings, fetch, ungzip).Ok? == d;
      ReceivedEventsSpec(response.chunks, Total(response), d);
    } else {
      assert DownloadEvents(url, settings, fetch, ungzip) == [Progress(Downloading, 0)];
      assert DownloadOutcome(url, settings, fetch, ungzip).Err?;
    }
  }

  lemma ReceivedEventsSpec(chunks: seq<seq<Byte>>, total: int, decompressed: bool)
    ensures var ev := ReceivedEvents(chunks, total, decompressed);
      ev[0] == Progress(Downloading, 0) &&
      (decompressed ==>
         |ev| >= 3 && ev[|ev| - 2] == Progress(Decompressing, 0) && ev[|ev| - 1] == Progress(Decompressing, 100)) &&
      (total >= |Flatten(chunks)| ==> forall e :: e in ev ==> 0 <= e.percent <= 100) &&
      (total <= 0 && decompressed ==>
         ev == [Progress(Downloading, 0), Progress(Decompressing, 0), Progress(Decompressing, 100)])
  {
    var read := ReadEvents(chunks, |chunks|, total);
    if total >= |Flatten(chunks)| {
      ReadEventsBound(chunks, |chunks|, total);
    }
    if total <= 0 {
      ReadEventsEmpty(chunks, |chunks|, total);
    }
    EventFrame(read, decompressed);
  }

  /** The opening event, the read events and the decompression events. */
  lemma EventFrame(read: seq<Progress>, decompressed: bool)
    ensures var ev := [Progress(Downloading, 0)] + read +
                      [Progress(Decompressing, 0)] + (if decompressed then [Progress(Decompressing, 100)] else []);
      ev[0] == Progress(Downloading, 0) &&
      (decompressed ==>
         |ev| >= 3 && ev[|ev| - 2] == Progress(Decompressing, 0) && ev[|ev| - 1] == Progress(Decompressing, 100)) &&
      ((forall e :: e in read ==> 0 <= e.percent <= 100) ==> forall e :: e in ev ==> 0 <= e.percent <= 100) &&
      (read == [] && decompressed ==>
         ev == [Progress(Downloading, 0), Progress(Decompressing, 0), Progress(Decompressing, 100)])
  {
    var tail := [Progress(Decompressing, 0)] + (if decompressed then [Progress(Decompressing, 100)] else []);
    var ev := [Progress(Downloading, 0)] + read + tail;
    if forall e :: e in read ==> 0 <= e.percent <= 100 {
      forall e | e in ev ensures 0 <= e.percent <= 100 {
        assert e == Progress(Downloading, 0) || e in read || e in tail;
      }
    }
  }

  lemma {:induction false} ReadEventsEmpty(chunks: seq<seq<Byte>>, k: nat, total: int)
    requires k <= |chunks| && total <= 0
    ensures ReadEvents(chunks, k, total) == []
  {
    if k > 0 {
      ReadEventsEmpty(chunks, k - 1, total);
    }
  }

  /** The read loop: takes the chunks one by one, counts the bytes loaded
      and reports the percentage after each chunk when the total is known. */
  method ReadBody(body: seq<seq<Byte>>, total: int) returns (chunks: seq<seq<Byte>>, loaded: nat, events: seq<Progress>)
    ensures chunks == body && loaded == |Flatten(body)|
    ensures events == ReadEvents(body, |body|, total)
  {
    loaded := 0;
    chunks := [];
    events := [];
    var k := 0;
    while k < |body|
      invariant 0 <= k <= |body|
      invariant chunks == body[..k]
      invariant loaded == |Flatten(chunks)|
      invariant events == ReadEvents(body, k, total)
    {
      var value := body[k];
      FlattenStep(body, k);
      chunks := chunks + [value];
      loaded := loaded + |value|;
      assert chunks == body[..k + 1];
      if total > 0 {
        events := events + [Progress(Downloading, RoundDiv(loaded * 100, total))];
      }
      k := k + 1;
    }
    assert chunks == body;
  }

  /** The copy loop: a buffer of `loaded` bytes filled with the chunks in
      order. */
  method CopyChunks(chunks: seq<seq<Byte>>, loaded: nat) returns (data: array<Byte>)
    requires loaded == |Flatten(chunks)|
    ensures fresh(data) && data[..] == Flatten(chunks)
  {
    data := new Byte[loaded];
    var position := 0;
    var c := 0;
    while c < |chunks|
      invariant 0 <= c <= |chunks|
      invariant position == |Flatten(chunks[..c])|
      invariant position <= loaded
      invariant data[..position] == Flatten(chunks[..c])
    {
      var chunk := chunks[c];
      FlattenStep(chunks, c);
      FlattenPrefixLength(chunks, c + 1);
      var j := 0;
      while j < |chunk|
        invariant 0 <= j <= |chunk|
        invariant data[..position + j] == Flatten(chunks[..c]) + chunk[..j]
      {
        data[position + j] := chunk[j];
        assert data[..position + j + 1] == data[..position + j] + [chunk[j]];
        assert chunk[..j + 1] == chunk[..j] + [chunk[j]];
        j := j + 1;
      }
      assert chunk[..j] == chunk;
      position := position + |chunk|;
      c := c + 1;
    }
    assert chunks[..c] == chunks;
    assert data[..] == data[..position];
  }

  /** `downloadEpgFile`: request, read the body chunk by chunk, copy the
      chunks into one buffer, decompress. */
  method DownloadEpgFile(url: string, settings: EpgSettings, fetch: string -> FetchOutcome,
                         ungzip: seq<Byte> -> Result<string>)
    returns (r: Result<string>, events: seq<Progress>)
    ensures r == DownloadOutcome(url, settings, fetch, ungzip)
    ensures events == DownloadEvents(url, settings, fetch, ungzip)
  {
    events := [Progress(Downloading, 0)];
    var finalUrl := url;
    if settings.useCorsProxy && settings.corsProxyUrl != "" {
      finalUrl := JsString.Replace(settings.corsProxyUrl, "{URL}", JsString.EncodeUriComponent(url));
    }
    var outcome := fetch(finalUrl);
    if outcome.NetworkFailure? {
      return Err(outcome.message), events;
    }
    var response := outcome.response;
    if !response.ok {
      return Err(HttpError(response)), events;
    }
    var chunks, loaded, readEvents := ReadBody(response.chunks, Total(response));
    events := events + readEvents;
    var data := CopyChunks(chunks, loaded);
    events := events + [Progress(Decompressing, 0)];
    var decompressed := ungzip(data[..]);
    if decompressed.Err? {
      return decompressed, events;
    }
    events := events + [Progress(Decompressing, 100)];
    r := decompressed;
  }
}

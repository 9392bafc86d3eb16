/** Turning an XMLTV document into channel and programme records
    (src/services/epg.js, `parseEpgXml` and `parseXmltvTime`). The document
    is given as the lists of its `<channel>` and `<programme>` elements in
    document order, as `querySelectorAll` returns them. */
module EpgParse {
  import opened Wrappers
  import JsString
  import opened EpgModel

  /** A `<channel>` element: its `id` attribute, the text of its first
      `<display-name>` and the `src` of its first `<icon>` (`None` where the
      attribute or child element is missing). */
  datatype ChannelElement = ChannelElement(id: Option<string>, displayName: Option<string>, iconSrc: Option<string>)

  /** A `<programme>` element with its attributes and the texts of its
      first `<title>`, `<desc>` and `<category>` children. */
  datatype ProgrammeElement = ProgrammeElement(
    channel: Option<string>,
    start: Option<string>,
    stop: Option<string>,
    title: Option<string>,
    desc: Option<string>,
    category: Option<string>,
    iconSrc: Option<string>)

  /** A parsed document; `hasParserError` says whether the parser produced
      a `<parsererror>` element. */
  datatype XmlDocument = XmlDocument(hasParserError: bool, channels: seq<ChannelElement>, programmes: seq<ProgrammeElement>)

  datatype Stage = Downloading | Decompressing | Parsing | Saving | Complete

  /** One call of the `onProgress` callback (its message text is left out). */
  datatype Progress = Progress(stage: Stage, percent: int)

  /** The error `parseEpgXml` throws for a document with a parser error. */
  const XmlParsingError := "XML parsing error"

  // ---------------------------------------------------------------------
  // Timestamps

  /** The text `parseXmltvTime` hands to `new Date`: the fixed slices
      YYYY, MM, DD, hh, mm, ss of `YYYYMMDDhhmmss +zzzz` joined into a local
      ISO date-time; `None` for a missing or empty attribute. */
  function ParseXmltvTime(t: Option<string>): Option<string> {
    if t.None? || t.value == "" then None
    else
      var s := t.value;
      Some(JsString.Substr(s, 0, 4) + "-" + JsString.Substr(s, 4, 2) + "-" + JsString.Substr(s, 6, 2) + "T" +
           JsString.Substr(s, 8, 2) + ":" + JsString.Substr(s, 10, 2) + ":" + JsString.Substr(s, 12, 2))
  }

  /** A missing or empty timestamp gives null; for a timestamp of at least
      14 characters the text is made of the first 14 alone. */
  lemma ParseXmltvTimeSpec(t: Option<string>)
    ensures ParseXmltvTime(t).None? <==> t.None? || t.value == ""
    ensures t.Some? && |t.value| >= 14 ==>
      var s := t.value;
      ParseXmltvTime(t) == Some(s[0..4] + "-" + s[4..6] + "-" + s[6..8] + "T" + s[8..10] + ":" + s[10..12] + ":" + s[12..14])
  {
  }

  /** Everything after the first 14 characters (the timezone offset) is
      without effect. */
  lemma ParseXmltvTimeIgnoresOffset(s: string, s': string)
    requires s != "" && s' != ""
    requires |s| >= 14 && |s'| >= 14 && s[..14] == s'[..14]
    ensures ParseXmltvTime(Some(s)) == ParseXmltvTime(Some(s'))
  {
    ParseXmltvTimeSpec(Some(s));
    ParseXmltvTimeSpec(Some(s'));
    assert s[0..4] == s[..14][0..4] == s'[0..4];
    assert s[4..6] == s[..14][4..6] == s'[4..6];
    assert s[6..8] == s[..14][6..8] == s'[6..8];
    assert s[8..10] == s[..14][8..10] == s'[8..10];
    assert s[10..12] == s[..14][10..12] == s'[10..12];
    assert s[12..14] == s[..14][12..14] == s'[12..14];
  }

  /** The example in the code's comment. */
  lemma ParseXmltvTimeExample()
    ensures ParseXmltvTime(Some("20231201120000 +0100")) == Some("2023-12-01T12:00:00")
  {
    var s := "20231201120000 +0100";
    ParseXmltvTimeSpec(Some(s));
    assert s[0..4] == "2023" && s[4..6] == "12" && s[6..8] == "01";
    assert s[8..10] == "12" && s[10..12] == "00" && s[12..14] == "00";
    assert "2023" + "-" + "12" + "-" + "01" + "T" + "12" + ":" + "00" + ":" + "00" == "2023-12-01T12:00:00";
  }

  /** The instant a programme timestamp denotes: the local date-time text
      interpreted by `localTime` (the browser's `Date` parsing in the
      local timezone, `None` for an Invalid Date). */
  function Instant(t: Option<string>, localTime: string -> Option<int>): Option<int> {
    var text := ParseXmltvTime(t);
    if text.None? then None else localTime(text.value)
  }

  // ---------------------------------------------------------------------
  // Records

  function ChannelOf(e: ChannelElement): (c: Channel)
    ensures c.id == e.id
    ensures c.displayName == e.displayName.GetOr("")
    ensures c.icon == e.iconSrc.GetOr("")
  {
    Channel(e.id, e.displayName.GetOr(""), e.iconSrc.GetOr(""))
  }

  function ProgrammeOf(e: ProgrammeElement, localTime: string -> Option<int>): Programme {
    Programme(e.channel, Instant(e.start, localTime), Instant(e.stop, localTime),
              e.title.GetOr(""), e.desc.GetOr(""), e.category.GetOr(""), e.iconSrc.GetOr(""))
  }

  /** A programme keeps the channel id of its element and the parsed start
      and stop; a missing title, description, category or icon becomes the
      empty string. */
  lemma ProgrammeOfFields(e: ProgrammeElement, localTime: string -> Option<int>)
    ensures var p := ProgrammeOf(e, localTime);
      p.channelId == e.channel &&
      p.start == Instant(e.start, localTime) && p.stop == Instant(e.stop, localTime) &&
      p.title == e.title.GetOr("") && p.desc == e.desc.GetOr("") &&
      p.category == e.category.GetOr("") && p.icon == e.iconSrc.GetOr("")
  {
  }

  /** The data extracted from a document: one record per element, in
      document order. */
  function Extracted(doc: XmlDocument, localTime: string -> Option<int>): (d: EpgData)
    ensures |d.channels| == |doc.channels| && |d.programs| == |doc.programmes|
    ensures forall i :: 0 <= i < |doc.channels| ==> d.channels[i] == ChannelOf(doc.channels[i])
    ensures forall i :: 0 <= i < |doc.programmes| ==> d.programs[i] == ProgrammeOf(doc.programmes[i], localTime)
  {
    EpgData(seq(|doc.channels|, i requires 0 <= i < |doc.channels| => ChannelOf(doc.channels[i])),
            seq(|doc.programmes|, i requires 0 <= i < |doc.programmes| => ProgrammeOf(doc.programmes[i], localTime)))
  }

  // ---------------------------------------------------------------------
  // Progress

  /** The quotient of `a` by `d`, rounded down, by repeated subtraction. */
  function Quot(a: nat, d: nat): nat
    requires d > 0
    decreases a
  {
    if a < d then 0 else 1 + Quot(a - d, d)
  }

  /** The quotient leaves a remainder below the divisor. */
  lemma {:induction false} QuotSpec(a: nat, d: nat)
    requires d > 0
    ensures d * Quot(a, d) <= a < d * Quot(a, d) + d
    decreases a
  {
    if a >= d {
      QuotSpec(a - d, d);
      assert d * Quot(a, d) == d * Quot(a - d, d) + d;
    }
  }

  /** A quotient is determined by a remainder below the divisor. */
  lemma QuotUnique(a: nat, d: nat, q: nat)
    requires d > 0 && d * q <= a < d * q + d
    ensures Quot(a, d) == q
  {
    var k := Quot(a, d);
    QuotSpec(a, d);
    if k < q {
      MulMonotone(k + 1, q, d);
    }
    if k > q {
      MulMonotone(q + 1, k, d);
    }
  }

  /** `Math.round(a / b)` for a non-negative numerator and positive
      denominator: the quotient of `2a + b` by `2b`. */
  function RoundDiv(a: nat, b: nat): nat
    requires b > 0
  {
    Quot(2 * a + b, 2 * b)
  }

  lemma RoundDivSpec(a: nat, b: nat)
    requires b > 0
    ensures 2 * a - b < 2 * b * RoundDiv(a, b) <= 2 * a + b
  {
    QuotSpec(2 * a + b, 2 * b);
  }

  lemma {:induction false} MulMonotone(x: int, y: int, z: nat)
    requires x <= y
    ensures x * z <= y * z
  {
    if z > 0 {
      MulMonotone(x, y, z - 1);
      assert x * z == x * (z - 1) + x && y * z == y * (z - 1) + y;
    }
  }

  /** `Math.round(a / b * m)` is at most `m` when `a <= b`. */
  lemma RoundDivBound(a: nat, b: nat, m: nat)
    requires 0 < b && a <= b
    ensures RoundDiv(a * m, b) <= m
  {
    var q := RoundDiv(a * m, b);
    RoundDivSpec(a * m, b);
    assert q * (2 * b) <= 2 * (a * m) + b;
    MulMonotone(a, b, m);
    assert b * m == m * b;
    if q > m {
      MulMonotone(m + 1, q, 2 * b);
    }
  }

  /** The events of the channel phase for channels `0 .. k`: one after
      every tenth channel, at `round(i / n * 50)`. */
  function ChannelEvents(k: nat, n: nat): seq<Progress>
    requires k <= n
  {
    if k == 0 then []
    else ChannelEvents(k - 1, n) + (if k % 10 == 0 then [Progress(Parsing, RoundDiv(k * 50, n))] else [])
  }

  /** The events of the programme phase for programmes `0 .. k`: one after
      every hundredth, at `50 + round(i / m * 50)`. */
  function ProgrammeEvents(k: nat, m: nat): seq<Progress>
    requires k <= m
  {
    if k == 0 then []
    else ProgrammeEvents(k - 1, m) + (if k % 100 == 0 then [Progress(Parsing, 50 + RoundDiv(k * 50, m))] else [])
  }

  /** All events of a successful parse. */
  function ParseEvents(doc: XmlDocument): seq<Progress> {
    [Progress(Parsing, 0)] + ChannelEvents(|doc.channels|, |doc.channels|) +
    ProgrammeEvents(|doc.programmes|, |doc.programmes|) + [Progress(Parsing, 100)]
  }

  lemma {:induction false} ChannelEventsBound(k: nat, n: nat)
    requires k <= n
    ensures forall e :: e in ChannelEvents(k, n) ==> e.stage == Parsing && 0 <= e.percent <= 50
    ensures |ChannelEvents(k, n)| == k / 10
  {
    if k > 0 {
      ChannelEventsBound(k - 1, n);
      RoundDivBound(k, n, 50);
    }
  }

  lemma {:induction false} ProgrammeEventsBound(k: nat, m: nat)
    requires k <= m
    ensures forall e :: e in ProgrammeEvents(k, m) ==> e.stage == Parsing && 50 <= e.percent <= 100
    ensures |ProgrammeEvents(k, m)| == k / 100
  {
    if k > 0 {
      ProgrammeEventsBound(k - 1, m);
      RoundDivBound(k, m, 50);
    }
  }

  /** The channel phase reports at most 50, the programme phase at least 50
      and at most 100, and the parse ends with 100. */
  lemma ParseEventsSpec(doc: XmlDocument)
    ensures var ev := ParseEvents(doc);
      var c := |doc.channels| / 10;
      |ev| == 2 + c + |doc.programmes| / 100 &&
      ev[0] == Progress(Parsing, 0) && ev[|ev| - 1] == Progress(Parsing, 100) &&
      (forall i :: 1 <= i <= c ==> ev[i].percent <= 50) &&
      (forall i :: c < i < |ev| ==> 50 <= ev[i].percent <= 100)
  {
    var ce := ChannelEvents(|doc.channels|, |doc.channels|);
    var pe := ProgrammeEvents(|doc.programmes|, |doc.programmes|);
    ChannelEventsBound(|doc.channels|, |doc.channels|);
    ProgrammeEventsBound(|doc.programmes|, |doc.programmes|);
    PhaseBounds(ce, pe);
  }

  /** The opening event, events of at most 50, events between 50 and 100,
      and the closing event, in this order. */
  lemma PhaseBounds(ce: seq<Progress>, pe: seq<Progress>)
    requires forall e :: e in ce ==> 0 <= e.percent <= 50
    requires forall e :: e in pe ==> 50 <= e.percent <= 100
    ensures var ev := [Progress(Parsing, 0)] + ce + pe + [Progress(Parsing, 100)];
      |ev| == 2 + |ce| + |pe| &&
      ev[0] == Progress(Parsing, 0) && ev[|ev| - 1] == Progress(Parsing, 100) &&
      (forall i :: 1 <= i <= |ce| ==> ev[i].percent <= 50) &&
      (forall i :: |ce| < i < |ev| ==> 50 <= ev[i].percent <= 100)
  {
    var a := [Progress(Parsing, 0)] + ce;
    var b := a + pe;
    var ev := b + [Progress(Parsing, 100)];
    forall i | 1 <= i <= |ce| ensures ev[i].percent <= 50 {
      assert ev[i] == b[i] == a[i] == ce[i - 1];
      assert ce[i - 1] in ce;
    }
    forall i | |ce| < i < |ev| - 1 ensures 50 <= ev[i].percent <= 100 {
      assert ev[i] == b[i] == pe[i - |a|];
      assert pe[i - |a|] in pe;
    }
  }

  /** `parseEpgXml`: the records of the document and the progress events,
      or the parser-error exception. */
  method ParseEpgXml(doc: XmlDocument, localTime: string -> Option<int>) returns (r: Result<EpgData>, events: seq<Progress>)
    ensures doc.hasParserError ==> r == Err(XmlParsingError) && events == [Progress(Parsing, 0)]
    ensures !doc.hasParserError ==> r == Ok(Extracted(doc, localTime)) && events == ParseEvents(doc)
  {
    events := [Progress(Parsing, 0)];
    if doc.hasParserError {
      return Err(XmlParsingError), events;
    }
    var channels, channelEvents := ExtractChannels(doc);
    var programs, programmeEvents := ExtractProgrammes(doc, localTime);
    events := events + channelEvents + programmeEvents + [Progress(Parsing, 100)];
    assert channels == Extracted(doc, localTime).channels;
    assert programs == Extracted(doc, localTime).programs;
    r := Ok(EpgData(channels, programs));
  }

  /** The loop over the `channel` elements, with its progress events. */
  method ExtractChannels(doc: XmlDocument) returns (channels: seq<Channel>, events: seq<Progress>)
    ensures |channels| == |doc.channels|
    ensures forall k :: 0 <= k < |doc.channels| ==> channels[k] == ChannelOf(doc.channels[k])
    ensures events == ChannelEvents(|doc.channels|, |doc.channels|)
  {
    channels, events := [], [];
    var n := |doc.channels|;
    var i := 0;
    while i < n
      invariant 0 <= i <= n
      invariant |channels| == i && forall k :: 0 <= k < i ==> channels[k] == ChannelOf(doc.channels[k])
      invariant events == ChannelEvents(i, n)
    {
      channels := channels + [ChannelOf(doc.channels[i])];
      if (i + 1) % 10 == 0 {
        events := events + [Progress(Parsing, RoundDiv((i + 1) * 50, n))];
      }
      i := i + 1;
    }
  }

  /** The loop over the `programme` elements, with its progress events. */
  method ExtractProgrammes(doc: XmlDocument, localTime: string -> Option<int>)
    returns (programs: seq<Programme>, events: seq<Progress>)
    ensures |programs| == |doc.programmes|
    ensures forall k :: 0 <= k < |doc.programmes| ==> programs[k] == ProgrammeOf(doc.programmes[k], localTime)
    ensures events == ProgrammeEvents(|doc.programmes|, |doc.programmes|)
  {
    programs, events := [], [];
    var m := |doc.programmes|;
    var j := 0;
    while j < m
      invariant 0 <= j <= m
      invariant |programs| == j && forall k :: 0 <= k < j ==> programs[k] == ProgrammeOf(doc.programmes[k], localTime)
      invariant events == ProgrammeEvents(j, m)
    {
      programs := programs + [ProgrammeOf(doc.programmes[j], localTime)];
      if (j + 1) % 100 == 0 {
        events := events + [Progress(Parsing, 50 + RoundDiv((j + 1) * 50, m))];
      }
      j := j + 1;
    }
  }
}

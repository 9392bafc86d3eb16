/** What the two M3U playlist parsers (src/contexts/PlaylistContext.jsx
    and src/LiveTV.jsx) have in common: the text is cut into lines, an
    `#EXTINF:` line (section 4.3.2.1 of RFC 8216) opens an entry, and the
    next line that is neither empty nor a comment is that entry's URL.
    The scan is written once over what a parser does with a header line
    and with a URL line; either step may fail (a URL rewrite that throws),
    which ends the whole parse. */
module M3u {
  import opened Wrappers
  import JsString

  datatype LineKind = Header | Url | Other

  /** How a trimmed line is treated. */
  function Classify(line: string): (k: LineKind)
    ensures k == Header <==> JsString.StartsWith(line, "#EXTINF:")
    ensures k == Url <==> line != "" && !JsString.StartsWith(line, "#")
  {
    if JsString.StartsWith(line, "#EXTINF:") then
      assert line[..1] == line[..8][..1];
      Header
    else if line != "" && !JsString.StartsWith(line, "#") then Url
    else Other
  }

  /** The state of the line loop: the entries completed so far and the
      entry opened by the last header line, if it is still waiting for its
      URL. */
  datatype ScanState<I> = ScanState(items: seq<I>, pending: Option<I>)

  /** One iteration of the line loop. */
  function Step<I>(s: ScanState<I>, line: string, kind: string -> LineKind,
                   header: string -> Result<I>, attach: (I, string) -> Result<I>): Result<ScanState<I>>
  {
    match kind(line)
    case Header =>
      var h := header(line);
      if h.Err? then Err(h.error) else Ok(ScanState(s.items, Some(h.value)))
    case Url =>
      if s.pending.None? then Ok(s)
      else
        var it := attach(s.pending.value, line);
        if it.Err? then Err(it.error) else Ok(ScanState(s.items + [it.value], None))
    case Other => Ok(s)
  }

  /** The loop after the first `k` lines. */
  function Scan<I>(lines: seq<string>, k: nat, kind: string -> LineKind,
                   header: string -> Result<I>, attach: (I, string) -> Result<I>): Result<ScanState<I>>
    requires k <= |lines|
  {
    if k == 0 then Ok(ScanState([], None))
    else
      var prev := Scan(lines, k - 1, kind, header, attach);
      if prev.Err? then prev else Step(prev.value, lines[k - 1], kind, header, attach)
  }

  /** What a parser returns (or the error it throws). */
  function Entries<I>(lines: seq<string>, kind: string -> LineKind,
                      header: string -> Result<I>, attach: (I, string) -> Result<I>): Result<seq<I>>
  {
    var s := Scan(lines, |lines|, kind, header, attach);
    if s.Err? then Err(s.error) else Ok(s.value.items)
  }

  // ---------------------------------------------------------------------
  // Which lines pair up

  /** Line `i` is a header and only lines of no interest follow it before
      line `k`. */
  predicate Open(lines: seq<string>, kind: string -> LineKind, i: int, k: int)
    requires k <= |lines|
  {
    0 <= i < k && kind(lines[i]) == Header && forall m :: i < m < k ==> kind(lines[m]) == Other
  }

  /** Header line `i` and URL line `j` form one entry: nothing between
      them is a header or a URL. */
  predicate Paired(lines: seq<string>, kind: string -> LineKind, i: int, j: int) {
    0 <= j < |lines| && Open(lines, kind, i, j) && kind(lines[j]) == Url
  }

  /** Scans whose steps never fail. */
  ghost predicate Total<I(!new)>(header: string -> Result<I>, attach: (I, string) -> Result<I>) {
    (forall l :: header(l).Ok?) && (forall p, l :: attach(p, l).Ok?)
  }

  /** The lines of a playlist text as the loops see them: cut at line
      feeds, each one trimmed. */
  function Lines(text: string): (r: seq<string>)
    ensures |r| == |JsString.Split(text, '\n')|
    ensures forall i :: 0 <= i < |r| ==> r[i] == JsString.Trim(JsString.Split(text, '\n')[i])
  {
    var raw := JsString.Split(text, '\n');
    seq(|raw|, i requires 0 <= i < |raw| => JsString.Trim(raw[i]))
  }

  /** `x` is the entry of some header line and the URL line paired with it. */
  ghost predicate Produced<I(!new)>(lines: seq<string>, kind: string -> LineKind, header: string -> Result<I>,
                                   attach: (I, string) -> Result<I>, x: I)
    requires Total(header, attach)
  {
    exists i, j :: Paired(lines, kind, i, j) && x == Entry(lines, header, attach, i, j)
  }

  /** Two step functions that never fail make a total scan. */
  lemma TotalOf<I(!new)>(header: string -> Result<I>, attach: (I, string) -> Result<I>)
    requires forall l :: header(l).Ok?
    requires forall p, l :: attach(p, l).Ok?
    ensures Total(header, attach)
  {
  }

  /** The entry formed by header line `i` and URL line `j`. */
  ghost function Entry<I(!new)>(lines: seq<string>, header: string -> Result<I>, attach: (I, string) -> Result<I>,
                    i: nat, j: nat): I
    requires i < |lines| && j < |lines| && Total(header, attach)
  {
    attach(header(lines[i]).value, lines[j]).value
  }

  lemma OpenExtend(lines: seq<string>, kind: string -> LineKind, i: int, k: nat)
    requires k < |lines|
    ensures Open(lines, kind, i, k + 1) <==>
      (i == k && kind(lines[k]) == Header) || (Open(lines, kind, i, k) && kind(lines[k]) == Other)
  {
  }

  /** When no step fails, an entry is pending exactly while a header is
      open, and it is the one that header opened. */
  lemma {:induction false} ScanPending<I(!new)>(lines: seq<string>, k: nat, kind: string -> LineKind,
                                          header: string -> Result<I>, attach: (I, string) -> Result<I>)
    requires k <= |lines| && Total(header, attach)
    ensures Scan(lines, k, kind, header, attach).Ok?
    ensures var s := Scan(lines, k, kind, header, attach).value;
      (s.pending.None? <==> forall i :: !Open(lines, kind, i, k)) &&
      (forall i :: Open(lines, kind, i, k) ==> s.pending == Some(header(lines[i]).value))
  {
    if k > 0 {
      ScanPending(lines, k - 1, kind, header, attach);
      var prev := Scan(lines, k - 1, kind, header, attach).value;
      var s := Scan(lines, k, kind, header, attach).value;
      var line := lines[k - 1];
      forall i ensures Open(lines, kind, i, k) <==>
          (i == k - 1 && kind(line) == Header) || (Open(lines, kind, i, k - 1) && kind(line) == Other) {
        OpenExtend(lines, kind, i, k - 1);
      }
      if kind(line) == Header {
        assert Open(lines, kind, k - 1, k);
      } else if kind(line) == Url {
        assert s.pending.None?;
      } else {
        assert s == prev;
        if s.pending.Some? {
          var i :| Open(lines, kind, i, k - 1);
          assert Open(lines, kind, i, k);
        }
      }
    }
  }

  /** When no step fails, an entry is completed exactly for each pair of a
      header and the URL line after it. */
  lemma {:induction false} ScanItems<I(!new)>(lines: seq<string>, k: nat, kind: string -> LineKind,
                                        header: string -> Result<I>, attach: (I, string) -> Result<I>)
    requires k <= |lines| && Total(header, attach)
    ensures Scan(lines, k, kind, header, attach).Ok?
    ensures forall x :: x in Scan(lines, k, kind, header, attach).value.items <==>
      exists i, j :: j < k && Paired(lines, kind, i, j) && x == Entry(lines, header, attach, i, j)
  {
    if k > 0 {
      ScanItems(lines, k - 1, kind, header, attach);
      ScanPending(lines, k - 1, kind, header, attach);
      var prev := Scan(lines, k - 1, kind, header, attach).value;
      var s := Scan(lines, k, kind, header, attach).value;
      var line := lines[k - 1];
      forall x ensures x in s.items <==>
          exists i, j :: j < k && Paired(lines, kind, i, j) && x == Entry(lines, header, attach, i, j) {
        if x in s.items {
          if x in prev.items {
            var i, j :| j < k - 1 && Paired(lines, kind, i, j) && x == Entry(lines, header, attach, i, j);
            assert j < k;
          } else {
            assert kind(line) == Url && prev.pending.Some?;
            var i :| Open(lines, kind, i, k - 1);
            assert x == Entry(lines, header, attach, i, k - 1);
            assert Paired(lines, kind, i, k - 1);
          }
        }
        if exists i, j :: j < k && Paired(lines, kind, i, j) && x == Entry(lines, header, attach, i, j) {
          var i, j :| j < k && Paired(lines, kind, i, j) && x == Entry(lines, header, attach, i, j);
          if j < k - 1 {
            assert x in prev.items;
          } else {
            assert Open(lines, kind, i, k - 1);
            assert prev.pending == Some(header(lines[i]).value);
          }
        }
      }
    }
  }

  /** The parse result when no step fails: one entry per header line
      followed, past empty and comment lines only, by a URL line. A header
      with no such URL line before the next header is dropped, and a URL
      line with no open header is ignored. */
  lemma EntriesSpec<I(!new)>(lines: seq<string>, kind: string -> LineKind,
                       header: string -> Result<I>, attach: (I, string) -> Result<I>, x: I)
    requires Total(header, attach)
    ensures Entries(lines, kind, header, attach).Ok?
    ensures x in Entries(lines, kind, header, attach).value <==> Produced(lines, kind, header, attach, x)
  {
    ScanItems(lines, |lines|, kind, header, attach);
  }

  /** A failing header step fails the whole parse, even when the entry it
      opens would later be dropped. */
  lemma HeaderFailureFails<I>(lines: seq<string>, k: nat, kind: string -> LineKind,
                              header: string -> Result<I>, attach: (I, string) -> Result<I>)
    requires k < |lines| && kind(lines[k]) == Header && header(lines[k]).Err?
    ensures Entries(lines, kind, header, attach).Err?
  {
    ErrSticks(lines, k + 1, |lines|, kind, header, attach);
  }

  /** The URL line that completes an entry fails the whole parse when the
      URL step fails whatever the entry. */
  lemma PairedFailureFails<I(!new)>(lines: seq<string>, kind: string -> LineKind,
                              header: string -> Result<I>, attach: (I, string) -> Result<I>, i: int, j: int)
    requires Paired(lines, kind, i, j)
    requires forall p :: attach(p, lines[j]).Err?
    ensures Entries(lines, kind, header, attach).Err?
  {
    var prev := Scan(lines, j, kind, header, attach);
    if prev.Ok? {
      PendingWhileOpen(lines, j, kind, header, attach, i);
      assert attach(prev.value.pending.value, lines[j]).Err?;
    }
    assert Scan(lines, j + 1, kind, header, attach).Err?;
    ErrSticks(lines, j + 1, |lines|, kind, header, attach);
  }

  /** A scan that has not failed holds the entry of the open header. */
  lemma {:induction false} PendingWhileOpen<I>(lines: seq<string>, k: nat, kind: string -> LineKind,
                                               header: string -> Result<I>, attach: (I, string) -> Result<I>, i: int)
    requires k <= |lines| && Open(lines, kind, i, k)
    requires Scan(lines, k, kind, header, attach).Ok?
    ensures Scan(lines, k, kind, header, attach).value.pending.Some?
    decreases k
  {
    if k - 1 != i {
      OpenExtend(lines, kind, i, k - 1);
      PendingWhileOpen(lines, k - 1, kind, header, attach, i);
    }
  }

  /** Once a step has failed, the rest of the lines change nothing. */
  lemma {:induction false} ErrSticks<I>(lines: seq<string>, k: nat, n: nat, kind: string -> LineKind,
                                        header: string -> Result<I>, attach: (I, string) -> Result<I>)
    requires k <= n <= |lines| && Scan(lines, k, kind, header, attach).Err?
    ensures Scan(lines, n, kind, header, attach) == Scan(lines, k, kind, header, attach)
    decreases n
  {
    if n > k {
      ErrSticks(lines, k, n - 1, kind, header, attach);
    }
  }

  // ---------------------------------------------------------------------
  // The line loop

  /** The `for` loop over the lines, stopping at the first step that
      throws. */
  method ScanLines<I>(lines: seq<string>, kind: string -> LineKind,
                      header: string -> Result<I>, attach: (I, string) -> Result<I>)
    returns (r: Result<seq<I>>)
    ensures r == Entries(lines, kind, header, attach)
  {
    var items: seq<I> := [];
    var current: Option<I> := None;
    var i := 0;
    while i < |lines|
      invariant 0 <= i <= |lines|
      invariant Scan(lines, i, kind, header, attach) == Ok(ScanState(items, current))
    {
      var line := lines[i];
      var k := kind(line);
      if k == Header {
        var h := header(line);
        if h.Err? {
          ErrSticks(lines, i + 1, |lines|, kind, header, attach);
          return Err(h.error);
        }
        current := Some(h.value);
      } else if k == Url && current.Some? {
        var it := attach(current.value, line);
        if it.Err? {
          ErrSticks(lines, i + 1, |lines|, kind, header, attach);
          return Err(it.error);
        }
        items := items + [it.value];
        current := None;
      }
      i := i + 1;
    }
    r := Ok(items);
  }

  // ---------------------------------------------------------------------
  // Attributes

  /** The value after `key` (an attribute name with `="`) at position `q`:
      the text up to the next double quote, if there is one. */
  function ValueAt(line: string, key: string, q: nat): Option<string> {
    if q + |key| <= |line| && line[q..q + |key|] == key then
      var rest := line[q + |key|..];
      var j := JsString.IndexOf(rest, "\"");
      if j < 0 then None else Some(rest[..j])
    else None
  }

  /** A value read at a position follows the key there, contains no quote
      and is closed by a quote. */
  lemma ValueAtSpec(line: string, key: string, q: nat)
    ensures var r := ValueAt(line, key, q);
      r.Some? ==>
        (q + |key| + |r.value| < |line| &&
         line[q..q + |key|] == key && line[q + |key|..q + |key| + |r.value|] == r.value &&
         '"' !in r.value && line[q + |key| + |r.value|] == '"')
  {
    if q + |key| <= |line| && line[q..q + |key|] == key {
      var rest := line[q + |key|..];
      var j := JsString.IndexOf(rest, "\"");
      if j >= 0 {
        assert rest[j] == '"' by { assert JsString.StartsWith(rest[j..], "\""); }
        assert '"' !in rest[..j] by {
          forall m | 0 <= m < j ensures rest[..j][m] != '"' {
            assert !JsString.StartsWith(rest[m..], "\"");
          }
        }
      }
    }
  }

  /** The regular expression matches at `q`: `key`, then a value without
      quotes (non-empty unless `allowEmpty`, the `*` form), then a quote. */
  predicate MatchesAt(line: string, key: string, allowEmpty: bool, q: nat) {
    var v := ValueAt(line, key, q);
    v.Some? && (allowEmpty || v.value != "")
  }

  /** The first match at or after `from`, as `String.prototype.match`
      finds it. */
  function AttrFrom(line: string, key: string, allowEmpty: bool, from: nat): (r: Option<string>)
    ensures r.Some? ==> exists q :: from <= q && MatchesAt(line, key, allowEmpty, q) && ValueAt(line, key, q) == r &&
                                    forall p :: from <= p < q ==> !MatchesAt(line, key, allowEmpty, p)
    ensures r.None? ==> forall p :: from <= p ==> !MatchesAt(line, key, allowEmpty, p)
    decreases |line| - from
  {
    if from + |key| > |line| then
      assert forall p :: from <= p ==> ValueAt(line, key, p).None?;
      None
    else if MatchesAt(line, key, allowEmpty, from) then ValueAt(line, key, from)
    else AttrFrom(line, key, allowEmpty, from + 1)
  }

  /** `line.match(/name="([^"]+)"/)?.[1]`, or with `allowEmpty` the
      `([^"]*)` form. */
  function Attr(line: string, name: string, allowEmpty: bool): Option<string> {
    AttrFrom(line, name + "=\"", allowEmpty, 0)
  }

  /** An attribute written first on the line is read back as written. */
  lemma AttrLeading(name: string, v: string, rest: string, allowEmpty: bool)
    requires '"' !in v && (allowEmpty || v != "")
    ensures Attr(name + "=\"" + v + "\"" + rest, name, allowEmpty) == Some(v)
  {
    var key := name + "=\"";
    var line := key + v + "\"" + rest;
    var after := line[|key|..];
    assert after == v + "\"" + rest;
    assert JsString.StartsWith(after[|v|..], "\"");
    forall m | 0 <= m < |v| ensures !JsString.StartsWith(after[m..], "\"") {
      assert after[m] == v[m];
    }
    assert after[..|v|] == v;
    assert line[0..|key|] == key;
    assert ValueAt(line, key, 0) == Some(v);
  }

  // ---------------------------------------------------------------------
  // The name after the comma

  /** `line.match(/,(.+)$/)` matches at `i`: a comma followed by one or more
      characters up to the end, none of them a line terminator. */
  predicate CommaAt(line: string, i: int) {
    0 <= i < |line| - 1 && line[i] == ',' &&
    forall m :: i < m < |line| ==> !JsString.IsLineTerminator(line[m])
  }

  function CommaFrom(line: string, from: nat): (r: Option<nat>)
    ensures r.Some? ==> from <= r.value && CommaAt(line, r.value) &&
                        forall p :: from <= p < r.value ==> !CommaAt(line, p)
    ensures r.None? ==> forall p :: from <= p ==> !CommaAt(line, p)
    decreases |line| - from
  {
    if from >= |line| then None
    else if CommaAt(line, from) then Some(from)
    else CommaFrom(line, from + 1)
  }

  /** The captured text of `/,(.+)$/`: everything after the leftmost comma
      from which the rest of the line is free of line terminators. */
  function AfterComma(line: string): (r: Option<string>)
    ensures r.Some? ==> r.value != [] && exists i :: CommaAt(line, i) && r.value == line[i + 1..] &&
                                                       forall p :: 0 <= p < i ==> !CommaAt(line, p)
    ensures r.None? ==> forall p :: !CommaAt(line, p)
  {
    var i := CommaFrom(line, 0);
    if i.None? then None else Some(line[i.value + 1..])
  }

  /** The match is at the first comma, not the last: with two commas the
      name keeps the second one. */
  lemma AfterCommaFirst(a: string, b: string, c: string)
    requires ',' !in a && forall m :: 0 <= m < |b + "," + c| ==> !JsString.IsLineTerminator((b + "," + c)[m])
    requires b != [] || c != []
    ensures AfterComma(a + "," + b + "," + c) == Some(b + "," + c)
  {
    var line := a + "," + b + "," + c;
    assert line[|a|] == ',';
    assert line[|a| + 1..] == b + "," + c;
    assert CommaAt(line, |a|);
    forall p | 0 <= p < |a| ensures !CommaAt(line, p) {
      assert line[p] == a[p];
    }
  }
}

/** The "what's on" query over the stored guide data
    (src/services/epg.js, `getChannelPrograms` and `getCurrentProgram`). */
module EpgQuery {
  import opened Wrappers
  import JsString
  import Sorting
  import opened EpgModel

  /** The hours `getChannelPrograms` looks ahead when none are given. */
  const DefaultHours := 24

  const MillisPerHour := 3600000

  /** `new Date(value).getTime()` for a stored timestamp: JSON null is the
      epoch. */
  function TimeOf(t: Option<int>): int {
    if t.Some? then t.value else 0
  }

  /** A programme as the query returns it: the stored record plus the
      display name of its channel. */
  datatype Listed = Listed(program: Programme, channelName: string)

  /** `name.toLowerCase().trim()`. */
  function Normalized(s: string): string {
    JsString.Trim(JsString.Lower(s))
  }

  /** The fuzzy match: either normalised name contains the other. */
  predicate NamesMatch(displayName: string, query: string) {
    var d := Normalized(displayName);
    var q := Normalized(query);
    JsString.Includes(d, q) || JsString.Includes(q, d)
  }

  /** `stop > now && start < now + hours`. */
  predicate InWindow(p: Programme, now: int, hours: int) {
    TimeOf(p.stop) > now && TimeOf(p.start) < now + hours * MillisPerHour
  }

  /** `channels.find(c => c.id === id)`. */
  function FindChannel(channels: seq<Channel>, id: Option<string>): (r: Option<Channel>)
    ensures r.Some? ==> exists i :: 0 <= i < |channels| && channels[i] == r.value && r.value.id == id &&
                                    forall j :: 0 <= j < i ==> channels[j].id != id
    ensures r.None? ==> forall i :: 0 <= i < |channels| ==> channels[i].id != id
  {
    if channels == [] then None
    else if channels[0].id == id then Some(channels[0])
    else
      var r := FindChannel(channels[1..], id);
      assert forall i :: 1 <= i < |channels| ==> channels[i] == channels[1..][i - 1];
      r
  }

  /** What one programme of a source contributes to the result. */
  function MatchOf(d: StoredData, p: Programme, name: string, hours: int, now: int): Option<Listed> {
    var c := FindChannel(d.channels, p.channelId);
    if c.Some? && NamesMatch(c.value.displayName, name) && InWindow(p, now, hours) then
      Some(Listed(p, c.value.displayName))
    else None
  }

  function AsSeq<T>(o: Option<T>): seq<T> {
    if o.Some? then [o.value] else []
  }

  /** What a programme of a source contributes, as a function value. */
  type Selection = (StoredData, Programme) -> Option<Listed>

  function Select(name: string, hours: int, now: int): Selection {
    (d: StoredData, p: Programme) => MatchOf(d, p, name, hours, now)
  }

  /** The contributions of the first `k` programmes of a source. */
  function SourceMatches(d: StoredData, k: nat, sel: Selection): seq<Listed>
    requires k <= |d.programs|
  {
    if k == 0 then []
    else SourceMatches(d, k - 1, sel) + AsSeq(sel(d, d.programs[k - 1]))
  }

  /** The contributions of the first `k` sources, in property order. */
  function AllMatches(store: Store, k: nat, sel: Selection): seq<Listed>
    requires k <= |store|
  {
    if k == 0 then []
    else AllMatches(store, k - 1, sel) + SourceMatches(store[k - 1].1, |store[k - 1].1.programs|, sel)
  }

  function StartKey(l: Listed): real {
    TimeOf(l.program.start) as real
  }

  /** The result of `getChannelPrograms(name, hours)` at instant `now`. */
  function ChannelPrograms(store: Store, name: string, hours: int, now: int): seq<Listed> {
    Sorting.SortBy(AllMatches(store, |store|, Select(name, hours, now)), StartKey)
  }

  /** The inner loop of `getChannelPrograms`: the programmes of one
      source, in stored order, each passed to the loop body `sel`. */
  method SourcePrograms(d: StoredData, sel: Selection) returns (r: seq<Listed>)
    ensures r == SourceMatches(d, |d.programs|, sel)
  {
    r := [];
    var j := 0;
    while j < |d.programs|
      invariant 0 <= j <= |d.programs|
      invariant r == SourceMatches(d, j, sel)
    {
      var listed := sel(d, d.programs[j]);
      if listed.Some? {
        r := r + [listed.value];
      }
      j := j + 1;
    }
  }

  /** Programme `j` of source `i` contributes `x`. */
  predicate Qualifies(store: Store, i: int, j: int, sel: Selection, x: Listed)
  {
    0 <= i < |store| && 0 <= j < |store[i].1.programs| &&
    sel(store[i].1, store[i].1.programs[j]) == Some(x)
  }

  /** A programme contributes exactly when its channel id resolves to a
      channel of the same source, the names match and the programme
      overlaps the window; it is listed with that channel's display name. */
  lemma MatchOfSpec(d: StoredData, p: Programme, name: string, hours: int, now: int, x: Listed)
    ensures MatchOf(d, p, name, hours, now) == Some(x) <==>
      var c := FindChannel(d.channels, p.channelId);
      c.Some? && x == Listed(p, c.value.displayName) &&
      NamesMatch(c.value.displayName, name) && InWindow(p, now, hours)
  {
  }

  lemma {:induction false} SourceMatchesMembers(store: Store, i: int, k: nat, sel: Selection, x: Listed)
    requires 0 <= i < |store| && k <= |store[i].1.programs|
    ensures x in SourceMatches(store[i].1, k, sel) <==> exists j :: 0 <= j < k && Qualifies(store, i, j, sel, x)
  {
    if k > 0 {
      SourceMatchesMembers(store, i, k - 1, sel, x);
      var d := store[i].1;
      var m := sel(d, d.programs[k - 1]);
      if x in SourceMatches(d, k, sel) && x !in SourceMatches(d, k - 1, sel) {
        assert x in AsSeq(m);
        assert Qualifies(store, i, k - 1, sel, x);
      }
      if exists j :: 0 <= j < k && Qualifies(store, i, j, sel, x) {
        var j :| 0 <= j < k && Qualifies(store, i, j, sel, x);
        if j == k - 1 {
          assert x in AsSeq(m);
        }
      }
    }
  }

  lemma {:induction false} AllMatchesMembers(store: Store, k: nat, sel: Selection, x: Listed)
    requires k <= |store|
    ensures x in AllMatches(store, k, sel) <==> exists i, j :: 0 <= i < k && Qualifies(store, i, j, sel, x)
  {
    if k > 0 {
      var a := AllMatches(store, k - 1, sel);
      var b := SourceMatches(store[k - 1].1, |store[k - 1].1.programs|, sel);
      AllMatchesMembers(store, k - 1, sel, x);
      SourceMatchesMembers(store, k - 1, |store[k - 1].1.programs|, sel, x);
      if x in a {
        var i, j :| 0 <= i < k - 1 && Qualifies(store, i, j, sel, x);
        assert 0 <= i < k && Qualifies(store, i, j, sel, x);
      } else if x in b {
        var j :| 0 <= j < |store[k - 1].1.programs| && Qualifies(store, k - 1, j, sel, x);
        assert 0 <= k - 1 < k && Qualifies(store, k - 1, j, sel, x);
      }
      if exists i, j :: 0 <= i < k && Qualifies(store, i, j, sel, x) {
        var i, j :| 0 <= i < k && Qualifies(store, i, j, sel, x);
        if i == k - 1 {
          assert x in b;
        } else {
          assert x in a;
        }
      }
    }
  }

  /** Exactly the programmes that meet the query's conditions are listed:
      the channel id resolves to a channel of the same source, the names
      match, and the programme overlaps the window. Every stored source
      is searched. */
  lemma ChannelProgramsMembers(store: Store, name: string, hours: int, now: int, x: Listed)
    ensures x in ChannelPrograms(store, name, hours, now) <==>
            exists i, j :: 0 <= i < |store| && 0 <= j < |store[i].1.programs| &&
                           MatchOf(store[i].1, store[i].1.programs[j], name, hours, now) == Some(x)
  {
    var sel := Select(name, hours, now);
    AllMatchesMembers(store, |store|, sel, x);
    Sorting.SortByMembers(AllMatches(store, |store|, sel), StartKey, x);
    if x in ChannelPrograms(store, name, hours, now) {
      var i, j :| 0 <= i < |store| && Qualifies(store, i, j, sel, x);
      assert MatchOf(store[i].1, store[i].1.programs[j], name, hours, now) == Some(x);
    }
    if exists i, j :: 0 <= i < |store| && 0 <= j < |store[i].1.programs| &&
                      MatchOf(store[i].1, store[i].1.programs[j], name, hours, now) == Some(x) {
      var i, j :| 0 <= i < |store| && 0 <= j < |store[i].1.programs| &&
                  MatchOf(store[i].1, store[i].1.programs[j], name, hours, now) == Some(x);
      assert Qualifies(store, i, j, sel, x);
    }
  }

  /** The listed programmes are ordered by start time, and programmes
      with equal start times keep their stored order. */
  lemma ChannelProgramsSorted(store: Store, name: string, hours: int, now: int, t: real)
    ensures Sorting.SortedBy(ChannelPrograms(store, name, hours, now), StartKey)
    ensures Sorting.WithKey(ChannelPrograms(store, name, hours, now), StartKey, t) ==
            Sorting.WithKey(AllMatches(store, |store|, Select(name, hours, now)), StartKey, t)
  {
    Sorting.SortBySorted(AllMatches(store, |store|, Select(name, hours, now)), StartKey);
    Sorting.SortByStable(AllMatches(store, |store|, Select(name, hours, now)), StartKey, t);
  }

  /** A programme without a stored stop time is never listed for a query
      made after the epoch; one without a start time counts as having
      started at the epoch. */
  lemma NullTimestamps(store: Store, name: string, hours: int, now: int, x: Listed)
    requires now >= 0 && x in ChannelPrograms(store, name, hours, now)
    ensures x.program.stop.Some?
    ensures x.program.start.None? ==> now + hours * MillisPerHour > 0
  {
    ChannelProgramsMembers(store, name, hours, now, x);
    var i, j :| 0 <= i < |store| && 0 <= j < |store[i].1.programs| &&
                MatchOf(store[i].1, store[i].1.programs[j], name, hours, now) == Some(x);
  }

  /** A channel whose display name normalises to the empty string matches
      every query, and an empty query matches every channel. */
  lemma EmptyNameMatches(displayName: string, query: string)
    ensures Normalized(displayName) == "" ==> NamesMatch(displayName, query)
    ensures Normalized(query) == "" ==> NamesMatch(displayName, query)
  {
    JsString.IncludesTrivially(Normalized(query));
    JsString.IncludesTrivially(Normalized(displayName));
  }

  lemma LowerIdempotent(s: string)
    ensures JsString.Lower(JsString.Lower(s)) == JsString.Lower(s)
  {
  }

  /** The match ignores letter case on both sides and is symmetric. */
  lemma NamesMatchProperties(a: string, b: string)
    ensures NamesMatch(a, b) == NamesMatch(b, a)
    ensures NamesMatch(JsString.Lower(a), b) == NamesMatch(a, b)
  {
    LowerIdempotent(a);
  }

  lemma NormalizedZdf()
    ensures Normalized("ZDF HD") == "zdf hd"
  {
    var l := JsString.Lower("ZDF HD");
    assert l == "zdf hd" by {
      assert l[0] == 'z' && l[1] == 'd' && l[2] == 'f' && l[3] == ' ' && l[4] == 'h' && l[5] == 'd';
    }
    JsString.TrimUnchanged(l);
  }

  lemma NormalizedZdfLower()
    ensures Normalized("zdf") == "zdf"
  {
    var l := JsString.Lower("zdf");
    assert l == "zdf" by {
      assert l[0] == 'z' && l[1] == 'd' && l[2] == 'f';
    }
    JsString.TrimUnchanged(l);
  }

  /** A concrete instance of the fuzzy match: the query "zdf" finds the
      guide channel "ZDF HD" and, the other way round, the query
      "ZDF HD" finds a guide channel named "zdf". */
  lemma NamesMatchExample()
    ensures NamesMatch("ZDF HD", "zdf") && NamesMatch("zdf", "ZDF HD")
  {
    NormalizedZdf();
    NormalizedZdfLower();
    assert "zdf hd"[0..][..3] == "zdf";
    JsString.IncludesAt("zdf hd", "zdf", 0);
    NamesMatchProperties("ZDF HD", "zdf");
  }

  // ---------------------------------------------------------------------
  // Current programme

  predicate Airing(x: Listed, now: int) {
    TimeOf(x.program.start) <= now < TimeOf(x.program.stop)
  }

  /** `programs.find(p => start <= now && stop > now) || null`. */
  function FirstAiring(list: seq<Listed>, now: int): (r: Option<Listed>)
    ensures r.Some? ==> exists i :: 0 <= i < |list| && list[i] == r.value && Airing(r.value, now) &&
                                    forall j :: 0 <= j < i ==> !Airing(list[j], now)
    ensures r.None? ==> forall i :: 0 <= i < |list| ==> !Airing(list[i], now)
  {
    if list == [] then None
    else if Airing(list[0], now) then Some(list[0])
    else
      var r := FirstAiring(list[1..], now);
      assert forall i :: 1 <= i < |list| ==> list[i] == list[1..][i - 1];
      r
  }

  /** `getCurrentProgram(name)`: the first programme of the one-hour query
      that is on the air. */
  function CurrentProgram(store: Store, name: string, now: int): Option<Listed> {
    FirstAiring(ChannelPrograms(store, name, 1, now), now)
  }

  /** In a list ordered by start time, the first programme on the air
      started no later than any other programme on the air. */
  lemma FirstAiringEarliest(list: seq<Listed>, now: int)
    requires Sorting.SortedBy(list, StartKey)
    ensures var r := FirstAiring(list, now);
      r.Some? ==> forall y :: y in list && Airing(y, now) ==> StartKey(r.value) <= StartKey(y)
  {
    var r := FirstAiring(list, now);
    if r.Some? {
      var i :| 0 <= i < |list| && list[i] == r.value && forall j :: 0 <= j < i ==> !Airing(list[j], now);
      forall y | y in list && Airing(y, now) ensures StartKey(r.value) <= StartKey(y) {
        var k :| 0 <= k < |list| && list[k] == y;
        if i < k {
          assert StartKey(list[i]) <= StartKey(list[k]);
        }
      }
    }
  }

  /** Every listed programme belongs to a channel whose name matches the
      query and overlaps the window. */
  lemma ListedSound(store: Store, name: string, hours: int, now: int, x: Listed)
    requires x in ChannelPrograms(store, name, hours, now)
    ensures NamesMatch(x.channelName, name) && InWindow(x.program, now, hours)
  {
    ChannelProgramsMembers(store, name, hours, now, x);
    var i, j :| 0 <= i < |store| && 0 <= j < |store[i].1.programs| &&
                MatchOf(store[i].1, store[i].1.programs[j], name, hours, now) == Some(x);
    MatchOfSpec(store[i].1, store[i].1.programs[j], name, hours, now, x);
  }

  /** The current programme is a listed programme of a matching channel
      that is on the air, and among those on the air it started first;
      there is none exactly when nothing listed is on the air. */
  lemma CurrentProgramSpec(store: Store, name: string, now: int)
    ensures var r := CurrentProgram(store, name, now);
      var list := ChannelPrograms(store, name, 1, now);
      (r.Some? ==> r.value in list && Airing(r.value, now) && NamesMatch(r.value.channelName, name) &&
                   forall y :: y in list && Airing(y, now) ==> StartKey(r.value) <= StartKey(y)) &&
      (r.None? <==> forall y :: y in list ==> !Airing(y, now))
  {
    var r := CurrentProgram(store, name, now);
    var list := ChannelPrograms(store, name, 1, now);
    ChannelProgramsSorted(store, name, 1, now, 0.0);
    FirstAiringEarliest(list, now);
    if r.Some? {
      ListedSound(store, name, 1, now, r.value);
    }
  }
}

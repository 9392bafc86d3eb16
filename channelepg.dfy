/** The guide panel of a channel (src/components/ChannelEpg.jsx): the
    programme on the air with its progress bar, and the next programmes of
    the coming six hours. The clock is the parameter `now`, in
    milliseconds. */
module ChannelEpg {
  import opened Wrappers
  import Sorting
  import opened EpgModel
  import opened EpgParse
  import opened EpgQuery

  /** The hours of the upcoming query. */
  const UpcomingHours := 6
  /** The most upcoming programmes shown. */
  const UpcomingLimit := 3

  /** The width of the progress bar: a whole percentage, or `NaN` when the
      programme has no duration and `0 / 0` is taken. */
  datatype Width = Percent(value: int) | NotANumber

  /** `getProgress(start, stop)` at instant `now`. */
  function GetProgress(start: Option<int>, stop: Option<int>, now: int): Width {
    var s := TimeOf(start);
    var e := TimeOf(stop);
    if now < s || now > e then Percent(0)
    else if e == s then NotANumber
    else Percent(RoundDiv((now - s) * 100, e - s))
  }

  /** Outside its interval a programme shows no progress; inside an
      interval of positive length the width is the rounded elapsed share,
      within 0..100, 0 at the start and 100 at the stop. */
  lemma GetProgressSpec(start: Option<int>, stop: Option<int>, now: int)
    ensures now < TimeOf(start) || now > TimeOf(stop) ==> GetProgress(start, stop, now) == Percent(0)
    ensures TimeOf(start) < TimeOf(stop) && TimeOf(start) <= now <= TimeOf(stop) ==>
      var w := GetProgress(start, stop, now);
      w.Percent? && 0 <= w.value <= 100 &&
      (now == TimeOf(start) ==> w.value == 0) && (now == TimeOf(stop) ==> w.value == 100)
    ensures TimeOf(start) == TimeOf(stop) == now ==> GetProgress(start, stop, now) == NotANumber
  {
    var s := TimeOf(start);
    var e := TimeOf(stop);
    if s < e && s <= now <= e {
      var d := e - s;
      RoundDivBound(now - s, d, 100);
      if now == s {
        QuotUnique(2 * ((now - s) * 100) + d, 2 * d, 0);
      }
      if now == e {
        QuotUnique(2 * ((now - s) * 100) + d, 2 * d, 100);
      }
    }
  }

  /** `programs.filter(p => new Date(p.start) > now)`. */
  function StartingLater(list: seq<Listed>, now: int): (r: seq<Listed>)
    ensures forall x :: x in r <==> x in list && TimeOf(x.program.start) > now
    ensures |r| <= |list|
  {
    if list == [] then []
    else
      var rest := StartingLater(list[1..], now);
      assert forall x :: x in list <==> x == list[0] || x in list[1..];
      if TimeOf(list[0].program.start) > now then [list[0]] + rest else rest
  }

  /** The upcoming list: the first three programmes of the six-hour query
      that start after `now`. */
  function Upcoming(list: seq<Listed>, now: int): seq<Listed> {
    var later := StartingLater(list, now);
    if |later| <= UpcomingLimit then later else later[..UpcomingLimit]
  }

  lemma {:induction false} StartingLaterSorted(list: seq<Listed>, now: int)
    requires Sorting.SortedBy(list, StartKey)
    ensures Sorting.SortedBy(StartingLater(list, now), StartKey)
  {
    if list != [] {
      assert Sorting.SortedBy(list[1..], StartKey);
      StartingLaterSorted(list[1..], now);
      var rest := StartingLater(list[1..], now);
      if TimeOf(list[0].program.start) > now {
        forall y | y in rest ensures StartKey(list[0]) <= StartKey(y) {
          var k :| 0 <= k < |list[1..]| && list[1..][k] == y;
          assert list[k + 1] == y;
        }
        Sorting.SortedCons(list[0], rest, StartKey);
      }
    }
  }

  /** The upcoming list holds at most three programmes, each of the query
      and starting after `now`, in the query's order (by start time); they
      are the earliest such programmes, since none left out starts before
      a chosen one, and when it holds fewer than three, no later programme
      of the query was left out. */
  lemma UpcomingSpec(store: Store, name: string, now: int)
    ensures var list := ChannelPrograms(store, name, UpcomingHours, now);
      var r := Upcoming(list, now);
      |r| <= UpcomingLimit &&
      (forall x :: x in r ==> x in list && TimeOf(x.program.start) > now) &&
      Sorting.SortedBy(r, StartKey) &&
      (forall x, y :: x in r && y in list && TimeOf(y.program.start) > now && y !in r ==>
        TimeOf(x.program.start) <= TimeOf(y.program.start)) &&
      (|r| < UpcomingLimit ==> forall y :: y in list && TimeOf(y.program.start) > now ==> y in r)
  {
    var list := ChannelPrograms(store, name, UpcomingHours, now);
    ChannelProgramsSorted(store, name, UpcomingHours, now, 0.0);
    StartingLaterSorted(list, now);
    FirstUpcoming(StartingLater(list, now));
  }

  /** The first three of a sorted list are sorted and among it, none of
      the rest sorts before them, and they are the whole list when fewer
      than three are taken. */
  lemma FirstUpcoming(later: seq<Listed>)
    requires Sorting.SortedBy(later, StartKey)
    ensures var r := if |later| <= UpcomingLimit then later else later[..UpcomingLimit];
      |r| <= UpcomingLimit && (forall x :: x in r ==> x in later) &&
      Sorting.SortedBy(r, StartKey) && (|r| < UpcomingLimit ==> r == later) &&
      (forall x, y :: x in r && y in later && y !in r ==> StartKey(x) <= StartKey(y))
  {
    if |later| > UpcomingLimit {
      var r := later[..UpcomingLimit];
      assert forall k :: 0 <= k < UpcomingLimit ==> r[k] == later[k];
      forall x, y | x in r && y in later && y !in r
        ensures StartKey(x) <= StartKey(y)
      {
        var i :| 0 <= i < |r| && r[i] == x;
        var j :| 0 <= j < |later| && later[j] == y;
        if j < UpcomingLimit {
          assert r[j] == y;
        }
        assert later[i] == x;
      }
    }
  }

  /** `formatTime`: an absent timestamp shows as the empty text; a present
      one as the locale's hour and minute, the function `clock`. */
  function FormatTime(t: Option<int>, clock: int -> string): (r: string)
    ensures t.None? ==> r == ""
    ensures t.Some? ==> r == clock(t.value)
  {
    if t.None? then "" else clock(t.value)
  }

  /** What the panel shows. */
  datatype Panel = Hidden | Shown(current: Option<Listed>, upcoming: seq<Listed>)

  /** The panel for the channel `name` at instant `now`: nothing is loaded
      without a channel name, and nothing is shown when neither a current
      nor an upcoming programme exists. */
  function View(store: Store, name: string, now: int): Panel {
    if name == "" then Hidden
    else
      var current := CurrentProgram(store, name, now);
      var upcoming := Upcoming(ChannelPrograms(store, name, UpcomingHours, now), now);
      if current.None? && |upcoming| == 0 then Hidden else Shown(current, upcoming)
  }

  /** For a named channel the panel is hidden exactly when nothing of the
      one-hour query is on the air and nothing of the six-hour query starts
      after `now`. */
  lemma ViewHidden(store: Store, name: string, now: int)
    requires name != ""
    ensures View(store, name, now) == Hidden <==>
      (forall y :: y in ChannelPrograms(store, name, 1, now) ==> !Airing(y, now)) &&
      (forall y :: y in ChannelPrograms(store, name, UpcomingHours, now) ==> TimeOf(y.program.start) <= now)
  {
    CurrentProgramSpec(store, name, now);
    var list := ChannelPrograms(store, name, UpcomingHours, now);
    var later := StartingLater(list, now);
    if |later| > 0 {
      assert later[0] in later;
      if |later| > UpcomingLimit {
        assert later[..UpcomingLimit][0] == later[0];
      }
    }
  }
}

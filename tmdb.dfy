/** The pure part of the TMDB service (src/services/tmdb.js): image URLs,
    years and titles taken apart, and the scoring that picks the search
    result matching a playlist title. Scores are real numbers. */
module Tmdb {
  import opened Wrappers
  import JsString
  import Seqs

  const ImageBase := "https://image.tmdb.org/t/p"

  // ---------------------------------------------------------------------
  // Image URLs

  /** `getTmdbImageUrl(path, size)`: no URL for a missing or empty path,
      otherwise the image base, a slash, the size and the path. */
  function ImageUrl(path: Option<string>, size: string): (r: Option<string>)
    ensures r.None? <==> path.None? || path.value == ""
    ensures r.Some? ==> JsString.StartsWith(r.value, ImageBase + "/" + size) &&
                        r.value[|ImageBase| + 1 + |size|..] == path.value
  {
    if path.None? || path.value == "" then None
    else
      var u := ImageBase + "/" + size + path.value;
      assert u[..|ImageBase| + 1 + |size|] == ImageBase + "/" + size;
      Some(u)
  }

  /** An omitted size argument (`None`) takes the given default. */
  function SizeOr(size: Option<string>, default: string): string {
    if size.Some? then size.value else default
  }

  /** `getPosterUrl`: `w500` unless a size is given. */
  function PosterUrl(path: Option<string>, size: Option<string>): (r: Option<string>)
    ensures size.None? ==> r == ImageUrl(path, "w500")
    ensures size.Some? ==> r == ImageUrl(path, size.value)
  {
    ImageUrl(path, SizeOr(size, "w500"))
  }

  /** `getBackdropUrl`: `w1280` unless a size is given. */
  function BackdropUrl(path: Option<string>, size: Option<string>): (r: Option<string>)
    ensures size.None? ==> r == ImageUrl(path, "w1280")
    ensures size.Some? ==> r == ImageUrl(path, size.value)
  {
    ImageUrl(path, SizeOr(size, "w1280"))
  }

  /** `getProfileUrl`: `w185` unless a size is given. */
  function ProfileUrl(path: Option<string>, size: Option<string>): (r: Option<string>)
    ensures size.None? ==> r == ImageUrl(path, "w185")
    ensures size.Some? ==> r == ImageUrl(path, size.value)
  {
    ImageUrl(path, SizeOr(size, "w185"))
  }

  // ---------------------------------------------------------------------
  // Years and titles

  /** The first of the joined pieces is a prefix of the result, followed
      by the end of it or by a separator. */
  lemma JoinFirst(parts: seq<string>, sep: char)
    requires |parts| >= 1
    ensures var s := JsString.Join(parts, sep);
      JsString.StartsWith(s, parts[0]) && (|parts[0]| == |s| || s[|parts[0]|] == sep)
  {
    var s := JsString.Join(parts, sep);
    var first := parts[0];
    if |parts| == 1 {
      assert s[..|s|] == s;
    } else {
      var tail := JsString.Join(parts[1..], sep);
      assert s == first + ([sep] + tail);
      assert s[..|first|] == first;
      assert s[|first|] == ([sep] + tail)[0];
    }
  }

  /** The first piece of a split is a prefix free of the separator and is
      followed either by the end of the string or by a separator. */
  lemma SplitFirst(s: string, sep: char)
    ensures var first := JsString.Split(s, sep)[0];
      JsString.StartsWith(s, first) && sep !in first && (|first| == |s| || s[|first|] == sep)
  {
    var parts := JsString.Split(s, sep);
    assert parts[0] in parts;
    JoinFirst(parts, sep);
  }

  /** `extractYear(date)`: the part before the first `-`; nothing for a
      missing or empty date or an empty first part. */
  function ExtractYear(date: Option<string>): (r: Option<string>)
    ensures r.None? <==> date.None? || date.value == "" || date.value[0] == '-'
    ensures r.Some? ==> JsString.StartsWith(date.value, r.value) && '-' !in r.value &&
                        (|r.value| == |date.value| || date.value[|r.value|] == '-')
  {
    if date.None? || date.value == "" then None
    else
      var year := JsString.Split(date.value, '-')[0];
      SplitFirst(date.value, '-');
      assert year == "" <==> date.value[0] == '-' by {
        if year != "" { assert year[0] == date.value[0]; assert year[0] in year; }
      }
      if year == "" then None else Some(year)
  }

  /** A title and the year split off it. */
  datatype ParsedTitle = ParsedTitle(title: string, year: Option<string>)

  predicate AllSpace(t: string) {
    forall i :: 0 <= i < |t| ==> JsString.IsSpace(t[i])
  }

  predicate NoLineBreak(t: string) {
    forall i :: 0 <= i < |t| ==> !JsString.IsLineTerminator(t[i])
  }

  /** `\((\d{4})\)`. */
  predicate YearGroup(t: string) {
    |t| == 6 && t[0] == '(' && t[5] == ')' &&
    JsString.IsAsciiDigit(t[1]) && JsString.IsAsciiDigit(t[2]) &&
    JsString.IsAsciiDigit(t[3]) && JsString.IsAsciiDigit(t[4])
  }

  /** The regular expression `^(.+?)\s*\((\d{4})\)\s*$` matches `s` with
      its first group `s[..k]` and its year group starting at `j`. */
  predicate TitleMatch(s: string, k: int, j: int) {
    1 <= k <= j && j + 6 <= |s| &&
    NoLineBreak(s[..k]) && AllSpace(s[k..j]) && YearGroup(s[j..j + 6]) && AllSpace(s[j + 6..])
  }

  /** Some match has its first group of length `k`. */
  ghost predicate MatchesWithGroup(s: string, k: int) {
    exists j :: TitleMatch(s, k, j)
  }

  function Max(a: int, b: int): int { if a >= b then a else b }

  /** Where a year group would have to start: six characters before the
      trailing blanks. */
  function YearAt(s: string): int {
    |JsString.TrimEnd(s)| - 6
  }

  /** The end of the lazy first group for a year group at `j`: where the
      blanks before `j` begin, but after at least one character. */
  function GroupEnd(s: string, j: int): (k: int)
    requires 0 <= j <= |s|
    ensures 1 <= k && (j >= 1 ==> k <= j)
  {
    Max(1, |JsString.TrimEnd(s[..j])|)
  }

  /** Where the regular expression of `parseTitle` matches, as the
      lengths of the first group and of the text before the year group:
      the year group must be the last non-blank six characters, and the
      lazy first group ends where the blanks before the year group begin,
      after at least one character. */
  function FindMatch(s: string): (m: Option<(int, int)>)
    ensures m.Some? ==> TitleMatch(s, m.value.0, m.value.1)
  {
    var j := YearAt(s);
    if j >= 1 && YearGroup(s[j..j + 6]) && NoLineBreak(s[..GroupEnd(s, j)]) then
      ComputedMatch(s);
      Some((GroupEnd(s, j), j))
    else None
  }

  /** `parseTitle(s)`: the trimmed first group and the four digits when
      the pattern matches, otherwise the trimmed string and no year. */
  function ParseTitle(s: string): (p: ParsedTitle)
    ensures s == "" ==> p == ParsedTitle("", None)
    ensures p.year.Some? ==> exists k, j :: TitleMatch(s, k, j) && p.year.value == s[j + 1..j + 5]
  {
    if s == "" then ParsedTitle("", None)
    else
      var m := FindMatch(s);
      if m.Some? then ParsedTitle(JsString.Trim(s[..m.value.0]), Some(s[m.value.1 + 1..m.value.1 + 5]))
      else ParsedTitle(JsString.Trim(s), None)
  }

  /** In any match the year group ends where the trailing blanks begin. */
  lemma MatchEnd(s: string, k: int, j: int)
    requires TitleMatch(s, k, j)
    ensures YearAt(s) == j
  {
    var t := JsString.TrimEnd(s);
    var e := |t|;
    assert s[j + 5] == s[j..j + 6][5] == ')';
    assert e >= j + 6;
    assert forall i :: j + 6 <= i < |s| ==> JsString.IsSpace(s[i]) by {
      forall i | j + 6 <= i < |s| ensures JsString.IsSpace(s[i]) {
        assert s[i] == s[j + 6..][i - (j + 6)];
      }
    }
    assert t[e - 1] == s[e - 1];
  }

  /** The shortest first group that the blanks before the year group
      allow, and it satisfies the match. */
  lemma ShortestGroup(s: string, k: int, j: int)
    requires TitleMatch(s, k, j)
    ensures GroupEnd(s, j) <= k && TitleMatch(s, GroupEnd(s, j), j)
  {
    var u := s[..j];
    var t := JsString.TrimEnd(u);
    var e := |t|;
    assert forall i :: k <= i < j ==> JsString.IsSpace(u[i]) by {
      forall i | k <= i < j ensures JsString.IsSpace(u[i]) {
        assert u[i] == s[k..j][i - k];
      }
    }
    assert e > 0 ==> t[e - 1] == u[e - 1];
    assert e <= k;
    var k0 := GroupEnd(s, j);
    assert NoLineBreak(s[..k0]) by {
      forall i | 0 <= i < k0 ensures !JsString.IsLineTerminator(s[..k0][i]) {
        assert s[..k0][i] == s[..k][i];
      }
    }
    assert AllSpace(s[k0..j]) by {
      forall i | 0 <= i < j - k0 ensures JsString.IsSpace(s[k0..j][i]) {
        assert s[k0..j][i] == u[k0 + i];
      }
    }
  }

  /** When the pattern matches, the match found is the one with the
      shortest first group, so `parseTitle` gives its trimmed first group
      and its four digits. */
  lemma ParseTitleMatch(s: string, k: int, j: int)
    requires TitleMatch(s, k, j)
    requires forall k' :: 1 <= k' < k ==> !MatchesWithGroup(s, k')
    ensures FindMatch(s) == Some((k, j))
    ensures ParseTitle(s) == ParsedTitle(JsString.Trim(s[..k]), Some(s[j + 1..j + 5]))
  {
    FindShortest(s, k, j);
    ParseTitleOf(s, k, j);
  }

  /** `parseTitle` reads the title and the year off the match it found. */
  lemma ParseTitleOf(s: string, k: int, j: int)
    requires FindMatch(s) == Some((k, j))
    ensures ParseTitle(s) == ParsedTitle(JsString.Trim(s[..k]), Some(s[j + 1..j + 5]))
  {
    assert s != "";
  }

  /** The match `parseTitle` computes is the one with the shortest first
      group. */
  lemma FindShortest(s: string, k: int, j: int)
    requires TitleMatch(s, k, j)
    requires forall k' :: 1 <= k' < k ==> !MatchesWithGroup(s, k')
    ensures FindMatch(s) == Some((k, j))
  {
    MatchEnd(s, k, j);
    LazyGroup(s, k, j);
    assert YearGroup(s[j..j + 6]) && NoLineBreak(s[..k]);
  }

  /** The lazy group is the shortest possible one. */
  lemma LazyGroup(s: string, k: int, j: int)
    requires TitleMatch(s, k, j)
    requires forall k' :: 1 <= k' < k ==> !MatchesWithGroup(s, k')
    ensures GroupEnd(s, j) == k
  {
    ShortestGroup(s, k, j);
    var k0 := GroupEnd(s, j);
    assert MatchesWithGroup(s, k0);
  }

  /** The conditions `parseTitle` checks give a match. */
  lemma ComputedMatch(s: string)
    requires YearAt(s) >= 1
    requires YearGroup(s[YearAt(s)..YearAt(s) + 6]) && NoLineBreak(s[..GroupEnd(s, YearAt(s))])
    ensures TitleMatch(s, GroupEnd(s, YearAt(s)), YearAt(s))
  {
    var j := YearAt(s);
    var e := j + 6;
    var k := GroupEnd(s, j);
    var u := s[..j];
    assert AllSpace(s[k..j]) by {
      forall i | 0 <= i < j - k ensures JsString.IsSpace(s[k..j][i]) {
        assert s[k..j][i] == u[k + i];
      }
    }
    assert AllSpace(s[e..]) by {
      forall i | 0 <= i < |s| - e ensures JsString.IsSpace(s[e..][i]) {
        assert s[e..][i] == s[e + i];
      }
    }
  }

  /** When the pattern does not match, `parseTitle` gives the whole
      trimmed string and no year. */
  lemma ParseTitleNoMatch(s: string)
    requires forall k, j :: !TitleMatch(s, k, j)
    ensures ParseTitle(s) == ParsedTitle(JsString.Trim(s), None)
  {
    assert FindMatch(s).None?;
  }

  /** A year the title parser reports always has four digits. */
  lemma ParseTitleYear(s: string)
    ensures var p := ParseTitle(s);
      p.year.Some? ==> |p.year.value| == 4 && forall i :: 0 <= i < 4 ==> JsString.IsAsciiDigit(p.year.value[i])
  {
    var p := ParseTitle(s);
    if p.year.Some? {
      var k, j :| TitleMatch(s, k, j) && p.year.value == s[j + 1..j + 5];
      YearDigits(s, k, j);
    }
  }

  /** The digits of the year group of a match. */
  lemma YearDigits(s: string, k: int, j: int)
    requires TitleMatch(s, k, j)
    ensures var y := s[j + 1..j + 5];
      |y| == 4 && forall i :: 0 <= i < 4 ==> JsString.IsAsciiDigit(y[i])
  {
    var g := s[j..j + 6];
    assert YearGroup(g);
    assert s[j + 1..j + 5] == [g[1], g[2], g[3], g[4]];
  }

  // ---------------------------------------------------------------------
  // Name scores

  /** A character left by the blank collapse: a blank only as a space. */
  predicate Collapsed(c: char) {
    !JsString.IsSpace(c) || c == ' '
  }

  /** `str.replace(/\s+/g, ' ')`: every run of blanks becomes one space. */
  function CollapseSpace(s: string): (r: string)
    ensures forall c :: c in r ==> Collapsed(c)
    decreases |s|
  {
    if s == [] then []
    else if JsString.IsSpace(s[0]) then [' '] + CollapseSpace(JsString.TrimStart(s))
    else [s[0]] + CollapseSpace(s[1..])
  }

  /** What `.replace(/[^\w\s]/g, '')` keeps. */
  predicate Kept(c: char) {
    JsString.IsWordChar(c) || JsString.IsSpace(c)
  }

  /** A character of a normalised name. */
  predicate NormalChar(c: char) {
    JsString.IsWordChar(c) || c == ' '
  }

  /** `normalize(str)`: lower case, blank runs collapsed, everything but
      word characters and blanks dropped, trimmed. */
  function Normalize(s: string): (r: string)
    ensures forall c :: c in r ==> NormalChar(c)
    ensures r == [] || (r[0] != ' ' && r[|r| - 1] != ' ')
  {
    var collapsed := CollapseSpace(JsString.Lower(s));
    var kept := Seqs.Filter(collapsed, Kept);
    assert forall c :: c in kept ==> NormalChar(c) by {
      forall c | c in kept ensures NormalChar(c) {
        assert c in collapsed && Kept(c);
        assert Collapsed(c);
      }
    }
    JsString.TrimWithin(kept);
    JsString.TrimEnds(kept);
    JsString.Trim(kept)
  }

  /** A character other than the space that separates words. */
  predicate NotBlank(c: char) {
    c != ' '
  }

  /** What normalising a name means: besides single spaces it holds
      exactly the word characters of the lower-cased name, in their order.
      Blanks are collapsed before the other characters are dropped, so a
      dropped character between two blanks leaves two spaces. */
  lemma NormalizeWords(s: string)
    ensures Seqs.Filter(Normalize(s), NotBlank) == Seqs.Filter(JsString.Lower(s), JsString.IsWordChar)
  {
    var lowered := JsString.Lower(s);
    var collapsed := CollapseSpace(lowered);
    var kept := Seqs.Filter(collapsed, Kept);
    CollapseKeepsWords(lowered);
    Seqs.FilterFilter(collapsed, Kept, JsString.IsWordChar);
    TrimKeepsWords(kept);
    Seqs.FilterSame(Normalize(s), NotBlank, JsString.IsWordChar);
  }

  /** Stripping white space at the ends drops no word character. */
  lemma TrimKeepsWords(s: string)
    ensures Seqs.Filter(JsString.Trim(s), JsString.IsWordChar) == Seqs.Filter(s, JsString.IsWordChar)
  {
    TrimStartKeepsWords(s);
    TrimEndKeepsWords(JsString.TrimStart(s));
  }

  lemma TrimStartKeepsWords(s: string)
    ensures Seqs.Filter(JsString.TrimStart(s), JsString.IsWordChar) == Seqs.Filter(s, JsString.IsWordChar)
  {
    var k := |s| - |JsString.TrimStart(s)|;
    Seqs.FilterSkip(s, k, JsString.IsWordChar);
  }

  lemma TrimEndKeepsWords(s: string)
    ensures Seqs.Filter(JsString.TrimEnd(s), JsString.IsWordChar) == Seqs.Filter(s, JsString.IsWordChar)
  {
    Seqs.FilterCut(s, |JsString.TrimEnd(s)|, JsString.IsWordChar);
  }

  /** Collapsing blank runs drops no word character. */
  lemma {:induction false} CollapseKeepsWords(s: string)
    ensures Seqs.Filter(CollapseSpace(s), JsString.IsWordChar) == Seqs.Filter(s, JsString.IsWordChar)
    decreases |s|
  {
    if s != [] {
      if JsString.IsSpace(s[0]) {
        var t := JsString.TrimStart(s);
        CollapseKeepsWords(t);
        Seqs.FilterNone([' '], CollapseSpace(t), JsString.IsWordChar);
        assert s == s[..|s| - |t|] + t;
        Seqs.FilterNone(s[..|s| - |t|], t, JsString.IsWordChar);
      } else {
        CollapseKeepsWords(s[1..]);
        Seqs.FilterConcat([s[0]], CollapseSpace(s[1..]), JsString.IsWordChar);
        Seqs.FilterConcat([s[0]], s[1..], JsString.IsWordChar);
        assert s == [s[0]] + s[1..];
      }
    }
  }

  /** The words of `target`, split at single spaces, that also occur among
      the words of `name`. */
  function CommonWords(name: string, target: string): (n: nat)
    ensures n <= |JsString.Split(target, ' ')|
    ensures n == 0 <==> forall w :: w in JsString.Split(target, ' ') ==> w !in JsString.Split(name, ' ')
  {
    var nameWords := JsString.Split(name, ' ');
    Seqs.Count(JsString.Split(target, ' '), w => w in nameWords)
  }

  /** 60 points times the share of the target's words that were found. */
  function WordShare(common: nat, words: nat): (score: real)
    requires 1 <= words && common <= words
    ensures 0.0 <= score <= 60.0
    ensures score == 0.0 <==> common == 0
  {
    var q := common as real / words as real;
    assert q * words as real == common as real;
    assert 0.0 <= q <= 1.0;
    q * 60.0
  }

  /** `calculateNameScore` on an already normalised name `n`: nothing for an
      empty name, 100 for the target itself, 80 when either contains the
      other, and otherwise 60 times the share of the target's words found
      among the name's. */
  function NormalizedScore(n: string, target: string): (score: real)
    ensures 0.0 <= score <= 100.0
    ensures n == "" ==> score == 0.0
    ensures n != "" ==> (score == 100.0 <==> n == target)
    ensures n != "" && n != target && (JsString.Includes(n, target) || JsString.Includes(target, n)) ==> score == 80.0
    ensures n != "" && !JsString.Includes(n, target) && !JsString.Includes(target, n) ==>
              score == (CommonWords(n, target) as real / |JsString.Split(target, ' ')| as real) * 60.0 &&
              score <= 60.0 && (score == 0.0 <==> CommonWords(n, target) == 0)
  {
    if n == "" then 0.0
    else if n == target then 100.0
    else if JsString.Includes(n, target) || JsString.Includes(target, n) then 80.0
    else WordShare(CommonWords(n, target), |JsString.Split(target, ' ')|)
  }

  /** `calculateNameScore(name)` against the normalised target. */
  function NameScore(name: string, target: string): real {
    NormalizedScore(Normalize(name), target)
  }

  /** The fields of a search result the matcher reads. */
  datatype SearchResult = SearchResult(
    name: Option<string>, title: Option<string>,
    originalName: Option<string>, originalTitle: Option<string>,
    firstAirDate: Option<string>, releaseDate: Option<string>,
    popularity: Option<real>)

  /** `a || b` on an optional string. */
  function OrElse(a: Option<string>, b: string): string {
    if a.Some? && a.value != "" then a.value else b
  }

  function LocalizedName(r: SearchResult): string { OrElse(r.name, OrElse(r.title, "")) }

  function OriginalName(r: SearchResult): string { OrElse(r.originalName, OrElse(r.originalTitle, "")) }

  function MaxReal(a: real, b: real): real { if a >= b then a else b }

  function MinReal(a: real, b: real): real { if a <= b then a else b }

  /** 20 points when a year is wanted and the result's first air date (or
      else release date) begins with it. */
  function YearBonus(r: SearchResult, targetYear: Option<string>): real {
    var date := if r.firstAirDate.Some? && r.firstAirDate.value != "" then r.firstAirDate else r.releaseDate;
    if targetYear.Some? && targetYear.value != "" && ExtractYear(date) == targetYear then 20.0 else 0.0
  }

  /** A hundredth of a non-zero popularity, at most 10 points. */
  function PopularityBonus(r: SearchResult): (bonus: real)
    ensures bonus <= 10.0
    ensures r.popularity.None? || r.popularity.value == 0.0 ==> bonus == 0.0
    ensures r.popularity.Some? && 0.0 <= r.popularity.value <= 1000.0 ==> bonus == r.popularity.value / 100.0
    ensures r.popularity.Some? && r.popularity.value >= 1000.0 ==> bonus == 10.0
  {
    if r.popularity.Some? && r.popularity.value != 0.0 then MinReal(r.popularity.value / 100.0, 10.0) else 0.0
  }

  /** The score of one result against the normalised target. */
  function ResultScore(r: SearchResult, target: string, targetYear: Option<string>): real {
    MaxReal(NameScore(LocalizedName(r), target), NameScore(OriginalName(r), target)) +
    YearBonus(r, targetYear) + PopularityBonus(r)
  }

  function ScoreBy(target: string, targetYear: Option<string>): SearchResult -> real {
    r => ResultScore(r, target, targetYear)
  }

  // ---------------------------------------------------------------------
  // Best match

  /** The best result so far and its score. */
  datatype Best<R> = Best(hit: Option<R>, score: real)

  /** The loop of `findBestMatch` over `s`: a result replaces the best one
      only when it scores strictly more, starting from score 0. */
  function BestOf<R>(s: seq<R>, score: R -> real): Best<R>
    decreases |s|
  {
    if s == [] then Best(None, 0.0)
    else
      var b := BestOf(s[..|s| - 1], score);
      var x := s[|s| - 1];
      if score(x) > b.score then Best(Some(x), score(x)) else b
  }

  /** The best score is the largest score, or 0; the best result is the
      first to reach it, and there is none when no result scores above 0. */
  lemma {:induction false} BestOfSpec<R>(s: seq<R>, score: R -> real)
    ensures var b := BestOf(s, score);
      b.score >= 0.0 &&
      (forall i :: 0 <= i < |s| ==> score(s[i]) <= b.score) &&
      (b.hit.None? ==> b.score == 0.0) &&
      (b.hit.Some? ==> exists i :: 0 <= i < |s| && s[i] == b.hit.value && score(s[i]) == b.score &&
                                   forall j :: 0 <= j < i ==> score(s[j]) < b.score)
    decreases |s|
  {
    if s != [] {
      var p := s[..|s| - 1];
      BestOfSpec(p, score);
      var b := BestOf(p, score);
      var x := s[|s| - 1];
      assert forall i :: 0 <= i < |p| ==> s[i] == p[i];
      if score(x) <= b.score && b.hit.Some? {
        var i :| 0 <= i < |p| && p[i] == b.hit.value && score(p[i]) == b.score &&
                 forall j :: 0 <= j < i ==> score(p[j]) < b.score;
        assert s[i] == b.hit.value;
      }
    }
  }

  /** The answer of `findBestMatch` for the scores `score`: nothing for no
      results, otherwise the best result if it scores above 50. */
  function Choose<R>(results: seq<R>, score: R -> real): Option<R> {
    if results == [] then None
    else
      var b := BestOf(results, score);
      if b.score > 50.0 then b.hit else None
  }

  /** A chosen result scores above 50, no result scores more, and no
      earlier result scores as much; nothing is chosen exactly when no
      result scores above 50. */
  lemma ChooseSpec<R>(results: seq<R>, score: R -> real)
    ensures var m := Choose(results, score);
      (m.Some? ==> exists i :: 0 <= i < |results| && results[i] == m.value && score(results[i]) > 50.0 &&
                              (forall j :: 0 <= j < |results| ==> score(results[j]) <= score(results[i])) &&
                              (forall j :: 0 <= j < i ==> score(results[j]) < score(results[i]))) &&
      (m.None? <==> forall j :: 0 <= j < |results| ==> score(results[j]) <= 50.0)
  {
    BestOfSpec(results, score);
  }

  /** `findBestMatch(results, targetName, targetYear)`. */
  function BestMatch(results: seq<SearchResult>, targetName: string, targetYear: Option<string>): Option<SearchResult> {
    Choose(results, ScoreBy(Normalize(targetName), targetYear))
  }

  /** The loop of `findBestMatch`, updating `bestMatch` and `bestScore`;
      `score` is the score of a result against the normalised target. */
  method ScanResults<R>(results: seq<R>, score: R -> real) returns (bestMatch: Option<R>, bestScore: real)
    ensures Best(bestMatch, bestScore) == BestOf(results, score)
  {
    bestMatch := None;
    bestScore := 0.0;
    var i := 0;
    while i < |results|
      invariant 0 <= i <= |results|
      invariant Best(bestMatch, bestScore) == BestOf(results[..i], score)
    {
      var s := score(results[i]);
      assert results[..i + 1][..i] == results[..i];
      if s > bestScore {
        bestScore := s;
        bestMatch := Some(results[i]);
      }
      i := i + 1;
    }
    assert results[..i] == results;
  }

  /** `findBestMatch(results, targetName, targetYear)`. */
  method FindBestMatch(results: seq<SearchResult>, targetName: string, targetYear: Option<string>)
    returns (r: Option<SearchResult>)
    ensures r == BestMatch(results, targetName, targetYear)
  {
    if |results| == 0 {
      return None;
    }
    var target := Normalize(targetName);
    var bestMatch, bestScore := ScanResults(results, ScoreBy(target, targetYear));
    r := if bestScore > 50.0 then bestMatch else None;
  }

  /** Neither containment nor a common word between the normalised name
      and the target. */
  predicate Unrelated(name: string, target: string) {
    var n := Normalize(name);
    n == "" || (!JsString.Includes(n, target) && !JsString.Includes(target, n) && CommonWords(n, target) == 0)
  }

  /** A result whose names are unrelated to the target scores at most 30:
      nothing for the names, at most 20 for the year and 10 for
      popularity. */
  lemma UnrelatedScore(r: SearchResult, target: string, targetYear: Option<string>)
    requires Unrelated(LocalizedName(r), target) && Unrelated(OriginalName(r), target)
    ensures ResultScore(r, target, targetYear) <= 30.0
  {
  }

  /** So an unrelated result is never the match. */
  lemma UnrelatedNeverChosen(results: seq<SearchResult>, targetName: string, targetYear: Option<string>, r: SearchResult)
    requires Unrelated(LocalizedName(r), Normalize(targetName)) && Unrelated(OriginalName(r), Normalize(targetName))
    ensures BestMatch(results, targetName, targetYear) != Some(r)
  {
    UnrelatedScore(r, Normalize(targetName), targetYear);
    ChooseSpec(results, ScoreBy(Normalize(targetName), targetYear));
  }
}

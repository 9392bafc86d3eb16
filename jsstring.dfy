/** The parts of JavaScript's string semantics the application relies on:
    `trim`, `toLowerCase` on ASCII, `includes`, `startsWith`, `split` on one
    character, `substr`, `replace` with a string pattern, `repeat`,
    `parseInt`, number-to-string and `encodeURIComponent`. */
module JsString {
  import opened Wrappers

  // ---------------------------------------------------------------------
  // Character classes

  /** ECMAScript WhiteSpace and LineTerminator code points: the set that
      `String.prototype.trim` strips and that the regular expression `\s`
      matches. */
  predicate IsSpace(c: char) {
    var n := c as int;
    n == 0x09 || n == 0x0A || n == 0x0B || n == 0x0C || n == 0x0D ||
    n == 0x20 || n == 0xA0 || n == 0x1680 || (0x2000 <= n <= 0x200A) ||
    n == 0x2028 || n == 0x2029 || n == 0x202F || n == 0x205F ||
    n == 0x3000 || n == 0xFEFF
  }

  /** The code points the regular expression `.` does not match. */
  predicate IsLineTerminator(c: char) {
    var n := c as int;
    n == 0x0A || n == 0x0D || n == 0x2028 || n == 0x2029
  }

  predicate IsAsciiDigit(c: char) { '0' <= c <= '9' }
  predicate IsAsciiLower(c: char) { 'a' <= c <= 'z' }
  predicate IsAsciiUpper(c: char) { 'A' <= c <= 'Z' }

  /** The regular-expression class `\w`: `[A-Za-z0-9_]`. */
  predicate IsWordChar(c: char) {
    IsAsciiLower(c) || IsAsciiUpper(c) || IsAsciiDigit(c) || c == '_'
  }

  function LowerChar(c: char): char {
    if IsAsciiUpper(c) then (c as int + 32) as char else c
  }

  function UpperChar(c: char): char {
    if IsAsciiLower(c) then (c as int - 32) as char else c
  }

  /** `toLowerCase`, restricted to the ASCII letters. */
  function Lower(s: string): (r: string)
    ensures |r| == |s| && forall i :: 0 <= i < |s| ==> r[i] == LowerChar(s[i])
  {
    if s == [] then [] else [LowerChar(s[0])] + Lower(s[1..])
  }

  // ---------------------------------------------------------------------
  // trim

  function TrimStart(s: string): (r: string)
    ensures |r| <= |s| && r == s[|s| - |r|..]
    ensures r == [] || !IsSpace(r[0])
    ensures forall i :: 0 <= i < |s| - |r| ==> IsSpace(s[i])
  {
    if |s| > 0 && IsSpace(s[0]) then TrimStart(s[1..]) else s
  }

  function TrimEnd(s: string): (r: string)
    ensures |r| <= |s| && r == s[..|r|]
    ensures r == [] || !IsSpace(r[|r| - 1])
    ensures forall i :: |r| <= i < |s| ==> IsSpace(s[i])
  {
    if |s| > 0 && IsSpace(s[|s| - 1]) then TrimEnd(s[..|s| - 1]) else s
  }

  /** `String.prototype.trim`: the longest infix with no white space at
      either end, obtained by stripping white space only. */
  function Trim(s: string): string {
    TrimEnd(TrimStart(s))
  }

  /** The trimmed string has no white space at either end. */
  lemma TrimEnds(s: string)
    ensures var r := Trim(s);
      r == [] || (!IsSpace(r[0]) && !IsSpace(r[|r| - 1]))
  {
    var t := TrimStart(s);
    var r := TrimEnd(t);
    if r != [] {
      assert r[0] == t[0];
    }
  }

  /** Trimming only removes characters. */
  lemma TrimWithin(s: string)
    ensures forall c :: c in Trim(s) ==> c in s
  {
    var t := TrimStart(s);
    var r := TrimEnd(t);
    forall c | c in r ensures c in s {
      var i :| 0 <= i < |r| && r[i] == c;
      assert r[i] == t[i];
      assert t[i] == s[|s| - |t| + i];
    }
  }

  /** A string with no white space at either end is its own trim. */
  lemma TrimUnchanged(s: string)
    requires |s| > 0 && !IsSpace(s[0]) && !IsSpace(s[|s| - 1])
    ensures Trim(s) == s
  {
  }

  // ---------------------------------------------------------------------
  // Searching

  predicate StartsWith(s: string, prefix: string) {
    |prefix| <= |s| && s[..|prefix|] == prefix
  }

  predicate EndsWith(s: string, suffix: string) {
    |suffix| <= |s| && s[|s| - |suffix|..] == suffix
  }

  /** The first index at or after `from` where `sub` occurs, or -1. */
  function IndexFrom(s: string, sub: string, from: nat): (i: int)
    requires from <= |s|
    ensures i == -1 || from <= i <= |s|
    ensures i >= from ==> StartsWith(s[i..], sub)
    ensures i >= from ==> forall j :: from <= j < i ==> !StartsWith(s[j..], sub)
    ensures i == -1 ==> forall j :: from <= j <= |s| ==> !StartsWith(s[j..], sub)
    decreases |s| - from
  {
    if StartsWith(s[from..], sub) then from
    else if from == |s| then -1
    else IndexFrom(s, sub, from + 1)
  }

  /** `String.prototype.indexOf`. */
  function IndexOf(s: string, sub: string): (i: int)
    ensures i == -1 || 0 <= i <= |s| - |sub|
    ensures i >= 0 ==> StartsWith(s[i..], sub) && forall j :: 0 <= j < i ==> !StartsWith(s[j..], sub)
    ensures i == -1 ==> forall j :: 0 <= j <= |s| ==> !StartsWith(s[j..], sub)
  {
    IndexFrom(s, sub, 0)
  }

  /** `String.prototype.includes`. */
  predicate Includes(s: string, sub: string) {
    IndexOf(s, sub) >= 0
  }

  lemma IncludesAt(s: string, sub: string, j: nat)
    requires j <= |s| && StartsWith(s[j..], sub)
    ensures Includes(s, sub)
  {
  }

  /** Every string includes the empty string and itself. */
  lemma IncludesTrivially(s: string)
    ensures Includes(s, "") && Includes(s, s)
  {
    assert StartsWith(s[0..], s);
    assert StartsWith(s[0..], "");
  }

  // ---------------------------------------------------------------------
  // split and join

  function Join(parts: seq<string>, sep: char): string
    requires |parts| >= 1
  {
    if |parts| == 1 then parts[0] else parts[0] + [sep] + Join(parts[1..], sep)
  }

  /** `String.prototype.split` with a one-character separator: the pieces
      between separators, which joined back give the input. */
  function Split(s: string, sep: char): (parts: seq<string>)
    ensures |parts| >= 1
    ensures Join(parts, sep) == s
    ensures forall p :: p in parts ==> sep !in p
    decreases |s|
  {
    var i := IndexOf(s, [sep]);
    if i < 0 then
      assert forall j :: 0 <= j < |s| ==> s[j] != sep by {
        forall j | 0 <= j < |s| ensures s[j] != sep {
          assert !StartsWith(s[j..], [sep]);
        }
      }
      [s]
    else
      assert s[i] == sep by { assert StartsWith(s[i..], [sep]); }
      assert forall j :: 0 <= j < i ==> s[j] != sep by {
        forall j | 0 <= j < i ensures s[j] != sep {
          assert !StartsWith(s[j..], [sep]);
        }
      }
      var rest := Split(s[i + 1..], sep);
      assert s == s[..i] + [sep] + s[i + 1..];
      [s[..i]] + rest
  }

  // ---------------------------------------------------------------------
  // substr, repeat

  function Min(a: int, b: int): int { if a <= b then a else b }

  /** `String.prototype.substr(start, length)` for non-negative arguments:
      both ends are clipped to the string. */
  function Substr(s: string, start: nat, length: nat): (r: string)
    ensures |r| <= length
    ensures start + length <= |s| ==> r == s[start..start + length]
  {
    s[Min(start, |s|)..Min(start + length, |s|)]
  }

  function Repeat(c: char, n: nat): (r: string)
    ensures |r| == n && forall i :: 0 <= i < n ==> r[i] == c
  {
    if n == 0 then [] else [c] + Repeat(c, n - 1)
  }

  // ---------------------------------------------------------------------
  // replace

  /** GetSubstitution of ECMAScript for a string pattern (no captures):
      `$$`, `$&`, `` $` `` and `$'` are expanded; every other `$` stays. */
  function Substitution(rep: string, matched: string, before: string, after: string): string
    decreases |rep|
  {
    if |rep| >= 2 && rep[0] == '$' && rep[1] == '$' then "$" + Substitution(rep[2..], matched, before, after)
    else if |rep| >= 2 && rep[0] == '$' && rep[1] == '&' then matched + Substitution(rep[2..], matched, before, after)
    else if |rep| >= 2 && rep[0] == '$' && rep[1] == '`' then before + Substitution(rep[2..], matched, before, after)
    else if |rep| >= 2 && rep[0] == '$' && rep[1] == '\'' then after + Substitution(rep[2..], matched, before, after)
    else if rep == [] then []
    else [rep[0]] + Substitution(rep[1..], matched, before, after)
  }

  /** A replacement text without `$` is inserted literally. */
  lemma {:induction false} SubstitutionLiteral(rep: string, matched: string, before: string, after: string)
    requires '$' !in rep
    ensures Substitution(rep, matched, before, after) == rep
    decreases |rep|
  {
    if rep != [] {
      assert rep[0] != '$';
      assert '$' !in rep[1..] by {
        forall k | 0 <= k < |rep[1..]| ensures rep[1..][k] != '$' { assert rep[1..][k] == rep[k + 1]; }
      }
      SubstitutionLiteral(rep[1..], matched, before, after);
      assert rep == [rep[0]] + rep[1..];
    }
  }

  /** `String.prototype.replace(pattern, replacement)` with a string
      pattern: only the first occurrence is replaced. */
  function Replace(s: string, pattern: string, rep: string): string {
    var i := IndexOf(s, pattern);
    if i < 0 then s
    else s[..i] + Substitution(rep, pattern, s[..i], s[i + |pattern|..]) + s[i + |pattern|..]
  }

  /** With a `$`-free replacement, `replace` splices the replacement in at
      the first occurrence of the pattern, or leaves the string alone. */
  lemma ReplaceLiteral(s: string, pattern: string, rep: string)
    requires '$' !in rep
    ensures IndexOf(s, pattern) < 0 ==> Replace(s, pattern, rep) == s
    ensures IndexOf(s, pattern) >= 0 ==>
      var i := IndexOf(s, pattern);
      Replace(s, pattern, rep) == s[..i] + rep + s[i + |pattern|..]
  {
    var i := IndexOf(s, pattern);
    if i >= 0 {
      SubstitutionLiteral(rep, pattern, s[..i], s[i + |pattern|..]);
    }
  }

  /** Removing a prefix the string starts with: `key.replace(prefix, '')`
      drops exactly that prefix. */
  lemma ReplacePrefix(s: string, prefix: string)
    requires StartsWith(s, prefix)
    ensures Replace(s, prefix, "") == s[|prefix|..]
  {
    assert s[0..] == s;
    assert IndexOf(s, prefix) == 0;
  }

  // ---------------------------------------------------------------------
  // Numbers as text

  function DigitChar(d: int): char
    requires 0 <= d < 10
  {
    "0123456789"[d]
  }

  function NatToString(n: nat): (r: string)
    ensures |r| >= 1 && forall i :: 0 <= i < |r| ==> IsAsciiDigit(r[i])
  {
    if n < 10 then [DigitChar(n)] else NatToString(n / 10) + [DigitChar(n % 10)]
  }

  /** `String(n)` for an integer. */
  function IntToString(n: int): string {
    if n < 0 then "-" + NatToString(-n) else NatToString(n)
  }

  function DigitValue(c: char): int
    requires IsAsciiDigit(c)
  {
    c as int - '0' as int
  }

  function HexValue(c: char): int {
    if IsAsciiDigit(c) then DigitValue(c)
    else if 'a' <= c <= 'f' then c as int - 'a' as int + 10
    else if 'A' <= c <= 'F' then c as int - 'A' as int + 10
    else -1
  }

  /** The value of the longest prefix of `s` made of digits in `radix`
      (10 or 16), with the number of digits read. */
  function DigitsPrefix(s: string, radix: int, acc: int, count: nat): (r: (int, nat))
    requires radix == 10 || radix == 16
    ensures r.1 >= count
    decreases |s|
  {
    var d := if |s| == 0 then -1
             else if radix == 16 then HexValue(s[0])
             else if IsAsciiDigit(s[0]) then DigitValue(s[0]) else -1;
    if |s| == 0 || d < 0 then (acc, count)
    else DigitsPrefix(s[1..], radix, acc * radix + d, count + 1)
  }

  /** `parseInt(s)` with no radix: leading white space, an optional sign,
      a `0x` prefix for hexadecimal, then as many digits as there are;
      `None` is NaN (no digit at all). */
  function ParseInt(s: string): (r: Option<int>)
    ensures r.Some? ==> exists k :: 0 <= k < |s| && (IsAsciiDigit(s[k]) || HexValue(s[k]) >= 0)
  {
    var t := TrimStart(s);
    var neg := |t| > 0 && t[0] == '-';
    var u := if |t| > 0 && (t[0] == '-' || t[0] == '+') then t[1..] else t;
    var hex := |u| >= 2 && u[0] == '0' && (u[1] == 'x' || u[1] == 'X');
    var digits := if hex then u[2..] else u;
    var (v, n) := DigitsPrefix(digits, if hex then 16 else 10, 0, 0);
    if n == 0 then None
    else
      assert HexValue(digits[0]) >= 0;
      assert digits[0] == s[|s| - |digits|];
      Some(if neg then -v else v)
  }

  /** `parseInt(s, 10)`: like `ParseInt`, without the hexadecimal prefix. */
  function ParseInt10(s: string): (r: Option<int>)
  {
    var t := TrimStart(s);
    var neg := |t| > 0 && t[0] == '-';
    var u := if |t| > 0 && (t[0] == '-' || t[0] == '+') then t[1..] else t;
    var (v, n) := DigitsPrefix(u, 10, 0, 0);
    if n == 0 then None else Some(if neg then -v else v)
  }

  // ---------------------------------------------------------------------
  // encodeURIComponent (percent-encoding, section 2.1 of RFC 3986)

  /** The characters `encodeURIComponent` leaves as they are. */
  predicate IsUriUnreserved(c: char) {
    IsAsciiLower(c) || IsAsciiUpper(c) || IsAsciiDigit(c) ||
    c == '-' || c == '_' || c == '.' || c == '!' || c == '~' || c == '*' ||
    c == '\'' || c == '(' || c == ')'
  }

  function HexDigit(n: int): (c: char)
    requires 0 <= n < 16
    ensures IsAsciiDigit(c) || IsAsciiUpper(c)
  {
    "0123456789ABCDEF"[n]
  }

  /** The UTF-8 encoding of one code point. */
  function Utf8(c: char): (bytes: seq<int>)
    ensures 1 <= |bytes| <= 4
    ensures forall i :: 0 <= i < |bytes| ==> 0 <= bytes[i] < 256
  {
    var n := c as int;
    if n < 0x80 then [n]
    else if n < 0x800 then [0xC0 + n / 64, 0x80 + n % 64]
    else if n < 0x10000 then [0xE0 + n / 4096, 0x80 + (n / 64) % 64, 0x80 + n % 64]
    else [0xF0 + n / 262144, 0x80 + (n / 4096) % 64, 0x80 + (n / 64) % 64, 0x80 + n % 64]
  }

  /** An octet written as `%XX` with upper-case hexadecimal digits. */
  function PercentOctets(bytes: seq<int>): (r: string)
    requires forall i :: 0 <= i < |bytes| ==> 0 <= bytes[i] < 256
    ensures forall k :: 0 <= k < |r| ==> r[k] == '%' || IsAsciiDigit(r[k]) || IsAsciiUpper(r[k])
  {
    if bytes == [] then []
    else ['%', HexDigit(bytes[0] / 16), HexDigit(bytes[0] % 16)] + PercentOctets(bytes[1..])
  }

  predicate IsEncodedChar(c: char) {
    IsUriUnreserved(c) || c == '%'
  }

  /** `encodeURIComponent`: each character outside the unreserved set is
      replaced by the percent-encoded octets of its UTF-8 form. The result
      consists of unreserved characters and `%` only. */
  function EncodeUriComponent(s: string): (r: string)
    ensures forall k :: 0 <= k < |r| ==> IsEncodedChar(r[k])
  {
    if s == [] then []
    else
      var head := if IsUriUnreserved(s[0]) then [s[0]] else PercentOctets(Utf8(s[0]));
      head + EncodeUriComponent(s[1..])
  }

  /** A component made of unreserved characters only is left unchanged. */
  lemma {:induction false} EncodeUnreservedIdentity(s: string)
    requires forall k :: 0 <= k < |s| ==> IsUriUnreserved(s[k])
    ensures EncodeUriComponent(s) == s
  {
    if s != [] {
      EncodeUnreservedIdentity(s[1..]);
      assert s == [s[0]] + s[1..];
    }
  }
}

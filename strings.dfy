/** The Python `str` operations the services rely on, as pure functions on
    `seq<char>`: `strip`, `lower`, `upper`, `find`, `rfind`, `in`,
    `startswith`, `endswith`, `split`, `replace(key, '')`, and the decimal
    rendering of integers used by f-strings. Case mapping and the decimal
    digits cover ASCII only, where Python follows Unicode. */
module Strings {

  /** The characters for which Python's `str.isspace()` holds; `strip()` with
      no argument and the regex class `\s` remove or match exactly these. */
  predicate IsSpace(c: char) {
    || c == ' '
    || ('\t' <= c <= '\r')
    || ('\U{1C}' <= c <= '\U{1F}')
    || c == '\U{85}' || c == '\U{A0}' || c == '\U{1680}'
    || ('\U{2000}' <= c <= '\U{200A}')
    || c == '\U{2028}' || c == '\U{2029}' || c == '\U{202F}' || c == '\U{205F}' || c == '\U{3000}'
  }

  predicate IsDigit(c: char) {
    '0' <= c <= '9'
  }

  predicate IsUpperAscii(c: char) {
    'A' <= c <= 'Z'
  }

  predicate IsLowerAscii(c: char) {
    'a' <= c <= 'z'
  }

  function LowerChar(c: char): char {
    if IsUpperAscii(c) then (c as int + 32) as char else c
  }

  function UpperChar(c: char): char {
    if IsLowerAscii(c) then (c as int - 32) as char else c
  }

  /** `s.lower()` */
  function Lower(s: string): (r: string)
    ensures |r| == |s|
    ensures forall i :: 0 <= i < |s| ==> r[i] == LowerChar(s[i])
  {
    seq(|s|, i requires 0 <= i < |s| => LowerChar(s[i]))
  }

  /** `s.upper()` */
  function Upper(s: string): (r: string)
    ensures |r| == |s|
    ensures forall i :: 0 <= i < |s| ==> r[i] == UpperChar(s[i])
  {
    seq(|s|, i requires 0 <= i < |s| => UpperChar(s[i]))
  }

  /** `s.capitalize()`: the first letter upper case, the rest lower case. */
  function Capitalize(s: string): (r: string)
    ensures |r| == |s|
  {
    if s == [] then [] else [UpperChar(s[0])] + Lower(s[1..])
  }

  /** `s.lstrip()` */
  function LStrip(s: string): (r: string)
    ensures |r| <= |s| && r == s[|s| - |r|..]
    ensures |r| > 0 ==> !IsSpace(r[0])
    ensures forall i :: 0 <= i < |s| - |r| ==> IsSpace(s[i])
  {
    if |s| > 0 && IsSpace(s[0]) then LStrip(s[1..]) else s
  }

  /** `s.rstrip()` */
  function RStrip(s: string): (r: string)
    ensures |r| <= |s| && r == s[..|r|]
    ensures |r| > 0 ==> !IsSpace(r[|r| - 1])
    ensures forall i :: |r| <= i < |s| ==> IsSpace(s[i])
  {
    if |s| > 0 && IsSpace(s[|s| - 1]) then RStrip(s[..|s| - 1]) else s
  }

  /** `s.strip()`: `s` without its leading and trailing whitespace. */
  function Strip(s: string): (r: string)
    ensures |r| <= |s|
    ensures |r| > 0 ==> !IsSpace(r[0]) && !IsSpace(r[|r| - 1])
  {
    RStrip(LStrip(s))
  }

  /** A string strips to the empty string exactly when it is all whitespace
      (Python's `not s.strip()`). */
  lemma {:induction false} StripEmptyIffBlank(s: string)
    ensures Strip(s) == "" <==> forall i :: 0 <= i < |s| ==> IsSpace(s[i])
  {
    var l := LStrip(s);
    if Strip(s) == "" {
      assert RStrip(l) == "";
      assert l == "";
    } else {
      var r := RStrip(l);
      assert r[0] == l[0] == s[|s| - |l|];
    }
  }

  /** Stripping only removes characters from the ends: every character of
      the result is a character of `s`. */
  lemma StripIsSlice(s: string)
    ensures forall c :: c in Strip(s) ==> c in s
  {
    var l := LStrip(s);
    var r := RStrip(l);
    var i := |s| - |l|;
    assert r == s[i..i + |r|];
    forall c | c in r ensures c in s {
      var k :| 0 <= k < |r| && r[k] == c;
      assert s[i + k] == c;
    }
  }

  /** `p` occurs in `s` starting at index `i`. */
  predicate OccursAt(s: string, p: string, i: int) {
    0 <= i && i + |p| <= |s| && s[i..i + |p|] == p
  }

  /** `s.find(p, start)`: the first index at or after `from` where `p`
      occurs, or -1. */
  function FindFrom(s: string, p: string, from: nat): (r: int)
    requires from <= |s|
    ensures r == -1 || (from <= r && OccursAt(s, p, r))
    ensures r == -1 ==> forall i :: from <= i ==> !OccursAt(s, p, i)
    ensures r >= 0 ==> forall i :: from <= i < r ==> !OccursAt(s, p, i)
    decreases |s| - from
  {
    if from + |p| > |s| then -1
    else if s[from..from + |p|] == p then from
    else FindFrom(s, p, from + 1)
  }

  /** `s.find(p)` */
  function Find(s: string, p: string): (r: int)
    ensures r == -1 || OccursAt(s, p, r)
    ensures r == -1 ==> forall i :: !OccursAt(s, p, i)
    ensures r >= 0 ==> forall i :: 0 <= i < r ==> !OccursAt(s, p, i)
  {
    FindFrom(s, p, 0)
  }

  /** `p in s` */
  predicate Contains(s: string, p: string) {
    Find(s, p) >= 0
  }

  lemma ContainsIff(s: string, p: string)
    ensures Contains(s, p) <==> exists i :: OccursAt(s, p, i)
  {
  }

  /** `s.rfind(p)`: the last index where `p` occurs, or -1. */
  function RFind(s: string, p: string): (r: int)
    ensures r == -1 || OccursAt(s, p, r)
    ensures r == -1 ==> forall i :: !OccursAt(s, p, i)
    ensures r >= 0 ==> forall i :: r < i ==> !OccursAt(s, p, i)
  {
    RFindBelow(s, p, |s|)
  }

  function RFindBelow(s: string, p: string, upto: nat): (r: int)
    requires upto <= |s|
    ensures r == -1 || (r <= upto && OccursAt(s, p, r))
    ensures r == -1 ==> forall i :: i <= upto ==> !OccursAt(s, p, i)
    ensures r >= 0 ==> forall i :: r < i <= upto ==> !OccursAt(s, p, i)
  {
    if OccursAt(s, p, upto) then upto
    else if upto == 0 then -1
    else RFindBelow(s, p, upto - 1)
  }

  /** `s.startswith(p)` */
  predicate StartsWith(s: string, p: string) {
    |p| <= |s| && s[..|p|] == p
  }

  /** `s.endswith(p)` */
  predicate EndsWith(s: string, p: string) {
    |p| <= |s| && s[|s| - |p|..] == p
  }

  /** `s.split(sep)` for a one-character separator: the pieces between
      separators, at least one piece, none containing `sep`. */
  function Split(s: string, sep: char): (r: seq<string>)
    ensures |r| >= 1
    ensures forall i :: 0 <= i < |r| ==> sep !in r[i]
    decreases |s|
  {
    if sep !in s then [s]
    else
      var i := IndexOfChar(s, sep);
      [s[..i]] + Split(s[i + 1..], sep)
  }

  /** The lines of `text`, as `text.split('\n')` gives them. */
  function Lines(text: string): (r: seq<string>)
    ensures |r| >= 1
  {
    Split(text, '\n')
  }

  function IndexOfChar(s: string, c: char): (i: nat)
    requires c in s
    ensures i < |s| && s[i] == c && c !in s[..i]
  {
    if s[0] == c then 0 else 1 + IndexOfChar(s[1..], c)
  }

  /** Splitting pieces joined by a separator they do not hold gives the
      pieces back. */
  lemma {:induction false} SplitOfJoin(pieces: seq<string>, sep: char)
    requires |pieces| >= 1
    requires forall i :: 0 <= i < |pieces| ==> sep !in pieces[i]
    ensures Split(Join(pieces, sep), sep) == pieces
    decreases |pieces|
  {
    if |pieces| > 1 {
      var rest := Join(pieces[1..], sep);
      var s := Join(pieces, sep);
      assert s == pieces[0] + [sep] + rest;
      assert s[|pieces[0]|] == sep;
      assert s[..|pieces[0]|] == pieces[0];
      assert IndexOfChar(s, sep) == |pieces[0]|;
      assert s[|pieces[0]| + 1..] == rest;
      SplitOfJoin(pieces[1..], sep);
      assert pieces == [pieces[0]] + pieces[1..];
    }
  }

  /** Joining the pieces of `Split` with the separator gives back the
      original text. */
  function Join(pieces: seq<string>, sep: char): string
    requires |pieces| >= 1
  {
    if |pieces| == 1 then pieces[0] else pieces[0] + [sep] + Join(pieces[1..], sep)
  }

  lemma {:induction false} SplitJoin(s: string, sep: char)
    ensures Join(Split(s, sep), sep) == s
    decreases |s|
  {
    if sep in s {
      var i := IndexOfChar(s, sep);
      var rest := Split(s[i + 1..], sep);
      var pieces := Split(s, sep);
      assert pieces == [s[..i]] + rest;
      assert pieces[1..] == rest;
      SplitJoin(s[i + 1..], sep);
      calc {
        Join(pieces, sep);
        pieces[0] + [sep] + Join(rest, sep);
        s[..i] + [sep] + s[i + 1..];
        { assert s == s[..i] + [sep] + s[i + 1..]; }
        s;
      }
    }
  }

  /** `s.split(sep)[0]` for a multi-character separator: the text before
      the first occurrence, or all of `s`. */
  function UpToFirst(s: string, sep: string): (r: string)
    ensures StartsWith(s, r)
    ensures Find(s, sep) >= 0 ==> |r| == Find(s, sep)
    ensures Find(s, sep) < 0 ==> r == s
  {
    var i := Find(s, sep);
    if i < 0 then s else s[..i]
  }

  /** The text after the first occurrence of `sep` (the start of
      `s.split(sep)[1]`), or the empty string when `sep` does not occur. */
  function AfterFirst(s: string, sep: string): (r: string)
    ensures Find(s, sep) >= 0 ==> r == s[Find(s, sep) + |sep|..]
    ensures Find(s, sep) < 0 ==> r == ""
  {
    var i := Find(s, sep);
    if i < 0 then "" else s[i + |sep|..]
  }

  /** `s.split(sep)[1]` when `sep` occurs in `s`: the text between the first
      and the second occurrence of `sep`, or to the end of `s`. */
  function SecondPiece(s: string, sep: string): string {
    UpToFirst(AfterFirst(s, sep), sep)
  }

  /** The text before the first occurrence of `p` does not contain `p`. */
  lemma UpToFirstAvoids(s: string, p: string)
    requires p != ""
    ensures !Contains(UpToFirst(s, p), p)
  {
    var r := UpToFirst(s, p);
    if Contains(r, p) {
      var k := Find(r, p);
      assert r[k..k + |p|] == s[k..k + |p|];
      assert OccursAt(s, p, k);
    }
  }

  /** `Find` answers `i` when `p` occurs at `i` and at no earlier index. */
  lemma FindIs(s: string, p: string, i: nat)
    requires OccursAt(s, p, i)
    requires forall k :: 0 <= k < i ==> !OccursAt(s, p, k)
    ensures Find(s, p) == i
  {
  }

  /** `RFind` answers `i` when `p` occurs at `i` and at no later index. */
  lemma RFindIs(s: string, p: string, i: nat)
    requires OccursAt(s, p, i)
    requires forall k :: i < k ==> !OccursAt(s, p, k)
    ensures RFind(s, p) == i
  {
  }

  /** `s.replace(key, '')` for a non-empty key: every non-overlapping
      occurrence, scanning left to right, is removed. */
  function RemoveAll(s: string, key: string): (r: string)
    requires key != ""
    ensures |r| <= |s|
    ensures !Contains(s, key) ==> r == s
    decreases |s|
  {
    var i := Find(s, key);
    if i < 0 then s else s[..i] + RemoveAll(s[i + |key|..], key)
  }

  function DigitChar(d: nat): (c: char)
    requires d < 10
    ensures IsDigit(c)
  {
    "0123456789"[d]
  }

  function DigitValue(c: char): nat
    requires IsDigit(c)
  {
    c as int - '0' as int
  }

  /** Python's `str(n)` for a non-negative integer. */
  function NatToString(n: nat): (r: string)
    ensures |r| >= 1
    ensures forall i :: 0 <= i < |r| ==> IsDigit(r[i])
  {
    if n < 10 then [DigitChar(n)] else NatToString(n / 10) + [DigitChar(n % 10)]
  }

  /** The end of the run of digits starting at `i`. */
  function DigitRunEnd(t: string, i: nat): (j: nat)
    requires i <= |t|
    ensures i <= j <= |t|
    ensures forall k :: i <= k < j ==> IsDigit(t[k])
    ensures j == |t| || !IsDigit(t[j])
    decreases |t| - i
  {
    if i < |t| && IsDigit(t[i]) then DigitRunEnd(t, i + 1) else i
  }

  predicate AllDigits(s: string) {
    forall i :: 0 <= i < |s| ==> IsDigit(s[i])
  }

  /** The value of a string of decimal digits (`int(s)`, with "" read as 0). */
  function DigitsValue(s: string): nat
    requires AllDigits(s)
  {
    if s == [] then 0 else 10 * DigitsValue(s[..|s| - 1]) + DigitValue(s[|s| - 1])
  }

  /** Rendering a number and reading it back gives the number. */
  lemma {:induction false} NatToStringRoundTrip(n: nat)
    ensures DigitsValue(NatToString(n)) == n
  {
    if n >= 10 {
      NatToStringRoundTrip(n / 10);
      var r := NatToString(n);
      assert r[..|r| - 1] == NatToString(n / 10);
    }
  }
}

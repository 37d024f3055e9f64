/**
 * Character classes and the handful of Python string and `re` operations the
 * scraper relies on: `str.upper`, `str.lower`, `str.strip`, `in` on strings,
 * `str.split(sep)`, leftmost `re.search` of a fixed-width pattern and
 * `re.findall(r"\w+")`.
 *
 * Characters are restricted to Latin-1 where Python's Unicode tables matter:
 * `\d` is an ASCII digit, `\w` an ASCII letter, digit or `_` or a Latin-1
 * letter or numeric character, and case mapping follows Latin-1.
 */
module Text {
  import opened Wrappers

  // ---------------------------------------------------------------------------
  // Character classes

  predicate IsDigit(c: char) {
    '0' <= c <= '9'
  }

  /** Python's `str.isspace` (and `\s`) restricted to Latin-1. */
  predicate IsSpace(c: char) {
    c == ' ' || c == '\t' || c == '\n' || c == '\r' || c == '\U{0B}' || c == '\U{0C}'
    || ('\U{1C}' <= c <= '\U{1F}') || c == '\U{85}' || c == '\U{A0}'
  }

  /** Python's `\w` restricted to Latin-1: letters, digits, numeric signs and `_`. */
  predicate IsWordChar(c: char) {
    ('a' <= c <= 'z') || ('A' <= c <= 'Z') || IsDigit(c) || c == '_'
    || c == '\U{AA}' || c == '\U{B2}' || c == '\U{B3}' || c == '\U{B5}' || c == '\U{B9}'
    || c == '\U{BA}' || ('\U{BC}' <= c <= '\U{BE}')
    || ('\U{C0}' <= c <= '\U{D6}') || ('\U{D8}' <= c <= '\U{F6}') || ('\U{F8}' <= c <= '\U{FF}')
  }

  /** `str.upper` on one character (the one-to-two mapping of U+00DF is not modelled). */
  function UpperChar(c: char): char {
    if 'a' <= c <= 'z' then (c as int - 32) as char
    else if ('\U{E0}' <= c <= '\U{FE}') && c != '\U{F7}' then (c as int - 32) as char
    else if c == '\U{B5}' || c == '\U{03BC}' then '\U{039C}'
    else if c == '\U{FF}' then '\U{0178}'
    else c
  }

  /** `str.lower` on one character. */
  function LowerChar(c: char): char {
    if 'A' <= c <= 'Z' then (c as int + 32) as char
    else if ('\U{C0}' <= c <= '\U{DE}') && c != '\U{D7}' then (c as int + 32) as char
    else if c == '\U{0178}' then '\U{FF}'
    else if c == '\U{039C}' then '\U{03BC}'
    else c
  }

  function Upper(s: string): (r: string)
    ensures |r| == |s|
  {
    seq(|s|, i requires 0 <= i < |s| => UpperChar(s[i]))
  }

  function Lower(s: string): (r: string)
    ensures |r| == |s|
  {
    seq(|s|, i requires 0 <= i < |s| => LowerChar(s[i]))
  }

  /** A text upper-cases to `u` when each of its characters does to the one of `u` at its place. */
  lemma UpperIs(d: string, u: string)
    requires |d| == |u| && forall i :: 0 <= i < |d| ==> UpperChar(d[i]) == u[i]
    ensures Upper(d) == u
  {
  }

  /** Upper-casing maps each character to a fixed point: a second pass changes nothing. */
  lemma UpperIdempotent(s: string)
    ensures Upper(Upper(s)) == Upper(s)
  {
    assert forall i :: 0 <= i < |s| ==> UpperChar(UpperChar(s[i])) == UpperChar(s[i]);
  }

  /** Lower-casing first does not change what upper-casing yields: case is forgotten. */
  lemma UpperForgetsLower(s: string)
    ensures Upper(Lower(s)) == Upper(s)
  {
    assert forall i :: 0 <= i < |s| ==> UpperChar(LowerChar(s[i])) == UpperChar(s[i]);
  }

  lemma LowerIdempotent(s: string)
    ensures Lower(Lower(s)) == Lower(s)
  {
    assert forall i :: 0 <= i < |s| ==> LowerChar(LowerChar(s[i])) == LowerChar(s[i]);
  }

  /**
   * Upper-casing first does not change what lower-casing yields, except for
   * the micro sign, which upper-cases to a Greek capital that lower-cases to
   * a different letter.
   */
  lemma LowerForgetsUpper(s: string)
    requires forall i :: 0 <= i < |s| ==> s[i] != '\U{B5}'
    ensures Lower(Upper(s)) == Lower(s)
  {
    assert forall i :: 0 <= i < |s| ==> LowerChar(UpperChar(s[i])) == LowerChar(s[i]);
  }

  // ---------------------------------------------------------------------------
  // Whitespace and `str.strip`

  predicate AllSpace(s: string) {
    forall i :: 0 <= i < |s| ==> IsSpace(s[i])
  }

  function LeadingSpaces(s: string): (n: nat)
    ensures n <= |s| && AllSpace(s[..n])
    ensures n < |s| ==> !IsSpace(s[n])
  {
    if s == [] || !IsSpace(s[0]) then 0 else 1 + LeadingSpaces(s[1..])
  }

  function TrailingSpaces(s: string): (n: nat)
    ensures n <= |s| && AllSpace(s[|s| - n..])
    ensures n < |s| ==> !IsSpace(s[|s| - n - 1])
  {
    if s == [] || !IsSpace(s[|s| - 1]) then 0 else 1 + TrailingSpaces(s[..|s| - 1])
  }

  /** `str.rstrip()` */
  function TrimRight(s: string): string {
    s[..|s| - TrailingSpaces(s)]
  }

  /** `str.strip()`: the slice left once leading and trailing whitespace is removed. */
  function Strip(s: string): (r: string)
    ensures r == [] || (!IsSpace(r[0]) && !IsSpace(r[|r| - 1]))
    ensures exists i :: 0 <= i <= |s| - |r| && s[i..i + |r|] == r && AllSpace(s[..i]) && AllSpace(s[i + |r|..])
  {
    var t := s[LeadingSpaces(s)..];
    var r := TrimRight(t);
    assert s[LeadingSpaces(s)..LeadingSpaces(s) + |r|] == r;
    r
  }

  /** A text with no whitespace at either end is its own strip. */
  lemma StripUntrimmed(s: string)
    requires s == [] || (!IsSpace(s[0]) && !IsSpace(s[|s| - 1]))
    ensures Strip(s) == s
  {
    if s != [] {
      assert LeadingSpaces(s) == 0;
      assert TrailingSpaces(s) == 0;
      assert s[0..] == s && s[..|s|] == s;
    }
  }

  /** Whitespace after a text without whitespace at its ends is stripped away. */
  lemma StripTrailingSpace(a: string, w: string)
    requires a == [] || (!IsSpace(a[0]) && !IsSpace(a[|a| - 1]))
    requires AllSpace(w)
    ensures Strip(a + w) == a
  {
    if a == [] {
      assert a + w == w;
      StripAllSpace(w);
    } else {
      TrailingSpacesAfter(a, w);
      var s := a + w;
      assert LeadingSpaces(s) == 0;
      assert s[0..] == s;
      assert s[..|s| - |w|] == a;
    }
  }

  lemma StripAllSpace(w: string)
    requires AllSpace(w)
    ensures Strip(w) == []
  {
    assert LeadingSpaces(w) == |w|;
  }

  lemma {:induction false} TrailingSpacesAfter(a: string, w: string)
    requires a != [] && !IsSpace(a[|a| - 1]) && AllSpace(w)
    ensures TrailingSpaces(a + w) == |w|
    decreases |w|
  {
    var s := a + w;
    if w == [] {
      assert s == a;
    } else {
      var v := w[..|w| - 1];
      assert s[..|s| - 1] == a + v;
      assert s[|s| - 1] == w[|w| - 1];
      TrailingSpacesAfter(a, v);
    }
  }

  // ---------------------------------------------------------------------------
  // Substrings and leftmost search

  /** Python's `needle in hay` for strings. */
  predicate Contains(hay: string, needle: string) {
    exists i: nat | i <= |hay| :: OccursAt(hay, needle, i)
  }

  /** `part` occurs in `s` starting at position `i`. */
  predicate OccursAt(s: string, part: string, i: nat) {
    i + |part| <= |s| && s[i..i + |part|] == part
  }

  /** A character of the needle that the haystack lacks rules the needle out. */
  lemma MissingCharBlocks(hay: string, needle: string, c: char)
    requires c in needle && c !in hay
    ensures !Contains(hay, needle)
  {
    var k :| 0 <= k < |needle| && needle[k] == c;
    assert forall i: nat :: OccursAt(hay, needle, i) ==> hay[i + k] == c;
  }

  /** The same, with the character named by its position in the needle. */
  lemma MissingCharAt(hay: string, needle: string, i: nat)
    requires i < |needle| && forall j :: 0 <= j < |hay| ==> hay[j] != needle[i]
    ensures !Contains(hay, needle)
  {
    MissingCharBlocks(hay, needle, needle[i]);
  }

  /** A piece of the needle that the haystack lacks rules the needle out. */
  lemma MissingPartBlocks(hay: string, needle: string, part: string)
    requires Contains(needle, part) && !Contains(hay, part)
    ensures !Contains(hay, needle)
  {
    var k: nat :| k <= |needle| && OccursAt(needle, part, k);
    forall i: nat | OccursAt(hay, needle, i)
      ensures OccursAt(hay, part, i + k)
    {
      assert forall j :: 0 <= j < |part| ==> hay[i + k + j] == needle[k + j] == part[j];
      assert hay[i + k..i + k + |part|] == part;
    }
  }

  /** A needle found at a known place is contained. */
  lemma ContainsAt(hay: string, needle: string, i: nat)
    requires OccursAt(hay, needle, i)
    ensures Contains(hay, needle)
  {
  }

  /**
   * The leftmost position at or after `from` where a fixed-shape pattern
   * matches: what `re.search` reports for the patterns used here.
   */
  function FirstMatch(s: string, at: (string, nat) -> bool, from: nat): (r: Option<nat>)
    decreases |s| - from
    ensures r.Some? ==> from <= r.value < |s| && at(s, r.value)
    ensures r.Some? ==> forall i :: from <= i < r.value ==> !at(s, i)
    ensures r.None? <==> forall i :: from <= i < |s| ==> !at(s, i)
  {
    if from >= |s| then None
    else if at(s, from) then Some(from)
    else FirstMatch(s, at, from + 1)
  }

  /** A match with none before it is the leftmost one. */
  lemma FirstMatchIs(s: string, at: (string, nat) -> bool, from: nat, k: nat)
    requires from <= k < |s| && at(s, k) && forall i: nat :: from <= i < k ==> !at(s, i)
    ensures FirstMatch(s, at, from) == Some(k)
  {
  }

  // ---------------------------------------------------------------------------
  // `str.split(sep)`

  /** The leftmost occurrence of a non-empty `part` in `s` (`str.find`). */
  function Find(s: string, part: string): (r: Option<nat>)
    requires part != []
    ensures r.Some? ==> OccursAt(s, part, r.value)
    ensures r.Some? ==> forall j: nat :: j < r.value ==> !OccursAt(s, part, j)
    ensures r.None? <==> !Contains(s, part)
  {
    var at := (t: string, i: nat) => OccursAt(t, part, i);
    var r := FirstMatch(s, at, 0);
    assert forall i: nat :: at(s, i) == OccursAt(s, part, i);
    assert r.None? ==> forall i: nat :: i < |s| ==> !OccursAt(s, part, i);
    r
  }

  /** An occurrence with none before it is what `str.find` reports. */
  lemma FindIs(s: string, part: string, k: nat)
    requires part != [] && OccursAt(s, part, k) && forall j: nat :: j < k ==> !OccursAt(s, part, j)
    ensures Find(s, part) == Some(k)
  {
  }

  /** A two-character part occurs where its two characters do. */
  lemma OccursAtPair(s: string, part: string, j: nat)
    requires |part| == 2
    ensures OccursAt(s, part, j) <==> j + 2 <= |s| && s[j] == part[0] && s[j + 1] == part[1]
  {
    if j + 2 <= |s| && s[j] == part[0] && s[j + 1] == part[1] {
      assert s[j..j + 2] == part;
    }
  }

  /** With no occurrence `str.find` reports none. */
  lemma FindNone(s: string, part: string)
    requires part != [] && forall j: nat :: !OccursAt(s, part, j)
    ensures Find(s, part) == None
  {
  }

  /** The parts of `s` between the non-overlapping occurrences of `sep`, left to right. */
  function Split(s: string, sep: string): (parts: seq<string>)
    requires sep != []
    decreases |s|
    ensures |parts| >= 1
  {
    match Find(s, sep)
    case None => [s]
    case Some(i) => [s[..i]] + Split(s[i + |sep|..], sep)
  }

  /** `sep.join(parts)` */
  function Join(parts: seq<string>, sep: string): string {
    if parts == [] then []
    else if |parts| == 1 then parts[0]
    else parts[0] + sep + Join(parts[1..], sep)
  }

  /** Joining the parts of a split with the separator gives back the text. */
  lemma {:induction false} SplitJoin(s: string, sep: string)
    requires sep != []
    decreases |s|
    ensures Join(Split(s, sep), sep) == s
  {
    var f := Find(s, sep);
    if f.None? {
      assert Split(s, sep) == [s];
    } else {
      var i := f.value;
      SplitAtFind(s, sep, i);
      var rest := s[i + |sep|..];
      SplitJoin(rest, sep);
      var tail := Split(rest, sep);
      var parts := [s[..i]] + tail;
      assert |parts| > 1 && parts[0] == s[..i] && parts[1..] == tail;
      JoinCons(parts, sep);
      assert s[i..i + |sep|] == sep;
      calc {
        Join(Split(s, sep), sep);
        s[..i] + sep + Join(tail, sep);
        s[..i] + sep + rest;
        { assert s == s[..i] + s[i..i + |sep|] + rest; }
        s;
      }
    }
  }

  lemma JoinCons(parts: seq<string>, sep: string)
    requires |parts| > 1
    ensures Join(parts, sep) == parts[0] + sep + Join(parts[1..], sep)
  {
  }

  /** The text before the leftmost separator holds no separator. */
  lemma NoSepBeforeFind(s: string, sep: string, i: nat)
    requires sep != [] && Find(s, sep) == Some(i)
    ensures !Contains(s[..i], sep)
  {
    forall j: nat | OccursAt(s[..i], sep, j)
      ensures OccursAt(s, sep, j)
    {
      assert s[..i][j..j + |sep|] == s[j..j + |sep|];
    }
  }

  /** A split at the leftmost separator: the text before it, then the parts of the rest. */
  lemma SplitAtFind(s: string, sep: string, i: nat)
    requires sep != [] && Find(s, sep) == Some(i)
    ensures i + |sep| <= |s|
    ensures Split(s, sep) == [s[..i]] + Split(s[i + |sep|..], sep)
  {
    SplitAtBound(s, sep, i);
  }

  lemma SplitAtBound(s: string, sep: string, i: nat)
    requires sep != [] && Find(s, sep) == Some(i) && i + |sep| <= |s|
    ensures Split(s, sep) == [s[..i]] + Split(s[i + |sep|..], sep)
  {
  }

  /** No part of a split contains the separator. */
  lemma {:induction false} SplitPartsAvoidSep(s: string, sep: string)
    requires sep != []
    decreases |s|
    ensures forall k :: 0 <= k < |Split(s, sep)| ==> !Contains(Split(s, sep)[k], sep)
  {
    match Find(s, sep)
    case None =>
      assert Split(s, sep) == [s];
    case Some(i) =>
      SplitAtFind(s, sep, i);
      var rest := s[i + |sep|..];
      var tail := Split(rest, sep);
      SplitPartsAvoidSep(rest, sep);
      NoSepBeforeFind(s, sep, i);
      var parts := [s[..i]] + tail;
      assert forall k :: 0 < k < |parts| ==> parts[k] == tail[k - 1];
  }

  // ---------------------------------------------------------------------------
  // `re.findall(r"\w+")`: maximal runs of word characters

  predicate IsWord(w: string) {
    w != [] && forall i :: 0 <= i < |w| ==> IsWordChar(w[i])
  }

  function WordRun(s: string): (n: nat)
    ensures n <= |s|
    ensures forall i :: 0 <= i < n ==> IsWordChar(s[i])
    ensures n < |s| ==> !IsWordChar(s[n])
  {
    if s == [] || !IsWordChar(s[0]) then 0 else 1 + WordRun(s[1..])
  }

  function WordTokens(s: string): (r: seq<string>)
    decreases |s|
    ensures forall k :: 0 <= k < |r| ==> IsWord(r[k])
  {
    if s == [] then []
    else if !IsWordChar(s[0]) then WordTokens(s[1..])
    else
      var n := WordRun(s);
      [s[..n]] + WordTokens(s[n..])
  }

  /** A single word is its own only token. */
  lemma WordIsOneToken(w: string)
    requires IsWord(w)
    ensures WordTokens(w) == [w]
  {
    WordRunOfWord(w);
    assert w[..|w|] == w;
    assert w[|w|..] == [];
  }

  lemma {:induction false} WordRunOfWord(w: string)
    requires forall i :: 0 <= i < |w| ==> IsWordChar(w[i])
    ensures WordRun(w) == |w|
  {
    if w != [] {
      WordRunOfWord(w[1..]);
    }
  }

  /** A text without word characters has no tokens. */
  lemma {:induction false} NoWordCharsNoTokens(s: string)
    requires forall i :: 0 <= i < |s| ==> !IsWordChar(s[i])
    ensures WordTokens(s) == []
  {
    if s != [] {
      NoWordCharsNoTokens(s[1..]);
    }
  }

  /** Characters outside every word in front of a text add no token to it. */
  lemma {:induction false} FillerAddsNoTokens(lead: string, s: string)
    requires forall i :: 0 <= i < |lead| ==> !IsWordChar(lead[i])
    ensures WordTokens(lead + s) == WordTokens(s)
    decreases |lead|
  {
    if lead != [] {
      var t := lead + s;
      assert t[0] == lead[0] && !IsWordChar(t[0]);
      assert t[1..] == lead[1..] + s;
      FillerAddsNoTokens(lead[1..], s);
      assert WordTokens(t) == WordTokens(t[1..]);
    } else {
      assert lead + s == s;
    }
  }

  lemma {:induction false} WordRunStopsAt(a: string, c: char, b: string)
    requires !IsWordChar(c)
    ensures WordRun(a + [c] + b) == WordRun(a)
    decreases |a|
  {
    if a != [] {
      assert (a + [c] + b)[1..] == a[1..] + [c] + b;
      WordRunStopsAt(a[1..], c, b);
    }
  }

  /** A non-word character splits the token list in two. */
  lemma {:induction false} TokensSplitAt(a: string, c: char, b: string)
    requires !IsWordChar(c)
    ensures WordTokens(a + [c] + b) == WordTokens(a) + WordTokens(b)
    decreases |a|
  {
    var s := a + [c] + b;
    if a == [] {
      assert s[1..] == b;
    } else if !IsWordChar(a[0]) {
      assert s[1..] == a[1..] + [c] + b;
      TokensSplitAt(a[1..], c, b);
    } else {
      WordRunStopsAt(a, c, b);
      var n := WordRun(a);
      assert s[..n] == a[..n];
      assert s[n..] == a[n..] + [c] + b;
      TokensSplitAt(a[n..], c, b);
    }
  }

  /** A non-empty run of non-word characters separates tokens like one does. */
  lemma TokensSplitAtFiller(a: string, sep: string, b: string)
    requires sep != [] && forall i :: 0 <= i < |sep| ==> !IsWordChar(sep[i])
    ensures WordTokens(a + sep + b) == WordTokens(a) + WordTokens(b)
  {
    var more := sep[1..];
    assert a + sep + b == a + [sep[0]] + (more + b);
    TokensSplitAt(a, sep[0], more + b);
    assert forall i :: 0 <= i < |more| ==> !IsWordChar(more[i]) by {
      assert forall i :: 0 <= i < |more| ==> more[i] == sep[i + 1];
    }
    FillerAddsNoTokens(more, b);
  }

  /** A word followed by a space is the first token. */
  lemma WordThenRest(w: string, rest: string)
    requires IsWord(w)
    ensures WordTokens(w + " " + rest) == [w] + WordTokens(rest)
  {
    assert w + " " + rest == w + [' '] + rest;
    TokensSplitAt(w, ' ', rest);
    WordIsOneToken(w);
  }

  function SumLengths(ws: seq<string>): nat {
    if ws == [] then 0 else |ws[0]| + SumLengths(ws[1..])
  }

  /** Tokens are disjoint pieces of the text, so their lengths add up to at most its length. */
  lemma {:induction false} TokensFitInText(s: string)
    decreases |s|
    ensures SumLengths(WordTokens(s)) <= |s|
  {
    if s != [] {
      if !IsWordChar(s[0]) {
        TokensFitInText(s[1..]);
      } else {
        var n := WordRun(s);
        TokensFitInText(s[n..]);
        assert WordTokens(s)[1..] == WordTokens(s[n..]);
      }
    }
  }

  // ---------------------------------------------------------------------------
  // Decimal rendering of integers (`str(int)` for non-negative values)

  function DigitChar(d: nat): char
    requires d < 10
  {
    ('0' as int + d) as char
  }

  function DigitValue(c: char): nat
    requires IsDigit(c)
  {
    c as int - '0' as int
  }

  function Decimal(n: nat): (r: string)
    decreases n
    ensures |r| >= 1 && forall i :: 0 <= i < |r| ==> IsDigit(r[i])
  {
    if n < 10 then [DigitChar(n)] else Decimal(n / 10) + [DigitChar(n % 10)]
  }

  function DecimalValue(s: string): nat
    requires forall i :: 0 <= i < |s| ==> IsDigit(s[i])
  {
    if s == [] then 0 else 10 * DecimalValue(s[..|s| - 1]) + DigitValue(s[|s| - 1])
  }

  /** Reading back the decimal rendering gives the number, and it has no leading zero. */
  lemma {:induction false} DecimalRoundTrip(n: nat)
    decreases n
    ensures DecimalValue(Decimal(n)) == n
    ensures |Decimal(n)| > 1 ==> Decimal(n)[0] != '0'
  {
    if n >= 10 {
      DecimalRoundTrip(n / 10);
      var r := Decimal(n);
      assert r[..|r| - 1] == Decimal(n / 10);
    }
  }
}

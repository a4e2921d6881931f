/**
 * The URL pattern of the media rater and `findall` over it. The pattern's alternatives all
 * fall inside one character class: `!`, the range `$`..`_` (which holds the digits, the
 * capitals and `%:/?@.&+*(),`) and the lower-case letters. A match is `http://` or `https://`
 * followed by a maximal, non-empty run of that class.
 */
module UrlScan {
  import opened Wrappers

  predicate IsUrlChar(c: char) {
    c == '!' || ('$' <= c <= '_') || ('a' <= c <= 'z')
  }

  predicate AllUrlChars(s: string) {
    forall k :: 0 <= k < |s| ==> IsUrlChar(s[k])
  }

  const Http := "http://"
  const Https := "https://"

  /** A string the pattern matches as a whole: a scheme and at least one URL character after it, and nothing else. */
  predicate IsUrl(u: string) {
    || (Https <= u && |u| > |Https| && AllUrlChars(u[|Https|..]))
    || (Http <= u && |u| > |Http| && AllUrlChars(u[|Http|..]))
  }

  /** Length of the scheme that starts at `i`, or 0. */
  function SchemeLength(s: string, i: nat): nat
    requires i <= |s|
  {
    if Https <= s[i..] then |Https| else if Http <= s[i..] then |Http| else 0
  }

  /** The end of the longest run of URL characters that starts at `j`. */
  function RunEnd(s: string, j: nat): (e: nat)
    requires j <= |s|
    ensures j <= e <= |s|
    ensures AllUrlChars(s[j..e])
    ensures e == |s| || !IsUrlChar(s[e])
    decreases |s| - j
  {
    if j == |s| || !IsUrlChar(s[j]) then j else RunEnd(s, j + 1)
  }

  /** Where a match that starts at `i` ends, if one does. */
  function MatchAt(s: string, i: nat): (m: Option<nat>)
    requires i <= |s|
    ensures m.Some? ==> i < m.value <= |s|
    ensures m.Some? ==>
              && 0 < SchemeLength(s, i) && i + SchemeLength(s, i) < m.value
              && AllUrlChars(s[i + SchemeLength(s, i)..m.value])
              && (m.value == |s| || !IsUrlChar(s[m.value]))
  {
    var n := SchemeLength(s, i);
    if n > 0 && i + n < |s| && IsUrlChar(s[i + n]) then Some(RunEnd(s, i + n)) else None
  }

  /** No text starts with both schemes: the fifth character is `s` in one and `:` in the other. */
  lemma SchemesExclusive(t: string)
    ensures !(Https <= t && Http <= t)
  {
    assert Https <= t ==> t[4] == Https[4] == 's';
    assert Http <= t ==> t[4] == Http[4] == ':';
  }

  /** The scheme length of a URL: 8 for `https://`, 7 for `http://`. */
  function UrlSchemeLength(u: string): (n: nat)
    requires IsUrl(u)
    ensures n < |u| && u[..n] <= u && AllUrlChars(u[n..])
    ensures n == |Https| || n == |Http|
    ensures n == |Https| ==> Https <= u
    ensures n == |Http| ==> Http <= u
  {
    SchemesExclusive(u);
    if Https <= u then |Https| else |Http|
  }

  /** A URL-shaped substring at `i` makes `SchemeLength` find its scheme. */
  lemma SchemeOfUrl(s: string, i: nat, e: nat)
    requires i <= e <= |s| && IsUrl(s[i..e])
    ensures SchemeLength(s, i) == UrlSchemeLength(s[i..e])
    ensures i + SchemeLength(s, i) < e
    ensures s[i + SchemeLength(s, i)..e] == s[i..e][SchemeLength(s, i)..]
  {
    var u := s[i..e];
    var n := UrlSchemeLength(u);
    assert s[i..][..n] == u[..n];
    SchemesExclusive(s[i..]);
    assert n == |Https| ==> Https <= s[i..];
    assert n == |Http| ==> Http <= s[i..];
  }

  /** The maximal run is the only one. */
  lemma RunEndUnique(s: string, j: nat, e: nat)
    requires j <= e <= |s|
    requires AllUrlChars(s[j..e]) && (e == |s| || !IsUrlChar(s[e]))
    ensures RunEnd(s, j) == e
  {
  }

  /** A match at `i` ends exactly where a maximal URL starting at `i` ends. */
  lemma MatchAtIsMaximalUrl(s: string, i: nat, e: nat)
    requires i <= e <= |s|
    ensures MatchAt(s, i) == Some(e) <==> IsUrl(s[i..e]) && (e == |s| || !IsUrlChar(s[e]))
  {
    var u := s[i..e];
    if MatchAt(s, i) == Some(e) {
      var n := SchemeLength(s, i);
      SchemesExclusive(s[i..]);
      assert u[n..] == s[i + n..e];
      assert u[..n] == s[i..][..n];
      assert n == |Https| ==> Https <= u;
      assert n == |Http| ==> Http <= u;
    }
    if IsUrl(u) && (e == |s| || !IsUrlChar(s[e])) {
      SchemeOfUrl(s, i, e);
      var n := SchemeLength(s, i);
      assert s[i + n] == u[n];
      RunEndUnique(s, i + n, e);
    }
  }

  /** A URL-shaped substring at `i` means a match starts at `i`. */
  lemma UrlStartsMatch(s: string, i: nat, e: nat)
    requires i <= e <= |s| && IsUrl(s[i..e])
    ensures MatchAt(s, i).Some?
  {
    SchemeOfUrl(s, i, e);
    var n := SchemeLength(s, i);
    assert s[i + n] == s[i..e][n];
  }

  datatype Span = Span(start: nat, end: nat)

  /**
   * `findall` from position `i`: the leftmost match, then the search resumes where it ended;
   * where no match starts, the search moves one character on.
   */
  function SpansFrom(s: string, i: nat): (sp: seq<Span>)
    requires i <= |s|
    ensures forall k :: 0 <= k < |sp| ==>
              i <= sp[k].start < sp[k].end <= |s| && MatchAt(s, sp[k].start) == Some(sp[k].end)
    ensures forall k :: 0 <= k < |sp| - 1 ==> sp[k].end <= sp[k + 1].start
    decreases |s| - i
  {
    if i == |s| then []
    else match MatchAt(s, i)
      case Some(e) => [Span(i, e)] + SpansFrom(s, e)
      case None => SpansFrom(s, i + 1)
  }

  /** The span `k` found from `i` covers position `p`. */
  predicate Covers(s: string, i: nat, k: nat, p: nat)
    requires i <= |s|
  {
    k < |SpansFrom(s, i)| && SpansFrom(s, i)[k].start <= p < SpansFrom(s, i)[k].end
  }

  /** A match at `i` that reaches past `p` is the first span found from `i`. */
  lemma CoveredByFirst(s: string, i: nat, p: nat)
    requires i <= p < |s| && MatchAt(s, i).Some? && p < MatchAt(s, i).value
    ensures Covers(s, i, 0, p)
  {
  }

  /** After a match at `i`, the spans found from its end follow the first span. */
  lemma CoveredAfterMatch(s: string, i: nat, j: nat, p: nat)
    requires i < |s| && MatchAt(s, i).Some? && Covers(s, MatchAt(s, i).value, j, p)
    ensures Covers(s, i, j + 1, p)
  {
    var sp := SpansFrom(s, i);
    var rest := SpansFrom(s, MatchAt(s, i).value);
    assert sp == [Span(i, MatchAt(s, i).value)] + rest;
    assert sp[j + 1] == rest[j];
  }

  /** Where no match starts at `i`, the spans found from `i` are those found from `i + 1`. */
  lemma CoveredAfterSkip(s: string, i: nat, j: nat, p: nat)
    requires i < |s| && MatchAt(s, i).None? && Covers(s, i + 1, j, p)
    ensures Covers(s, i, j, p)
  {
  }

  /** The index of the span found from `i` that covers `p`, a position where a match starts. */
  lemma {:induction false} CoveringSpan(s: string, i: nat, p: nat) returns (k: nat)
    requires i <= p < |s| && MatchAt(s, p).Some?
    ensures Covers(s, i, k, p)
    decreases |s| - i
  {
    var m := MatchAt(s, i);
    if m.Some? && p < m.value {
      CoveredByFirst(s, i, p);
      k := 0;
    } else if m.Some? {
      var j := CoveringSpan(s, m.value, p);
      CoveredAfterMatch(s, i, j, p);
      k := j + 1;
    } else {
      var j := CoveringSpan(s, i + 1, p);
      CoveredAfterSkip(s, i, j, p);
      k := j;
    }
  }

  /** Every position from `i` on where a match starts lies inside a span found from `i`. */
  lemma SpansFromComplete(s: string, i: nat, p: nat)
    requires i <= p < |s| && MatchAt(s, p).Some?
    ensures exists k :: 0 <= k < |SpansFrom(s, i)| && SpansFrom(s, i)[k].start <= p < SpansFrom(s, i)[k].end
  {
    var k := CoveringSpan(s, i, p);
    assert Covers(s, i, k, p);
  }

  function Spans(s: string): seq<Span> {
    SpansFrom(s, 0)
  }

  /** `url_regex.findall(s)`: the matched URLs, in text order. */
  function Urls(s: string): (urls: seq<string>)
    ensures |urls| == |Spans(s)|
    ensures forall k :: 0 <= k < |urls| ==> IsUrl(urls[k])
  {
    var sp := Spans(s);
    assert forall k :: 0 <= k < |sp| ==> IsUrl(s[sp[k].start..sp[k].end]) by {
      forall k | 0 <= k < |sp|
        ensures IsUrl(s[sp[k].start..sp[k].end])
      {
        MatchAtIsMaximalUrl(s, sp[k].start, sp[k].end);
      }
    }
    seq(|sp|, k requires 0 <= k < |sp| => s[sp[k].start..sp[k].end])
  }

  /**
   * Every URL found is a scheme followed by URL characters, and is maximal: the text ends
   * after it or goes on with a character outside the class. The URLs do not overlap and
   * come in text order.
   */
  lemma FoundUrlsAreMaximal(s: string)
    ensures |Urls(s)| == |Spans(s)|
    ensures forall k :: 0 <= k < |Urls(s)| ==>
              && Urls(s)[k] == s[Spans(s)[k].start..Spans(s)[k].end]
              && IsUrl(Urls(s)[k]) && (Spans(s)[k].end == |s| || !IsUrlChar(s[Spans(s)[k].end]))
    ensures forall k :: 0 <= k < |Urls(s)| - 1 ==> Spans(s)[k].end <= Spans(s)[k + 1].start
  {
    var sp := Spans(s);
    forall k | 0 <= k < |sp|
      ensures IsUrl(Urls(s)[k]) && (sp[k].end == |s| || !IsUrlChar(s[sp[k].end]))
    {
      MatchAtIsMaximalUrl(s, sp[k].start, sp[k].end);
    }
  }

  /** Nothing is skipped: every URL-shaped substring starts inside one of the URLs found. */
  lemma EveryUrlIsFound(s: string)
    ensures forall i, e :: 0 <= i <= e <= |s| && IsUrl(s[i..e]) ==>
              exists k :: 0 <= k < |Spans(s)| && Spans(s)[k].start <= i < Spans(s)[k].end
  {
    forall i, e | 0 <= i <= e <= |s| && IsUrl(s[i..e])
      ensures exists k :: 0 <= k < |Spans(s)| && Spans(s)[k].start <= i < Spans(s)[k].end
    {
      UrlStartsMatch(s, i, e);
      SpansFromComplete(s, 0, i);
      assert Spans(s) == SpansFrom(s, 0);
    }
  }

  /** `findall` finds nothing exactly when no substring is URL-shaped. */
  lemma NoUrlsIffNoUrlShape(s: string)
    ensures Urls(s) == [] <==> forall i, e :: 0 <= i <= e <= |s| ==> !IsUrl(s[i..e])
  {
    EveryUrlIsFound(s);
    if Urls(s) != [] {
      FoundUrlsAreMaximal(s);
      var sp := Spans(s);
      assert IsUrl(s[sp[0].start..sp[0].end]);
    }
  }
}

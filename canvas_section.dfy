/**
 * The section widget's text logic: `renderTextWithLinks`, which splits the
 * entered text on the URL pattern `(https?:\/\/[^\s]+)` and renders every
 * URL as a link, and the "has a value" test that picks between the rendered
 * text and the "No entry provided." placeholder when printing.
 */
module CanvasSection {
  import opened Wrappers
  import opened JsText
  import opened Types
  import opened Constants

  // ----- The URL pattern -----------------------------------------------------

  /** A whole string matched by `https?:\/\/[^\s]+`: a scheme prefix followed by a non-empty run without whitespace. */
  predicate IsUrl(u: string) {
    || (|u| > 8 && u[..8] == "https://" && NoWs(u[8..]))
    || (|u| > 7 && u[..7] == "http://" && NoWs(u[7..]))
  }

  /** A URL contains no whitespace at all: the scheme prefixes have none. */
  lemma UrlHasNoWs(u: string)
    requires IsUrl(u)
    ensures NoWs(u)
  {
    if |u| > 8 && u[..8] == "https://" && NoWs(u[8..]) {
      forall i | 0 <= i < |u| ensures !IsWs(u[i]) {
        if i < 8 { assert u[i] == u[..8][i]; } else { assert u[i] == u[8..][i - 8]; }
      }
    } else {
      forall i | 0 <= i < |u| ensures !IsWs(u[i]) {
        if i < 7 { assert u[i] == u[..7][i]; } else { assert u[i] == u[7..][i - 7]; }
      }
    }
  }

  /** The length of the scheme (`https://` tried first, as the greedy `s?` does) starting at `i`, or 0. */
  function SchemeAt(s: string, i: nat): (n: nat)
    requires i <= |s|
    ensures n == 0 || n == 7 || n == 8
    ensures n == 8 ==> i + 8 <= |s| && s[i..i + 8] == "https://"
    ensures n == 7 ==> i + 7 <= |s| && s[i..i + 7] == "http://"
  {
    if i + 8 <= |s| && s[i..i + 8] == "https://" then 8
    else if i + 7 <= |s| && s[i..i + 7] == "http://" then 7
    else 0
  }

  /** The end of the run of non-whitespace characters that starts at `j`. */
  function RunEnd(s: string, j: nat): (e: nat)
    requires j <= |s|
    ensures j <= e <= |s|
    ensures NoWs(s[j..e])
    ensures e == |s| || IsWs(s[e])
    decreases |s| - j
  {
    if j == |s| || IsWs(s[j]) then j
    else
      var e := RunEnd(s, j + 1);
      assert s[j..e] == [s[j]] + s[j + 1..e];
      e
  }

  /**
   * A sticky match of the URL pattern at position `i` of `s`, as the regular
   * expression engine finds it: the end of the longest URL starting at `i`.
   */
  function MatchAt(s: string, i: nat): (m: Option<nat>)
    requires i <= |s|
    ensures m.Some? ==> i < m.value <= |s| && IsUrl(s[i..m.value])
    ensures m.Some? ==> m.value == |s| || IsWs(s[m.value])
  {
    var n := SchemeAt(s, i);
    if n > 0 && i + n < |s| && !IsWs(s[i + n]) then
      var e := RunEnd(s, i + n);
      assert s[i..e][..n] == s[i..i + n];
      assert s[i..e][n..] == s[i + n..e];
      Some(e)
    else None
  }

  /** Every URL starting at `i` is found by the match at `i`: the engine misses none. */
  lemma UrlMatches(s: string, i: nat, e: nat)
    requires i < e <= |s| && IsUrl(s[i..e])
    ensures MatchAt(s, i).Some?
  {
    var u := s[i..e];
    if |u| > 8 && u[..8] == "https://" && NoWs(u[8..]) {
      assert s[i..i + 8] == u[..8];
      assert s[i + 8] == u[8..][0];
    } else {
      assert s[i..i + 7] == u[..7];
      assert s[i + 7] == u[7..][0];
      if i + 8 <= |s| { assert s[i..i + 8][4] == u[..7][4]; }
    }
  }

  /** A string with whitespace past its scheme prefix is not a URL. */
  lemma WsBreaksUrl(u: string, k: nat)
    requires 7 <= k < |u| && IsWs(u[k])
    ensures !IsUrl(u)
  {
    if k == 7 {
      if |u| > 8 { assert u[..8][7] == u[7]; }
    } else {
      assert u[8..][k - 8] == u[k];
    }
    assert u[7..][k - 7] == u[k];
  }

  /** The match found at `i` is the longest URL starting there. */
  lemma MatchIsLongest(s: string, i: nat, e: nat)
    requires i <= |s| && MatchAt(s, i).Some? && MatchAt(s, i).value < e <= |s|
    ensures !IsUrl(s[i..e])
  {
    var m := MatchAt(s, i).value;
    assert s[i..e][m - i] == s[m];
    WsBreaksUrl(s[i..e], m - i);
  }

  /** A match never starts on whitespace. */
  lemma NoMatchAtWs(s: string, i: nat)
    requires i < |s| && IsWs(s[i])
    ensures MatchAt(s, i).None?
  {
    if i + 8 <= |s| { assert s[i..i + 8][0] == s[i]; }
    if i + 7 <= |s| { assert s[i..i + 7][0] == s[i]; }
  }

  /** `part.match(urlRegex)` is non-null: some position of `part` starts a URL match. */
  predicate ContainsUrl(part: string) {
    exists j | 0 <= j < |part| :: MatchAt(part, j).Some?
  }

  /** `ContainsUrl` holds exactly when some substring of `part` is a URL. */
  lemma ContainsUrlIff(part: string)
    ensures ContainsUrl(part) <==> exists j, e | 0 <= j < e <= |part| :: IsUrl(part[j..e])
  {
    if ContainsUrl(part) {
      var j :| 0 <= j < |part| && MatchAt(part, j).Some?;
      var e := MatchAt(part, j).value;
      assert IsUrl(part[j..e]);
    }
    if exists j, e | 0 <= j < e <= |part| :: IsUrl(part[j..e]) {
      var j, e :| 0 <= j < e <= |part| && IsUrl(part[j..e]);
      UrlMatches(part, j, e);
    }
  }

  /** Every URL is recognised by `part.match`. */
  lemma UrlContainsUrl(u: string)
    requires IsUrl(u)
    ensures ContainsUrl(u)
  {
    assert u[0..|u|] == u;
    UrlMatches(u, 0, |u|);
  }

  /** A match inside a piece of `s` is a URL of `s` too, so `s` has a match at the same place. */
  lemma SubMatch(s: string, lo: nat, hi: nat, j: nat)
    requires lo <= hi <= |s| && j < hi - lo
    ensures MatchAt(s[lo..hi], j).Some? ==> MatchAt(s, lo + j).Some?
  {
    var t := s[lo..hi];
    var m := MatchAt(t, j);
    if m.Some? {
      var e := m.value;
      assert j < e <= |t| == hi - lo;
      forall k | 0 <= k < e - j ensures t[j..e][k] == s[lo + j..lo + e][k] {
        assert t[j..e][k] == t[j + k] == s[lo + j + k];
      }
      assert t[j..e] == s[lo + j..lo + e];
      UrlMatches(s, lo + j, lo + m.value);
    }
  }

  // ----- String.prototype.split with a capturing pattern ----------------------

  /** No URL match starts at any position in `[lo, hi)` of `s`. */
  predicate NoMatchIn(s: string, lo: nat, hi: nat)
    requires lo <= hi <= |s|
  {
    forall j | lo <= j < hi :: MatchAt(s, j).None?
  }

  /**
   * The loop of `String.prototype.split` for a regular expression: the piece
   * in progress starts at `p`, and a sticky match is tried at `q`. No match
   * moves `q` one on; a match ending at `e` emits the piece `s[p..q]` and the
   * captured URL and restarts at `e`. The rest of the string is the last piece.
   */
  function SplitFrom(s: string, p: nat, q: nat): (parts: seq<string>)
    requires p <= q <= |s|
    ensures |parts| % 2 == 1
    decreases |s| - q
  {
    if q == |s| then [s[p..]]
    else match MatchAt(s, q)
      case None => SplitFrom(s, p, q + 1)
      case Some(e) => [s[p..q], s[q..e]] + SplitFrom(s, e, e)
  }

  /** `text.split(urlRegex)`. */
  function Split(text: string): seq<string> {
    SplitFrom(text, 0, 0)
  }

  /** The pieces, joined back, give the text from `p` on: the split loses and adds nothing. */
  lemma {:induction false} SplitFromConcat(s: string, p: nat, q: nat)
    requires p <= q <= |s|
    ensures Concat(SplitFrom(s, p, q)) == s[p..]
    decreases |s| - q, 1
  {
    if q == |s| {
      assert Concat([s[p..]]) == s[p..] + Concat([]);
    } else {
      match MatchAt(s, q)
      case None => SplitFromConcat(s, p, q + 1);
      case Some(e) => ConcatAtMatch(s, p, q, e);
    }
  }

  /** `SplitFromConcat` when a match is found at `q`, ending at `e`. */
  lemma {:induction false} ConcatAtMatch(s: string, p: nat, q: nat, e: nat)
    requires p <= q < |s| && MatchAt(s, q) == Some(e)
    ensures Concat(SplitFrom(s, p, q)) == s[p..]
    decreases |s| - q, 0
  {
    var rest := SplitFrom(s, e, e);
    calc {
      Concat(SplitFrom(s, p, q));
      { assert SplitFrom(s, p, q) == [s[p..q], s[q..e]] + rest; }
      Concat([s[p..q], s[q..e]] + rest);
      { ConcatPair(s[p..q], s[q..e], rest); }
      s[p..q] + (s[q..e] + Concat(rest));
      { SplitFromConcat(s, e, e); }
      s[p..q] + (s[q..e] + s[e..]);
      { SliceJoin(s, q, e); }
      s[p..q] + s[q..];
      { SliceJoin(s, p, q); }
      s[p..];
    }
  }

  /** The first position at or after `q` where a match starts, or the end of `s` when there is none. */
  function NextMatch(s: string, q: nat): (n: nat)
    requires q <= |s|
    ensures q <= n <= |s| && NoMatchIn(s, q, n)
    ensures n == |s| || MatchAt(s, n).Some?
    decreases |s| - q
  {
    if q == |s| || MatchAt(s, q).Some? then q else NextMatch(s, q + 1)
  }

  /** The first piece is the text from `p` up to the first match at or after `q` (or to the end). */
  lemma {:induction false} SplitFromHead(s: string, p: nat, q: nat)
    requires p <= q <= |s|
    ensures SplitFrom(s, p, q)[0] == s[p..NextMatch(s, q)]
    decreases |s| - q
  {
    var parts := SplitFrom(s, p, q);
    if q == |s| {
      assert parts[0] == s[p..];
    } else {
      match MatchAt(s, q)
      case None =>
        assert parts == SplitFrom(s, p, q + 1);
        SplitFromHead(s, p, q + 1);
      case Some(e) =>
        assert parts[0] == s[p..q];
    }
  }

  /** Pieces at odd positions are URLs and pieces at even positions contain no URL. */
  predicate Alternates(parts: seq<string>) {
    forall i | 0 <= i < |parts| :: if i % 2 == 1 then IsUrl(parts[i]) else !ContainsUrl(parts[i])
  }

  /**
   * The split of `s` from `p` alternates plain text and URLs (provided no
   * match starts in `[p, q)`, which the loop has already tried).
   */
  lemma {:induction false} SplitFromAlternates(s: string, p: nat, q: nat)
    requires p <= q <= |s| && NoMatchIn(s, p, q)
    ensures Alternates(SplitFrom(s, p, q))
    decreases |s| - q, 1
  {
    if q == |s| {
      assert s[p..] == s[p..q];
      PlainHasNoUrl(s, p, q);
    } else {
      match MatchAt(s, q)
      case None =>
        assert NoMatchIn(s, p, q + 1);
        SplitFromAlternates(s, p, q + 1);
      case Some(e) =>
        AlternatesAtMatch(s, p, q, e);
    }
  }

  /** `SplitFromAlternates` when a match is found at `q`, ending at `e`. */
  lemma {:induction false} AlternatesAtMatch(s: string, p: nat, q: nat, e: nat)
    requires p <= q < |s| && NoMatchIn(s, p, q) && MatchAt(s, q) == Some(e)
    ensures Alternates(SplitFrom(s, p, q))
    decreases |s| - q, 0
  {
    var parts := SplitFrom(s, p, q);
    var rest := SplitFrom(s, e, e);
    assert parts == [s[p..q], s[q..e]] + rest;
    PlainHasNoUrl(s, p, q);
    SplitFromAlternates(s, e, e);
    forall i | 0 <= i < |parts|
      ensures if i % 2 == 1 then IsUrl(parts[i]) else !ContainsUrl(parts[i])
    {
      if i >= 2 { assert parts[i] == rest[i - 2]; }
    }
  }

  /** A stretch of `s` in which no match starts contains no URL of its own. */
  lemma PlainHasNoUrl(s: string, lo: nat, hi: nat)
    requires lo <= hi <= |s| && NoMatchIn(s, lo, hi)
    ensures !ContainsUrl(s[lo..hi])
  {
    forall j | 0 <= j < hi - lo ensures MatchAt(s[lo..hi], j).None? {
      SubMatch(s, lo, hi, j);
    }
  }

  /**
   * The piece after a match: the match ends at the end of the text or before
   * whitespace, so that piece is either the empty last one or starts with
   * that whitespace.
   */
  lemma AfterMatch(s: string, e: nat)
    requires e <= |s| && (e == |s| || IsWs(s[e]))
    ensures SplitFrom(s, e, e)[0] == [] ==> |SplitFrom(s, e, e)| == 1
    ensures SplitFrom(s, e, e)[0] != [] ==> IsWs(SplitFrom(s, e, e)[0][0])
  {
    if e < |s| {
      var parts := SplitFrom(s, e, e);
      assert parts == SplitFrom(s, e, e + 1) by { NoMatchAtWs(s, e); }
      assert |parts[0]| >= 1 && parts[0][0] == s[e] by {
        SplitFromHead(s, e, e + 1);
        var n := NextMatch(s, e + 1);
        assert parts[0] == s[e..n] && e + 1 <= n;
      }
    }
  }

  /**
   * Links are maximal: each piece after a URL (every even piece but the
   * first) starts with whitespace, or is the empty last piece because the URL
   * ended the text.
   */
  lemma {:induction false} SplitFromMaximal(s: string, p: nat, q: nat)
    requires p <= q <= |s|
    ensures forall i | 0 < i < |SplitFrom(s, p, q)| && i % 2 == 0 ::
      && (SplitFrom(s, p, q)[i] == [] ==> i == |SplitFrom(s, p, q)| - 1)
      && (SplitFrom(s, p, q)[i] != [] ==> IsWs(SplitFrom(s, p, q)[i][0]))
    decreases |s| - q
  {
    var parts := SplitFrom(s, p, q);
    if q < |s| {
      match MatchAt(s, q)
      case None =>
        SplitFromMaximal(s, p, q + 1);
      case Some(e) =>
        var rest := SplitFrom(s, e, e);
        SplitFromMaximal(s, e, e);
        AfterMatch(s, e);
        assert parts == [s[p..q], s[q..e]] + rest;
        forall i | 0 < i < |parts| && i % 2 == 0
          ensures parts[i] == [] ==> i == |parts| - 1
          ensures parts[i] != [] ==> IsWs(parts[i][0])
        {
          assert parts[i] == rest[i - 2];
        }
    }
  }

  // ----- renderTextWithLinks ---------------------------------------------------

  /** One rendered piece: plain text, or an anchor with its target and its visible text. */
  datatype Segment = Plain(text: string) | Link(href: string, content: string)

  /** The text a segment shows. */
  function Shown(seg: Segment): string {
    match seg
    case Plain(t) => t
    case Link(_, content) => content
  }

  /** The texts all segments show, in order. */
  function ShownText(segs: seq<Segment>): string {
    if segs == [] then [] else Shown(segs[0]) + ShownText(segs[1..])
  }

  /** The mapping callback: a piece the pattern matches becomes an anchor to itself, any other stays text. */
  function Tag(part: string): Segment {
    if ContainsUrl(part) then Link(part, part) else Plain(part)
  }

  /** `renderTextWithLinks(text)`: `null` for the empty text, else the split pieces, tagged. */
  function RenderTextWithLinks(text: string): Option<seq<Segment>> {
    if text == [] then None
    else
      var parts := Split(text);
      Some(seq(|parts|, i requires 0 <= i < |parts| => Tag(parts[i])))
  }

  /** Tagging keeps every piece's text. */
  lemma {:induction false} ShownTags(parts: seq<string>)
    ensures ShownText(seq(|parts|, i requires 0 <= i < |parts| => Tag(parts[i]))) == Concat(parts)
  {
    var segs := seq(|parts|, i requires 0 <= i < |parts| => Tag(parts[i]));
    if parts != [] {
      var tail := seq(|parts| - 1, i requires 0 <= i < |parts| - 1 => Tag(parts[1..][i]));
      assert segs[1..] == tail;
      ShownTags(parts[1..]);
    }
  }

  /**
   * What the rendered text promises: nothing for empty text; otherwise the
   * segments show the text back exactly, alternate plain/link starting and
   * ending with plain text (2k+1 segments for k links), each link points at
   * the URL it shows, and no plain segment holds a URL.
   */
  lemma RenderSpec(text: string)
    ensures RenderTextWithLinks(text).None? <==> text == []
    ensures RenderTextWithLinks(text).Some? ==>
      var segs := RenderTextWithLinks(text).value;
      && ShownText(segs) == text
      && |segs| % 2 == 1
      && (forall i | 0 <= i < |segs| :: segs[i].Link? <==> i % 2 == 1)
      && (forall i | 0 <= i < |segs| && segs[i].Link? ::
            segs[i].href == segs[i].content && IsUrl(segs[i].content))
      && (forall i | 0 <= i < |segs| && segs[i].Plain? :: !ContainsUrl(segs[i].text))
  {
    if text != [] {
      var parts := Split(text);
      var segs := RenderTextWithLinks(text).value;
      ShownTags(parts);
      SplitFromConcat(text, 0, 0);
      assert text[0..] == text;
      SplitFromAlternates(text, 0, 0);
      forall i | 0 <= i < |segs| ensures segs[i].Link? <==> i % 2 == 1 {
        if i % 2 == 1 { UrlContainsUrl(parts[i]); }
      }
    }
  }

  /**
   * Each link is followed in the text by whitespace or by the end of the text:
   * every plain segment after the first starts with whitespace, or is the
   * empty last segment.
   */
  lemma RenderLinksMaximal(text: string)
    requires text != []
    ensures var segs := RenderTextWithLinks(text).value;
      forall i | 0 < i < |segs| && i % 2 == 0 ::
        && segs[i].Plain?
        && (segs[i].text == [] ==> i == |segs| - 1)
        && (segs[i].text != [] ==> IsWs(segs[i].text[0]))
  {
    var parts := Split(text);
    var segs := RenderTextWithLinks(text).value;
    SplitFromMaximal(text, 0, 0);
    SplitFromAlternates(text, 0, 0);
    forall i | 0 < i < |segs| && i % 2 == 0
      ensures segs[i].Plain? && segs[i].text == parts[i]
    {
      assert segs[i] == Tag(parts[i]);
    }
  }

  // ----- hasValue and the printed body ----------------------------------------

  /** `value.trim().length > 0`. */
  predicate HasValue(value: string) {
    |Trim(value)| > 0
  }

  /** A value counts as entered exactly when it holds a non-whitespace character. */
  lemma HasValueIff(value: string)
    ensures HasValue(value) <==> exists i | 0 <= i < |value| :: !IsWs(value[i])
  {
    TrimEmptyIff(value);
  }

  /** What the body of a section shows. */
  datatype Body =
    | Editor(value: string)         // the editable text area
    | Placeholder                   // "No entry provided."
    | Rendered(segs: seq<Segment>)  // the text with its links

  /** The section body: the text area on screen; when printing, the rendered text or the placeholder. */
  function SectionBody(value: string, isPrinting: bool): Body {
    if !isPrinting then Editor(value)
    else if HasValue(value) then Rendered(RenderTextWithLinks(value).value)
    else Placeholder
  }

  /** When printing, the placeholder appears exactly for blank values, and otherwise the value is shown back in full. */
  lemma SectionBodyPrinting(value: string)
    ensures SectionBody(value, true).Placeholder? <==> forall i | 0 <= i < |value| :: IsWs(value[i])
    ensures SectionBody(value, true).Rendered? ==> ShownText(SectionBody(value, true).segs) == value
    ensures SectionBody(value, false) == Editor(value)
  {
    HasValueIff(value);
    RenderSpec(value);
  }

  /** `metadata.subtext && ...`: the helper line shows when the subtext is present and non-empty. */
  predicate ShowsSubtext(metadata: SectionMetadata) {
    metadata.subtext.Some? && metadata.subtext.value != ""
  }

  /** Every entry of the section table shows its helper line. */
  lemma TableShowsSubtexts()
    ensures forall i | 0 <= i < |CanvasSections| :: ShowsSubtext(CanvasSections[i])
  {
    SubtextsPresent();
  }
}

/** crates/runtime: finding the URLs in a text and masking each of them. */
module RedactionSpans {
  import opened Text
  import opened Redaction

  predicate IsSchemeChar(c: char) {
    IsAsciiAlphanumeric(c) || c == '+' || c == '-' || c == '.'
  }

  /** White space, or one of the characters that wrap a URL in a text. */
  predicate IsDelimiter(c: char) {
    || IsWhitespace(c)
    || c == '"' || c == '\'' || c == '<' || c == '>' || c == '(' || c == ')' || c == '[' || c == ']'
    || c == '{' || c == '}' || c == '|' || c == '\\' || c == '^' || c == '`'
  }

  predicate IsPunctuation(c: char) {
    c == '.' || c == ','
  }

  /** Walk back over the characters a scheme may have, but not past `lo`. */
  function SchemeStart(s: string, lo: nat, sep: nat): (i: nat)
    requires lo <= sep <= |s|
    ensures lo <= i <= sep && (forall k :: i <= k < sep ==> IsSchemeChar(s[k])) && (i > lo ==> !IsSchemeChar(s[i - 1]))
  {
    if sep == lo || !IsSchemeChar(s[sep - 1]) then sep else SchemeStart(s, lo, sep - 1)
  }

  /** The first delimiter from `i` on, or the length when there is none. */
  function DelimiterFrom(s: string, i: nat): (r: nat)
    requires i <= |s|
    ensures i <= r <= |s| && (r < |s| ==> IsDelimiter(s[r])) && forall k :: i <= k < r ==> !IsDelimiter(s[k])
    decreases |s| - i
  {
    if i == |s| || IsDelimiter(s[i]) then i else DelimiterFrom(s, i + 1)
  }

  /** `trim_end_matches`: where the punctuation at the end of `s[lo..i]` begins. */
  function TrimEndFrom(s: string, lo: nat, i: nat): (r: nat)
    requires lo <= i <= |s|
    ensures lo <= r <= i && (r > lo ==> !IsPunctuation(s[r - 1])) && forall k :: r <= k < i ==> IsPunctuation(s[k])
  {
    if i == lo || !IsPunctuation(s[i - 1]) then i else TrimEndFrom(s, lo, i - 1)
  }

  /** A text as a run of pieces: those that are URLs and those that are not. */
  datatype Piece = Plain(text: string) | Url(text: string)

  function Flatten(pieces: seq<Piece>): string {
    if pieces == [] then "" else pieces[0].text + Flatten(pieces[1..])
  }

  function MaskPiece(piece: Piece, mask: string -> string): Piece {
    match piece
    case Plain(_) => piece
    case Url(url) => Url(mask(url))
  }

  function MaskAll(pieces: seq<Piece>, mask: string -> string): seq<Piece> {
    seq(|pieces|, i requires 0 <= i < |pieces| => MaskPiece(pieces[i], mask))
  }

  /** Where the first URL of a text begins and ends, without and with the punctuation after it. */
  datatype Span = Span(start: nat, trimmed: nat, end: nat)

  /** The same for the text from `lo` on, whose first separator is at `sep`. */
  predicate IsSpanFrom(s: string, lo: nat, sep: nat, span: Span) {
    && lo <= span.start <= sep && sep + 3 <= span.trimmed <= span.end <= |s|
    && (forall k :: span.start <= k < sep ==> IsSchemeChar(s[k]))
    && (span.start > lo ==> !IsSchemeChar(s[span.start - 1]))
    && (forall k :: span.start <= k < span.end ==> !IsDelimiter(s[k]))
    && (span.end < |s| ==> IsDelimiter(s[span.end]))
    && !IsPunctuation(s[span.trimmed - 1])
    && (forall k :: span.trimmed <= k < span.end ==> IsPunctuation(s[k]))
  }

  predicate IsSpan(s: string, span: Span) {
    IsSpanFrom(s, 0, FindSeparator(s), span)
  }

  function NextSpan(s: string): (span: Span)
    requires FindSeparator(s) < |s|
    ensures IsSpan(s, span)
  {
    var sep := FindSeparator(s);
    var start := SchemeStart(s, 0, sep);
    var end := DelimiterFrom(s, start);
    assert SeparatorAt(s, sep) && end >= sep + 3;
    Span(start, TrimEndFrom(s, start, end), end)
  }

  lemma SpanIsUnique(s: string, a: Span, b: Span)
    requires FindSeparator(s) < |s| && IsSpan(s, a) && IsSpan(s, b)
    ensures a == b
  {
  }

  /** The text of a URL runs to the first delimiter, less the punctuation at the end. */
  predicate IsUrlText(url: string) {
    url != "" && !IsPunctuation(url[|url| - 1]) && forall c :: c in url ==> !IsDelimiter(c)
  }

  predicate IsTrailer(trailer: string) {
    forall c :: c in trailer ==> IsPunctuation(c)
  }

  /** A text taken apart at its first URL: the rest begins with the delimiter that ends the URL. */
  datatype Head = Head(before: string, url: string, trailer: string, rest: string) {
    function Whole(): string {
      before + url + trailer + rest
    }

    function Position(): Span {
      Span(|before|, |before| + |url|, |before| + |url| + |trailer|)
    }

    predicate Valid() {
      var i := FindSeparator(url);
      && i < |url| && FindSeparator(Whole()) == |before| + i
      && (forall k :: 0 <= k < i ==> IsSchemeChar(url[k]))
      && (before != "" ==> !IsSchemeChar(before[|before| - 1]))
      && IsUrlText(url) && IsTrailer(trailer)
      && (rest != "" ==> IsDelimiter(rest[0]))
    }
  }

  function HeadAt(s: string, span: Span): Head
    requires span.start <= span.trimmed <= span.end <= |s|
  {
    Head(s[..span.start], s[span.start..span.trimmed], s[span.trimmed..span.end], s[span.end..])
  }

  function TakeHead(s: string): (h: Head)
    requires FindSeparator(s) < |s|
    ensures |h.rest| < |s|
  {
    HeadAt(s, NextSpan(s))
  }

  lemma FourSlices(s: string, a: nat, b: nat, c: nat)
    requires a <= b <= c <= |s|
    ensures s[..a] + s[a..b] + s[b..c] + s[c..] == s
  {
  }

  lemma HeadIsWhole(s: string)
    requires FindSeparator(s) < |s|
    ensures TakeHead(s).Whole() == s
  {
    var span := NextSpan(s);
    FourSlices(s, span.start, span.trimmed, span.end);
  }

  lemma FirstSeparatorIs(s: string, i: nat)
    requires SeparatorAt(s, i) && forall k :: 0 <= k < i ==> !SeparatorAt(s, k)
    ensures FindSeparator(s) == i
  {
  }

  /** A part of a text that holds its first separator. */
  lemma SeparatorOfPart(s: string, lo: nat, hi: nat)
    requires lo <= FindSeparator(s) && FindSeparator(s) + 3 <= hi <= |s|
    ensures FindSeparator(s[lo..hi]) == FindSeparator(s) - lo
  {
    var part, i := s[lo..hi], FindSeparator(s) - lo;
    assert SeparatorAt(s, FindSeparator(s));
    assert forall k :: 0 <= k < i && SeparatorAt(part, k) ==> SeparatorAt(s, lo + k);
    FirstSeparatorIs(part, i);
  }

  lemma SpanTexts(s: string, span: Span)
    requires FindSeparator(s) < |s| && IsSpan(s, span)
    ensures IsUrlText(s[span.start..span.trimmed]) && IsTrailer(s[span.trimmed..span.end])
  {
  }

  lemma HeadIsValid(s: string)
    requires FindSeparator(s) < |s|
    ensures TakeHead(s).Valid()
  {
    var h, span, sep := TakeHead(s), NextSpan(s), FindSeparator(s);
    HeadIsWhole(s);
    SeparatorOfPart(s, span.start, span.trimmed);
    SpanTexts(s, span);
    forall k | 0 <= k < sep - span.start ensures IsSchemeChar(h.url[k]) {
      assert h.url[k] == s[span.start + k];
    }
    assert span.start > 0 ==> h.before[span.start - 1] == s[span.start - 1];
  }

  /** The characters of the whole, part by part. */
  lemma WholeAt(h: Head)
    ensures var s, p := h.Whole(), h.Position();
            && |s| == p.end + |h.rest|
            && (forall k :: 0 <= k < p.start ==> s[k] == h.before[k])
            && (forall k :: p.start <= k < p.trimmed ==> s[k] == h.url[k - p.start])
            && (forall k :: p.trimmed <= k < p.end ==> s[k] == h.trailer[k - p.trimmed])
            && (forall k :: p.end <= k < |s| ==> s[k] == h.rest[k - p.end])
  {
  }

  lemma WholeParts(h: Head)
    ensures var s, p := h.Whole(), h.Position();
            && |s| == p.end + |h.rest|
            && s[..p.start] == h.before && s[p.start..p.trimmed] == h.url
            && s[p.trimmed..p.end] == h.trailer && s[p.end..] == h.rest
  {
  }

  lemma HeadIsSpan(h: Head)
    requires h.Valid()
    ensures FindSeparator(h.Whole()) < |h.Whole()| && IsSpan(h.Whole(), h.Position())
  {
    WholeAt(h);
    var s, p := h.Whole(), h.Position();
    forall k | p.start <= k < p.end ensures !IsDelimiter(s[k]) {
      if k < p.trimmed {
        assert h.url[k - p.start] in h.url;
      } else {
        assert h.trailer[k - p.trimmed] in h.trailer;
      }
    }
    forall k | p.trimmed <= k < p.end ensures IsPunctuation(s[k]) {
      assert h.trailer[k - p.trimmed] in h.trailer;
    }
    assert SeparatorAt(h.url, FindSeparator(h.url));
  }

  /** Parts that a text could be taken apart into are those it is taken apart into. */
  lemma HeadIsTaken(h: Head)
    requires h.Valid()
    ensures FindSeparator(h.Whole()) < |h.Whole()| && TakeHead(h.Whole()) == h
  {
    HeadIsSpan(h);
    WholeParts(h);
    SpanIsUnique(h.Whole(), NextSpan(h.Whole()), h.Position());
  }

  function Pieces(s: string): seq<Piece>
    decreases |s|
  {
    if FindSeparator(s) == |s| then [Plain(s)]
    else
      var h := TakeHead(s);
      [Plain(h.before), Url(h.url), Plain(h.trailer)] + Pieces(h.rest)
  }

  /** A text with all its URLs masked in some way. */
  function Rewritten(s: string, mask: string -> string): string {
    Flatten(MaskAll(Pieces(s), mask))
  }

  function Redacted(s: string): string {
    Rewritten(s, RedactSingleUrl)
  }

  predicate SameStart(a: string, b: string) {
    if a == "" then b == "" else b != "" && b[0] == a[0]
  }

  /** Changing a text after its first separator leaves that separator the first. */
  lemma SeparatorStays(s: string, t: string)
    requires FindSeparator(s) < |s| && s[..FindSeparator(s) + 3] <= t
    ensures FindSeparator(t) == FindSeparator(s)
  {
    var i := FindSeparator(s);
    SchemeOf(s);
    SchemeStays(s[..i + 3], t[i + 3..]);
    assert s[..i + 3] + t[i + 3..] == t;
  }

  lemma HeadUrlIsUrl(h: Head)
    requires h.Valid()
    ensures IsUrl(h.url)
  {
  }

  /** What masking a URL keeps: its scheme, and nothing else comes in but ink. */
  predicate MasksUrl(url: string, masked: string) {
    FindSeparator(url) < |url| && url[..FindSeparator(url) + 3] <= masked && Tame(url, masked)
  }

  lemma InkIsInside(url: string, masked: string)
    requires Tame(url, masked) && IsUrlText(url)
    ensures IsUrlText(masked)
  {
  }

  lemma SchemeCharsStay(url: string, masked: string, i: nat)
    requires i <= |url| && url[..i] <= masked && forall k :: 0 <= k < i ==> IsSchemeChar(url[k])
    ensures forall k :: 0 <= k < i ==> IsSchemeChar(masked[k])
  {
  }

  /** The first URL is where it was, once it and the rest have been masked. */
  lemma HeadStaysValid(h: Head, masked: string, rest: string)
    requires h.Valid() && MasksUrl(h.url, masked) && SameStart(h.rest, rest)
    ensures Head(h.before, masked, h.trailer, rest).Valid()
  {
    var i := FindSeparator(h.url);
    var h' := Head(h.before, masked, h.trailer, rest);
    SeparatorStays(h.url, masked);
    assert h.url[..i] == h.url[..i + 3][..i] <= masked;
    SchemeCharsStay(h.url, masked, i);
    InkIsInside(h.url, masked);
    WholeStarts(h, i + 3);
    WholeStarts(h', i + 3);
    assert masked[..i + 3] == h.url[..i + 3];
    SeparatorStays(h.Whole(), h'.Whole());
  }

  lemma WholeStarts(h: Head, n: nat)
    requires n <= |h.url|
    ensures |h.before| + n <= |h.Whole()| && h.Whole()[..|h.before| + n] == h.before + h.url[..n]
  {
  }

  // ---------------------------------------------------------------------------
  // The whole text
  // ---------------------------------------------------------------------------

  /** A way of masking URLs that keeps what tells a URL from its surroundings, and settles at once. */
  ghost predicate Settles(mask: string -> string) {
    forall url :: IsUrl(url) ==> MasksUrl(url, mask(url)) && mask(mask(url)) == mask(url)
  }

  function HeadPieces(h: Head): seq<Piece> {
    [Plain(h.before), Url(h.url), Plain(h.trailer)]
  }

  lemma FlattenCons(p: Piece, rest: seq<Piece>)
    ensures Flatten([p] + rest) == p.text + Flatten(rest)
  {
  }

  lemma FlattenHead(h: Head, rest: seq<Piece>)
    ensures Flatten(HeadPieces(h) + rest) == h.before + h.url + h.trailer + Flatten(rest)
  {
    FlattenCons(Plain(h.trailer), rest);
    FlattenCons(Url(h.url), [Plain(h.trailer)] + rest);
    FlattenCons(Plain(h.before), [Url(h.url)] + ([Plain(h.trailer)] + rest));
    assert [Plain(h.before)] + ([Url(h.url)] + ([Plain(h.trailer)] + rest)) == HeadPieces(h) + rest;
    assert h.before + (h.url + (h.trailer + Flatten(rest))) == h.before + h.url + h.trailer + Flatten(rest);
  }

  function MaskHead(h: Head, mask: string -> string): Head {
    Head(h.before, mask(h.url), h.trailer, Rewritten(h.rest, mask))
  }

  lemma MaskAllHead(h: Head, rest: seq<Piece>, mask: string -> string)
    ensures MaskAll(HeadPieces(h) + rest, mask) == HeadPieces(MaskHead(h, mask)) + MaskAll(rest, mask)
  {
  }

  /** A text with a URL, masked, in terms of its parts. */
  lemma RewrittenHead(s: string, mask: string -> string)
    requires FindSeparator(s) < |s|
    ensures Rewritten(s, mask) == MaskHead(TakeHead(s), mask).Whole()
  {
    var h := TakeHead(s);
    assert Pieces(s) == HeadPieces(h) + Pieces(h.rest);
    MaskAllHead(h, Pieces(h.rest), mask);
    FlattenHead(MaskHead(h, mask), MaskAll(Pieces(h.rest), mask));
  }

  lemma RewrittenPlain(s: string, mask: string -> string)
    requires FindSeparator(s) == |s|
    ensures Rewritten(s, mask) == s
  {
    FlattenCons(Plain(s), []);
    assert MaskAll(Pieces(s), mask) == [Plain(s)] + [];
  }

  lemma RewrittenStart(s: string, mask: string -> string)
    requires s != "" ==> IsDelimiter(s[0])
    ensures SameStart(s, Rewritten(s, mask))
  {
    if FindSeparator(s) == |s| {
      RewrittenPlain(s, mask);
    } else {
      RewrittenHead(s, mask);
      assert SeparatorAt(s, FindSeparator(s));
      assert NextSpan(s).start > 0;
      assert TakeHead(s).before[0] == s[0];
    }
  }

  /** The pieces of a text are the text: nothing is lost, added or moved. */
  lemma {:induction false} PiecesAreTheText(s: string)
    ensures Flatten(Pieces(s)) == s
    decreases |s|
  {
    if FindSeparator(s) == |s| {
      FlattenCons(Plain(s), []);
      assert Pieces(s) == [Plain(s)] + [];
    } else {
      var h := TakeHead(s);
      PiecesAreTheText(h.rest);
      FlattenHead(h, Pieces(h.rest));
      HeadIsWhole(s);
      assert Pieces(s) == HeadPieces(h) + Pieces(h.rest);
    }
  }

  /** Which pieces count as URLs: those with a separator, and each of them has a scheme before it, holds
      no delimiter and does not end in punctuation. */
  predicate WellSorted(p: Piece) {
    if p.Url? then IsUrl(p.text) && IsUrlText(p.text) else FindSeparator(p.text) == |p.text|
  }

  lemma NoSeparatorBefore(s: string, n: nat)
    requires n <= FindSeparator(s)
    ensures FindSeparator(s[..n]) == n
  {
    assert forall k :: 0 <= k < n && SeparatorAt(s[..n], k) ==> SeparatorAt(s, k);
  }

  lemma NoSeparatorInTrailer(trailer: string)
    requires IsTrailer(trailer)
    ensures FindSeparator(trailer) == |trailer|
  {
    assert forall k :: 0 <= k < |trailer| ==> trailer[k] in trailer;
  }

  lemma HeadIsSorted(s: string)
    requires FindSeparator(s) < |s|
    ensures forall p :: p in HeadPieces(TakeHead(s)) ==> WellSorted(p)
  {
    var h := TakeHead(s);
    HeadIsValid(s);
    HeadUrlIsUrl(h);
    NoSeparatorBefore(s, NextSpan(s).start);
    NoSeparatorInTrailer(h.trailer);
  }

  lemma {:induction false} PiecesAreSorted(s: string)
    ensures forall p :: p in Pieces(s) ==> WellSorted(p)
    decreases |s|
  {
    if FindSeparator(s) < |s| {
      var h := TakeHead(s);
      HeadIsSorted(s);
      PiecesAreSorted(h.rest);
      assert Pieces(s) == HeadPieces(h) + Pieces(h.rest);
    }
  }

  /** A masked text falls into the same pieces, the URLs masked: masking moves no boundary. */
  lemma {:induction false} MaskingMovesNoBoundary(s: string, mask: string -> string)
    requires Settles(mask)
    ensures Pieces(Rewritten(s, mask)) == MaskAll(Pieces(s), mask)
    decreases |s|
  {
    if FindSeparator(s) == |s| {
      RewrittenPlain(s, mask);
    } else {
      var h := TakeHead(s);
      HeadIsValid(s);
      RewrittenHead(s, mask);
      RewrittenStart(h.rest, mask);
      HeadUrlIsUrl(h);
      HeadStaysValid(h, mask(h.url), Rewritten(h.rest, mask));
      HeadIsTaken(MaskHead(h, mask));
      MaskingMovesNoBoundary(h.rest, mask);
      MaskAllHead(h, Pieces(h.rest), mask);
    }
  }

  lemma MaskAllTwice(pieces: seq<Piece>, mask: string -> string)
    requires Settles(mask) && forall p :: p in pieces ==> WellSorted(p)
    ensures MaskAll(MaskAll(pieces, mask), mask) == MaskAll(pieces, mask)
  {
    forall i | 0 <= i < |pieces| ensures MaskPiece(MaskPiece(pieces[i], mask), mask) == MaskPiece(pieces[i], mask) {
      assert WellSorted(pieces[i]);
    }
  }

  lemma RewritingTwice(s: string, mask: string -> string)
    requires Settles(mask)
    ensures Rewritten(Rewritten(s, mask), mask) == Rewritten(s, mask)
  {
    PiecesAreSorted(s);
    MaskingMovesNoBoundary(s, mask);
    MaskAllTwice(Pieces(s), mask);
  }

  lemma RedactSettles()
    ensures Settles(RedactSingleUrl)
  {
    forall url | IsUrl(url)
      ensures MasksUrl(url, RedactSingleUrl(url)) && RedactSingleUrl(RedactSingleUrl(url)) == RedactSingleUrl(url)
    {
      RedactSingleTwice(url);
    }
  }

  /** Redaction is a projection: a redacted text falls into the pieces of the original, the URLs masked and
      everything else as it was, so redacting it again changes nothing. */
  lemma RedactionIsAProjection(s: string)
    ensures Pieces(Redacted(s)) == MaskAll(Pieces(s), RedactSingleUrl)
    ensures Redacted(Redacted(s)) == Redacted(s)
  {
    RedactSettles();
    MaskingMovesNoBoundary(s, RedactSingleUrl);
    RewritingTwice(s, RedactSingleUrl);
  }

  // ---------------------------------------------------------------------------
  // The loop
  // ---------------------------------------------------------------------------

  lemma HeadAtTail(s: string, lo: nat, span: Span)
    requires lo <= span.start <= span.trimmed <= span.end <= |s|
    ensures HeadAt(s[lo..], Span(span.start - lo, span.trimmed - lo, span.end - lo)) ==
            Head(s[lo..span.start], s[span.start..span.trimmed], s[span.trimmed..span.end], s[span.end..])
  {
  }

  /** A URL found by positions in the whole text is the first URL of what is left. */
  lemma TailHead(s: string, lo: nat, span: Span)
    requires lo <= |s| && FindSeparator(s[lo..]) < |s| - lo
    requires IsSpanFrom(s, lo, lo + FindSeparator(s[lo..]), span)
    ensures TakeHead(s[lo..]) ==
            Head(s[lo..span.start], s[span.start..span.trimmed], s[span.trimmed..span.end], s[span.end..])
  {
    TailSpan(s, lo, FindSeparator(s[lo..]), span);
    SpanIsUnique(s[lo..], Span(span.start - lo, span.trimmed - lo, span.end - lo), NextSpan(s[lo..]));
    HeadAtTail(s, lo, span);
  }

  lemma Joined(out: string, a: string, b: string, c: string, d: string)
    ensures out + (a + b + c + d) == out + a + b + c + d
  {
  }

  /** What one turn of the loop adds to the output. */
  lemma NextUrl(s: string, lo: nat, span: Span, mask: string -> string, out: string)
    requires lo <= |s| && FindSeparator(s[lo..]) < |s| - lo
    requires IsSpanFrom(s, lo, lo + FindSeparator(s[lo..]), span)
    ensures out + Rewritten(s[lo..], mask) ==
            out + s[lo..span.start] + mask(s[span.start..span.trimmed]) + s[span.trimmed..span.end]
            + Rewritten(s[span.end..], mask)
  {
    TailHead(s, lo, span);
    RewrittenHead(s[lo..], mask);
    Joined(out, s[lo..span.start], mask(s[span.start..span.trimmed]), s[span.trimmed..span.end],
           Rewritten(s[span.end..], mask));
  }

  lemma TailSpan(s: string, lo: nat, sep: nat, span: Span)
    requires lo <= |s| && IsSpanFrom(s, lo, lo + sep, span)
    ensures IsSpanFrom(s[lo..], 0, sep, Span(span.start - lo, span.trimmed - lo, span.end - lo))
  {
  }

  /** The positions of the next URL from `cursor` on, as the loop finds them. */
  method FindSpan(input: string, cursor: nat, sep: nat) returns (span: Span)
    requires cursor <= sep && SeparatorAt(input, sep)
    ensures IsSpanFrom(input, cursor, sep, span)
  {
    var start := SchemeStart(input, 0, sep);
    if start < cursor {
      start := cursor;
    }
    var end := DelimiterFrom(input, start);
    assert end >= sep + 3;
    var trimmed := TrimEndFrom(input, start, end);
    assert trimmed >= sep + 3;
    span := Span(start, trimmed, end);
  }

  /** `redact_url` as written: the cursor always moves past the separator it found. */
  method RedactUrl(input: string) returns (out: string)
    ensures out == Redacted(input)
  {
    out := "";
    var cursor := 0;
    assert input[0..] == input;
    while FindSeparator(input[cursor..]) < |input| - cursor
      invariant cursor <= |input| && Redacted(input) == out + Redacted(input[cursor..])
      decreases |input| - cursor
    {
      var sep := cursor + FindSeparator(input[cursor..]);
      assert SeparatorAt(input[cursor..], sep - cursor);
      var span := FindSpan(input, cursor, sep);
      NextUrl(input, cursor, span, RedactSingleUrl, out);
      out := out + input[cursor..span.start];
      out := out + RedactSingleUrl(input[span.start..span.trimmed]);
      out := out + input[span.trimmed..span.end];
      cursor := span.end;
    }
    RewrittenPlain(input[cursor..], RedactSingleUrl);
    out := out + input[cursor..];
  }
}

/** crates/runtime: what a masked URL shows and what it hides, part by part. */
module RedactionShown {
  import opened Wrappers
  import opened Text
  import opened Redaction
  import opened RedactionSpans

  /** A secret is shown as its first four characters and an ellipsis, and as the ellipsis alone if it has no
      more than four. */
  predicate ShownSecret(secret: string, shown: string) {
    if secret == "" then shown == ""
    else if |secret| <= 4 then shown == "\U{2026}"
    else |shown| == 5 && shown[..4] == secret[..4] && shown[4] == '\U{2026}'
  }

  /** A path segment is a secret if it is opaque, and is shown as it is if it is not. */
  predicate ShownSegment(segment: string, shown: string) {
    if Opaque(segment) then ShownSecret(segment, shown) else shown == segment
  }

  /** A query parameter keeps its name. */
  ghost predicate ShownPair(pair: string, shown: string) {
    if '=' !in pair then shown == pair
    else exists key, value, masked ::
           '=' !in key && pair == key + "=" + value && shown == key + "=" + masked && ShownSecret(value, masked)
  }

  /** Of a user and a password the user is shown; a token in their place is a secret. */
  ghost predicate ShownUserinfo(userinfo: string, shown: string) {
    if ':' !in userinfo then ShownSecret(userinfo, shown)
    else exists user, password :: ':' !in user && userinfo == user + ":" + password && shown == user + ":****"
  }

  ghost predicate ShownAuthority(authority: string, shown: string) {
    if '@' !in authority then shown == authority
    else exists userinfo, host, masked ::
           && '@' !in host && authority == userinfo + "@" + host && shown == masked + "@" + host
           && ShownUserinfo(userinfo, masked)
  }

  ghost predicate ShownPath(path: string, shown: string) {
    var segments, segments' := Split(path, '/'), Split(shown, '/');
    |segments'| == |segments| && forall i :: 0 <= i < |segments| ==> ShownSegment(segments[i], segments'[i])
  }

  ghost predicate ShownQuery(query: string, shown: string) {
    var pairs, pairs' := Split(query, '&'), Split(shown, '&');
    |pairs'| == |pairs| && forall i :: 0 <= i < |pairs| ==> ShownPair(pairs[i], pairs'[i])
  }

  lemma SecretIsShown(secret: string)
    ensures ShownSecret(secret, MaskSecret(secret))
  {
  }

  lemma SegmentIsShown(segment: string)
    ensures ShownSegment(segment, MaskSegment(segment))
  {
    OpaqueLooksSecret(segment);
    SecretIsShown(segment);
  }

  lemma PairIsShown(pair: string)
    ensures ShownPair(pair, MaskPair(pair))
  {
    var i := IndexOf(pair, '=');
    if i < |pair| {
      var key, value := pair[..i], pair[i + 1..];
      assert pair == key + "=" + value;
      MaskPairOf(key, value);
      SecretIsShown(value);
      assert MaskPair(pair) == key + "=" + MaskSecret(value);
    }
  }

  lemma UserinfoIsShown(userinfo: string)
    ensures ShownUserinfo(userinfo, MaskUserinfo(userinfo))
  {
    var k := IndexOf(userinfo, ':');
    if k < |userinfo| {
      assert userinfo == userinfo[..k] + ":" + userinfo[k + 1..];
      assert MaskUserinfo(userinfo) == userinfo[..k] + ":****";
    } else {
      SecretIsShown(userinfo);
    }
  }

  lemma AuthorityIsShown(authority: string)
    ensures ShownAuthority(authority, RedactUserinfo(authority))
  {
    var i := AfterLast(authority, '@');
    if i > 0 {
      var userinfo, host := authority[..i - 1], authority[i..];
      assert authority == userinfo + "@" + host;
      RedactUserinfoOf(userinfo, host);
      UserinfoIsShown(userinfo);
    }
  }

  lemma PathIsShown(path: string)
    ensures ShownPath(path, RedactPath(path))
  {
    if path == "" {
      SegmentIsShown("");
      assert Split(path, '/') == [""];
    } else {
      MaskSegmentMasks();
      MapPartsSplit(path, '/', MaskSegment);
      var segments := Split(path, '/');
      forall i | 0 <= i < |segments| ensures ShownSegment(segments[i], MaskSegment(segments[i])) {
        SegmentIsShown(segments[i]);
      }
    }
  }

  lemma QueryIsShown(query: string)
    ensures ShownQuery(query, RedactQuery(query))
  {
    MaskPairMasks();
    MapPartsSplit(query, '&', MaskPair);
    var pairs := Split(query, '&');
    forall i | 0 <= i < |pairs| ensures ShownPair(pairs[i], MaskPair(pairs[i])) {
      PairIsShown(pairs[i]);
    }
  }

  /** The parts of a URL: a scheme, which ends with the first separator, an authority, a path, which begins
      with a slash if there is one, and a query or none. */
  datatype Parts = Parts(scheme: string, authority: string, path: string, query: Option<string>) {
    predicate Valid() {
      && IsScheme(scheme) && '?' !in scheme
      && '/' !in authority && '?' !in authority
      && IsPath(path) && '?' !in path
    }

    function Whole(): string {
      match query
      case None => scheme + authority + path
      case Some(q) => scheme + authority + path + "?" + q
    }
  }

  /** What is shown of each part. The scheme is shown as it is. */
  ghost predicate ShownParts(p: Parts, shown: Parts) {
    && shown.scheme == p.scheme
    && ShownAuthority(p.authority, shown.authority)
    && ShownPath(p.path, shown.path)
    && (shown.query.Some? <==> p.query.Some?)
    && (p.query.Some? ==> ShownQuery(p.query.value, shown.query.value))
  }

  /** A masked URL, part by part. */
  function Shown(p: Parts): Parts {
    Parts(p.scheme, RedactUserinfo(p.authority), RedactPath(p.path),
          match p.query case None => None case Some(q) => Some(RedactQuery(q)))
  }

  /** Every URL is masked part by part, each part as said above. */
  lemma UrlIsShown(p: Parts)
    requires p.Valid()
    ensures RedactSingleUrl(p.Whole()) == Shown(p).Whole() && ShownParts(p, Shown(p))
  {
    var base := p.scheme + p.authority + p.path;
    Regroup(p.scheme, p.authority, p.path);
    RedactBaseParts(p.scheme, p.authority, p.path);
    RedactUrlParts(base, p.query.GetOr(""));
    AuthorityIsShown(p.authority);
    PathIsShown(p.path);
    if p.query.Some? {
      QueryIsShown(p.query.value);
    }
  }

  /** And every URL has such parts. */
  lemma UrlHasParts(url: string) returns (p: Parts)
    requires IsUrl(url)
    ensures p.Valid() && p.Whole() == url
  {
    var base, query := UrlParts(url);
    var scheme, authority, path := BaseParts(base);
    Regroup(scheme, authority, path);
    p := Parts(scheme, authority, path, if IndexOf(url, '?') < |url| then Some(query) else None);
  }

  // ---------------------------------------------------------------------------
  // What cannot be told apart
  // ---------------------------------------------------------------------------

  /** Two segments that are the same, or both opaque with the same beginning. */
  predicate AlikeSegments(a: string, b: string) {
    a == b || (Opaque(a) && Opaque(b) && a[..4] == b[..4])
  }

  ghost predicate AlikePaths(a: string, b: string) {
    var s, t := Split(a, '/'), Split(b, '/');
    |s| == |t| && forall i :: 0 <= i < |s| ==> AlikeSegments(s[i], t[i])
  }

  lemma AlikeMasked(a: string, b: string)
    requires AlikeSegments(a, b)
    ensures MaskSegment(a) == MaskSegment(b)
  {
    OpaqueLooksSecret(a);
    OpaqueLooksSecret(b);
  }

  lemma AlikePathsAreShownAlike(a: string, b: string)
    requires AlikePaths(a, b) && IsPath(a) && IsPath(b)
    ensures RedactPath(a) == RedactPath(b)
  {
    var s, t := Split(a, '/'), Split(b, '/');
    forall i | 0 <= i < |s| ensures MaskSegment(s[i]) == MaskSegment(t[i]) {
      AlikeMasked(s[i], t[i]);
    }
    assert Each(s, MaskSegment) == Each(t, MaskSegment);
    JoinSplit(a, '/');
    JoinSplit(b, '/');
    if a == "" || b == "" {
      assert Split("", '/') == [""];
      assert s[0] == "" && t[0] == "";
    }
  }

  /** Two URLs that differ only after the fourth character of opaque path segments are shown alike. */
  lemma TokensAreHidden(p: Parts, path: string)
    requires p.Valid() && p.(path := path).Valid() && AlikePaths(p.path, path)
    ensures RedactSingleUrl(p.Whole()) == RedactSingleUrl(p.(path := path).Whole())
  {
    UrlIsShown(p);
    UrlIsShown(p.(path := path));
    AlikePathsAreShownAlike(p.path, path);
  }

  // ---------------------------------------------------------------------------
  // A URL in a text
  // ---------------------------------------------------------------------------

  /** The characters that wrap a URL. */
  const WRAPPERS := "\"'<>()[]{}|\\^`"

  predicate Ends(c: char) {
    IsWhitespace(c) || c in WRAPPERS
  }

  lemma EndsAreDelimiters(c: char)
    ensures Ends(c) <==> IsDelimiter(c)
  {
    var w := WRAPPERS;
    assert w == ['"', '\'', '<', '>', '(', ')', '[', ']', '{', '}', '|', '\\', '^', '`'];
  }

  predicate InScheme(c: char) {
    '0' <= c <= '9' || 'a' <= c <= 'z' || 'A' <= c <= 'Z' || c in "+-."
  }

  /** A scheme's letters, `://`, and text without space or wrapper that does not end a sentence. */
  predicate StandsAlone(url: string) {
    var i := FindSeparator(url);
    && i < |url|
    && (forall k :: 0 <= k < i ==> InScheme(url[k]))
    && (forall k :: 0 <= k < |url| ==> !Ends(url[k]))
    && url[|url| - 1] !in ".,"
  }

  lemma StandsAloneIsUrlText(url: string)
    requires StandsAlone(url)
    ensures IsUrlText(url) && forall k :: 0 <= k < FindSeparator(url) ==> IsSchemeChar(url[k])
  {
    forall c | c in url ensures !IsDelimiter(c) {
      EndsAreDelimiters(c);
    }
  }

  /** A URL in the middle of a text is masked, and the text around it is left alone up to the next one. */
  lemma UrlInText(before: string, url: string, trailer: string, rest: string)
    requires StandsAlone(url) && FindSeparator(before + url) == |before| + FindSeparator(url)
    requires before != "" ==> !InScheme(before[|before| - 1])
    requires (forall k :: 0 <= k < |trailer| ==> trailer[k] in ".,") && (rest != "" ==> Ends(rest[0]))
    ensures Redacted(before + url + trailer + rest) == before + RedactSingleUrl(url) + trailer + Redacted(rest)
  {
    var h := Head(before, url, trailer, rest);
    StandsAloneIsUrlText(url);
    if rest != "" {
      EndsAreDelimiters(rest[0]);
    }
    SeparatorStays(before + url, h.Whole());
    HeadIsTaken(h);
    RewrittenHead(h.Whole(), RedactSingleUrl);
  }
}

/** crates/runtime: masking the credentials of one URL. */
module Redaction {
  import opened Wrappers
  import opened Text

  // ---------------------------------------------------------------------------
  // Searching, splitting and joining
  // ---------------------------------------------------------------------------

  /** The first position of a character from `i` on, or the length when there is none. */
  function IndexFrom(s: string, c: char, i: nat): (r: nat)
    requires i <= |s|
    ensures i <= r <= |s| && (r < |s| ==> s[r] == c) && forall k :: i <= k < r ==> s[k] != c
    decreases |s| - i
  {
    if i == |s| || s[i] == c then i else IndexFrom(s, c, i + 1)
  }

  function IndexOf(s: string, c: char): (i: nat)
    ensures i <= |s| && (i < |s| ==> s[i] == c) && forall k :: 0 <= k < i ==> s[k] != c
  {
    IndexFrom(s, c, 0)
  }

  /** The position after the last occurrence of a character before `i`, or 0 when there is none. */
  function AfterLastBefore(s: string, c: char, i: nat): (r: nat)
    requires i <= |s|
    ensures r <= i && (r > 0 ==> s[r - 1] == c) && forall k :: r <= k < i ==> s[k] != c
  {
    if i == 0 || s[i - 1] == c then i else AfterLastBefore(s, c, i - 1)
  }

  function AfterLast(s: string, c: char): (i: nat)
    ensures i <= |s| && (i > 0 ==> s[i - 1] == c) && forall k :: i <= k < |s| ==> s[k] != c
  {
    AfterLastBefore(s, c, |s|)
  }

  /** A text with a known first separator, taken apart at it. */
  lemma CutAtFirst(a: string, c: char, b: string)
    requires c !in a
    ensures var s := a + [c] + b;
            IndexOf(s, c) == |a| && s[..|a|] == a && s[|a| + 1..] == b
  {
    var s := a + [c] + b;
    assert s[|a|] == c && forall k :: 0 <= k < |a| ==> s[k] == a[k];
  }

  lemma NothingToCut(a: string, c: char)
    requires c !in a
    ensures IndexOf(a, c) == |a|
  {
  }

  /** A text with a known last separator, taken apart at it. */
  lemma CutAtLast(a: string, c: char, b: string)
    requires c !in b
    ensures var s := a + [c] + b;
            AfterLast(s, c) == |a| + 1 && s[..|a|] == a && s[|a| + 1..] == b
  {
    var s := a + [c] + b;
    assert s[|a|] == c && forall k :: |a| < k < |s| ==> s[k] == b[k - |a| - 1];
  }

  /** `str::split` on a character: at least one part, and the separator in none of them. */
  function Split(s: string, c: char): (parts: seq<string>)
    ensures parts != [] && forall p :: p in parts ==> c !in p
  {
    var i := IndexOf(s, c);
    if i == |s| then [s] else [s[..i]] + Split(s[i + 1..], c)
  }

  function Join(parts: seq<string>, c: char): string
    requires parts != []
  {
    if |parts| == 1 then parts[0] else parts[0] + [c] + Join(parts[1..], c)
  }

  lemma {:induction false} JoinSplit(s: string, c: char)
    ensures Join(Split(s, c), c) == s
  {
    var i := IndexOf(s, c);
    if i < |s| {
      JoinSplit(s[i + 1..], c);
      JoinCons(s[..i], Split(s[i + 1..], c), c);
      assert s == s[..i] + [c] + s[i + 1..];
    }
  }

  lemma JoinCons(part: string, parts: seq<string>, c: char)
    requires parts != []
    ensures Join([part] + parts, c) == part + [c] + Join(parts, c)
  {
  }

  lemma {:induction false} SplitJoin(parts: seq<string>, c: char)
    requires parts != [] && forall p :: p in parts ==> c !in p
    ensures Split(Join(parts, c), c) == parts
  {
    if |parts| == 1 {
      NothingToCut(parts[0], c);
    } else {
      SplitJoin(parts[1..], c);
      SplitCons(parts[0], Join(parts[1..], c), c);
      assert parts == [parts[0]] + parts[1..];
    }
  }

  lemma SplitCons(part: string, rest: string, c: char)
    requires c !in part
    ensures Split(part + [c] + rest, c) == [part] + Split(rest, c)
  {
    CutAtFirst(part, c, rest);
  }

  function Each(parts: seq<string>, f: string -> string): seq<string> {
    seq(|parts|, i requires 0 <= i < |parts| => f(parts[i]))
  }

  /** Split, rewrite every part, join again. */
  function MapParts(s: string, c: char, f: string -> string): string {
    Join(Each(Split(s, c), f), c)
  }

  /** What masking a part must be like for the whole to come out right. */
  ghost predicate Masks(f: string -> string) {
    forall p :: f(f(p)) == f(p) && Tame(p, f(p))
  }

  /** Rewriting leaves the parts where they are: as many, in the same order, each one rewritten. */
  lemma MapPartsSplit(s: string, c: char, f: string -> string)
    requires Masks(f) && Structural(c)
    ensures Split(MapParts(s, c, f), c) == Each(Split(s, c), f)
  {
    var masked := Each(Split(s, c), f);
    forall p | p in masked ensures c !in p {
      var i :| 0 <= i < |masked| && p == masked[i];
      assert Tame(Split(s, c)[i], p);
    }
    SplitJoin(masked, c);
  }

  lemma MapPartsTwice(s: string, c: char, f: string -> string)
    requires Masks(f) && Structural(c)
    ensures MapParts(MapParts(s, c, f), c, f) == MapParts(s, c, f)
  {
    MapPartsSplit(s, c, f);
    assert Each(Each(Split(s, c), f), f) == Each(Split(s, c), f);
  }

  // ---------------------------------------------------------------------------
  // What masking may do to a piece of text
  // ---------------------------------------------------------------------------

  const ELLIPSIS: char := '\U{2026}'

  /** The characters that give a URL its structure. */
  predicate Structural(c: char) {
    c == '/' || c == '?' || c == '&'
  }

  predicate Ink(c: char) {
    c == ELLIPSIS || c == '*'
  }

  /** Masking brings in no character of its own but ink, and leaves the last character in place unless
      the text now ends in ink. */
  predicate Tame(s: string, t: string) {
    && (forall c :: c in t ==> c in s || Ink(c))
    && (s == [] <==> t == [])
    && (s != [] && t != [] ==> t[|t| - 1] == s[|s| - 1] || Ink(t[|t| - 1]))
  }

  lemma TameConcat(a: string, b: string, a': string, b': string)
    requires Tame(a, a') && Tame(b, b')
    ensures Tame(a + b, a' + b')
  {
  }

  lemma {:induction false} TameJoin(parts: seq<string>, parts': seq<string>, c: char)
    requires |parts| == |parts'| > 0 && forall i :: 0 <= i < |parts| ==> Tame(parts[i], parts'[i])
    ensures Tame(Join(parts, c), Join(parts', c))
  {
    if |parts| > 1 {
      TameJoin(parts[1..], parts'[1..], c);
      TameConcat([c], Join(parts[1..], c), [c], Join(parts'[1..], c));
      TameConcat(parts[0], [c] + Join(parts[1..], c), parts'[0], [c] + Join(parts'[1..], c));
      assert Join(parts, c) == parts[0] + ([c] + Join(parts[1..], c));
      assert Join(parts', c) == parts'[0] + ([c] + Join(parts'[1..], c));
    }
  }

  lemma MapPartsTame(s: string, c: char, f: string -> string)
    requires Masks(f)
    ensures Tame(s, MapParts(s, c, f))
  {
    JoinSplit(s, c);
    TameJoin(Split(s, c), Each(Split(s, c), f), c);
  }

  // ---------------------------------------------------------------------------
  // One URL
  // ---------------------------------------------------------------------------

  function MaskSecret(secret: string): string {
    if secret == "" then ""
    else if |secret| <= 4 then [ELLIPSIS]
    else secret[..4] + [ELLIPSIS]
  }

  /** What a masked secret gives away: its first four characters if there are more, and nothing else. */
  lemma MaskReveals(a: string, b: string)
    ensures MaskSecret(a) == MaskSecret(b) <==>
      a == b || (1 <= |a| <= 4 && 1 <= |b| <= 4) || (|a| > 4 && |b| > 4 && a[..4] == b[..4])
  {
  }

  predicate LooksLikeSecret(segment: string) {
    |segment| >= 16 && forall c :: c in segment ==> IsAsciiAlphanumeric(c) || c == '-' || c == '_'
  }

  function MaskSegment(segment: string): string {
    if LooksLikeSecret(segment) then MaskSecret(segment) else segment
  }

  function MaskPair(pair: string): string {
    var i := IndexOf(pair, '=');
    if i < |pair| && pair[i + 1..] != "" then pair[..i] + "=" + MaskSecret(pair[i + 1..]) else pair
  }

  function RedactPath(path: string): string {
    if path == "" then "" else MapParts(path, '/', MaskSegment)
  }

  function RedactQuery(query: string): string {
    MapParts(query, '&', MaskPair)
  }

  function MaskUserinfo(userinfo: string): string {
    var k := IndexOf(userinfo, ':');
    if k < |userinfo| then userinfo[..k] + ":" + "****" else MaskSecret(userinfo)
  }

  function RedactUserinfo(authority: string): string {
    var i := AfterLast(authority, '@');
    if i == 0 then authority else MaskUserinfo(authority[..i - 1]) + "@" + authority[i..]
  }

  predicate SeparatorAt(s: string, i: int) {
    0 <= i && i + 3 <= |s| && s[i] == ':' && s[i + 1] == '/' && s[i + 2] == '/'
  }

  /** The first `://` from `i` on, or the length when there is none. */
  function SeparatorFrom(s: string, i: nat): (r: nat)
    requires i <= |s|
    ensures i <= r <= |s| && (r < |s| ==> SeparatorAt(s, r)) && forall k :: i <= k < r ==> !SeparatorAt(s, k)
    decreases |s| - i
  {
    if i == |s| || SeparatorAt(s, i) then i else SeparatorFrom(s, i + 1)
  }

  function FindSeparator(s: string): (i: nat)
    ensures i <= |s| && (i < |s| ==> SeparatorAt(s, i)) && forall k :: 0 <= k < i ==> !SeparatorAt(s, k)
  {
    SeparatorFrom(s, 0)
  }

  function RedactAuthorityAndPath(s: string): string {
    var i := FindSeparator(s);
    if i == |s| then s
    else
      var rest := s[i + 3..];
      var k := IndexOf(rest, '/');
      s[..i + 3] + RedactUserinfo(rest[..k]) + RedactPath(rest[k..])
  }

  function RedactSingleUrl(url: string): string {
    var q := IndexOf(url, '?');
    if q < |url| then RedactAuthorityAndPath(url[..q]) + "?" + RedactQuery(url[q + 1..])
    else RedactAuthorityAndPath(url)
  }

  // ---------------------------------------------------------------------------
  // One URL: masked twice is masked once
  // ---------------------------------------------------------------------------

  lemma MaskSegmentMasks()
    ensures Masks(MaskSegment)
  {
  }

  lemma MaskSecretTwice(s: string)
    ensures MaskSecret(MaskSecret(s)) == MaskSecret(s) && Tame(s, MaskSecret(s))
  {
  }

  lemma MaskPairOf(key: string, value: string)
    requires '=' !in key
    ensures MaskPair(key + "=" + value) == key + "=" + MaskSecret(value)
  {
    CutAtFirst(key, '=', value);
  }

  lemma MaskPairTwice(pair: string)
    ensures MaskPair(MaskPair(pair)) == MaskPair(pair) && Tame(pair, MaskPair(pair))
  {
    var i := IndexOf(pair, '=');
    if i < |pair| {
      var key, value := pair[..i], pair[i + 1..];
      assert pair == key + "=" + value;
      MaskPairOf(key, value);
      MaskPairOf(key, MaskSecret(value));
      MaskSecretTwice(value);
      TameConcat(key + "=", value, key + "=", MaskSecret(value));
    }
  }

  lemma MaskPairMasks()
    ensures Masks(MaskPair)
  {
    forall p ensures MaskPair(MaskPair(p)) == MaskPair(p) && Tame(p, MaskPair(p)) {
      MaskPairTwice(p);
    }
  }

  /** In a query every parameter stays in its place under its own name, with its value masked. */
  lemma QueryValuesAreMasked(query: string)
    ensures Split(RedactQuery(query), '&') == Each(Split(query, '&'), MaskPair)
    ensures forall key: string, value: string ::
              '=' !in key ==> MaskPair(key + "=" + value) == key + "=" + MaskSecret(value)
  {
    MaskPairMasks();
    MapPartsSplit(query, '&', MaskPair);
    forall key: string, value: string | '=' !in key
      ensures MaskPair(key + "=" + value) == key + "=" + MaskSecret(value)
    {
      MaskPairOf(key, value);
    }
  }

  lemma MaskUserinfoTwice(userinfo: string)
    ensures MaskUserinfo(MaskUserinfo(userinfo)) == MaskUserinfo(userinfo)
    ensures forall c :: c in MaskUserinfo(userinfo) ==> c in userinfo || Ink(c)
  {
  }

  lemma RedactUserinfoOf(userinfo: string, host: string)
    requires '@' !in host
    ensures RedactUserinfo(userinfo + "@" + host) == MaskUserinfo(userinfo) + "@" + host
  {
    CutAtLast(userinfo, '@', host);
  }

  /** Whatever the password is, what is shown is the user, four stars and the host. */
  lemma PasswordIsHidden(user: string, password: string, host: string)
    requires ':' !in user && '@' !in host
    ensures RedactUserinfo(user + ":" + password + "@" + host) == user + ":" + "****" + "@" + host
  {
    CutAtFirst(user, ':', password);
    RedactUserinfoOf(user + ":" + password, host);
  }

  lemma InkBeforeHost(userinfo: string, masked: string, host: string)
    requires forall c :: c in masked ==> c in userinfo || Ink(c)
    ensures Tame(userinfo + "@" + host, masked + "@" + host)
  {
  }

  lemma RedactUserinfoTwice(authority: string)
    ensures RedactUserinfo(RedactUserinfo(authority)) == RedactUserinfo(authority)
    ensures Tame(authority, RedactUserinfo(authority))
  {
    var i := AfterLast(authority, '@');
    if i > 0 {
      var userinfo, host := authority[..i - 1], authority[i..];
      assert authority == userinfo + "@" + host;
      MaskUserinfoTwice(userinfo);
      RedactUserinfoOf(userinfo, host);
      RedactUserinfoOf(MaskUserinfo(userinfo), host);
      InkBeforeHost(userinfo, MaskUserinfo(userinfo), host);
    }
  }

  lemma RedactPathTwice(path: string)
    requires path != "" ==> path[0] == '/'
    ensures RedactPath(RedactPath(path)) == RedactPath(path)
    ensures Tame(path, RedactPath(path))
    ensures RedactPath(path) != "" ==> RedactPath(path)[0] == '/'
  {
    if path != "" {
      MaskSegmentMasks();
      MapPartsTame(path, '/', MaskSegment);
      MapPartsTwice(path, '/', MaskSegment);
      var parts := Each(Split(path, '/'), MaskSegment);
      assert parts[0] == "" && |parts| > 1;
    }
  }

  lemma RedactQueryTwice(query: string)
    ensures RedactQuery(RedactQuery(query)) == RedactQuery(query)
    ensures Tame(query, RedactQuery(query))
  {
    MaskPairMasks();
    MapPartsTame(query, '&', MaskPair);
    MapPartsTwice(query, '&', MaskPair);
  }

  /** A text that ends with its first separator. */
  predicate IsScheme(scheme: string) {
    |scheme| >= 3 && FindSeparator(scheme) == |scheme| - 3
  }

  lemma SchemeStays(scheme: string, rest: string)
    requires IsScheme(scheme)
    ensures FindSeparator(scheme + rest) == |scheme| - 3
  {
    var s, i := scheme + rest, |scheme| - 3;
    assert SeparatorAt(s, i);
    var j := FindSeparator(s);
    assert j < i ==> SeparatorAt(scheme, j);
  }

  lemma SchemeOf(s: string)
    requires FindSeparator(s) < |s|
    ensures IsScheme(s[..FindSeparator(s) + 3])
  {
    var i := FindSeparator(s);
    var scheme := s[..i + 3];
    assert SeparatorAt(scheme, i);
    var j := FindSeparator(scheme);
    assert j < i ==> SeparatorAt(s, j);
  }

  predicate IsPath(path: string) {
    path != "" ==> path[0] == '/'
  }

  lemma RedactBaseParts(scheme: string, authority: string, path: string)
    requires IsScheme(scheme) && '/' !in authority && IsPath(path)
    ensures RedactAuthorityAndPath(scheme + (authority + path)) == scheme + RedactUserinfo(authority) + RedactPath(path)
  {
    var rest := authority + path;
    SchemeStays(scheme, rest);
    assert (scheme + rest)[..|scheme|] == scheme && (scheme + rest)[|scheme|..] == rest;
    assert rest[..|authority|] == authority && rest[|authority|..] == path;
    if path == "" {
      assert rest == authority;
      NothingToCut(authority, '/');
    } else {
      CutAtFirst(authority, '/', path[1..]);
      assert authority + ['/'] + path[1..] == rest;
    }
  }

  /** The scheme, authority and path of a text with a separator. */
  lemma BaseParts(s: string) returns (scheme: string, authority: string, path: string)
    requires FindSeparator(s) < |s|
    ensures s == scheme + (authority + path) && scheme == s[..FindSeparator(s) + 3]
    ensures IsScheme(scheme) && '/' !in authority && IsPath(path)
  {
    SchemeOf(s);
    var i := FindSeparator(s);
    scheme := s[..i + 3];
    authority, path := PathParts(s[i + 3..]);
    TakeDrop(s, i + 3);
  }

  lemma PathParts(rest: string) returns (authority: string, path: string)
    ensures rest == authority + path && '/' !in authority && IsPath(path)
  {
    var k := IndexOf(rest, '/');
    authority, path := rest[..k], rest[k..];
    TakeDrop(rest, k);
  }

  lemma TakeDrop(s: string, i: nat)
    requires i <= |s|
    ensures s == s[..i] + s[i..]
  {
  }

  lemma RedactBaseTwice(s: string)
    requires FindSeparator(s) < |s|
    ensures RedactAuthorityAndPath(RedactAuthorityAndPath(s)) == RedactAuthorityAndPath(s)
    ensures s[..FindSeparator(s) + 3] <= RedactAuthorityAndPath(s)
    ensures Tame(s, RedactAuthorityAndPath(s))
  {
    var scheme, authority, path := BaseParts(s);
    var authority', path' := RedactUserinfo(authority), RedactPath(path);
    RedactUserinfoTwice(authority);
    RedactPathTwice(path);
    RedactBaseParts(scheme, authority, path);
    RedactBaseParts(scheme, authority', path');
    BaseTame(scheme, authority, path, authority', path');
  }

  lemma BaseTame(scheme: string, authority: string, path: string, authority': string, path': string)
    requires Tame(authority, authority') && Tame(path, path')
    ensures Tame(scheme + (authority + path), scheme + authority' + path')
    ensures scheme + authority' + path' == scheme + (authority' + path')
  {
  }

  /** The base of a URL and its query, if it has one, taken apart. */
  lemma RedactUrlParts(base: string, query: string)
    requires '?' !in base
    ensures RedactSingleUrl(base) == RedactAuthorityAndPath(base)
    ensures RedactSingleUrl(base + "?" + query) == RedactAuthorityAndPath(base) + "?" + RedactQuery(query)
  {
    NothingToCut(base, '?');
    CutAtFirst(base, '?', query);
  }

  /** A text with a separator and no query before it. */
  predicate IsUrl(url: string) {
    var i := FindSeparator(url);
    i < |url| && forall k :: 0 <= k < i ==> url[k] != '?'
  }

  lemma RedactQueriedTwice(base: string, query: string)
    requires FindSeparator(base) < |base| && '?' !in base
    ensures var url := base + "?" + query;
            RedactSingleUrl(RedactSingleUrl(url)) == RedactSingleUrl(url) && Tame(url, RedactSingleUrl(url))
  {
    var base', query' := RedactAuthorityAndPath(base), RedactQuery(query);
    RedactBaseTwice(base);
    RedactQueryTwice(query);
    RedactUrlParts(base, query);
    RedactUrlParts(base', query');
    TameConcat(base + "?", query, base' + "?", query');
  }

  /** The base of a URL, and the same URL as base and query. */
  lemma UrlParts(url: string) returns (base: string, query: string)
    requires IsUrl(url)
    ensures '?' !in base && FindSeparator(base) < |base|
    ensures base[..FindSeparator(base) + 3] == url[..FindSeparator(url) + 3]
    ensures url == (if IndexOf(url, '?') < |url| then base + "?" + query else base)
  {
    var i, q := FindSeparator(url), IndexOf(url, '?');
    base, query := url[..q], if q < |url| then url[q + 1..] else "";
    SchemeOf(url);
    assert i + 3 <= q;
    SchemeStays(url[..i + 3], url[i + 3..q]);
    assert url[..i + 3] + url[i + 3..q] == base;
  }

  /** The structure and the last character of a URL stay, so masking it again does nothing. */
  lemma RedactSingleTwice(url: string)
    requires IsUrl(url)
    ensures RedactSingleUrl(RedactSingleUrl(url)) == RedactSingleUrl(url)
    ensures Tame(url, RedactSingleUrl(url))
    ensures url[..FindSeparator(url) + 3] <= RedactSingleUrl(url)
  {
    var base, query := UrlParts(url);
    RedactBaseTwice(base);
    RedactUrlParts(base, query);
    if IndexOf(url, '?') < |url| {
      RedactQueriedTwice(base, query);
    } else {
      RedactUrlParts(RedactAuthorityAndPath(base), "");
    }
  }

  lemma PathIsUntouched(path: string)
    requires forall segment :: segment in Split(path, '/') ==> !LooksLikeSecret(segment)
    ensures RedactPath(path) == path
  {
    var segments := Split(path, '/');
    forall i | 0 <= i < |segments| ensures MaskSegment(segments[i]) == segments[i] {
      assert segments[i] in segments;
    }
    assert Each(segments, MaskSegment) == segments;
    JoinSplit(path, '/');
  }

  lemma CleanPartsAreUntouched(scheme: string, authority: string, path: string)
    requires IsScheme(scheme) && '/' !in authority && IsPath(path)
    requires '@' !in authority && RedactPath(path) == path
    ensures RedactAuthorityAndPath(scheme + (authority + path)) == scheme + (authority + path)
  {
    RedactBaseParts(scheme, authority, path);
    NoUserinfo(authority);
    Regroup(scheme, authority, path);
  }

  lemma CleanPath(front: string, path: string)
    requires path != "" ==> path[0] == '/'
    requires forall segment :: segment in Split(front + path, '/') ==> !LooksLikeSecret(segment)
    ensures RedactPath(path) == path
  {
    if path != "" {
      SplitSuffix(front, path, '/');
      PathIsUntouched(path);
    }
  }

  /** Long enough, and of the right characters, to be a token. */
  predicate Opaque(segment: string) {
    && |segment| >= 16
    && forall i :: 0 <= i < |segment| ==>
         var c := segment[i];
         '0' <= c <= '9' || 'A' <= c <= 'Z' || 'a' <= c <= 'z' || c == '-' || c == '_'
  }

  lemma OpaqueLooksSecret(segment: string)
    ensures Opaque(segment) <==> LooksLikeSecret(segment)
  {
    assert LooksLikeSecret(segment) ==> forall i :: 0 <= i < |segment| ==> segment[i] in segment;
  }

  /** A URL without userinfo or query, none of whose segments has 16 characters or more that could all be
      part of a token, is shown as it is. */
  lemma CleanUrlIsUntouched(url: string)
    requires IsUrl(url) && '@' !in url && '?' !in url
    requires forall segment :: segment in Split(url, '/') ==> !Opaque(segment)
    ensures RedactSingleUrl(url) == url
  {
    forall segment | segment in Split(url, '/') ensures !LooksLikeSecret(segment) {
      OpaqueLooksSecret(segment);
    }
    var scheme, authority, path := BaseParts(url);
    Regroup(scheme, authority, path);
    CleanPath(scheme + authority, path);
    CleanPartsAreUntouched(scheme, authority, path);
    RedactUrlParts(url, "");
  }

  lemma NoUserinfo(authority: string)
    requires '@' !in authority
    ensures RedactUserinfo(authority) == authority
  {
  }

  /** The segments of a text that begins with the separator are among those of any longer text it ends. */
  lemma {:induction false} SplitSuffix(front: string, path: string, c: char)
    requires path != "" && path[0] == c
    ensures forall p :: p in Split(path, c) ==> p == "" || p in Split(front + path, c)
    decreases |front|
  {
    var s := front + path;
    var i := IndexOf(s, c);
    assert s[|front|] == c;
    assert i <= |front|;
    if i == |front| {
      assert s[i + 1..] == path[1..];
      assert IndexOf(path, c) == 0;
    } else {
      assert s[i + 1..] == front[i + 1..] + path;
      SplitSuffix(front[i + 1..], path, c);
    }
  }
}

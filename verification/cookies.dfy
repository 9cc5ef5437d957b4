/**
 * The cookie string codec of scripts/keep_alive.py: `parse_cookies` turns a
 * header-style `name=value; name=value` string into browser cookies scoped to
 * the Zeabur site, and `format_cookies` turns the browser's cookie jar back
 * into such a string.
 */
module Cookies {
  import opened Wrappers
  import opened Text

  /** The domain every parsed cookie is scoped to. */
  const DOMAIN := ".zeabur.com"
  /** What a jar cookie's domain must contain to be kept by `format_cookies`. */
  const SITE := "zeabur.com"
  const ROOT_PATH := "/"

  datatype Cookie = Cookie(name: string, value: string, domain: string, path: string)

  /**
   * A name/value pair that survives a trip through the string form: both
   * trimmed, neither holding the pair separator, the name holding no `=`.
   */
  predicate WellFormed(c: Cookie)
  {
    IsStripped(c.name) && IsStripped(c.value)
    && '=' !in c.name && ';' !in c.name && ';' !in c.value
  }

  /** One `;`-separated segment: trimmed, split at its first `=`, or dropped. */
  function ParseSegment(segment: string): (r: Option<Cookie>)
    ensures r.None? <==> '=' !in segment
    ensures r.Some? ==> r.value.domain == DOMAIN && r.value.path == ROOT_PATH
    ensures r.Some? && ';' !in segment ==> WellFormed(r.value)
  {
    StripSameChar(segment, '=');
    var parts := SplitOnce(Strip(segment), '=');
    if |parts| == 2 then
      PiecesWellFormed(segment, parts[0], parts[1]);
      Some(Cookie(Strip(parts[0]), Strip(parts[1]), DOMAIN, ROOT_PATH))
    else
      None
  }

  /** The trimmed pieces of a segment carry no `;` it did not have. */
  lemma PiecesWellFormed(segment: string, name: string, value: string)
    requires Strip(segment) == name + "=" + value && '=' !in name
    ensures ';' !in segment ==> WellFormed(Cookie(Strip(name), Strip(value), DOMAIN, ROOT_PATH))
  {
    StripAvoids(name, '=');
    if ';' !in segment {
      StripAvoids(segment, ';');
      assert ';' !in name && ';' !in value;
      StripAvoids(name, ';');
      StripAvoids(value, ';');
    }
  }

  /**
   * A segment is cut at its FIRST `=`: the name is the trimmed text before
   * it, the value the trimmed text after it, further `=` included.
   */
  lemma CutAtFirstEquals(segment: string, name: string, value: string)
    requires Strip(segment) == name + "=" + value && '=' !in name
    ensures ParseSegment(segment) == Some(Cookie(Strip(name), Strip(value), DOMAIN, ROOT_PATH))
  {
    assert Strip(segment) == name + ['='] + value;
    SplitOnceAt(name, value, '=');
  }

  function OptionToSeq(o: Option<Cookie>): seq<Cookie>
  {
    if o.Some? then [o.value] else []
  }

  /** The cookies of a list of segments, in order, malformed segments dropped. */
  function ParsedSegments(segments: seq<string>): (r: seq<Cookie>)
    ensures |r| <= |segments|
    ensures forall c :: c in r ==> c.domain == DOMAIN && c.path == ROOT_PATH
    ensures (forall k :: 0 <= k < |segments| ==> ';' !in segments[k]) ==>
              forall c :: c in r ==> WellFormed(c)
  {
    if segments == [] then []
    else OptionToSeq(ParseSegment(segments[0])) + ParsedSegments(segments[1..])
  }

  /** What `parse_cookies` returns for a cookie string. */
  function Parsed(cookieString: string): (r: seq<Cookie>)
    ensures |r| <= |Split(cookieString, ';')|
    ensures forall c :: c in r ==> c.domain == DOMAIN && c.path == ROOT_PATH && WellFormed(c)
  {
    ParsedSegments(Split(cookieString, ';'))
  }

  lemma {:induction false} ParsedSegmentsConcat(a: seq<string>, b: seq<string>)
    ensures ParsedSegments(a + b) == ParsedSegments(a) + ParsedSegments(b)
  {
    if a != [] {
      assert (a + b)[1..] == a[1..] + b;
      ParsedSegmentsConcat(a[1..], b);
    } else {
      assert a + b == b;
    }
  }

  /**
   * `parse_cookies`: split on `;`, trim each segment, split it at its first
   * `=`, and keep the trimmed name and value of each segment that has one,
   * scoped to the Zeabur domain and the root path.
   */
  method ParseCookies(cookieString: string) returns (cookies: seq<Cookie>)
    ensures cookies == Parsed(cookieString)
  {
    hide ParseSegment;
    var segments := Split(cookieString, ';');
    cookies := [];
    var i := 0;
    while i < |segments|
      invariant 0 <= i <= |segments|
      invariant cookies == ParsedSegments(segments[..i])
    {
      var cookie := ParseSegment(segments[i]);
      if cookie.Some? {
        cookies := cookies + [cookie.value];
      }
      assert segments[..i + 1] == segments[..i] + [segments[i]];
      ParsedSegmentsConcat(segments[..i], [segments[i]]);
      i := i + 1;
    }
    assert segments[..i] == segments;
  }

  /** The test `'zeabur.com' in c.get('domain', '')` of `format_cookies`. */
  predicate OnSite(c: Cookie)
  {
    Contains(c.domain, SITE)
  }

  /** The cookies `format_cookies` keeps: the on-site ones, in input order. */
  function Kept(cookies: seq<Cookie>): (r: seq<Cookie>)
    ensures |r| <= |cookies|
    ensures forall c :: c in r <==> c in cookies && OnSite(c)
  {
    if cookies == [] then []
    else (if OnSite(cookies[0]) then [cookies[0]] else []) + Kept(cookies[1..])
  }

  /** Filtering commutes with concatenation: the kept cookies keep their order. */
  lemma {:induction false} KeptConcat(a: seq<Cookie>, b: seq<Cookie>)
    ensures Kept(a + b) == Kept(a) + Kept(b)
  {
    if a != [] {
      assert (a + b)[1..] == a[1..] + b;
      KeptConcat(a[1..], b);
    } else {
      assert a + b == b;
    }
  }

  function Entry(c: Cookie): string
  {
    c.name + "=" + c.value
  }

  /** One `name=value` entry per cookie, in order. */
  function Entries(cookies: seq<Cookie>): (r: seq<string>)
    ensures |r| == |cookies|
    ensures forall k :: 0 <= k < |r| ==> r[k] == cookies[k].name + "=" + cookies[k].value
  {
    if cookies == [] then [] else [Entry(cookies[0])] + Entries(cookies[1..])
  }

  /** A `; `-joined list of `name=value` entries is empty only when the list is. */
  lemma {:induction false} JoinEntriesEmpty(cookies: seq<Cookie>)
    ensures Join(Entries(cookies), "; ") == "" <==> cookies == []
  {
    if cookies != [] {
      var es := Entries(cookies);
      assert '=' in Entry(cookies[0]);
      if |cookies| > 1 {
        assert Join(es, "; ") == Entry(cookies[0]) + "; " + Join(es[1..], "; ");
      }
    }
  }

  /**
   * `format_cookies`: the `name=value` entries of the on-site cookies,
   * joined with `"; "`.
   */
  function FormatCookies(cookies: seq<Cookie>): (r: string)
    ensures r == "" <==> forall c :: c in cookies ==> !OnSite(c)
  {
    JoinEntriesEmpty(Kept(cookies));
    assert Kept(cookies) != [] ==> Kept(cookies)[0] in Kept(cookies);
    Join(Entries(Kept(cookies)), "; ")
  }

  /** A cookie as `parse_cookies` would produce it from its name and value. */
  function Tag(c: Cookie): Cookie
  {
    Cookie(c.name, c.value, DOMAIN, ROOT_PATH)
  }

  /** Each cookie re-scoped to the Zeabur domain and the root path, in order. */
  function Tagged(cookies: seq<Cookie>): (r: seq<Cookie>)
    ensures |r| == |cookies|
    ensures forall k :: 0 <= k < |r| ==>
              r[k].name == cookies[k].name && r[k].value == cookies[k].value
              && r[k].domain == DOMAIN && r[k].path == ROOT_PATH
  {
    if cookies == [] then [] else [Tag(cookies[0])] + Tagged(cookies[1..])
  }

  /** A well-formed entry, behind any whitespace, parses back to its cookie. */
  lemma EntryParses(pad: string, c: Cookie)
    requires AllSpace(pad) && WellFormed(c)
    ensures ParseSegment(pad + Entry(c)) == Some(Tag(c))
  {
    var e := Entry(c);
    StripSkips(pad, e);
    StripStripped(e);
    assert e == c.name + ['='] + c.value;
    SplitOnceAt(c.name, c.value, '=');
    StripStripped(c.name);
    StripStripped(c.value);
  }

  lemma {:induction false} ParseJoined(pad: string, cookies: seq<Cookie>)
    requires AllSpace(pad)
    requires forall c :: c in cookies ==> WellFormed(c)
    ensures Parsed(pad + Join(Entries(cookies), "; ")) == Tagged(cookies)
    decreases |cookies|
  {
    hide ParseSegment;
    assert ';' !in pad;
    var es := Entries(cookies);
    if cookies == [] {
      assert pad + Join(es, "; ") == pad;
      SplitNone(pad, ';');
      assert '=' !in pad;
    } else {
      var c := cookies[0];
      assert WellFormed(c);
      EntryParses(pad, c);
      assert ';' !in pad + Entry(c);
      if |cookies| == 1 {
        assert pad + Join(es, "; ") == pad + Entry(c);
        SplitNone(pad + Entry(c), ';');
        assert ParsedSegments([pad + Entry(c)]) == [Tag(c)] + ParsedSegments([]);
      } else {
        var tail := Join(es[1..], "; ");
        assert es[1..] == Entries(cookies[1..]);
        assert pad + Join(es, "; ") == (pad + Entry(c)) + [';'] + (" " + tail);
        SplitAt(pad + Entry(c), " " + tail, ';');
        var rest := Split(" " + tail, ';');
        assert Split(pad + Join(es, "; "), ';') == [pad + Entry(c)] + rest;
        assert AllSpace(" ");
        assert forall c :: c in cookies[1..] ==> c in cookies;
        ParseJoined(" ", cookies[1..]);
        assert ParsedSegments([pad + Entry(c)] + rest)
            == OptionToSeq(ParseSegment(pad + Entry(c))) + ParsedSegments(rest);
      }
    }
  }

  /**
   * Formatting then parsing gives back exactly the on-site cookies, in
   * order, each re-scoped to the Zeabur domain and the root path.
   */
  lemma FormatThenParse(cookies: seq<Cookie>)
    requires forall c :: c in cookies && OnSite(c) ==> WellFormed(c)
    ensures Parsed(FormatCookies(cookies)) == Tagged(Kept(cookies))
  {
    ParseJoined("", Kept(cookies));
    assert "" + FormatCookies(cookies) == FormatCookies(cookies);
  }

  lemma DomainOnSite()
    ensures Contains(DOMAIN, SITE)
  {
    assert DOMAIN[1..][..|SITE|] == SITE;
  }

  lemma {:induction false} KeptAll(cookies: seq<Cookie>)
    requires forall c :: c in cookies ==> OnSite(c)
    ensures Kept(cookies) == cookies
  {
    if cookies != [] {
      KeptAll(cookies[1..]);
    }
  }

  lemma {:induction false} TaggedFixed(cookies: seq<Cookie>)
    requires forall c :: c in cookies ==> c.domain == DOMAIN && c.path == ROOT_PATH
    ensures Tagged(cookies) == cookies
  {
    if cookies != [] {
      TaggedFixed(cookies[1..]);
    }
  }

  /** parse(format(parse(s))) == parse(s) for every cookie string `s`. */
  lemma RoundTrip(cookieString: string)
    ensures Parsed(FormatCookies(Parsed(cookieString))) == Parsed(cookieString)
  {
    var cookies := Parsed(cookieString);
    DomainOnSite();
    KeptAll(cookies);
    FormatThenParse(cookies);
    TaggedFixed(cookies);
  }
}

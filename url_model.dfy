/** The part of the URL Standard's basic URL parser that target URL
    construction relies on: parsing an absolute base URL, and parsing a
    reference against a base ("joining"). A path of a hierarchical URL is a
    list of segments, as in the URL Standard; joining a relative reference
    drops the base's last segment and appends the reference's segments,
    handling "." and ".." segments, which for plain relative paths agrees
    with "merge paths" in section 5.2.3 of RFC 3986. */
module UrlModel {
  import opened Common

  /** A hierarchical path (list of segments) or an opaque path (for
      schemes such as `mailto:`). */
  datatype UrlPath = Segments(segments: seq<string>) | Opaque(text: string)

  /** A parsed URL. `host` holds the whole authority (user information and
      port are not split off). */
  datatype Url = Url(scheme: string, host: string, path: UrlPath, query: Option<string>, fragment: Option<string>)

  /** The schemes the URL Standard calls special. */
  const SpecialSchemes: set<string> := {"ftp", "file", "http", "https", "ws", "wss"}

  predicate IsSchemeChar(c: char) {
    IsAsciiAlpha(c) || IsAsciiDigit(c) || c == '+' || c == '-' || c == '.'
  }

  /** A path separator of a special URL: '/' or '\'. */
  predicate IsSeparator(c: char) {
    c == '/' || c == '\\'
  }

  predicate IsNotSeparator(c: char) {
    !IsSeparator(c)
  }

  predicate IsNotHash(c: char) {
    c != '#'
  }

  predicate IsNotQuestion(c: char) {
    c != '?'
  }

  /** A character that can continue the authority of a special URL. */
  predicate IsHostChar(c: char) {
    !IsSeparator(c) && c != '?' && c != '#'
  }

  /** The scheme a string starts with, lower-cased, and the text after its
      ':' — or None when the string does not start with a scheme. */
  function SplitScheme(s: string): (r: Option<(string, string)>)
    ensures r.Some? ==> |r.value.0| > 0 && |r.value.0| + 1 + |r.value.1| == |s|
    ensures r.Some? ==> s[|r.value.0|] == ':' && r.value.1 == s[|r.value.0| + 1..]
    ensures r.Some? ==> r.value.0 == ToLower(s[..|r.value.0|])
    ensures r.None? <==> (s == [] || !IsAsciiAlpha(s[0]) || Span(s, IsSchemeChar) == |s| || s[Span(s, IsSchemeChar)] != ':')
  {
    if s != [] && IsAsciiAlpha(s[0]) then
      var n := Span(s, IsSchemeChar);
      if n < |s| && s[n] == ':' then Some((ToLower(s[..n]), s[n + 1..])) else None
    else None
  }

  /** A reference split into path, query and fragment. */
  datatype Parts = Parts(path: string, query: Option<string>, fragment: Option<string>)

  /** Cut a string at its first character that `keep` rejects: the part
      before it, and the part after it when there is one. */
  function CutAtFirst(s: string, keep: char -> bool): (r: (string, Option<string>))
    ensures forall i :: 0 <= i < |r.0| ==> keep(r.0[i])
    ensures r.1.None? ==> r.0 == s
    ensures r.1.Some? ==> |r.0| < |s| && s == r.0 + [s[|r.0|]] + r.1.value && !keep(s[|r.0|])
  {
    var n := Span(s, keep);
    (s[..n], if n < |s| then Some(s[n + 1..]) else None)
  }

  /** Split off the fragment at the first '#', then the query at the first
      '?' before it. */
  function SplitQueryFragment(s: string): (r: Parts)
    ensures '?' !in r.path && '#' !in r.path
    ensures r.query.Some? ==> '#' !in r.query.value
  {
    var (pre, fragment) := CutAtFirst(s, IsNotHash);
    var (path, query) := CutAtFirst(pre, IsNotQuestion);
    Parts(path, query, fragment)
  }

  /** Reassemble a split reference. */
  function Unsplit(p: Parts): string {
    p.path
    + (match p.query case Some(q) => "?" + q case None => "")
    + (match p.fragment case Some(f) => "#" + f case None => "")
  }

  /** Cutting loses only the cut character. */
  lemma CutAtFirstAllKept(s: string, keep: char -> bool)
    requires forall i :: 0 <= i < |s| ==> keep(s[i])
    ensures CutAtFirst(s, keep) == (s, None)
  {
    assert s[..|s|] == s;
  }

  /** Cutting after a kept prefix cuts the rest. */
  lemma CutAtFirstAfterKept(a: string, t: string, keep: char -> bool)
    requires forall i :: 0 <= i < |a| ==> keep(a[i])
    ensures CutAtFirst(a + t, keep) == (a + CutAtFirst(t, keep).0, CutAtFirst(t, keep).1)
  {
    var n := Span(t, keep);
    SpanAfterKept(a, t, keep);
    ShiftSlices(a, t, n);
    if n < |t| {
      ShiftSlices(a, t, n + 1);
    }
  }

  /** Splitting loses nothing: the parts reassemble to the reference. */
  lemma SplitQueryFragmentRoundTrip(s: string)
    ensures Unsplit(SplitQueryFragment(s)) == s
  {
    var (pre, fragment) := CutAtFirst(s, IsNotHash);
    var (path, query) := CutAtFirst(pre, IsNotQuestion);
    var q := match query case Some(x) => "?" + x case None => "";
    var f := match fragment case Some(x) => "#" + x case None => "";
    assert pre == path + q by {
      if query.Some? {
        ConcatAssoc(path, "?", query.value);
      }
    }
    assert s == pre + f by {
      if fragment.Some? {
        ConcatAssoc(pre, "#", fragment.value);
      }
    }
  }

  /** A reference with neither '?' nor '#' is all path. */
  lemma PlainPartsArePath(s: string)
    requires '?' !in s && '#' !in s
    ensures SplitQueryFragment(s) == Parts(s, None, None)
  {
    CutAtFirstAllKept(s, IsNotHash);
    CutAtFirstAllKept(s, IsNotQuestion);
  }

  /** The pieces of a path string between the characters `keep` rejects. */
  function SplitSegmentsBy(p: string, keep: char -> bool): (segs: seq<string>)
    ensures |segs| >= 1
    ensures forall i, j :: 0 <= i < |segs| && 0 <= j < |segs[i]| ==> keep(segs[i][j])
    decreases |p|
  {
    var (seg, rest) := CutAtFirst(p, keep);
    if rest.None? then [seg] else [seg] + SplitSegmentsBy(rest.value, keep)
  }

  /** The segments of a special URL's path: the pieces between separators. */
  function SplitSegments(p: string): (segs: seq<string>)
    ensures |segs| >= 1
  {
    SplitSegmentsBy(p, IsNotSeparator)
  }

  /** "." and its percent-encoded spellings. */
  predicate IsSingleDot(s: string) {
    s == "." || ToLower(s) == "%2e"
  }

  /** ".." and its percent-encoded spellings. */
  predicate IsDoubleDot(s: string) {
    s == ".." || ToLower(s) == ".%2e" || ToLower(s) == "%2e." || ToLower(s) == "%2e%2e"
  }

  /** Remove the last segment, if any. */
  function Shorten<T>(path: seq<T>): seq<T> {
    if path == [] then [] else path[..|path| - 1]
  }

  /** Append the segments of a path to `path` as the URL Standard's path
      state does: ".." removes the last segment, "." is dropped, and a
      trailing "." or ".." leaves an empty last segment. */
  function PushSegments(path: seq<string>, segs: seq<string>): seq<string>
    decreases |segs|
  {
    if segs == [] then path
    else
      var seg, last := segs[0], |segs| == 1;
      var next :=
        if IsDoubleDot(seg) then Shorten(path) + (if last then [""] else [])
        else if IsSingleDot(seg) then path + (if last then [""] else [])
        else path + [seg];
      PushSegments(next, segs[1..])
  }

  /** The path of a special URL after its authority: one separator, if
      present, is the start of the path. */
  function PathAfterAuthority(s: string): seq<string> {
    var p := if s != [] && IsSeparator(s[0]) then s[1..] else s;
    PushSegments([], SplitSegments(p))
  }

  /** Parse the authority and the rest of a special URL; every leading
      separator is skipped first. An empty host is a failure. */
  function ParseAuthority(scheme: string, s: string): (r: Option<Url>)
    ensures r.Some? ==> r.value.scheme == scheme && r.value.path.Segments? && r.value.host != ""
  {
    var a := s[Span(s, IsSeparator)..];
    var h := Span(a, IsHostChar);
    if h == 0 then None
    else
      var parts := SplitQueryFragment(a[h..]);
      Some(Url(scheme, a[..h], Segments(PathAfterAuthority(parts.path)), parts.query, parts.fragment))
  }

  predicate IsNotSlash(c: char) {
    c != '/'
  }

  /** A URL whose scheme is not special, after its ':'. A '/' there leads to
      the "path or authority" state: a second '/' starts an authority, which
      may be empty, ending at the next '/', and the path after it; a single
      '/' starts a hierarchical path. Anything else is an opaque path. Only
      '/' separates segments, and no URL of this kind fails to parse. */
  function NonSpecialUrl(scheme: string, rest: string): (u: Url)
    ensures u.scheme == scheme
    ensures u.path.Opaque? <==> !("/" <= SplitQueryFragment(rest).path)
    ensures u.path.Opaque? ==> u.host == ""
    ensures '/' !in u.host && '?' !in u.host && '#' !in u.host
  {
    var parts := SplitQueryFragment(rest);
    var p := parts.path;
    if "//" <= p then
      var (host, path) := CutAtFirst(p[2..], IsNotSlash);
      var segs := if path.None? then [] else PushSegments([], SplitSegmentsBy(path.value, IsNotSlash));
      Url(scheme, host, Segments(segs), parts.query, parts.fragment)
    else if "/" <= p then
      Url(scheme, "", Segments(PushSegments([], SplitSegmentsBy(p[1..], IsNotSlash))), parts.query, parts.fragment)
    else Url(scheme, "", Opaque(p), parts.query, parts.fragment)
  }

  /** Against a base whose scheme is not special, the reference `//` is
      the URL of that scheme with an empty host and an empty path. */
  lemma NonSpecialEmptyAuthority(base: Url)
    requires base.path.Segments? && base.scheme !in SpecialSchemes
    ensures Join(base, "//") == Some(Url(base.scheme, "", Segments([]), None, None))
  {
  }

  /** The relative state of the URL Standard: resolve a reference that
      carries no scheme of its own against a hierarchical base. Against a
      base of a special scheme, two leading separators start an authority
      whose host may not be empty; against any other base, `//` starts an
      authority of the base's scheme whose host may be empty. */
  function ResolveRelative(base: Url, input: string): (r: Option<Url>)
    requires base.path.Segments?
    ensures r.Some? ==> r.value.scheme == base.scheme
    ensures input == "" || !IsSeparator(input[0]) ==> r.Some? && r.value.host == base.host
    ensures r.None? ==> |input| >= 2 && IsSeparator(input[0]) && IsSeparator(input[1])
    ensures base.scheme !in SpecialSchemes && "//" <= input ==> r.Some? && r.value.path.Segments?
  {
    if input == "" then Some(base.(fragment := None))
    else if base.scheme !in SpecialSchemes && "//" <= input then Some(NonSpecialUrl(base.scheme, input))
    else if IsSeparator(input[0]) then
      var rest := input[1..];
      if rest != "" && IsSeparator(rest[0]) then ParseAuthority(base.scheme, rest)
      else
        var parts := SplitQueryFragment(rest);
        Some(Url(base.scheme, base.host, Segments(PushSegments([], SplitSegments(parts.path))), parts.query, parts.fragment))
    else
      var parts := SplitQueryFragment(input);
      if input[0] == '?' then Some(base.(query := parts.query, fragment := parts.fragment))
      else if input[0] == '#' then Some(base.(fragment := parts.fragment))
      else
        Some(Url(base.scheme, base.host, Segments(PushSegments(Shorten(base.path.segments), SplitSegments(parts.path))),
                 parts.query, parts.fragment))
  }

  /** The basic URL parser, with or without a base URL. A reference with a
      scheme keeps it; one without takes the base's, and needs a base. */
  function ParseWithBase(input: string, base: Option<Url>): (r: Option<Url>)
    ensures r.Some? && SplitScheme(input).Some? ==> r.value.scheme == SplitScheme(input).value.0
    ensures r.Some? && SplitScheme(input).None? ==> base.Some? && r.value.scheme == base.value.scheme
    ensures SplitScheme(input).Some? && SplitScheme(input).value.0 !in SpecialSchemes ==> r.Some?
  {
    match SplitScheme(input)
    case Some((scheme, rest)) =>
      if scheme !in SpecialSchemes then Some(NonSpecialUrl(scheme, rest))
      else if base.Some? && base.value.scheme == scheme && base.value.path.Segments? && !("//" <= rest) then
        ResolveRelative(base.value, rest)
      else ParseAuthority(scheme, rest)
    case None =>
      if base.None? then None
      else if base.value.path.Opaque? then
        if input != "" && input[0] == '#' then Some(base.value.(fragment := SplitQueryFragment(input).fragment)) else None
      else ResolveRelative(base.value, input)
  }

  /** `Url::parse`: an absolute URL on its own. It needs a scheme, and a
      URL of a special scheme has a non-empty host and a hierarchical path. */
  function ParseUrl(s: string): (r: Option<Url>)
    ensures r.Some? ==> SplitScheme(s).Some? && r.value.scheme == SplitScheme(s).value.0
    ensures r.Some? && r.value.scheme in SpecialSchemes ==> r.value.host != "" && r.value.path.Segments?
  {
    ParseWithBase(s, None)
  }

  /** `Url::join`: `input` parsed with `base` as its base. The result has
      the reference's scheme when it carries one, and the base's otherwise. */
  function Join(base: Url, input: string): (r: Option<Url>)
    ensures r.Some? ==> r.value.scheme == (if SplitScheme(input).Some? then SplitScheme(input).value.0 else base.scheme)
  {
    ParseWithBase(input, Some(base))
  }

  /** The text of a hierarchical path. */
  function PathString(segs: seq<string>): string {
    if segs == [] then "" else "/" + segs[0] + PathString(segs[1..])
  }

  /** The directory part of a path: everything up to and including its
      last '/'. */
  function Directory(p: string): (d: string)
    ensures d <= p
    ensures d == "" || d[|d| - 1] == '/'
    ensures forall i :: |d| <= i < |p| ==> p[i] != '/'
  {
    if p == "" then ""
    else if p[|p| - 1] == '/' then p
    else Directory(p[..|p| - 1])
  }

  /** A relative reference that is just a path of ordinary segments: no
      scheme, no leading separator, no backslash, query or fragment, and no
      "." or ".." segment. */
  predicate PlainRelative(t: string) {
    && t != ""
    && t[0] != '/'
    && SplitScheme(t).None?
    && '\\' !in t && '?' !in t && '#' !in t
    && forall seg :: seg in SplitSegments(t) ==> !IsSingleDot(seg) && !IsDoubleDot(seg)
  }

  lemma {:induction false} PushOrdinarySegments(path: seq<string>, segs: seq<string>)
    requires forall seg :: seg in segs ==> !IsSingleDot(seg) && !IsDoubleDot(seg)
    ensures PushSegments(path, segs) == path + segs
    decreases |segs|
  {
    if segs != [] {
      assert segs[0] in segs;
      PushOrdinarySegments(path + [segs[0]], segs[1..]);
      assert path + [segs[0]] + segs[1..] == path + segs;
    }
  }

  lemma {:induction false} PathStringAppend(a: seq<string>, b: seq<string>)
    ensures PathString(a + b) == PathString(a) + PathString(b)
    decreases |a|
  {
    if a == [] {
      assert a + b == b;
    } else {
      assert (a + b)[0] == a[0];
      assert (a + b)[1..] == a[1..] + b;
      PathStringAppend(a[1..], b);
      assert PathString(a + b) == "/" + a[0] + (PathString(a[1..]) + PathString(b));
    }
  }

  /** Writing out a path whose first segment is `x`. */
  lemma PathStringCons(x: string, rest: seq<string>)
    ensures PathString([x] + rest) == "/" + x + PathString(rest)
  {
    assert ([x] + rest)[0] == x;
    assert ([x] + rest)[1..] == rest;
  }

  /** Splitting a path without backslashes into segments and writing the
      segments back out gives the path again, after a leading '/'. */
  lemma {:induction false} PathStringOfSplit(t: string)
    requires '\\' !in t
    ensures PathString(SplitSegments(t)) == "/" + t
    decreases |t|
  {
    var (seg, rest) := CutAtFirst(t, IsNotSeparator);
    if rest.None? {
      PathStringCons(t, []);
      assert [t] + [] == [t];
    } else {
      var r := rest.value;
      assert t[|seg|] in t;
      assert t == seg + "/" + r;
      assert '\\' !in r;
      PathStringOfSplit(r);
      PathStringOfSplitStep(t, seg, r);
    }
  }

  /** The step of the above at the first separator. */
  lemma PathStringOfSplitStep(t: string, seg: string, r: string)
    requires CutAtFirst(t, IsNotSeparator) == (seg, Some(r)) && t == seg + "/" + r
    requires PathString(SplitSegments(r)) == "/" + r
    ensures PathString(SplitSegments(t)) == "/" + t
  {
    PathStringCons(seg, SplitSegments(r));
    ConcatAssoc(seg, "/", r);
    ConcatAssoc("/", seg, "/" + r);
  }

  lemma {:induction false} DirectoryAfterSlash(x: string, last: string)
    requires '/' !in last
    ensures Directory(x + "/" + last) == x + "/"
    decreases |last|
  {
    if last != "" {
      var w := x + "/" + last;
      assert w[|w| - 1] == last[|last| - 1];
      assert last[|last| - 1] in last;
      var shorter := last[..|last| - 1];
      assert w[..|w| - 1] == x + "/" + shorter;
      assert '/' !in shorter by {
        forall j | 0 <= j < |shorter| ensures shorter[j] != '/' { assert shorter[j] in last; }
      }
      DirectoryAfterSlash(x, shorter);
    } else {
      assert x + "/" + last == x + "/";
    }
  }

  lemma {:induction false} PathStringSnoc(init: seq<string>, last: string)
    ensures PathString(init + [last]) == PathString(init) + "/" + last
    decreases |init|
  {
    if init == [] {
      assert init + [last] == [last];
    } else {
      assert (init + [last])[1..] == init[1..] + [last];
      PathStringSnoc(init[1..], last);
    }
  }

  /** The directory of a hierarchical path is the path without its last
      segment, followed by '/'. */
  lemma DirectoryOfPath(segs: seq<string>)
    requires segs != [] && '/' !in segs[|segs| - 1]
    ensures Directory(PathString(segs)) == PathString(Shorten(segs)) + "/"
  {
    ShortenSnoc(segs);
    DirectoryOfSnoc(Shorten(segs), segs[|segs| - 1]);
  }

  lemma ShortenSnoc<T>(s: seq<T>)
    requires s != []
    ensures s == Shorten(s) + [s[|s| - 1]]
  {
  }

  lemma DirectoryOfSnoc(init: seq<string>, last: string)
    requires '/' !in last
    ensures Directory(PathString(init + [last])) == PathString(init) + "/"
  {
    PathStringSnoc(init, last);
    DirectoryAfterSlash(PathString(init), last);
  }

  /** Joining a plain relative path to a hierarchical base keeps the base's
      scheme and host, drops the base's last segment and appends the
      reference's segments; the query and fragment are cleared. */
  lemma JoinPlainRelative(base: Url, t: string)
    requires base.path.Segments?
    requires PlainRelative(t)
    ensures Join(base, t) == Some(Url(base.scheme, base.host,
                                      Segments(Shorten(base.path.segments) + SplitSegments(t)), None, None))
  {
    PlainPartsArePath(t);
    PushOrdinarySegments(Shorten(base.path.segments), SplitSegments(t));
  }

  /** As text, the joined path is the base path up to and including its
      last '/', followed by the reference. */
  lemma MergedPathString(baseSegs: seq<string>, t: string)
    requires baseSegs != [] && '/' !in baseSegs[|baseSegs| - 1]
    requires PlainRelative(t)
    ensures PathString(Shorten(baseSegs) + SplitSegments(t)) == Directory(PathString(baseSegs)) + t
  {
    PathStringAppend(Shorten(baseSegs), SplitSegments(t));
    PathStringOfSplit(t);
    DirectoryOfPath(baseSegs);
    ConcatAssoc(PathString(Shorten(baseSegs)), "/", t);
  }

  /** The empty reference is the base without its fragment. */
  lemma JoinEmpty(base: Url)
    requires base.path.Segments?
    ensures Join(base, "") == Some(base.(fragment := None))
  {
    assert SplitScheme("") == None;
  }

  /** A reference with no scheme and no leading separator is resolved
      inside the base: the result has the base's scheme and host. */
  lemma JoinRelativeKeepsOrigin(base: Url, input: string)
    requires base.path.Segments?
    requires SplitScheme(input).None?
    requires input == "" || !IsSeparator(input[0])
    ensures Join(base, input).Some?
    ensures Join(base, input).value.scheme == base.scheme
    ensures Join(base, input).value.host == base.host
  {
  }

  lemma {:induction false} SpanAfterKept(a: string, t: string, keep: char -> bool)
    requires forall i :: 0 <= i < |a| ==> keep(a[i])
    ensures Span(a + t, keep) == |a| + Span(t, keep)
  {
    if a == [] {
      assert a + t == t;
    } else {
      assert a + t == [a[0]] + (a[1..] + t);
      SpanCons(a[0], a[1..] + t, keep);
      SpanAfterKept(a[1..], t, keep);
    }
  }

  /** The span over a kept prefix stops at the first character after it
      that is not kept. */
  lemma SpanStopsAt(a: string, t: string, keep: char -> bool)
    requires forall i :: 0 <= i < |a| ==> keep(a[i])
    requires t != [] && !keep(t[0])
    ensures Span(a + t, keep) == |a|
  {
    SpanAfterKept(a, t, keep);
  }

  lemma SplitQueryFragmentDotSlash(t: string)
    ensures SplitQueryFragment("./" + t) == SplitQueryFragment(t).(path := "./" + SplitQueryFragment(t).path)
  {
    CutAtFirstAfterKept("./", t, IsNotHash);
    CutAtFirstAfterKept("./", CutAtFirst(t, IsNotHash).0, IsNotQuestion);
  }

  /** Slicing after a prefix `a` is slicing the rest. */
  lemma ShiftSlices<T>(a: seq<T>, b: seq<T>, k: nat)
    requires k <= |b|
    ensures (a + b)[..|a| + k] == a + b[..k]
    ensures (a + b)[|a| + k..] == b[k..]
  {
  }

  lemma SplitSegmentsDotSlash(p: string)
    ensures SplitSegments("./" + p) == ["."] + SplitSegments(p)
  {
    assert "./" + p == "." + ("/" + p);
    SpanStopsAt(".", "/" + p, IsNotSeparator);
    ShiftSlices(".", "/" + p, 0);
    ShiftSlices(".", "/" + p, 1);
    assert ("/" + p)[1..] == p;
  }

  lemma PushAfterDot(x: seq<string>, segs: seq<string>)
    requires segs != []
    ensures PushSegments(x, ["."] + segs) == PushSegments(x, segs)
  {
    assert (["."] + segs)[1..] == segs;
    assert x + [] == x;
  }

  /** Putting "./" in front of a path reference that starts with an
      ordinary character does not change how it resolves. */
  lemma DotSlashPrefixNeutral(base: Url, t: string)
    requires base.path.Segments?
    requires t != "" && !IsSeparator(t[0]) && t[0] != '?' && t[0] != '#'
    ensures ResolveRelative(base, "./" + t) == ResolveRelative(base, t)
  {
    SplitQueryFragmentDotSlash(t);
    var parts := SplitQueryFragment(t);
    SplitSegmentsDotSlash(parts.path);
    PushAfterDot(Shorten(base.path.segments), SplitSegments(parts.path));
  }

  /** No segment of a path contains a separator. */
  predicate NoSeparators(segs: seq<string>) {
    forall i, j :: 0 <= i < |segs| && 0 <= j < |segs[i]| ==> !IsSeparator(segs[i][j])
  }

  lemma AppendNoSeparators(a: seq<string>, b: seq<string>)
    requires NoSeparators(a) && NoSeparators(b)
    ensures NoSeparators(a + b)
  {
    forall i, j | 0 <= i < |a + b| && 0 <= j < |(a + b)[i]| ensures !IsSeparator((a + b)[i][j]) {
      if i < |a| {
        assert (a + b)[i] == a[i];
      } else {
        assert (a + b)[i] == b[i - |a|];
      }
    }
  }

  /** The path state keeps segments free of separators, and pushing at
      least one segment leaves a non-empty path. */
  lemma {:induction false} PushSegmentsShape(path: seq<string>, segs: seq<string>)
    requires NoSeparators(path) && NoSeparators(segs)
    ensures NoSeparators(PushSegments(path, segs))
    ensures segs != [] ==> PushSegments(path, segs) != []
    decreases |segs|
  {
    if segs != [] {
      var seg, last := segs[0], |segs| == 1;
      var next :=
        if IsDoubleDot(seg) then Shorten(path) + (if last then [""] else [])
        else if IsSingleDot(seg) then path + (if last then [""] else [])
        else path + [seg];
      assert NoSeparators(segs[1..]) by {
        forall i, j | 0 <= i < |segs[1..]| && 0 <= j < |segs[1..][i]| ensures !IsSeparator(segs[1..][i][j]) {
          assert segs[1..][i] == segs[i + 1];
        }
      }
      assert NoSeparators(Shorten(path)) by {
        if path != [] {
          forall i, j | 0 <= i < |Shorten(path)| && 0 <= j < |Shorten(path)[i]|
            ensures !IsSeparator(Shorten(path)[i][j])
          {
            assert Shorten(path)[i] == path[i];
          }
        }
      }
      assert NoSeparators([seg]) by {
        forall j | 0 <= j < |seg| ensures !IsSeparator(seg[j]) { assert seg[j] == segs[0][j]; }
      }
      AppendNoSeparators(Shorten(path), [""]);
      AppendNoSeparators(path, [""]);
      AppendNoSeparators(path, [seg]);
      assert Shorten(path) + [] == Shorten(path);
      assert path + [] == path;
      PushSegmentsShape(next, segs[1..]);
      if last {
        assert next != [];
        assert PushSegments(next, segs[1..]) == next;
      }
    }
  }

  /** No segment of a split path contains a separator. */
  lemma SplitSegmentsNoSeparators(p: string)
    ensures NoSeparators(SplitSegments(p))
  {
    var segs := SplitSegments(p);
    forall i, j | 0 <= i < |segs| && 0 <= j < |segs[i]| ensures !IsSeparator(segs[i][j]) {
      assert IsNotSeparator(segs[i][j]);
    }
  }

  /** The path of a special URL after its authority has at least one
      segment, none containing a separator. */
  lemma PathAfterAuthorityShape(s: string)
    ensures PathAfterAuthority(s) != [] && NoSeparators(PathAfterAuthority(s))
  {
    var p := if s != [] && IsSeparator(s[0]) then s[1..] else s;
    SplitSegmentsNoSeparators(p);
    PushSegmentsShape([], SplitSegments(p));
  }

  /** A URL of a special scheme that the parser produces from an absolute
      URL has at least one path segment, and no segment contains a
      separator. */
  lemma ParsedPathShape(s: string)
    requires ParseUrl(s).Some? && ParseUrl(s).value.scheme in SpecialSchemes
    ensures ParseUrl(s).value.path.segments != []
    ensures NoSeparators(ParseUrl(s).value.path.segments)
  {
    var sc := SplitScheme(s).value;
    var a := sc.1[Span(sc.1, IsSeparator)..];
    var h := Span(a, IsHostChar);
    PathAfterAuthorityShape(SplitQueryFragment(a[h..]).path);
  }
}

/** Building the upstream URL from a matched prefix and the rest of the
    request path: look the prefix up, parse its base URL, strip every
    leading '/' from the rest and join it onto the base. */
module TargetUrl {
  import opened Common
  import opened Http
  import opened UrlModel
  import opened RouteTable

  predicate IsSlash(c: char) {
    c == '/'
  }

  /** `trim_start_matches('/')`: drop every leading '/'. */
  function TrimLeadingSlashes(s: string): (t: string)
    ensures |t| <= |s| && t == s[|s| - |t|..]
    ensures forall i :: 0 <= i < |s| - |t| ==> s[i] == '/'
    ensures t == "" || t[0] != '/'
  {
    s[Span(s, IsSlash)..]
  }

  /** Trimming twice is trimming once. */
  lemma TrimIdempotent(s: string)
    ensures TrimLeadingSlashes(TrimLeadingSlashes(s)) == TrimLeadingSlashes(s)
  {
    var t := TrimLeadingSlashes(s);
    assert t == "" || !IsSlash(t[0]);
    assert t[0..] == t;
  }

  /** The base URL a prefix maps to, parsed, or the error the source
      reports when the prefix is unknown or its base does not parse. */
  function BaseUrl(mapping: map<string, string>, prefix: string): (r: Result<Url, ProxyError>)
    ensures r.Err? <==> prefix !in mapping || ParseUrl(mapping[prefix]).None?
    ensures r.Err? ==> r.error == InvalidUrl
    ensures r.Ok? ==> ParseUrl(mapping[prefix]) == Some(r.value)
  {
    if prefix !in mapping then Err(InvalidUrl)
    else
      match ParseUrl(mapping[prefix])
      case None => Err(InvalidUrl)
      case Some(base) => Ok(base)
  }

  /** `build_target_url` as the source writes it: the trimmed rest is
      joined onto the base as a reference of its own, so a rest that is
      itself an absolute URL replaces the base entirely. */
  function BuildTargetUrl(mapping: map<string, string>, prefix: string, rest: string): (r: Result<Url, ProxyError>)
    ensures r.Ok? <==> BaseUrl(mapping, prefix).Ok? && Join(BaseUrl(mapping, prefix).value, TrimLeadingSlashes(rest)).Some?
    ensures r.Err? ==> r.error == InvalidUrl
    ensures r.Ok? ==> Join(BaseUrl(mapping, prefix).value, TrimLeadingSlashes(rest)) == Some(r.value)
  {
    match BaseUrl(mapping, prefix)
    case Err(e) => Err(e)
    case Ok(base) =>
      match Join(base, TrimLeadingSlashes(rest))
      case None => Err(InvalidUrl)
      case Some(u) => Ok(u)
  }

  /** For a base of a special scheme and a rest whose trimmed form is a
      plain relative path, the target keeps the base's scheme and host, and its path is the base path up
      to its last '/' followed by the trimmed rest; the query is dropped. */
  lemma PlainRestTarget(mapping: map<string, string>, prefix: string, rest: string)
    requires BaseUrl(mapping, prefix).Ok? && BaseUrl(mapping, prefix).value.scheme in SpecialSchemes
    requires PlainRelative(TrimLeadingSlashes(rest))
    ensures var base := BaseUrl(mapping, prefix).value;
      var r := BuildTargetUrl(mapping, prefix, rest);
      && r.Ok? && r.value.scheme == base.scheme && r.value.host == base.host
      && r.value.path.Segments? && r.value.query.None? && r.value.fragment.None?
      && PathString(r.value.path.segments) == Directory(PathString(base.path.segments)) + TrimLeadingSlashes(rest)
  {
    var base := BaseUrl(mapping, prefix).value;
    var t := TrimLeadingSlashes(rest);
    ParsedPathShape(mapping[prefix]);
    var segs := base.path.segments;
    var last := segs[|segs| - 1];
    assert '/' !in last by {
      forall j | 0 <= j < |last| ensures last[j] != '/' {
        assert !IsSeparator(segs[|segs| - 1][j]);
      }
    }
    JoinPlainRelative(base, t);
    MergedPathString(segs, t);
  }

  /** A scheme in lower case followed by ':' splits off as that scheme. */
  lemma SplitSchemeOf(scheme: string, rest: string)
    requires scheme != [] && IsAsciiAlpha(scheme[0]) && ToLower(scheme) == scheme
    requires forall i :: 0 <= i < |scheme| ==> IsSchemeChar(scheme[i])
    ensures SplitScheme(scheme + ":" + rest) == Some((scheme, rest))
  {
    var s := scheme + ":" + rest;
    assert s == scheme + (":" + rest);
    SpanAfterKept(scheme, ":" + rest, IsSchemeChar);
    assert !IsSchemeChar((":" + rest)[0]);
    assert Span(":" + rest, IsSchemeChar) == 0;
    assert s[..|scheme|] == scheme;
    assert s[|scheme| + 1..] == rest;
  }

  /** The authority of a special URL written `//host/path`. */
  lemma ParseAuthorityOf(scheme: string, host: string, path: string)
    requires host != [] && forall i :: 0 <= i < |host| ==> IsHostChar(host[i])
    requires '?' !in path && '#' !in path
    ensures ParseAuthority(scheme, "//" + (host + ("/" + path)))
         == Some(Url(scheme, host, Segments(PushSegments([], SplitSegments(path))), None, None))
  {
    var tail := "/" + path;
    var a := host + tail;
    assert a[0] == host[0];
    SpanStopsAt("//", a, IsSeparator);
    DropPrefix("//", a);
    SpanStopsAt(host, tail, IsHostChar);
    DropPrefix(host, tail);
    assert '?' !in tail && '#' !in tail;
    PlainPartsArePath(tail);
    assert tail[1..] == path;
  }

  /** A segment with neither '.' nor '%' is not a dot segment. */
  lemma NotDotSegment(seg: string)
    requires seg != "" && '.' !in seg && '%' !in seg
    ensures !IsSingleDot(seg) && !IsDoubleDot(seg)
  {
    var c := LowerChar(seg[0]);
    assert seg[0] in seg;
    assert ToLower(seg)[0] == c;
    assert c != '.' && c != '%';
  }

  /** A single ordinary segment is pushed as it is. */
  lemma SingleSegment(seg: string)
    requires seg != "" && '/' !in seg && '\\' !in seg && '.' !in seg && '%' !in seg
    ensures SplitSegments(seg) == [seg]
    ensures PushSegments([], SplitSegments(seg)) == [seg]
  {
    forall i | 0 <= i < |seg| ensures IsNotSeparator(seg[i]) {
      assert seg[i] in seg;
    }
    CutAtFirstAllKept(seg, IsNotSeparator);
    NotDotSegment(seg);
    assert PushSegments([], [seg]) == PushSegments([seg], []);
  }

  lemma DiscordBaseScheme()
    ensures SplitScheme("https://discord.com/api") == Some(("https", "//discord.com/api"))
  {
    assert "https://discord.com/api" == "https" + ":" + "//discord.com/api";
    SplitSchemeOf("https", "//discord.com/api");
  }

  lemma DiscordBaseAuthority()
    ensures ParseAuthority("https", "//discord.com/api")
         == Some(Url("https", "discord.com", Segments(PushSegments([], SplitSegments("api"))), None, None))
  {
    assert "//discord.com/api" == "//" + ("discord.com" + ("/" + "api"));
    ParseAuthorityOf("https", "discord.com", "api");
  }

  lemma DiscordBasePath()
    ensures PushSegments([], SplitSegments("api")) == ["api"]
  {
    SingleSegment("api");
  }

  /** The base of the Discord route, parsed. */
  lemma ParseDiscordBase()
    ensures ParseUrl("https://discord.com/api") == Some(Url("https", "discord.com", Segments(["api"]), None, None))
  {
    DiscordBaseScheme();
    DiscordBaseAuthority();
    DiscordBasePath();
  }

  /** Joining one ordinary segment replaces the base's last segment. */
  lemma JoinSingleSegment(base: Url, seg: string)
    requires base.path.Segments?
    requires seg != "" && '/' !in seg && '\\' !in seg && '.' !in seg && '%' !in seg
    requires ':' !in seg && '?' !in seg && '#' !in seg
    ensures Join(base, seg) == Some(Url(base.scheme, base.host, Segments(Shorten(base.path.segments) + [seg]), None, None))
  {
    assert SplitScheme(seg).None? by {
      var n := Span(seg, IsSchemeChar);
      if n < |seg| {
        assert seg[n] in seg;
      }
    }
    SingleSegment(seg);
    NotDotSegment(seg);
    assert seg[0] in seg;
    assert PlainRelative(seg);
    JoinPlainRelative(base, seg);
  }

  /** The rest `/seg` trims to `seg`. */
  lemma TrimOneSlash(seg: string)
    requires seg != "" && seg[0] != '/'
    ensures TrimLeadingSlashes("/" + seg) == seg
  {
    assert "/" + seg == ['/'] + seg;
    SpanCons('/', seg, IsSlash);
    assert ("/" + seg)[1..] == seg;
  }

  lemma DiscordUsersJoin()
    ensures Join(Url("https", "discord.com", Segments(["api"]), None, None), "users")
         == Some(Url("https", "discord.com", Segments(["users"]), None, None))
  {
    JoinSingleSegment(Url("https", "discord.com", Segments(["api"]), None, None), "users");
    assert Shorten(["api"]) + ["users"] == ["users"];
  }

  lemma TrimUsers()
    ensures TrimLeadingSlashes("/users") == "users"
  {
    TrimOneSlash("users");
  }

  /** The Discord route drops the base's last segment: `/discord/users`
      is sent to `https://discord.com/users`, not `.../api/users`. */
  lemma DiscordDropsApiSegment()
    ensures BuildTargetUrl(ApiMapping, "/discord", "/users")
         == Ok(Url("https", "discord.com", Segments(["users"]), None, None))
  {
    DiscordRoute();
    ParseDiscordBase();
    TrimUsers();
    DiscordUsersJoin();
  }

  /** A request for exactly a prefix is sent to the base URL itself. */
  lemma ExactPrefixTargetsBase(mapping: map<string, string>, prefix: string)
    requires BaseUrl(mapping, prefix).Ok? && BaseUrl(mapping, prefix).value.path.Segments?
    ensures BuildTargetUrl(mapping, prefix, "") == Ok(BaseUrl(mapping, prefix).value.(fragment := None))
  {
    TrimEmpty();
    JoinEmpty(BaseUrl(mapping, prefix).value);
  }

  lemma TrimEmpty()
    ensures TrimLeadingSlashes("") == ""
  {
  }

  lemma EvilScheme()
    ensures SplitScheme("https://evil.example/x") == Some(("https", "//evil.example/x"))
  {
    assert "https://evil.example/x" == "https" + ":" + "//evil.example/x";
    SplitSchemeOf("https", "//evil.example/x");
  }

  lemma EvilAuthority()
    ensures ParseAuthority("https", "//evil.example/x")
         == Some(Url("https", "evil.example", Segments(PushSegments([], SplitSegments("x"))), None, None))
  {
    assert "//evil.example/x" == "//" + ("evil.example" + ("/" + "x"));
    ParseAuthorityOf("https", "evil.example", "x");
  }

  lemma EvilPath()
    ensures PushSegments([], SplitSegments("x")) == ["x"]
  {
    SingleSegment("x");
  }

  /** The reference `https://evil.example/x` parsed against any base: an
      absolute URL of a special scheme, so the base plays no part. */
  lemma EvilReference(base: Url)
    ensures Join(base, "https://evil.example/x") == Some(Url("https", "evil.example", Segments(["x"]), None, None))
  {
    EvilScheme();
    EvilAuthority();
    EvilPath();
    assert "//" <= "//evil.example/x";
  }

  /** A rest made of one '/' and a reference targets that reference
      joined to the base. */
  lemma SlashRestTarget(mapping: map<string, string>, prefix: string, reference: string, u: Url)
    requires BaseUrl(mapping, prefix).Ok?
    requires reference != "" && reference[0] != '/'
    requires Join(BaseUrl(mapping, prefix).value, reference) == Some(u)
    ensures BuildTargetUrl(mapping, prefix, "/" + reference) == Ok(u)
  {
    TrimOneSlash(reference);
  }

  /** As written, the rest of the request path can name another host: a
      request for `<prefix>/https://evil.example/x` is sent to
      `evil.example`, whatever base the prefix maps to. */
  lemma RestCanRedirectHost(mapping: map<string, string>, prefix: string)
    requires BaseUrl(mapping, prefix).Ok?
    ensures BuildTargetUrl(mapping, prefix, "/" + "https://evil.example/x")
         == Ok(Url("https", "evil.example", Segments(["x"]), None, None))
  {
    EvilReference(BaseUrl(mapping, prefix).value);
    SlashRestTarget(mapping, prefix, "https://evil.example/x", Url("https", "evil.example", Segments(["x"]), None, None));
  }

  /** The reference `https://` parsed against any base: a special scheme
      with no host after it, which the parser refuses. */
  lemma EmptyHostReference(base: Url)
    ensures Join(base, "https://").None?
  {
    assert "https://" == "https" + ":" + "//";
    SplitSchemeOf("https", "//");
    assert Span("//", IsSeparator) == 2;
  }

  /** As written, a request for `<prefix>/https://` is an invalid target,
      whatever base the prefix maps to; the corrected builder accepts it. */
  lemma EmptyHostRestIsInvalid(mapping: map<string, string>, prefix: string)
    ensures BuildTargetUrl(mapping, prefix, "/https://") == Err(InvalidUrl)
    ensures BaseUrl(mapping, prefix).Ok? && BaseUrl(mapping, prefix).value.path.Segments?
        ==> BuildConfinedTargetUrl(mapping, prefix, "/https://").Ok?
  {
    assert "/https://" == "/" + "https://";
    TrimOneSlash("https://");
    if BaseUrl(mapping, prefix).Ok? {
      EmptyHostReference(BaseUrl(mapping, prefix).value);
    }
  }

  lemma FooScheme()
    ensures SplitScheme("foo://evil.example/x") == Some(("foo", "//evil.example/x"))
  {
    assert "foo://evil.example/x" == "foo" + ":" + "//evil.example/x";
    SplitSchemeOf("foo", "//evil.example/x");
  }

  /** The authority of a URL of a scheme that is not special, written
      `//host/path`. */
  lemma NonSpecialAuthorityOf(scheme: string, host: string, path: string)
    requires '/' !in host && '?' !in host && '#' !in host
    requires '?' !in path && '#' !in path
    ensures NonSpecialUrl(scheme, "//" + (host + ("/" + path)))
         == Url(scheme, host, Segments(PushSegments([], SplitSegmentsBy(path, IsNotSlash))), None, None)
  {
    var a := host + ("/" + path);
    var rest := "//" + a;
    assert '?' !in rest && '#' !in rest;
    PlainPartsArePath(rest);
    DropPrefix("//", a);
    CutAtSlash(host, path);
  }

  /** Cutting `host/path` at its first '/'. */
  lemma CutAtSlash(host: string, path: string)
    requires '/' !in host
    ensures CutAtFirst(host + ("/" + path), IsNotSlash) == (host, Some(path))
  {
    var tail := "/" + path;
    forall i | 0 <= i < |host| ensures IsNotSlash(host[i]) {
      assert host[i] in host;
    }
    SpanStopsAt(host, tail, IsNotSlash);
    DropPrefix(host, tail);
    ShiftSlices(host, tail, 1);
    assert tail[1..] == path;
  }

  lemma FooPath()
    ensures PushSegments([], SplitSegmentsBy("x", IsNotSlash)) == ["x"]
  {
    CutAtFirstAllKept("x", IsNotSlash);
    NotDotSegment("x");
    assert PushSegments([], ["x"]) == PushSegments(["x"], []);
  }

  lemma FooUrl()
    ensures NonSpecialUrl("foo", "//evil.example/x") == Url("foo", "evil.example", Segments(["x"]), None, None)
  {
    assert "//evil.example/x" == "//" + ("evil.example" + ("/" + "x"));
    NonSpecialAuthorityOf("foo", "evil.example", "x");
    FooPath();
  }

  lemma FooNotSpecial()
    ensures "foo" !in SpecialSchemes
  {
  }

  /** A reference with a scheme that is not special is parsed on its own,
      whatever the base. */
  lemma JoinNonSpecial(base: Url, input: string, scheme: string, rest: string)
    requires SplitScheme(input) == Some((scheme, rest)) && scheme !in SpecialSchemes
    ensures Join(base, input) == Some(NonSpecialUrl(scheme, rest))
  {
  }

  /** The reference `foo://evil.example/x` parsed against any base: a
      scheme that is not special, followed by an authority. */
  lemma FooReference(base: Url)
    ensures Join(base, "foo://evil.example/x") == Some(Url("foo", "evil.example", Segments(["x"]), None, None))
  {
    FooScheme();
    FooNotSpecial();
    JoinNonSpecial(base, "foo://evil.example/x", "foo", "//evil.example/x");
    FooUrl();
  }

  /** As written, a rest naming a URL of a scheme that is not special
      leaves the base too: `<prefix>/foo://evil.example/x` targets host
      `evil.example` under the scheme `foo`. */
  lemma NonSpecialRestLeavesBase(mapping: map<string, string>, prefix: string)
    requires BaseUrl(mapping, prefix).Ok?
    ensures BuildTargetUrl(mapping, prefix, "/" + "foo://evil.example/x")
         == Ok(Url("foo", "evil.example", Segments(["x"]), None, None))
  {
    FooReference(BaseUrl(mapping, prefix).value);
    SlashRestTarget(mapping, prefix, "foo://evil.example/x", Url("foo", "evil.example", Segments(["x"]), None, None));
  }

  /** The reference the corrected builder joins: the trimmed rest behind
      "./", so that it is always a path relative to the base. */
  function ConfinedReference(rest: string): (ref: string)
    ensures ref == "" <==> TrimLeadingSlashes(rest) == ""
    ensures ref != "" ==> ref == "./" + TrimLeadingSlashes(rest)
  {
    var t := TrimLeadingSlashes(rest);
    if t == "" then "" else "./" + t
  }

  /** The confined reference carries no scheme and no leading separator. */
  lemma ConfinedReferenceIsRelative(rest: string)
    ensures SplitScheme(ConfinedReference(rest)).None?
    ensures ConfinedReference(rest) == "" || !IsSeparator(ConfinedReference(rest)[0])
  {
    var ref := ConfinedReference(rest);
    assert ref == "" || ref[0] == '.';
  }

  /** `build_target_url` with the rest confined to the base: the target
      always has the base's scheme and host, and only a prefix outside the
      mapping, an unparsable base or a base without a hierarchical path
      is an error. */
  function BuildConfinedTargetUrl(mapping: map<string, string>, prefix: string, rest: string): (r: Result<Url, ProxyError>)
    ensures r.Err? <==> BaseUrl(mapping, prefix).Err? || BaseUrl(mapping, prefix).value.path.Opaque?
    ensures r.Err? ==> r.error == InvalidUrl
    ensures r.Ok? ==> (r.value.scheme == BaseUrl(mapping, prefix).value.scheme
                       && r.value.host == BaseUrl(mapping, prefix).value.host)
  {
    match BaseUrl(mapping, prefix)
    case Err(e) => Err(e)
    case Ok(base) =>
      var ref := ConfinedReference(rest);
      if base.path.Opaque? then Err(InvalidUrl)
      else
        ConfinedReferenceIsRelative(rest);
        JoinRelativeKeepsOrigin(base, ref);
        Ok(Join(base, ref).value)
  }

  /** The corrected builder differs from the source's only where the rest
      is not an ordinary path: for a rest whose trimmed form is empty, or
      starts with an ordinary character and carries no scheme, both build
      the same target. */
  lemma ConfinedAgreesOnOrdinaryRest(mapping: map<string, string>, prefix: string, rest: string)
    requires BaseUrl(mapping, prefix).Ok? && BaseUrl(mapping, prefix).value.path.Segments?
    requires var t := TrimLeadingSlashes(rest);
      t == "" || (SplitScheme(t).None? && !IsSeparator(t[0]) && t[0] != '?' && t[0] != '#')
    ensures BuildConfinedTargetUrl(mapping, prefix, rest) == BuildTargetUrl(mapping, prefix, rest)
  {
    var t := TrimLeadingSlashes(rest);
    if t != "" {
      DotSlashPrefixNeutral(BaseUrl(mapping, prefix).value, t);
    }
  }

  /** The corrected builder sends `<prefix>/https://evil.example/x` to the
      base's own host. */
  lemma ConfinedKeepsEvilRestAtBase(mapping: map<string, string>, prefix: string)
    requires BaseUrl(mapping, prefix).Ok? && BaseUrl(mapping, prefix).value.path.Segments?
    ensures BuildConfinedTargetUrl(mapping, prefix, "/https://evil.example/x").Ok?
    ensures BuildConfinedTargetUrl(mapping, prefix, "/https://evil.example/x").value.host
         == BaseUrl(mapping, prefix).value.host
  {
  }

  lemma EvilRest()
    ensures "/https://evil.example/x" == "/" + "https://evil.example/x"
  {
  }

  /** On the deployed table: `/discord/https://evil.example/x` is sent to
      `evil.example` as written, and to `discord.com` by the corrected
      builder. */
  lemma DiscordRouteRedirect()
    ensures BuildTargetUrl(ApiMapping, "/discord", "/https://evil.example/x")
         == Ok(Url("https", "evil.example", Segments(["x"]), None, None))
    ensures BuildConfinedTargetUrl(ApiMapping, "/discord", "/https://evil.example/x").Ok?
    ensures BuildConfinedTargetUrl(ApiMapping, "/discord", "/https://evil.example/x").value.host == "discord.com"
  {
    DiscordRoute();
    ParseDiscordBase();
    EvilRest();
    RestCanRedirectHost(ApiMapping, "/discord");
    ConfinedKeepsEvilRestAtBase(ApiMapping, "/discord");
  }
}

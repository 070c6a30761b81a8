/** Route resolution: the fixed table from path prefix to upstream base
    URL, and the longest-literal-prefix lookup over it. */
module RouteTable {
  import opened Common

  /** The table, in the order the source inserts it (21 entries). */
  const ApiRoutes: seq<(string, string)> := [
    ("/anthropic", "https://api.anthropic.com"),
    ("/claude", "https://api.anthropic.com"),
    ("/cerebras", "https://api.cerebras.ai"),
    ("/cohere", "https://api.cohere.ai"),
    ("/discord", "https://discord.com/api"),
    ("/fireworks", "https://api.fireworks.ai"),
    ("/gemini", "https://generativelanguage.googleapis.com"),
    ("/groq", "https://api.groq.com/openai"),
    ("/huggingface", "https://api-inference.huggingface.co"),
    ("/meta", "https://www.meta.ai/api"),
    ("/novita", "https://api.novita.ai"),
    ("/nvidia", "https://integrate.api.nvidia.com"),
    ("/oaipro", "https://api.oaipro.com"),
    ("/openai", "https://api.openai.com"),
    ("/openrouter", "https://openrouter.ai/api"),
    ("/portkey", "https://api.portkey.ai"),
    ("/reka", "https://api.reka.ai"),
    ("/telegram", "https://api.telegram.org"),
    ("/together", "https://api.together.xyz"),
    ("/xai", "https://api.x.ai"),
    ("/github", "https://api.github.com")
  ]

  /** The lookup map built from a list of routes by inserting them in order,
      as the source builds its hash map; a later insert of a key replaces an
      earlier one. */
  function Mapping(routes: seq<(string, string)>): (m: map<string, string>)
    ensures routes != [] ==> routes[|routes| - 1].0 in m && m[routes[|routes| - 1].0] == routes[|routes| - 1].1
  {
    if routes == [] then map[]
    else
      var last := routes[|routes| - 1];
      Mapping(routes[..|routes| - 1])[last.0 := last.1]
  }

  /** Every entry of the built map is one of the listed routes. */
  lemma {:induction false} MappingFromRoutes(routes: seq<(string, string)>, k: string)
    requires k in Mapping(routes)
    ensures exists i :: 0 <= i < |routes| && routes[i] == (k, Mapping(routes)[k])
  {
    var n := |routes| - 1;
    if routes[n].0 != k {
      var init := routes[..n];
      MappingFromRoutes(init, k);
      var i :| 0 <= i < |init| && init[i] == (k, Mapping(init)[k]);
      assert routes[i] == init[i];
    }
  }

  /** The table as the lookup map the proxy consults. */
  const ApiMapping: map<string, string> := Mapping(ApiRoutes)

  /** A route that no later route overrides is what the built map holds
      for its prefix. */
  lemma {:induction false} MappingAt(routes: seq<(string, string)>, i: nat)
    requires i < |routes|
    requires forall j :: i < j < |routes| ==> routes[j].0 != routes[i].0
    ensures routes[i].0 in Mapping(routes) && Mapping(routes)[routes[i].0] == routes[i].1
    decreases |routes|
  {
    var n := |routes| - 1;
    if i < n {
      var init := routes[..n];
      assert init[i] == routes[i];
      forall j | i < j < |init| ensures init[j].0 != init[i].0 {
        assert init[j] == routes[j];
      }
      MappingAt(init, i);
    }
  }

  /** The table sends `/discord` to `https://discord.com/api`. */
  lemma DiscordRoute()
    ensures "/discord" in ApiMapping && ApiMapping["/discord"] == "https://discord.com/api"
  {
    assert ApiRoutes[4] == ("/discord", "https://discord.com/api");
    forall j | 4 < j < |ApiRoutes| ensures ApiRoutes[j].0 != "/discord" {
      assert ApiRoutes[j].0[1] != 'd' || |ApiRoutes[j].0| != 8;
    }
    MappingAt(ApiRoutes, 4);
  }

  /** The deployed prefixes are pairwise distinct. */
  lemma ApiPrefixesDistinct()
    ensures forall i, j :: 0 <= i < j < |ApiRoutes| ==> ApiRoutes[i].0 != ApiRoutes[j].0
  {
  }

  /** No route of the deployed table is overridden: every listed prefix
      maps to its own base URL. */
  lemma ApiMappingHoldsEveryRoute(i: nat)
    requires i < |ApiRoutes|
    ensures ApiRoutes[i].0 in ApiMapping && ApiMapping[ApiRoutes[i].0] == ApiRoutes[i].1
  {
    ApiPrefixesDistinct();
    MappingAt(ApiRoutes, i);
  }

  /** The prefixes of a list of routes, in order. */
  function Keys(routes: seq<(string, string)>): (ks: seq<string>)
    ensures |ks| == |routes|
    ensures forall i :: 0 <= i < |routes| ==> ks[i] == routes[i].0
  {
    if routes == [] then []
    else
      var init := routes[..|routes| - 1];
      assert forall i :: 0 <= i < |init| ==> init[i] == routes[i];
      Keys(init) + [routes[|routes| - 1].0]
  }

  /** The keys of the built map are exactly the listed prefixes. */
  lemma {:induction false} KeysAreMappingKeys(routes: seq<(string, string)>, k: string)
    ensures k in Keys(routes) <==> k in Mapping(routes)
  {
    if routes != [] {
      var init := routes[..|routes| - 1];
      KeysAreMappingKeys(init, k);
    }
  }

  /** `s.starts_with(p)`: a raw, literal string prefix. */
  predicate StartsWith(s: string, p: string) {
    p <= s
  }

  /** The key of `keys` that is the longest literal prefix of `path`, if any:
      the independent reference definition of route resolution. */
  function LongestMatch(keys: seq<string>, path: string): (r: Option<string>)
    ensures r.Some? ==> r.value in keys && StartsWith(path, r.value)
    ensures r.Some? ==> forall k :: k in keys && StartsWith(path, k) ==> |k| <= |r.value|
    ensures r.None? <==> forall k :: k in keys ==> !StartsWith(path, k)
  {
    if keys == [] then None
    else
      var rest := LongestMatch(keys[1..], path);
      if StartsWith(path, keys[0]) && (rest.None? || |rest.value| <= |keys[0]|) then Some(keys[0])
      else rest
  }

  /** Two prefixes of one path with the same length are the same string, so
      the longest matching key is unique whatever order ties are visited in. */
  lemma {:induction false} EqualLengthPrefixesAgree(path: string, p: string, q: string)
    requires StartsWith(path, p) && StartsWith(path, q) && |p| == |q|
    ensures p == q
  {
    assert p == path[..|p|];
    assert q == path[..|q|];
  }

  /** Only `/discord` has 'd' as its second character. */
  lemma OnlyDiscordHasD(j: nat)
    requires j < |ApiRoutes| && |ApiRoutes[j].0| >= 2 && ApiRoutes[j].0[1] == 'd'
    ensures j == 4
  {
  }

  /** A key that prefixes a path under `/discord` and is at least as long
      is `/discord` itself. */
  lemma OnlyDiscordPrefix(path: string, k: string)
    requires "/discord" <= path && k in ApiMapping && StartsWith(path, k) && |k| >= 8
    ensures k == "/discord"
  {
    MappingFromRoutes(ApiRoutes, k);
    var j :| 0 <= j < |ApiRoutes| && ApiRoutes[j] == (k, ApiMapping[k]);
    assert k[1] == path[1];
    OnlyDiscordHasD(j);
  }

  /** On the deployed table, every path under `/discord` resolves to that
      prefix, with the rest of the path after it. */
  lemma DiscordResolves(rest: string)
    ensures Resolve(ApiRoutes, "/discord" + rest) == Some(("/discord", rest))
  {
    DiscordRoute();
    var path := "/discord" + rest;
    DropPrefix("/discord", rest);
    forall k | k in ApiMapping && StartsWith(path, k) && |k| >= 8 ensures k == "/discord" {
      OnlyDiscordPrefix(path, k);
    }
    ResolveOnlyMatch(ApiRoutes, path, "/discord");
  }

  /** Route resolution of `path` against a route list: the matched prefix
      and the rest of the path after it. */
  function Resolve(routes: seq<(string, string)>, path: string): (r: Option<(string, string)>)
    ensures r.Some? ==> r.value.0 in Mapping(routes) && path == r.value.0 + r.value.1
    ensures r.Some? ==> (r.value.1 == "" <==> path == r.value.0)
    ensures r.Some? ==> forall k :: k in Mapping(routes) && StartsWith(path, k) ==> |k| <= |r.value.0|
    ensures r.None? <==> forall k :: k in Mapping(routes) ==> !StartsWith(path, k)
  {
    var keys := Keys(routes);
    forall k | k in Mapping(routes) || k in keys ensures k in keys <==> k in Mapping(routes) {
      KeysAreMappingKeys(routes, k);
    }
    match LongestMatch(keys, path)
    case None => None
    case Some(p) =>
      assert path == p + path[|p|..];
      Some((p, path[|p|..]))
  }

  /** A key that prefixes the path, when no other key at least as long
      does, is the route picked. */
  lemma ResolveOnlyMatch(routes: seq<(string, string)>, path: string, p: string)
    requires p in Mapping(routes) && StartsWith(path, p)
    requires forall k :: k in Mapping(routes) && StartsWith(path, k) && |k| >= |p| ==> k == p
    ensures Resolve(routes, path) == Some((p, path[|p|..]))
  {
  }

  /** Keys ordered by non-increasing length, as after the source's sort. */
  predicate LongestFirst(s: seq<string>) {
    forall i, j :: 0 <= i < j < |s| ==> |s[j]| <= |s[i]|
  }

  /** In a longest-first list the first key is a longest one. */
  lemma HeadIsLongest(s: seq<string>)
    requires s != [] && LongestFirst(s)
    ensures forall x :: x in s ==> |x| <= |s[0]|
  {
    forall x | x in s ensures |x| <= |s[0]| {
      var j :| 0 <= j < |s| && s[j] == x;
    }
  }

  /** A key at least as long as every key of a longest-first list can go
      in front of it. */
  lemma ConsLongestFirst(x: string, s: seq<string>)
    requires LongestFirst(s) && (s == [] || |s[0]| <= |x|)
    ensures LongestFirst([x] + s)
  {
    if s != [] {
      HeadIsLongest(s);
    }
    forall i, j | 0 <= i < j < |[x] + s| ensures |([x] + s)[j]| <= |([x] + s)[i]| {
      assert ([x] + s)[j] == s[j - 1];
      if i > 0 {
        assert ([x] + s)[i] == s[i - 1];
      } else {
        assert s[j - 1] in s;
      }
    }
  }

  lemma MultisetCons<T>(s: seq<T>)
    requires s != []
    ensures multiset(s) == multiset{s[0]} + multiset(s[1..])
  {
    assert s == [s[0]] + s[1..];
  }

  /** Every key of the insertion into the rest is bounded by the head. */
  lemma BoundedByHead(k: string, sorted: seq<string>, tail: seq<string>)
    requires sorted != [] && LongestFirst(sorted) && |k| < |sorted[0]|
    requires multiset(tail) == multiset(sorted[1..]) + multiset{k}
    ensures forall y :: y in tail ==> |y| <= |sorted[0]|
  {
    HeadIsLongest(sorted);
    forall y | y in tail ensures |y| <= |sorted[0]| {
      assert y in multiset(tail);
      if y != k {
        assert y in multiset(sorted[1..]);
        assert y in sorted[1..];
        assert y in sorted;
      }
    }
  }

  lemma TailLongestFirst(s: seq<string>)
    requires s != [] && LongestFirst(s)
    ensures LongestFirst(s[1..])
  {
    forall i, j | 0 <= i < j < |s[1..]| ensures |s[1..][j]| <= |s[1..][i]| {
      assert s[1..][j] == s[j + 1] && s[1..][i] == s[i + 1];
    }
  }

  /** Stable insertion of one key into a longest-first list: the key goes
      before every key of the same length, which came after it originally. */
  function InsertByLength(k: string, sorted: seq<string>): (r: seq<string>)
    requires LongestFirst(sorted)
    ensures LongestFirst(r)
    ensures multiset(r) == multiset(sorted) + multiset{k}
  {
    if sorted == [] || |sorted[0]| <= |k| then
      ConsLongestFirst(k, sorted);
      [k] + sorted
    else
      TailLongestFirst(sorted);
      var tail := InsertByLength(k, sorted[1..]);
      BoundedByHead(k, sorted, tail);
      assert tail == [] || tail[0] in tail;
      ConsLongestFirst(sorted[0], tail);
      MultisetCons(sorted);
      [sorted[0]] + tail
  }

  /** The stable sort by descending length that the source applies to the
      map's keys. */
  function SortByLength(keys: seq<string>): (r: seq<string>)
    ensures LongestFirst(r)
    ensures multiset(r) == multiset(keys)
  {
    if keys == [] then []
    else
      assert keys == [keys[0]] + keys[1..];
      InsertByLength(keys[0], SortByLength(keys[1..]))
  }

  /** Sequences with the same multiset have the same members. */
  lemma SameMembers<T>(a: seq<T>, b: seq<T>)
    requires multiset(a) == multiset(b)
    ensures forall x :: x in a <==> x in b
  {
    forall x ensures x in a <==> x in b {
      assert x in a <==> x in multiset(a);
      assert x in b <==> x in multiset(b);
    }
  }

  /** The first key of a longest-first enumeration of the map's keys that
      prefixes the path is the route `Resolve` picks. */
  lemma FirstMatchIsResolve(routes: seq<(string, string)>, path: string, sorted: seq<string>, i: nat)
    requires forall k :: k in sorted <==> k in Mapping(routes)
    requires LongestFirst(sorted)
    requires i < |sorted| && StartsWith(path, sorted[i])
    requires forall j :: 0 <= j < i ==> !StartsWith(path, sorted[j])
    ensures Resolve(routes, path) == Some((sorted[i], path[|sorted[i]|..]))
  {
    var prefix := sorted[i];
    var expected := Resolve(routes, path);
    assert expected.Some?;
    forall k | k in sorted && StartsWith(path, k)
      ensures |k| <= |prefix|
    {
      var j :| 0 <= j < |sorted| && sorted[j] == k;
    }
    EqualLengthPrefixesAgree(path, prefix, expected.value.0);
  }

  /** `extract_prefix_and_rest`: sort the keys longest first, then return the
      first one that prefixes the path. `keyOrder` is the order in which the
      hash map yields its keys, which the source does not control; the result
      is the same for every such order. */
  method ExtractPrefixAndRest(routes: seq<(string, string)>, path: string, keyOrder: seq<string>)
    returns (r: Option<(string, string)>)
    requires forall k :: k in keyOrder <==> k in Mapping(routes)
    ensures r == Resolve(routes, path)
  {
    var sortedPaths := SortByLength(keyOrder);
    SameMembers(sortedPaths, keyOrder);
    for i := 0 to |sortedPaths|
      invariant forall j :: 0 <= j < i ==> !StartsWith(path, sortedPaths[j])
    {
      var prefix := sortedPaths[i];
      if StartsWith(path, prefix) {
        r := Some((prefix, path[|prefix|..]));
        FirstMatchIsResolve(routes, path, sortedPaths, i);
        return;
      }
    }
    r := None;
  }
}

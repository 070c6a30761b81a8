# api-proxy: a verified model of the routing and forwarding core

api-proxy is a reverse proxy. It maps a fixed set of path prefixes such as
`/openai` or `/discord` to upstream API base URLs. A request such as
`POST /openai/v1/chat/completions` is forwarded to the matching upstream. The
proxy passes only an allow-list of request headers, copies back the upstream
status, headers and body, adds four security headers, and answers its own
failures with small JSON bodies.

This project models that decision logic in Dafny and proves what it promises.
The modules are:

- `RouteTable`: the 21-entry prefix table and longest-prefix route resolution.
- `UrlModel`: the part of the URL Standard's parser that building the target relies on.
- `TargetUrl`: target URL construction.
- `HeaderFilter`: the inbound header allow-list.
- `ResponseTranslator`: the response builder and its header map.
- `Proxy`: the method check, the error responses and the request handler.

`Common` and `Http` hold shared values and byte rules.

The handler takes the target builder as a parameter, `Proxy.TargetRule`.
`AsWritten` is the source's `build_target_url`, which the handler method
`Proxy.ProxyRequest` uses. `Confined` is the corrected builder of the Findings
section, and the lemmas about it show what the fix changes.

The network stays outside the model:

- Sending the request is a function parameter, `send`, that returns either a
  response or a transport failure.
- Reading the body is part of that response, as a `Result`.
- The order in which the route hash map yields its keys is a parameter,
  `keyOrder`. Route resolution is proved to give the same answer for every order.
- The inbound headers are a sequence in the order the server's header map
  yields them, which groups the values of one name together in hash order
  rather than keeping their order on the wire. Every statement about the
  forwarded headers' order is relative to that sequence.

The model keeps these points of the code's behaviour, which are easy to
mistake:

- A path that matches no prefix is answered 400 ("Invalid target URL"), not 404.
- Every failure of the outbound client, including a timeout, is answered 502.
  There is no separate 504.
- `trim_start_matches('/')` removes every leading `/` of the rest of the path, not just one.
- Only the request path is used, so the client's query string is never forwarded.

## Model

| member | source | states |
|---|---|---|
| RouteTable.Mapping | src/main.rs:42-66 | Built by inserting the routes in order, so the last route listed holds its prefix: a later insert of a prefix replaces an earlier one |
| RouteTable.MappingFromRoutes | src/main.rs:42-66 | Every entry of the built map is one of the listed routes |
| RouteTable.ApiMappingHoldsEveryRoute | src/main.rs:42-66 | The 21 deployed prefixes are distinct, so every listed route is what the deployed map holds for its prefix |
| RouteTable.MappingAt | src/main.rs:42-66 | A route that no later insert overrides is what the built table holds for its prefix |
| RouteTable.DiscordRoute | src/main.rs:48 | The deployed table maps `/discord` to `https://discord.com/api` |
| RouteTable.KeysAreMappingKeys | src/main.rs:42-66 | The listed prefixes are exactly the keys of the built map |
| RouteTable.LongestMatch | src/main.rs:235-244 | Reference definition: the result is a key that prefixes the path, no longer key does, and None exactly when no key prefixes the path |
| RouteTable.EqualLengthPrefixesAgree | src/main.rs:235-236 | Two prefixes of one path with equal length are equal, so how the sort orders ties cannot matter |
| RouteTable.Resolve | src/main.rs:233-245 | The prefix is a key and `path == prefix + rest`; `rest` is empty iff `path == prefix`; no longer key prefixes the path; None iff no key prefixes it |
| RouteTable.ResolveOnlyMatch | src/main.rs:233-245 | A key that prefixes the path, when no other key at least as long does, is the route picked, with the rest of the path after it |
| RouteTable.DiscordResolves | src/main.rs:233-245 | On the deployed table, every path `/discord<rest>` resolves to `/discord` with that rest |
| RouteTable.InsertByLength | src/main.rs:236 | Inserting into a longest-first list keeps it longest-first and adds exactly that key |
| RouteTable.SortByLength | src/main.rs:235-236 | The sorted keys are longest-first and a permutation of the keys |
| RouteTable.FirstMatchIsResolve | src/main.rs:238-242 | The first key of a longest-first enumeration of the keys that prefixes the path is the route `Resolve` picks, with the rest after it |
| RouteTable.ExtractPrefixAndRest | src/main.rs:233-245 | For every order the hash map may yield its keys in, the sort-then-scan loop returns exactly `Resolve` |
| UrlModel.SplitScheme | src/main.rs:276 | A scheme is split off iff the text starts with a letter and scheme characters up to a `:`; it is returned lower-cased with the text after the `:` |
| UrlModel.CutAtFirst | src/main.rs:279-281 | The part before the cut holds only kept characters; without a cut it is the whole text, and with one the text is that part, the rejected character and the rest |
| UrlModel.SplitQueryFragment | src/main.rs:279-281 | The path part holds no `?` or `#`, and the query holds no `#` |
| UrlModel.SplitQueryFragmentRoundTrip | src/main.rs:279-281 | Path, query and fragment reassemble to the reference |
| UrlModel.PlainPartsArePath | src/main.rs:279-281 | A reference without `?` or `#` is all path |
| UrlModel.SplitSegmentsBy | src/main.rs:279-281 | A path has at least one segment, and no segment holds a character the split rejects |
| UrlModel.SplitSegments | src/main.rs:279-281 | A path has at least one segment |
| UrlModel.SplitSegmentsNoSeparators | src/main.rs:279-281 | No segment of a split path holds a separator |
| UrlModel.ParseAuthority | src/main.rs:276 | A parsed special URL keeps the scheme, has a hierarchical path and a non-empty host |
| UrlModel.NonSpecialUrl | src/main.rs:276 | A URL of a scheme that is not special always parses; its path is opaque iff the text does not start with `/`, an opaque URL has no host, and the host holds no `/`, `?` or `#` |
| UrlModel.ResolveRelative | src/main.rs:279-281 | A reference without a scheme keeps the base's scheme; one that is empty or starts with an ordinary character always resolves and keeps the base's host; against a base whose scheme is not special, a reference starting with `//` always resolves, to an authority of the base's scheme; otherwise it fails only for a reference starting with two separators whose host is empty |
| UrlModel.NonSpecialEmptyAuthority | src/main.rs:279-281 | Against a base whose scheme is not special, `//` resolves to that scheme with an empty host and an empty path |
| UrlModel.ParseWithBase | src/main.rs:276 | A scheme written in the input is kept, otherwise the base's is used and there must be a base; an input of a scheme that is not special always parses |
| UrlModel.ParseUrl | src/main.rs:276 | A parsed URL carries the scheme written in the text; a special one has a non-empty host and a hierarchical path |
| UrlModel.Join | src/main.rs:279-281 | The joined URL has the reference's scheme if it names one and the base's otherwise |
| UrlModel.Directory | src/main.rs:279-281 | The directory is a prefix of the path that is empty or ends in `/`, and no `/` follows it |
| UrlModel.PushOrdinarySegments | src/main.rs:279-281 | Segments that are not dot segments are appended unchanged |
| UrlModel.PathStringOfSplit | src/main.rs:279-281 | A path without backslashes, split and written back out, is itself after a `/` |
| UrlModel.DirectoryOfPath | src/main.rs:279-281 | The directory of a hierarchical path is the path without its last segment, followed by `/` |
| UrlModel.JoinPlainRelative | src/main.rs:279-281 | Joining a plain relative path keeps the scheme and host, drops the base's last segment and appends the reference's segments, with no query or fragment |
| UrlModel.MergedPathString | src/main.rs:279-281 | As text, the joined path is the base path up to and including its last `/`, followed by the reference ("merge paths", RFC 3986 section 5.2.3) |
| UrlModel.JoinRelativeKeepsOrigin | src/main.rs:279-281 | A reference with no scheme and no leading separator always joins, and keeps the base's scheme and host |
| UrlModel.DotSlashPrefixNeutral | src/main.rs:279-281 | Putting `./` before a path reference that starts with an ordinary character does not change how it resolves |
| UrlModel.PushSegmentsShape | src/main.rs:276 | The path state never puts a separator in a segment, and pushing segments leaves a non-empty path |
| UrlModel.PathAfterAuthorityShape | src/main.rs:276 | The path after an authority has at least one segment, none holding a separator |
| UrlModel.ParsedPathShape | src/main.rs:276 | A parsed base of a special scheme has at least one segment, and no segment holds a separator |
| TargetUrl.TrimLeadingSlashes | src/main.rs:280 | The result is a suffix of the input that does not start with `/`, and everything removed was `/` |
| TargetUrl.TrimIdempotent | src/main.rs:280 | Trimming twice is trimming once |
| TargetUrl.BaseUrl | src/main.rs:274-276 | `InvalidUrl` iff the prefix is not a key or its base does not parse; otherwise the parsed base |
| TargetUrl.BuildTargetUrl | src/main.rs:273-284 | As written: a target iff the prefix's base parses and the trimmed rest joins onto it, and then that join; every failure is `InvalidUrl` |
| TargetUrl.PlainRestTarget | src/main.rs:273-284 | For a base of a special scheme and a plain relative trimmed rest, the target keeps the base's scheme and host, has no query, and its path is the base's directory followed by the trimmed rest |
| TargetUrl.ParseDiscordBase | src/main.rs:48 | `https://discord.com/api` parses to host `discord.com` with the single segment `api` |
| TargetUrl.DiscordDropsApiSegment | src/main.rs:273-284 | On the deployed table, `/discord` with rest `/users` targets `https://discord.com/users`: the base's `api` segment is lost |
| TargetUrl.ExactPrefixTargetsBase | src/main.rs:279-281 | A request for exactly a prefix targets the base URL itself |
| TargetUrl.EvilReference | src/main.rs:279-281 | `https://evil.example/x` joined onto any base is that URL: the base plays no part |
| TargetUrl.RestCanRedirectHost | src/main.rs:279-281 | As written, for every prefix whose base parses, the rest `/https://evil.example/x` targets host `evil.example` |
| TargetUrl.EmptyHostRestIsInvalid | src/main.rs:273-284 | As written, the rest `/https://` is `InvalidUrl` whatever the prefix; the corrected builder gives it a target on a hierarchical base |
| TargetUrl.JoinNonSpecial | src/main.rs:279-281 | A reference whose scheme is not special is parsed on its own: the base plays no part |
| TargetUrl.FooReference | src/main.rs:279-281 | `foo://evil.example/x` joined onto any base is the URL of scheme `foo`, host `evil.example` and path `/x` |
| TargetUrl.NonSpecialRestLeavesBase | src/main.rs:273-284 | As written, for every prefix whose base parses, the rest `/foo://evil.example/x` also targets host `evil.example`, under scheme `foo` |
| TargetUrl.ConfinedReference | src/main.rs:280 | The corrected builder's reference is empty iff the trimmed rest is, and `./` followed by the trimmed rest otherwise |
| TargetUrl.BuildConfinedTargetUrl | src/main.rs:273-284 | Corrected builder: it fails only for a missing key or an unusable base, and every target has the base's scheme and host |
| TargetUrl.ConfinedAgreesOnOrdinaryRest | src/main.rs:273-284 | For an empty rest, or one starting with an ordinary character and carrying no scheme, the corrected builder returns what the source returns |
| TargetUrl.ConfinedKeepsEvilRestAtBase | src/main.rs:279-281 | The corrected builder keeps `/https://evil.example/x` on the base's host |
| TargetUrl.DiscordRouteRedirect | src/main.rs:273-284 | On the deployed table, `/discord/https://evil.example/x` goes to `evil.example` as written and stays on `discord.com` when corrected |
| Http.ToStrImpliesFromStr | src/main.rs:295-302 | Every value that `to_str` accepts is also accepted by `HeaderValue::from_str` |
| HeaderFilter.Outbound | src/main.rs:301-304 | The converted header has the lower-cased name and the value byte for byte |
| HeaderFilter.ProcessHeaders | src/main.rs:287-309 | The output is no longer than the input; every name is allow-listed and every value is visible ASCII |
| HeaderFilter.KeptIndices | src/main.rs:290-308 | The forwarded positions, strictly increasing, exactly those whose headers pass both filters |
| HeaderFilter.ProcessHeadersAppend | src/main.rs:290-308 | Filtering a concatenation filters each part |
| HeaderFilter.DroppedHeaderNeutral | src/main.rs:290-308 | A header the filter drops has no effect: removing it from anywhere in the request leaves the forwarded headers unchanged |
| HeaderFilter.ProcessHeadersSelects | src/main.rs:290-308 | The output is the passing inbound headers, in the order the server's header map yields them, each converted on its own with its value verbatim |
| HeaderFilter.AllowedNamesAreTokens | src/main.rs:69-82 | Every allow-listed name, in any letter case, is a valid header name |
| HeaderFilter.AllowedHeadersLowerCase | src/main.rs:69-82 | Every allow-listed name is written in lower case, so comparing the lower-cased inbound name is enough |
| HeaderFilter.Forwarded | src/main.rs:292-306 | A header passes iff its lower-cased name is allow-listed and its value is visible ASCII: the later name and value conversions never drop one |
| HeaderFilter.CustomHeaderDropped | src/main.rs:292 | `x-custom` never appears in the output |
| HeaderFilter.ListedHeaderForwarded | src/main.rs:292-304 | Every allow-listed header with a visible-ASCII value appears in the output, converted |
| HeaderFilter.AuthorizationForwarded | src/main.rs:292-304 | An `authorization` header with a visible-ASCII value is always forwarded verbatim |
| ResponseTranslator.TranslateStatus | src/main.rs:316-317 | A status in 100..=999 is kept and any other becomes 500 |
| ResponseTranslator.Translate | src/main.rs:312-342 | A body read failure is a client error. Otherwise the status rule holds, the body passes through, and each of the four security headers carries its fixed value |
| ResponseTranslator.CopyHeaders | src/main.rs:322-330 | Every copied value is visible ASCII text |
| ResponseTranslator.WithSecurityHeaders | src/main.rs:332-337 | The four security headers carry their fixed values, and every other name is present iff it was before, with the same value |
| ResponseTranslator.CopiedNames | src/main.rs:322-330 | A name is in the copied map iff some upstream header of that lower-cased name converts |
| ResponseTranslator.CopiedValueIsLast | src/main.rs:322-330 | The copied value of a name is that of the last convertible upstream header of that name |
| ResponseTranslator.TranslatedHeaders | src/main.rs:322-337 | For every name other than the security headers, the response holds it iff a convertible upstream header has it, and then with the last such value |
| ResponseTranslator.ResponseBuilder.constructor | src/main.rs:319 | A builder starts with the chosen status and no headers |
| ResponseTranslator.ResponseBuilder.InsertHeader | src/main.rs:327 | Inserting stores the value under the lower-cased name, replacing any earlier value; the status is unchanged |
| ResponseTranslator.HandleProxyResponse | src/main.rs:312-342 | The step-by-step builder loop produces exactly `Translate` of the upstream response |
| Proxy.ParseMethod | src/main.rs:359-371 | Exactly the seven upper-case names are accepted, each as the method it names |
| Proxy.MethodNameRoundTrip | src/main.rs:359-366 | Every method's name parses back to that method |
| Proxy.Decimal | src/main.rs:116-121 | The decimal text of a code is a non-empty string of digits, without a leading zero, whose value is the code |
| Proxy.ErrorJson | src/main.rs:116-121 | The error body is the fixed JSON frame with the message in the "error" field and the code's decimal text in the "code" field |
| Proxy.ErrorResponse | src/main.rs:113-130 | 400 iff the target is invalid and 502 iff the outbound client failed; JSON content type |
| Proxy.MethodNotAllowed | src/main.rs:367-371 | 405 with JSON content type |
| Proxy.InvalidUrlCodeMatchesStatus | src/main.rs:116-118 | The 400 body is the JSON error shape whose "code" is the status |
| Proxy.ClientErrorCodeMatchesStatus | src/main.rs:119-121 | The 502 body is the JSON error shape whose "code" is the status, whatever the failure |
| Proxy.MethodNotAllowedCodeMatchesStatus | src/main.rs:368-370 | The 405 body is the JSON error shape whose "code" is the status |
| Proxy.Prepare | src/main.rs:345-385 | The proxy refuses with a 400 or a 405 response, or sends a request with an accepted method, exactly the filtered headers and the body verbatim |
| Proxy.Respond | src/main.rs:345-387 | The client always receives a status in 100..=999 |
| Proxy.RouteMissIsBadRequest | src/main.rs:353 | A path no key prefixes is answered 400 without looking at the method and without sending anything |
| Proxy.UnbuildableTargetIsBadRequest | src/main.rs:356 | A routed request whose target cannot be built is answered 400 without looking at the method and without sending anything |
| Proxy.UnknownMethodIsNotAllowed | src/main.rs:356-371 | A routed request whose target builds and whose method is not one of the seven is answered 405 without sending anything |
| Proxy.EmptyHostRestIsBadRequest | src/main.rs:353-356 | As written, a request for `<prefix>/https://` is answered 400 whatever its method, since its target cannot be built |
| Proxy.ConfinedEmptyHostRest | src/main.rs:353-371 | With the corrected builder the same request has a target, so an unknown method is answered 405 instead |
| Proxy.OutboundRequestShape | src/main.rs:345-385 | As written, a request is sent to the join of the trimmed rest onto the route's base, with the accepted method, exactly the filtered headers and the body verbatim; it stays on the base's scheme and host when the trimmed rest names no scheme and does not start with a separator |
| Proxy.StaysOnBaseKeepsOrigin | src/main.rs:279-281 | A reference without a scheme and without a leading separator joins onto any base without leaving its scheme and host |
| Proxy.ConfinedRequestStaysOnBase | src/main.rs:345-385 | With the corrected builder, every request sent stays on the scheme and host of the route's base |
| Proxy.PreparedRequest | src/main.rs:345-385 | A resolved route whose target builds, with an accepted method, gives exactly the request of that method, target, filtered headers and body |
| Proxy.DiscordHandlerRedirect | src/main.rs:345-385 | As written, `GET /discord/https://evil.example/x` on the deployed table is sent to `https://evil.example/x`, with the forwarded headers and the body |
| Proxy.DiscordHandlerConfined | src/main.rs:345-385 | With the corrected builder the same request is sent to `discord.com` |
| Proxy.RefusalStatus | src/main.rs:345-371 | Whatever the proxy answers without sending anything is a 400 or a 405 |
| Proxy.ResponseStatusCases | src/main.rs:345-387 | The client gets 400 or 405 from the proxy itself, 502 on a send or body failure, or otherwise the translated upstream response |
| Proxy.BuildRequest | src/main.rs:378-385 | The built request has the method, URL and body given, and the headers added in order |
| Proxy.ProxyRequest | src/main.rs:345-387 | The handler's steps, in the source's order with its early returns and with the source's target builder, produce exactly `Respond` |

## Left out

- Server setup, `main`, the worker count, the backlog and the payload size limit are left out: they are runtime configuration.
- Command-line configuration and creation of the HTTP client (its timeouts and connection pool) are left out: they are library configuration.
- The landing page, `robots.txt`, the health check and the HTML listing are left out: they are fixed texts.
- Network I/O is not modelled. Sending and reading the body are the `send` parameter and the `body` field of `UpstreamResponse`.
- `Display` of errors is left out: its text never reaches the client.
- Lazy initialisation of the tables is left out: the tables are constants.
- Concurrency is left out: requests share only read-only tables.
- `UrlModel.ParseWithBase` is a subset of the URL Standard's basic parser. Percent-encoding, IDNA host processing, and splitting of user info and port are not modelled, nor are the `file` scheme's rules or code-point validity errors. A URL string that the real parser rejects for those reasons may parse here.
- Proxy.ProxyRequest: the route table is a parameter, so its lemmas hold for any table. The deployed table is `RouteTable.ApiRoutes`; `RouteTable.ApiMappingHoldsEveryRoute` shows its map holds every listed route, and only `/discord` is followed through to a request.
- The URL parser's input preprocessing is not modelled: removing tab and newline characters and trimming leading and trailing C0 controls and spaces. Request paths reach the handler already parsed by the HTTP server's URI parser, and the bases are constants without such characters.
- UrlModel.ResolveRelative treats `\` as a separator for every base. The URL Standard does so only for special schemes. So against a base whose scheme is not special, a reference starting with `\` or with `/\` is resolved as for a special scheme: a path under the base or an authority with a non-empty host. Every deployed base is `https`.
- UrlModel.NonSpecialUrl does not validate the host of a URL whose scheme is not special (forbidden host code points, percent-decoding). Such a host is taken as written.
- ResponseTranslator.CopyHeaders: its own contract states only that copied values are visible ASCII. Which names are copied, and with which value, is stated by `ResponseTranslator.CopiedNames` and `ResponseTranslator.CopiedValueIsLast`.
- RouteTable.Mapping: its own contract states that the last route listed wins. That every entry comes from the list is `RouteTable.MappingFromRoutes`, and that a route no later one overrides is held is `RouteTable.MappingAt`.
- Proxy.ProxyRequest: the outbound client re-parses the target from its text. The model hands over the parsed target as it is.
- HeaderFilter.Forwarded: lower-casing is ASCII only. Header names in the server's map are ASCII tokens, so Unicode lower-casing never comes into play.
- Response header order and multiple values of one name in the client response are not modelled: the response headers are a map, as the builder's replacing insert makes them.

## Findings

| source | as written | input that shows it | evidently intended | confidence | as-written member | corrected member |
|---|---|---|---|---|---|---|
| src/main.rs:279-281 | After the leading `/` are trimmed, the rest is joined onto the base as a URL reference of its own. A rest that is itself an absolute URL therefore replaces the base entirely | `GET /discord/https://evil.example/x` is sent to `https://evil.example/x`, carrying the client's forwarded `authorization` header (`Proxy.DiscordHandlerRedirect`) | The rest is always a path under the route's base, so every request stays on the host of its route | not executed; high | TargetUrl.RestCanRedirectHost | TargetUrl.BuildConfinedTargetUrl |

/** The request handler: resolve the route, build the target, check the
    method, forward the selected headers and the body, and translate what
    comes back; every failure becomes a small JSON error response. */
module Proxy {
  import opened Common
  import opened Http
  import opened RouteTable
  import opened UrlModel
  import opened TargetUrl
  import opened HeaderFilter
  import opened ResponseTranslator

  /** The methods the proxy forwards. */
  datatype Method = GET | POST | PUT | DELETE | PATCH | OPTIONS | HEAD

  function MethodName(m: Method): string {
    match m
    case GET => "GET"
    case POST => "POST"
    case PUT => "PUT"
    case DELETE => "DELETE"
    case PATCH => "PATCH"
    case OPTIONS => "OPTIONS"
    case HEAD => "HEAD"
  }

  /** The method match: exactly the seven upper-case names are accepted,
      each as the method it names. */
  function ParseMethod(name: string): (m: Option<Method>)
    ensures m.Some? <==> name in {"GET", "POST", "PUT", "DELETE", "PATCH", "OPTIONS", "HEAD"}
    ensures m.Some? ==> MethodName(m.value) == name
  {
    if name == "GET" then Some(GET)
    else if name == "POST" then Some(POST)
    else if name == "PUT" then Some(PUT)
    else if name == "DELETE" then Some(DELETE)
    else if name == "PATCH" then Some(PATCH)
    else if name == "OPTIONS" then Some(OPTIONS)
    else if name == "HEAD" then Some(HEAD)
    else None
  }

  /** Every accepted method's name parses back to it. */
  lemma MethodNameRoundTrip(m: Method)
    ensures ParseMethod(MethodName(m)) == Some(m)
  {
    match m
    case GET =>
    case POST => assert "POST" != "GET";
    case PUT => assert "PUT" != "GET" && "PUT" != "POST";
    case DELETE =>
    case PATCH => assert "PATCH" != "POST" && "PATCH" != "PUT";
    case OPTIONS =>
    case HEAD => assert "HEAD" != "GET" && "HEAD" != "PUT" && "HEAD" != "POST";
  }

  /** The header every error response carries. */
  function JsonHeaders(): map<string, seq<byte>> {
    map["content-type" := Bytes("application/json")]
  }

  /** The number a string of decimal digits denotes. */
  function DigitsValue(s: string): nat
    requires forall i :: 0 <= i < |s| ==> IsAsciiDigit(s[i])
  {
    if s == [] then 0
    else
      assert IsAsciiDigit(s[|s| - 1]);
      DigitsValue(s[..|s| - 1]) * 10 + (s[|s| - 1] as int - '0' as int)
  }

  /** The decimal text of a number: digits without a leading zero that
      denote the number. */
  function Decimal(n: nat): (s: string)
    ensures |s| >= 1 && forall i :: 0 <= i < |s| ==> IsAsciiDigit(s[i])
    ensures DigitsValue(s) == n
    ensures s[0] == '0' ==> n == 0
    decreases n
  {
    var d := ['0' + (n % 10) as char];
    if n < 10 then d
    else
      var h := Decimal(n / 10);
      assert (h + d)[..|h|] == h;
      h + d
  }

  /** The JSON error body shape the proxy uses: the message sits in the
      "error" field and the decimal code just before the closing brace. */
  function ErrorJson(message: string, code: nat): (s: string)
    ensures |s| == |message| + |Decimal(code)| + 23
    ensures s[11..11 + |message|] == message
    ensures s[|s| - 1 - |Decimal(code)|..|s| - 1] == Decimal(code)
  {
    "{\"error\": \"" + message + "\", \"code\": " + Decimal(code) + "}"
  }

  /** `error_response`: an unusable target is a 400, any failure of the
      outbound client a 502; both are JSON. */
  function ErrorResponse(e: ProxyError): (r: Response)
    ensures r.status == 400 <==> e.InvalidUrl?
    ensures r.status == 502 <==> e.ReqwestError?
    ensures r.headers == JsonHeaders()
  {
    match e
    case InvalidUrl => Response(400, JsonHeaders(), Bytes("{\"error\": \"Invalid target URL\", \"code\": 400}"))
    case ReqwestError(_) => Response(502, JsonHeaders(), Bytes("{\"error\": \"Failed to process request\", \"code\": 502}"))
  }

  /** The answer to a method outside the seven. */
  function MethodNotAllowed(): (r: Response)
    ensures r.status == 405 && r.headers == JsonHeaders()
  {
    Response(405, JsonHeaders(), Bytes("{\"error\": \"Method not allowed\", \"code\": 405}"))
  }

  lemma DecimalOf400() ensures Decimal(400) == "400" {
    assert Decimal(4) == "4";
    assert Decimal(40) == "40";
  }

  lemma DecimalOf405() ensures Decimal(405) == "405" {
    assert Decimal(4) == "4";
    assert Decimal(40) == "40";
  }

  lemma DecimalOf502() ensures Decimal(502) == "502" {
    assert Decimal(5) == "5";
    assert Decimal(50) == "50";
  }

  /** The "code" field of the 400 body is its status. */
  lemma InvalidUrlCodeMatchesStatus()
    ensures ErrorResponse(InvalidUrl).body == Bytes(ErrorJson("Invalid target URL", ErrorResponse(InvalidUrl).status))
  {
    InvalidUrlJson();
  }

  /** The error body assembled from its two halves. */
  lemma ErrorJsonOf(message: string, code: nat, head: string, tail: string)
    requires "{\"error\": \"" + message == head
    requires "\", \"code\": " + Decimal(code) + "}" == tail
    ensures ErrorJson(message, code) == head + tail
  {
    var x := "\", \"code\": ";
    ConcatAssoc(head, x, Decimal(code));
    ConcatAssoc(head, x + Decimal(code), "}");
  }

  lemma InvalidUrlJson()
    ensures ErrorJson("Invalid target URL", 400) == "{\"error\": \"Invalid target URL\", \"code\": 400}"
  {
    DecimalOf400();
    InvalidUrlHalves();
    InvalidUrlWhole();
    ErrorJsonOf("Invalid target URL", 400, "{\"error\": \"Invalid target URL", "\", \"code\": 400}");
  }

  lemma InvalidUrlHalves()
    ensures "{\"error\": \"" + "Invalid target URL" == "{\"error\": \"Invalid target URL"
    ensures "\", \"code\": " + "400" + "}" == "\", \"code\": 400}"
  {
  }

  lemma InvalidUrlWhole()
    ensures "{\"error\": \"Invalid target URL" + "\", \"code\": 400}" == "{\"error\": \"Invalid target URL\", \"code\": 400}"
  {
  }

  /** The "code" field of the 502 body is its status, whatever the failure. */
  lemma ClientErrorCodeMatchesStatus(f: TransportFailure)
    ensures ErrorResponse(ReqwestError(f)).body
         == Bytes(ErrorJson("Failed to process request", ErrorResponse(ReqwestError(f)).status))
  {
    ClientErrorJson();
  }

  lemma ClientErrorJson()
    ensures ErrorJson("Failed to process request", 502) == "{\"error\": \"Failed to process request\", \"code\": 502}"
  {
    DecimalOf502();
    ClientErrorHalves();
    ClientErrorWhole();
    ErrorJsonOf("Failed to process request", 502, "{\"error\": \"Failed to process request", "\", \"code\": 502}");
  }

  lemma ClientErrorHalves()
    ensures "{\"error\": \"" + "Failed to process request" == "{\"error\": \"Failed to process request"
    ensures "\", \"code\": " + "502" + "}" == "\", \"code\": 502}"
  {
  }

  lemma ClientErrorWhole()
    ensures "{\"error\": \"Failed to process request" + "\", \"code\": 502}" == "{\"error\": \"Failed to process request\", \"code\": 502}"
  {
  }

  /** The "code" field of the 405 body is its status. */
  lemma MethodNotAllowedCodeMatchesStatus()
    ensures MethodNotAllowed().body == Bytes(ErrorJson("Method not allowed", MethodNotAllowed().status))
  {
    MethodNotAllowedJson();
  }

  lemma MethodNotAllowedJson()
    ensures ErrorJson("Method not allowed", 405) == "{\"error\": \"Method not allowed\", \"code\": 405}"
  {
    DecimalOf405();
    MethodNotAllowedHalves();
    MethodNotAllowedWhole();
    ErrorJsonOf("Method not allowed", 405, "{\"error\": \"Method not allowed", "\", \"code\": 405}");
  }

  lemma MethodNotAllowedHalves()
    ensures "{\"error\": \"" + "Method not allowed" == "{\"error\": \"Method not allowed"
    ensures "\", \"code\": " + "405" + "}" == "\", \"code\": 405}"
  {
  }

  lemma MethodNotAllowedWhole()
    ensures "{\"error\": \"Method not allowed" + "\", \"code\": 405}" == "{\"error\": \"Method not allowed\", \"code\": 405}"
  {
  }

  /** The request sent upstream. */
  datatype OutboundRequest = OutboundRequest(verb: Method, url: Url, headers: seq<Header>, body: seq<byte>)

  /** What sending produces: a response whose body is still to be read, or a
      failure of the outbound client. */
  datatype SendOutcome = Delivered(response: UpstreamResponse) | SendFailed(failure: TransportFailure)

  /** The target builder a handler uses: the source's `build_target_url`,
      or the corrected builder that keeps every target on its route's host. */
  datatype TargetRule = AsWritten | Confined

  function Target(rule: TargetRule, mapping: map<string, string>, prefix: string, rest: string): (r: Result<Url, ProxyError>)
    ensures r.Err? ==> r.error == InvalidUrl
  {
    match rule
    case AsWritten => BuildTargetUrl(mapping, prefix, rest)
    case Confined => BuildConfinedTargetUrl(mapping, prefix, rest)
  }

  /** The request the proxy sends for a client request, or the response it
      answers with itself when it sends nothing: a route miss or an
      unusable target is answered 400 whatever the method, and only then is
      an unknown method answered 405. */
  function Prepare(rule: TargetRule, routes: seq<(string, string)>, path: string, methodName: string, inbound: seq<Header>, body: seq<byte>)
    : (r: Result<OutboundRequest, Response>)
    ensures r.Err? ==> r.error == ErrorResponse(InvalidUrl) || r.error == MethodNotAllowed()
    ensures r.Ok? ==> ParseMethod(methodName) == Some(r.value.verb) && r.value.headers == ProcessHeaders(inbound) && r.value.body == body
  {
    match Resolve(routes, path)
    case None => Err(ErrorResponse(InvalidUrl))
    case Some((prefix, rest)) =>
      match Target(rule, Mapping(routes), prefix, rest)
      case Err(e) =>
        assert e == InvalidUrl;
        Err(ErrorResponse(e))
      case Ok(url) =>
        match ParseMethod(methodName)
        case None => Err(MethodNotAllowed())
        case Some(m) => Ok(OutboundRequest(m, url, ProcessHeaders(inbound), body))
  }

  /** The response the client receives, with `send` standing for the
      network exchange; its status is always a valid one. */
  function Respond(rule: TargetRule, routes: seq<(string, string)>, path: string, methodName: string, inbound: seq<Header>, body: seq<byte>,
                   send: OutboundRequest -> SendOutcome): (r: Response)
    ensures 100 <= r.status <= 999
  {
    match Prepare(rule, routes, path, methodName, inbound, body)
    case Err(resp) => resp
    case Ok(req) =>
      match send(req)
      case SendFailed(f) => ErrorResponse(ReqwestError(f))
      case Delivered(up) =>
        match Translate(up)
        case Err(e) => ErrorResponse(e)
        case Ok(resp) => resp
  }

  /** A path no prefix matches is answered 400, before the method is looked
      at and without contacting anyone. */
  lemma RouteMissIsBadRequest(rule: TargetRule, routes: seq<(string, string)>, path: string, methodName: string, inbound: seq<Header>, body: seq<byte>)
    requires forall k :: k in Mapping(routes) ==> !StartsWith(path, k)
    ensures Prepare(rule, routes, path, methodName, inbound, body) == Err(ErrorResponse(InvalidUrl))
    ensures Prepare(rule, routes, path, methodName, inbound, body).error.status == 400
  {
  }

  /** A routed request whose target cannot be built is answered 400, before
      the method is looked at and without contacting anyone. */
  lemma UnbuildableTargetIsBadRequest(rule: TargetRule, routes: seq<(string, string)>, path: string, methodName: string, inbound: seq<Header>, body: seq<byte>)
    requires Resolve(routes, path).Some?
    requires Target(rule, Mapping(routes), Resolve(routes, path).value.0, Resolve(routes, path).value.1).Err?
    ensures Prepare(rule, routes, path, methodName, inbound, body) == Err(ErrorResponse(InvalidUrl))
    ensures Prepare(rule, routes, path, methodName, inbound, body).error.status == 400
  {
  }

  /** A routed request with a buildable target and a method outside the
      seven is answered 405 without contacting anyone. */
  lemma UnknownMethodIsNotAllowed(rule: TargetRule, routes: seq<(string, string)>, path: string, methodName: string, inbound: seq<Header>, body: seq<byte>)
    requires Resolve(routes, path).Some?
    requires Target(rule, Mapping(routes), Resolve(routes, path).value.0, Resolve(routes, path).value.1).Ok?
    requires methodName !in {"GET", "POST", "PUT", "DELETE", "PATCH", "OPTIONS", "HEAD"}
    ensures Prepare(rule, routes, path, methodName, inbound, body).Err?
    ensures Prepare(rule, routes, path, methodName, inbound, body).error.status == 405
  {
  }

  /** A request for `<prefix>/https://` is answered 400 by the source
      whatever its method, because the join finds no host. */
  lemma EmptyHostRestIsBadRequest(routes: seq<(string, string)>, path: string, methodName: string, inbound: seq<Header>, body: seq<byte>)
    requires Resolve(routes, path).Some? && Resolve(routes, path).value.1 == "/https://"
    ensures Prepare(AsWritten, routes, path, methodName, inbound, body) == Err(ErrorResponse(InvalidUrl))
  {
    EmptyHostRestIsInvalid(Mapping(routes), Resolve(routes, path).value.0);
    UnbuildableTargetIsBadRequest(AsWritten, routes, path, methodName, inbound, body);
  }

  /** With the corrected builder the same request has a target, so an
      unknown method is answered 405 instead. */
  lemma ConfinedEmptyHostRest(routes: seq<(string, string)>, path: string, methodName: string, inbound: seq<Header>, body: seq<byte>)
    requires Resolve(routes, path).Some? && Resolve(routes, path).value.1 == "/https://"
    requires BaseUrl(Mapping(routes), Resolve(routes, path).value.0).Ok?
    requires BaseUrl(Mapping(routes), Resolve(routes, path).value.0).value.path.Segments?
    requires ParseMethod(methodName).None?
    ensures Prepare(Confined, routes, path, methodName, inbound, body) == Err(MethodNotAllowed())
  {
    var prefix := Resolve(routes, path).value.0;
    assert Resolve(routes, path) == Some((prefix, "/https://"));
    var t := BuildConfinedTargetUrl(Mapping(routes), prefix, "/https://");
    assert t.Ok? && Target(Confined, Mapping(routes), prefix, "/https://") == t;
  }

  /** The trimmed rest is a reference the join resolves inside the base:
      it names no scheme and does not start with a separator. */
  predicate StaysOnBase(rest: string) {
    var t := TrimLeadingSlashes(rest);
    SplitScheme(t).None? && (t == "" || !IsSeparator(t[0]))
  }

  /** What the source sends upstream: the accepted method, the join of the
      trimmed rest onto the route's base, exactly the forwarded headers,
      and the body verbatim. The target stays on the base's scheme and host
      when the rest names no scheme and does not start with a separator;
      otherwise it need not (see `DiscordHandlerRedirect`). */
  lemma OutboundRequestShape(routes: seq<(string, string)>, path: string, methodName: string, inbound: seq<Header>, body: seq<byte>)
    requires Prepare(AsWritten, routes, path, methodName, inbound, body).Ok?
    ensures var req := Prepare(AsWritten, routes, path, methodName, inbound, body).value;
      var route := Resolve(routes, path).value;
      var base := BaseUrl(Mapping(routes), route.0);
      && route.0 in Mapping(routes) && path == route.0 + route.1
      && base.Ok?
      && Join(base.value, TrimLeadingSlashes(route.1)) == Some(req.url)
      && MethodName(req.verb) == methodName
      && req.headers == ProcessHeaders(inbound)
      && req.body == body
      && (StaysOnBase(route.1) ==> req.url.host == base.value.host && req.url.scheme == base.value.scheme)
  {
    var route := Resolve(routes, path).value;
    assert Resolve(routes, path) == Some(route);
    var target := BuildTargetUrl(Mapping(routes), route.0, route.1);
    assert target.Ok? && Target(AsWritten, Mapping(routes), route.0, route.1) == target;
    var req := Prepare(AsWritten, routes, path, methodName, inbound, body).value;
    assert req.url == target.value;
    var base := BaseUrl(Mapping(routes), route.0).value;
    var t := TrimLeadingSlashes(route.1);
    if StaysOnBase(route.1) {
      StaysOnBaseKeepsOrigin(base, t, req.url);
    }
  }

  /** A reference that names no scheme and does not start with a separator
      joins onto any base without leaving its scheme and host. */
  lemma StaysOnBaseKeepsOrigin(base: Url, t: string, u: Url)
    requires SplitScheme(t).None? && (t == "" || !IsSeparator(t[0]))
    requires Join(base, t) == Some(u)
    ensures u.host == base.host && u.scheme == base.scheme
  {
    if base.path.Segments? {
      JoinRelativeKeepsOrigin(base, t);
    }
  }

  /** What the corrected handler sends upstream always stays on the scheme
      and host of the route's base. */
  lemma ConfinedRequestStaysOnBase(routes: seq<(string, string)>, path: string, methodName: string, inbound: seq<Header>, body: seq<byte>)
    requires Prepare(Confined, routes, path, methodName, inbound, body).Ok?
    ensures var req := Prepare(Confined, routes, path, methodName, inbound, body).value;
      var base := BaseUrl(Mapping(routes), Resolve(routes, path).value.0);
      && base.Ok? && req.url.host == base.value.host && req.url.scheme == base.value.scheme
  {
  }

  /** A resolved route whose target builds and a known method give the
      outbound request. */
  lemma PreparedRequest(rule: TargetRule, routes: seq<(string, string)>, path: string, methodName: string, inbound: seq<Header>, body: seq<byte>,
                        prefix: string, rest: string, verb: Method, u: Url)
    requires Resolve(routes, path) == Some((prefix, rest))
    requires Target(rule, Mapping(routes), prefix, rest) == Ok(u)
    requires ParseMethod(methodName) == Some(verb)
    ensures Prepare(rule, routes, path, methodName, inbound, body) == Ok(OutboundRequest(verb, u, ProcessHeaders(inbound), body))
  {
  }

  lemma DiscordEvilPath()
    ensures "/discord/https://evil.example/x" == "/discord" + "/https://evil.example/x"
  {
  }

  /** On the deployed table, `GET /discord/https://evil.example/x` is sent
      by the source to `https://evil.example/x`, with the forwarded headers
      and the body. */
  lemma DiscordHandlerRedirect(inbound: seq<Header>, body: seq<byte>)
    ensures Prepare(AsWritten, ApiRoutes, "/discord/https://evil.example/x", "GET", inbound, body)
         == Ok(OutboundRequest(GET, Url("https", "evil.example", Segments(["x"]), None, None), ProcessHeaders(inbound), body))
  {
    var rest := "/https://evil.example/x";
    DiscordEvilPath();
    DiscordResolves(rest);
    DiscordRouteRedirect();
    PreparedRequest(AsWritten, ApiRoutes, "/discord/https://evil.example/x", "GET", inbound, body,
                    "/discord", rest, GET, Url("https", "evil.example", Segments(["x"]), None, None));
  }

  /** The corrected handler sends the same request to `discord.com`. */
  lemma DiscordHandlerConfined(inbound: seq<Header>, body: seq<byte>)
    ensures Prepare(Confined, ApiRoutes, "/discord/https://evil.example/x", "GET", inbound, body).Ok?
    ensures Prepare(Confined, ApiRoutes, "/discord/https://evil.example/x", "GET", inbound, body).value.url.host == "discord.com"
  {
    var rest := "/https://evil.example/x";
    DiscordEvilPath();
    DiscordResolves(rest);
    DiscordRouteRedirect();
    var t := BuildConfinedTargetUrl(ApiMapping, "/discord", rest);
    PreparedRequest(Confined, ApiRoutes, "/discord/https://evil.example/x", "GET", inbound, body,
                    "/discord", rest, GET, t.value);
  }

  /** The client sees 400 or 405 from the proxy itself, 502 on a send or
      body failure, or otherwise the upstream's translated response. */
  lemma ResponseStatusCases(rule: TargetRule, routes: seq<(string, string)>, path: string, methodName: string, inbound: seq<Header>, body: seq<byte>,
                            send: OutboundRequest -> SendOutcome)
    ensures var p := Prepare(rule, routes, path, methodName, inbound, body);
      var r := Respond(rule, routes, path, methodName, inbound, body, send);
      && (p.Err? ==> r == p.error && (r.status == 400 || r.status == 405))
      && (p.Ok? && send(p.value).SendFailed? ==> r.status == 502)
      && (p.Ok? && send(p.value).Delivered? && send(p.value).response.body.Err? ==> r.status == 502)
      && (p.Ok? && send(p.value).Delivered? && send(p.value).response.body.Ok? ==>
            r == Translate(send(p.value).response).value)
  {
    if Prepare(rule, routes, path, methodName, inbound, body).Err? {
      RefusalStatus(rule, routes, path, methodName, inbound, body);
    }
  }

  /** What the proxy answers without sending anything is a 400 or a 405. */
  lemma RefusalStatus(rule: TargetRule, routes: seq<(string, string)>, path: string, methodName: string, inbound: seq<Header>, body: seq<byte>)
    requires Prepare(rule, routes, path, methodName, inbound, body).Err?
    ensures Prepare(rule, routes, path, methodName, inbound, body).error.status == 400
         || Prepare(rule, routes, path, methodName, inbound, body).error.status == 405
  {
  }

  /** The request builder: start from the method and URL, add each
      forwarded header in turn (adding never replaces), then set the body. */
  method BuildRequest(verb: Method, url: Url, headers: seq<Header>, body: seq<byte>) returns (req: OutboundRequest)
    ensures req.verb == verb && req.url == url && req.body == body
    ensures req.headers == headers
  {
    var added: seq<Header> := [];
    for i := 0 to |headers|
      invariant added == headers[..i]
    {
      added := added + [headers[i]];
    }
    assert headers[..|headers|] == headers;
    req := OutboundRequest(verb, url, added, body);
  }

  /** `proxy_request`: each step in the source's order, with early returns
      for a route miss, a bad target and an unknown method. `keyOrder` is
      the order the route map yields its keys; `send` is the network. */
  method ProxyRequest(routes: seq<(string, string)>, path: string, methodName: string, inbound: seq<Header>, body: seq<byte>,
                      keyOrder: seq<string>, send: OutboundRequest -> SendOutcome)
    returns (resp: Response)
    requires forall k :: k in keyOrder <==> k in Mapping(routes)
    ensures resp == Respond(AsWritten, routes, path, methodName, inbound, body, send)
  {
    var route := ExtractPrefixAndRest(routes, path, keyOrder);
    if route.None? {
      return ErrorResponse(InvalidUrl);
    }
    var prefix, rest := route.value.0, route.value.1;
    var target := BuildTargetUrl(Mapping(routes), prefix, rest);
    if target.Err? {
      return ErrorResponse(target.error);
    }
    var m := ParseMethod(methodName);
    if m.None? {
      return MethodNotAllowed();
    }
    var request := BuildRequest(m.value, target.value, ProcessHeaders(inbound), body);
    assert Prepare(AsWritten, routes, path, methodName, inbound, body) == Ok(request);
    var outcome := send(request);
    if outcome.SendFailed? {
      return ErrorResponse(ReqwestError(outcome.failure));
    }
    var translated := HandleProxyResponse(outcome.response);
    if translated.Err? {
      return ErrorResponse(translated.error);
    }
    resp := translated.value;
  }
}

/** Turning the upstream response into the response sent to the client:
    the status is carried over when the server's status type accepts it,
    every header that converts between the two libraries is copied (a later
    value of a name replacing an earlier one), four security headers are
    set, and the body is passed through. */
module ResponseTranslator {
  import opened Common
  import opened Http

  /** What the outbound client hands back: the status, the headers in the
      order it yields them, and the outcome of reading the body. */
  datatype UpstreamResponse = UpstreamResponse(status: int, headers: seq<Header>, body: Result<seq<byte>, TransportFailure>)

  /** `StatusCode::from_u16`, falling back to 500 when it refuses the code. */
  function TranslateStatus(code: int): (s: int)
    ensures 100 <= s <= 999
    ensures 100 <= code <= 999 ==> s == code
    ensures !(100 <= code <= 999) ==> s == 500
  {
    if 100 <= code <= 999 then code else 500
  }

  /** The header map after copying `hs` in order into an empty map: each
      header that converts is inserted under its lower-case name, so every
      value in it is visible ASCII. */
  function CopyHeaders(hs: seq<Header>): (m: map<string, seq<byte>>)
    ensures forall k :: k in m ==> ToStrOk(m[k])
  {
    if hs == [] then map[]
    else
      var last := hs[|hs| - 1];
      var m := CopyHeaders(hs[..|hs| - 1]);
      if Reencodable(last) then m[ToLower(last.name) := last.value] else m
  }

  /** The four security headers, as the server's map stores them, set
      over whatever the map held; every other name is left as it was. */
  function WithSecurityHeaders(m: map<string, seq<byte>>): (r: map<string, seq<byte>>)
    ensures "x-content-type-options" in r && r["x-content-type-options"] == Bytes("nosniff")
    ensures "x-frame-options" in r && r["x-frame-options"] == Bytes("DENY")
    ensures "referrer-policy" in r && r["referrer-policy"] == Bytes("strict-origin-when-cross-origin")
    ensures "x-xss-protection" in r && r["x-xss-protection"] == Bytes("1; mode=block")
    ensures forall k :: !IsSecurityHeader(k) ==> (k in r <==> k in m) && (k in m ==> r[k] == m[k])
  {
    m["x-content-type-options" := Bytes("nosniff")]
     ["x-frame-options" := Bytes("DENY")]
     ["referrer-policy" := Bytes("strict-origin-when-cross-origin")]
     ["x-xss-protection" := Bytes("1; mode=block")]
  }

  /** The names of the security headers. */
  predicate IsSecurityHeader(name: string) {
    name in {"x-content-type-options", "x-frame-options", "referrer-policy", "x-xss-protection"}
  }

  /** `handle_proxy_response`, as a function of the upstream response: a
      body that cannot be read is a client error of the outbound library;
      otherwise the status follows the status rule, the security headers
      carry their fixed values and the body is passed through. */
  function Translate(up: UpstreamResponse): (r: Result<Response, ProxyError>)
    ensures r.Err? <==> up.body.Err?
    ensures r.Err? ==> r.error == ReqwestError(up.body.error)
    ensures r.Ok? ==> r.value.body == up.body.value
    ensures r.Ok? ==> 100 <= r.value.status <= 999
    ensures r.Ok? && 100 <= up.status <= 999 ==> r.value.status == up.status
    ensures r.Ok? && !(100 <= up.status <= 999) ==> r.value.status == 500
    ensures r.Ok? ==> (&& "x-content-type-options" in r.value.headers && r.value.headers["x-content-type-options"] == Bytes("nosniff")
                       && "x-frame-options" in r.value.headers && r.value.headers["x-frame-options"] == Bytes("DENY")
                       && "referrer-policy" in r.value.headers && r.value.headers["referrer-policy"] == Bytes("strict-origin-when-cross-origin")
                       && "x-xss-protection" in r.value.headers && r.value.headers["x-xss-protection"] == Bytes("1; mode=block"))
  {
    match up.body
    case Err(f) => Err(ReqwestError(f))
    case Ok(b) => Ok(Response(TranslateStatus(up.status), WithSecurityHeaders(CopyHeaders(up.headers)), b))
  }

  /** The names in the copied map are exactly the lower-cased names of the
      upstream headers that convert. */
  lemma {:induction false} CopiedNames(hs: seq<Header>, name: string)
    ensures name in CopyHeaders(hs) <==> exists i :: 0 <= i < |hs| && Reencodable(hs[i]) && ToLower(hs[i].name) == name
    decreases |hs|
  {
    if hs != [] {
      var n := |hs| - 1;
      var init := hs[..n];
      CopiedNames(init, name);
      if name in CopyHeaders(init) {
        var i :| 0 <= i < |init| && Reencodable(init[i]) && ToLower(init[i].name) == name;
        assert hs[i] == init[i];
      }
      if exists i :: 0 <= i < |hs| && Reencodable(hs[i]) && ToLower(hs[i].name) == name {
        var i :| 0 <= i < |hs| && Reencodable(hs[i]) && ToLower(hs[i].name) == name;
        if i < n {
          assert init[i] == hs[i];
        }
      }
    }
  }

  /** The copied value of a name is that of the last upstream header of that
      name that converts. */
  lemma {:induction false} CopiedValueIsLast(hs: seq<Header>, i: nat)
    requires i < |hs| && Reencodable(hs[i])
    requires forall j :: i < j < |hs| && Reencodable(hs[j]) ==> ToLower(hs[j].name) != ToLower(hs[i].name)
    ensures ToLower(hs[i].name) in CopyHeaders(hs)
    ensures CopyHeaders(hs)[ToLower(hs[i].name)] == hs[i].value
    decreases |hs|
  {
    var n := |hs| - 1;
    if i < n {
      var init := hs[..n];
      assert init[i] == hs[i];
      forall j | i < j < |init| && Reencodable(init[j]) ensures ToLower(init[j].name) != ToLower(init[i].name) {
        assert init[j] == hs[j];
      }
      CopiedValueIsLast(init, i);
    }
  }

  /** Every header of the client response other than the security headers
      is an upstream header that converts, with the value of the last such
      header of its name; names that no convertible upstream header has are
      absent. */
  lemma TranslatedHeaders(up: UpstreamResponse, name: string)
    requires up.body.Ok? && !IsSecurityHeader(name)
    ensures var h := Translate(up).value.headers;
      (name in h <==> exists i :: 0 <= i < |up.headers| && Reencodable(up.headers[i]) && ToLower(up.headers[i].name) == name)
    ensures forall i :: 0 <= i < |up.headers| && Reencodable(up.headers[i]) && ToLower(up.headers[i].name) == name
                     && (forall j :: i < j < |up.headers| && Reencodable(up.headers[j]) ==> ToLower(up.headers[j].name) != name)
                 ==> Translate(up).value.headers[name] == up.headers[i].value
  {
    CopiedNames(up.headers, name);
    forall i | 0 <= i < |up.headers| && Reencodable(up.headers[i]) && ToLower(up.headers[i].name) == name
                && (forall j :: i < j < |up.headers| && Reencodable(up.headers[j]) ==> ToLower(up.headers[j].name) != name)
      ensures Translate(up).value.headers[name] == up.headers[i].value
    {
      CopiedValueIsLast(up.headers, i);
    }
  }

  /** The response under construction: the status chosen up front and the
      header map that `insert_header` updates in place. */
  class ResponseBuilder {
    var status: int
    var headers: map<string, seq<byte>>

    constructor (status: int)
      ensures this.status == status && headers == map[]
    {
      this.status := status;
      headers := map[];
    }

    /** `insert_header`: the name is stored in lower case and replaces any
        value already there; nothing else changes. */
    method InsertHeader(name: string, value: seq<byte>)
      modifies this
      ensures status == old(status)
      ensures headers == old(headers)[ToLower(name) := value]
    {
      headers := headers[ToLower(name) := value];
    }
  }

  /** The names the source writes, as the header map stores them. */
  lemma ContentTypeOptionsLowered()
    ensures ToLower("X-Content-Type-Options") == "x-content-type-options"
  {
  }

  lemma FrameOptionsLowered()
    ensures ToLower("X-Frame-Options") == "x-frame-options"
  {
  }

  lemma ReferrerPolicyLowered()
    ensures ToLower("Referrer-Policy") == "referrer-policy"
  {
  }

  lemma XssProtectionLowered()
    ensures ToLower("X-XSS-Protection") == "x-xss-protection"
  {
  }

  /** `handle_proxy_response`: build the response step by step, then read
      the body; the outcome is the one `Translate` describes. */
  method HandleProxyResponse(up: UpstreamResponse) returns (r: Result<Response, ProxyError>)
    ensures r == Translate(up)
  {
    var builder := new ResponseBuilder(TranslateStatus(up.status));
    for i := 0 to |up.headers|
      invariant builder.status == TranslateStatus(up.status)
      invariant builder.headers == CopyHeaders(up.headers[..i])
    {
      var h := up.headers[i];
      assert up.headers[..i + 1][..i] == up.headers[..i];
      if Reencodable(h) {
        builder.InsertHeader(h.name, h.value);
      }
    }
    assert up.headers[..|up.headers|] == up.headers;
    ContentTypeOptionsLowered();
    FrameOptionsLowered();
    ReferrerPolicyLowered();
    XssProtectionLowered();
    builder.InsertHeader("X-Content-Type-Options", Bytes("nosniff"));
    builder.InsertHeader("X-Frame-Options", Bytes("DENY"));
    builder.InsertHeader("Referrer-Policy", Bytes("strict-origin-when-cross-origin"));
    builder.InsertHeader("X-XSS-Protection", Bytes("1; mode=block"));
    match up.body {
      case Err(f) => r := Err(ReqwestError(f));
      case Ok(b) => r := Ok(Response(builder.status, builder.headers, b));
    }
  }
}

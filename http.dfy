/** HTTP vocabulary of the proxy: headers as name/value pairs, the
    response it sends back, its error type, and the byte-level checks
    that decide whether a header can be carried from one HTTP library
    to the other. */
module Http {
  import opened Common

  /** One header as it arrives: a name and the raw octets of its value. */
  datatype Header = Header(name: string, value: seq<byte>)

  /** A response the proxy sends to its client. Header names are the
      lower-case keys of a map, as in the server's header map, whose
      insert replaces any earlier value of the same name. */
  datatype Response = Response(status: int, headers: map<string, seq<byte>>, body: seq<byte>)

  /** The kinds of failure the outbound HTTP client can report. */
  datatype TransportFailure = Connect | Timeout | OtherTransport | BodyRead

  /** The proxy's error type: a target that cannot be built, or any
      failure of the outbound client. */
  datatype ProxyError = InvalidUrl | ReqwestError(failure: TransportFailure)

  /** A value octet that `to_str` accepts: visible ASCII, space or tab. */
  predicate IsVisibleAscii(b: byte) {
    b == 9 || (32 <= b < 127)
  }

  /** A value octet that `HeaderValue::from_str` accepts. */
  predicate IsValueOctet(b: byte) {
    b == 9 || (32 <= b && b != 127)
  }

  /** `to_str` on a header value succeeds. */
  predicate ToStrOk(v: seq<byte>) {
    forall i :: 0 <= i < |v| ==> IsVisibleAscii(v[i])
  }

  /** `HeaderValue::from_str` on the text of a value succeeds. */
  predicate ValueFromStrOk(v: seq<byte>) {
    forall i :: 0 <= i < |v| ==> IsValueOctet(v[i])
  }

  /** A token character of RFC 9110 section 5.6.2, either case. */
  predicate IsTokenChar(c: char) {
    IsAsciiAlpha(c) || IsAsciiDigit(c)
    || c in {'!', '#', '$', '%', '&', '\'', '*', '+', '-', '.', '^', '_', '`', '|', '~'}
  }

  /** `HeaderName::from_str` succeeds; the name it builds is the lower-cased text. */
  predicate ValidHeaderName(n: string) {
    |n| > 0 && forall i :: 0 <= i < |n| ==> IsTokenChar(n[i])
  }

  /** A header survives conversion between the two libraries' header
      types: its name parses, its value converts to text, and that text
      parses back into a value. */
  predicate Reencodable(h: Header) {
    ValidHeaderName(h.name) && ToStrOk(h.value) && ValueFromStrOk(h.value)
  }

  lemma ToStrImpliesFromStr(v: seq<byte>)
    requires ToStrOk(v)
    ensures ValueFromStrOk(v)
  {
  }
}

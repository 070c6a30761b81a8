/** Selection of the inbound request headers that are forwarded upstream:
    a fixed allow-list of names, and only headers whose value is visible
    ASCII and whose name and value convert into the outbound client's
    header types. */
module HeaderFilter {
  import opened Common
  import opened Http

  /** The names that may be forwarded, in lower case. */
  const AllowedHeaders: set<string> :=
    {"accept", "content-type", "authorization", "x-goog-api-key", "x-api-key", "user-agent", "cache-control"}

  /** Every listed name is in lower case, so each can match the lower-cased
      name of some inbound header. */
  lemma AllowedHeadersLowerCase()
    ensures forall n :: n in AllowedHeaders ==> ToLower(n) == n
  {
  }

  /** Both filters of the source for one header: the lower-cased name is on
      the list, the value converts to text, and the name and that text
      convert into the outbound header types. The conversions after
      `to_str` never drop a header: it is forwarded exactly when its name is
      on the list and its value is visible ASCII. */
  predicate Forwarded(h: Header)
    ensures Forwarded(h) <==> ToLower(h.name) in AllowedHeaders && ToStrOk(h.value)
  {
    && ToLower(h.name) in AllowedHeaders && ToStrOk(h.value)
    && (AllowedNamesAreTokens(h.name); ToStrImpliesFromStr(h.value); ValidHeaderName(h.name) && ValueFromStrOk(h.value))
  }

  /** The outbound header built from a forwarded one: the name as the
      outbound name type stores it (lower case), the value unchanged. */
  function Outbound(h: Header): (o: Header)
    ensures o.value == h.value && o.name == ToLower(h.name)
  {
    Header(ToLower(h.name), h.value)
  }

  /** `process_headers`: the forwarded headers, converted, in inbound order. */
  function ProcessHeaders(hs: seq<Header>): (out: seq<Header>)
    ensures |out| <= |hs|
    ensures forall h :: h in out ==> h.name in AllowedHeaders && ToStrOk(h.value)
  {
    if hs == [] then []
    else
      var n := |hs| - 1;
      ProcessHeaders(hs[..n]) + (if Forwarded(hs[n]) then [Outbound(hs[n])] else [])
  }

  /** The positions of the inbound headers that are forwarded, in order. */
  function KeptIndices(hs: seq<Header>): (ix: seq<nat>)
    ensures IndicesOfForwarded(hs, ix)
  {
    if hs == [] then []
    else
      var n := |hs| - 1;
      var init := KeptIndices(hs[..n]);
      KeptIndicesStep(hs, init);
      init + (if Forwarded(hs[n]) then [n] else [])
  }

  /** `ix` lists, in increasing order, exactly the positions of `hs` whose
      header is forwarded. */
  predicate IndicesOfForwarded(hs: seq<Header>, ix: seq<nat>) {
    && (forall k :: 0 <= k < |ix| ==> ix[k] < |hs| && Forwarded(hs[ix[k]]))
    && (forall k, l :: 0 <= k < l < |ix| ==> ix[k] < ix[l])
    && (forall i :: 0 <= i < |hs| && Forwarded(hs[i]) ==> i in ix)
  }

  lemma KeptIndicesStep(hs: seq<Header>, init: seq<nat>)
    requires hs != [] && IndicesOfForwarded(hs[..|hs| - 1], init)
    ensures IndicesOfForwarded(hs, init + (if Forwarded(hs[|hs| - 1]) then [|hs| - 1] else []))
  {
    var n := |hs| - 1;
    var ix := init + (if Forwarded(hs[n]) then [n] else []);
    forall k | 0 <= k < |ix| ensures ix[k] < |hs| && Forwarded(hs[ix[k]]) {
      if k < |init| {
        assert hs[..n][init[k]] == hs[init[k]];
      }
    }
    forall i | 0 <= i < |hs| && Forwarded(hs[i]) ensures i in ix {
      if i < n {
        assert hs[..n][i] == hs[i];
        assert i in init;
      } else {
        assert ix[|ix| - 1] == n;
      }
    }
  }

  /** Filtering a concatenation filters each part. */
  lemma {:induction false} ProcessHeadersAppend(a: seq<Header>, b: seq<Header>)
    ensures ProcessHeaders(a + b) == ProcessHeaders(a) + ProcessHeaders(b)
    decreases |b|
  {
    if b == [] {
      assert a + b == a;
    } else {
      var m := |b| - 1;
      AppendSnoc(a, b);
      ProcessHeadersAppend(a, b[..m]);
      ConcatAssoc(ProcessHeaders(a), ProcessHeaders(b[..m]), if Forwarded(b[m]) then [Outbound(b[m])] else []);
    }
  }

  /** A header the filter drops has no effect on what the others forward:
      removing it from anywhere in the request leaves the output unchanged. */
  lemma DroppedHeaderNeutral(a: seq<Header>, h: Header, b: seq<Header>)
    requires !Forwarded(h)
    ensures ProcessHeaders(a + [h] + b) == ProcessHeaders(a + b)
  {
    SingleDropped(h);
    ProcessHeadersAppend(a, [h]);
    ProcessHeadersAppend(a + [h], b);
    ProcessHeadersAppend(a, b);
  }

  lemma SingleDropped(h: Header)
    requires !Forwarded(h)
    ensures ProcessHeaders([h]) == []
  {
  }

  lemma AppendSnoc<T>(a: seq<T>, b: seq<T>)
    requires b != []
    ensures (a + b)[..|a + b| - 1] == a + b[..|b| - 1]
    ensures (a + b)[|a + b| - 1] == b[|b| - 1]
  {
  }

  /** The output is exactly the forwarded inbound headers, in their inbound
      order, each converted on its own: an order-preserving selection with
      values passed through verbatim. */
  lemma {:induction false} ProcessHeadersSelects(hs: seq<Header>)
    ensures |ProcessHeaders(hs)| == |KeptIndices(hs)|
    ensures forall k :: 0 <= k < |KeptIndices(hs)| ==> ProcessHeaders(hs)[k] == Outbound(hs[KeptIndices(hs)[k]])
    decreases |hs|
  {
    if hs != [] {
      var n := |hs| - 1;
      var init := hs[..n];
      ProcessHeadersSelects(init);
      var out, ix := ProcessHeaders(hs), KeptIndices(hs);
      var initOut, initIx := ProcessHeaders(init), KeptIndices(init);
      forall k | 0 <= k < |ix| ensures out[k] == Outbound(hs[ix[k]]) {
        if k < |initIx| {
          assert out[k] == initOut[k];
          assert ix[k] == initIx[k];
          assert init[initIx[k]] == hs[initIx[k]];
        }
      }
    }
  }

  /** Every name on the list is a valid header name in every spelling. */
  lemma AllowedNamesAreTokens(name: string)
    requires ToLower(name) in AllowedHeaders
    ensures ValidHeaderName(name)
  {
    var l := ToLower(name);
    assert forall i :: 0 <= i < |l| ==> IsTokenChar(l[i]);
    forall i | 0 <= i < |name| ensures IsTokenChar(name[i]) {
      assert l[i] == LowerChar(name[i]);
      assert IsTokenChar(LowerChar(name[i]));
    }
  }

  /** `x-custom` is not on the list, so it is never forwarded. */
  lemma CustomHeaderDropped(hs: seq<Header>)
    ensures forall h :: h in ProcessHeaders(hs) ==> h.name != "x-custom"
  {
    assert "x-custom" !in AllowedHeaders by {
      assert |"x-custom"| == 8;
      assert "x-custom"[2] == 'c';
    }
  }

  /** Every header whose name is on the list and whose value is visible
      ASCII is forwarded, converted, at the position the selection gives it. */
  lemma ListedHeaderForwarded(hs: seq<Header>, i: nat)
    requires i < |hs| && ToLower(hs[i].name) in AllowedHeaders && ToStrOk(hs[i].value)
    ensures Outbound(hs[i]) in ProcessHeaders(hs)
  {
    ProcessHeadersSelects(hs);
    var ix := KeptIndices(hs);
    var k :| 0 <= k < |ix| && ix[k] == i;
    assert ProcessHeaders(hs)[k] == Outbound(hs[i]);
  }

  /** An `authorization` header with a visible-ASCII value is always
      forwarded, verbatim. */
  lemma AuthorizationForwarded(hs: seq<Header>, i: nat)
    requires i < |hs| && hs[i].name == "authorization" && ToStrOk(hs[i].value)
    ensures Header("authorization", hs[i].value) in ProcessHeaders(hs)
  {
    assert ToLower("authorization") == "authorization";
    ListedHeaderForwarded(hs, i);
  }
}

/**
 * The header table a forward-auth request carries to the authority
 * (writeHeader and filterForwardRequestHeaders of
 * pkg/middleware/auth/forward.go): the inbound headers without the
 * hop-by-hop ones, cut down to an allow-list when there is one, then the
 * X-Forwarded-* headers, taken from the inbound request when it is trusted
 * and otherwise from the request itself.
 */
module ForwardHeaders {
  import opened Wrappers
  import opened Text
  import opened Canonical
  import opened HeaderTable
  import opened HeaderFuncs
  import opened Exchange

  /** The hop-by-hop headers (section 6.1 of RFC 7230); Proxy-Authorization is not one of them. */
  const HopHeaders: seq<string> := ["Connection", "Keep-Alive", "Te", "Trailers", "Transfer-Encoding", "Upgrade"]

  const XForwardedFor := "X-Forwarded-For"
  const XForwardedMethod := "X-Forwarded-Method"
  const XForwardedProto := "X-Forwarded-Proto"
  const XForwardedPort := "X-Forwarded-Port"
  const XForwardedHost := "X-Forwarded-Host"
  const XForwardedUri := "X-Forwarded-Uri"

  /** The entries of `m` under the given keys that hold at least one value. */
  function Kept(m: HeaderMap, keys: set<string>): HeaderMap {
    map k | k in keys && k in m && |m[k]| > 0 :: m[k]
  }

  /** filterForwardRequestHeaders: everything for an empty allow-list, else the allowed names that have values. */
  function Filtered(m: HeaderMap, allowed: seq<string>): HeaderMap {
    if allowed == [] then m else Kept(m, CanonSet(allowed))
  }

  /** filterForwardRequestHeaders, building the new table name by name. */
  method FilterForwardRequestHeaders(m: HeaderMap, allowed: seq<string>) returns (r: HeaderMap)
    ensures r == Filtered(m, allowed)
  {
    if |allowed| == 0 {
      return m;
    }
    r := map[];
    var i := 0;
    while i < |allowed|
      invariant 0 <= i <= |allowed|
      invariant r == Kept(m, CanonSet(allowed[..i]))
    {
      assert CanonSet(allowed[..i + 1]) == CanonSet(allowed[..i]) + {Canon(allowed[i])} by {
        assert allowed[..i + 1] == allowed[..i] + [allowed[i]];
      }
      KeptStep(m, CanonSet(allowed[..i]), Canon(allowed[i]));
      var values := Values(m, allowed[i]);
      if |values| > 0 {
        r := r[Canon(allowed[i]) := values];
      }
      i := i + 1;
    }
    assert allowed[..i] == allowed;
  }

  /** Allowing one more key adds that key's values, if it has any. */
  lemma KeptStep(m: HeaderMap, keys: set<string>, k: string)
    ensures Kept(m, keys + {k}) == if |Lookup(m, k)| > 0 then Kept(m, keys)[k := m[k]] else Kept(m, keys)
  {
    var a := Kept(m, keys + {k});
    var b := if |Lookup(m, k)| > 0 then Kept(m, keys)[k := m[k]] else Kept(m, keys);
    assert a.Keys == b.Keys;
    forall x | x in a
      ensures a[x] == b[x]
    {
    }
  }

  /**
   * The filter passes everything through for an empty allow-list; otherwise
   * it keeps exactly the canonical allowed names that have values, each with
   * its values.
   */
  lemma FilterProperties(m: HeaderMap, allowed: seq<string>)
    ensures allowed == [] ==> Filtered(m, allowed) == m
    ensures allowed != [] ==> forall k :: k in Filtered(m, allowed) <==> k in CanonSet(allowed) && k in m && |m[k]| > 0
    ensures forall k :: k in Filtered(m, allowed) ==> k in m && Filtered(m, allowed)[k] == m[k]
    ensures allowed != [] ==> forall n :: n in allowed && |Values(m, n)| > 0 ==>
      Canon(n) in Filtered(m, allowed) && Filtered(m, allowed)[Canon(n)] == Values(m, n)
  {
  }

  /** The value of X-Forwarded-For when the peer address splits: the client address, after the trusted prior chain. */
  function ForwardedFor(m: HeaderMap, trust: bool, ip: string): string {
    if trust && XForwardedFor in m then Join(m[XForwardedFor], ", ") + ", " + ip else ip
  }

  /**
   * One of the switch statements of writeHeader: the trusted non-empty
   * inbound value, else the request's own non-empty value, else no header.
   */
  function Choose(b: HeaderMap, key: string, inbound: string, trust: bool, own: string): HeaderMap {
    if inbound != "" && trust then b[key := [inbound]]
    else if own != "" then b[key := [own]]
    else b - {key}
  }

  /** The outbound table before the X-Forwarded-* rules: copied, hop-by-hop headers removed, filtered. */
  function Base(m: HeaderMap, fwd: HeaderMap, allowed: seq<string>): HeaderMap {
    Filtered(Appended(fwd, m) - CanonSet(HopHeaders), allowed)
  }

  /** X-Forwarded-For, set only when the peer address splits into host and port. */
  function WithFor(b: HeaderMap, r: Request, m: HeaderMap, trust: bool): HeaderMap {
    match r.clientIP
    case None => b
    case Some(ip) => b[XForwardedFor := [ForwardedFor(m, trust, ip)]]
  }

  /** X-Forwarded-Proto: trusted inbound value, else https over TLS, else http. */
  function ProtoOf(r: Request, m: HeaderMap, trust: bool): string {
    var xfp := First(m, XForwardedProto);
    if xfp != "" && trust then xfp else if r.tls then "https" else "http"
  }

  /** X-Forwarded-Port: replaced only by a trusted non-empty inbound value. */
  function WithPort(b: HeaderMap, m: HeaderMap, trust: bool): HeaderMap {
    var xfp := First(m, XForwardedPort);
    if xfp != "" && trust then b[XForwardedPort := [xfp]] else b
  }

  /**
   * The table writeHeader leaves on the outbound request, which held `fwd`,
   * for inbound headers `m`. The X-Forwarded-* names are canonical, so the
   * keys Set and Get use are the names themselves.
   */
  function Outbound(r: Request, m: HeaderMap, fwd: HeaderMap, trust: bool, allowed: seq<string>): HeaderMap {
    var b1 := WithFor(Base(m, fwd, allowed), r, m, trust);
    var b2 := Choose(b1, XForwardedMethod, First(m, XForwardedMethod), trust, r.verb);
    var b3 := b2[XForwardedProto := [ProtoOf(r, m, trust)]];
    var b4 := WithPort(b3, m, trust);
    var b5 := Choose(b4, XForwardedHost, First(m, XForwardedHost), trust, r.host);
    Choose(b5, XForwardedUri, First(m, XForwardedUri), trust, r.urlRequestURI)
  }

  /** The switch writeHeader applies to X-Forwarded-Method, -Host and -Uri, for a canonical name. */
  method SetChosen(fwd: Header, m: HeaderMap, name: string, trust: bool, own: string)
    requires Canon(name) == name
    modifies fwd
    ensures fwd.m == Choose(old(fwd.m), name, First(m, name), trust, own)
  {
    var inbound := Get(m, name);
    if inbound != "" && trust {
      fwd.Set(name, inbound);
    } else if own != "" {
      fwd.Set(name, own);
    } else {
      fwd.Del(name);
    }
  }

  /** writeHeader: fill the outbound request's table from the inbound request. */
  method WriteHeader(req: Request, fwd: Header, trust: bool, allowed: seq<string>)
    requires fwd != req.header
    modifies fwd
    ensures fwd.m == Outbound(req, req.header.m, old(fwd.m), trust, allowed)
  {
    var m := req.header.m;
    CopyHeaders(fwd, req.header);
    RemoveHeaders(fwd, HopHeaders);
    var filtered := FilterForwardRequestHeaders(fwd.m, allowed);
    fwd.m := filtered;

    if req.clientIP.Some? {
      var clientIP := req.clientIP.value;
      if trust && XForwardedFor in m {
        clientIP := Join(m[XForwardedFor], ", ") + ", " + clientIP;
      }
      XForwardedForCanonical();
      fwd.Set(XForwardedFor, clientIP);
    }

    XForwardedMethodCanonical();
    SetChosen(fwd, m, XForwardedMethod, trust, req.verb);

    XForwardedProtoCanonical();
    var xfp := Get(m, XForwardedProto);
    if xfp != "" && trust {
      fwd.Set(XForwardedProto, xfp);
    } else if req.tls {
      fwd.Set(XForwardedProto, "https");
    } else {
      fwd.Set(XForwardedProto, "http");
    }

    XForwardedPortCanonical();
    var xPort := Get(m, XForwardedPort);
    if xPort != "" && trust {
      fwd.Set(XForwardedPort, xPort);
    }

    XForwardedHostCanonical();
    SetChosen(fwd, m, XForwardedHost, trust, req.host);
    XForwardedUriCanonical();
    SetChosen(fwd, m, XForwardedUri, trust, req.urlRequestURI);
  }

  /** The X-Forwarded-* names writeHeader sets or deletes. */
  const ForwardedNames: set<string> := {XForwardedFor, XForwardedMethod, XForwardedProto, XForwardedPort, XForwardedHost, XForwardedUri}

  /** The hop-by-hop names are canonical already, so they are removed under exactly these keys. */
  lemma HopKeys()
    ensures CanonSet(HopHeaders) == {"Connection", "Keep-Alive", "Te", "Trailers", "Transfer-Encoding", "Upgrade"}
  {
    HopNamesCanonical();
  }

  /** Past the base table, writeHeader touches only the X-Forwarded-* keys. */
  lemma OutboundOnlyForwarded(r: Request, m: HeaderMap, fwd: HeaderMap, trust: bool, allowed: seq<string>, k: string)
    requires k !in ForwardedNames
    ensures var out, base := Outbound(r, m, fwd, trust, allowed), Base(m, fwd, allowed);
      (k in out <==> k in base) && (k in out ==> out[k] == base[k])
  {
  }

  /** The base table holds no hop-by-hop key. */
  lemma BaseLacksHop(m: HeaderMap, fwd: HeaderMap, allowed: seq<string>, h: string)
    requires h in HopHeaders
    ensures h !in Base(m, fwd, allowed)
  {
    HopKeys();
    assert h !in Appended(fwd, m) - CanonSet(HopHeaders);
  }

  /** With no allow-list the base table holds every other inbound header, with its values. */
  lemma BaseKeepsOthers(m: HeaderMap, k: string)
    requires k in m && k !in HopHeaders
    ensures k in Base(m, map[], []) && Base(m, map[], [])[k] == m[k]
  {
    HopKeys();
  }

  /** No hop-by-hop header reaches the authority. */
  lemma OutboundStripsHop(r: Request, m: HeaderMap, fwd: HeaderMap, trust: bool, allowed: seq<string>, h: string)
    requires h in HopHeaders
    ensures h !in Outbound(r, m, fwd, trust, allowed)
  {
    assert h !in ForwardedNames;
    BaseLacksHop(m, fwd, allowed, h);
    OutboundOnlyForwarded(r, m, fwd, trust, allowed, h);
  }

  /**
   * With no allow-list, every other inbound header, Proxy-Authorization
   * among them (section 4.4 of RFC 7235), reaches the authority with its
   * values.
   */
  lemma OutboundKeepsEndToEnd(r: Request, m: HeaderMap, trust: bool, k: string)
    requires k in m && k !in HopHeaders && k !in ForwardedNames
    ensures k in Outbound(r, m, map[], trust, []) && Outbound(r, m, map[], trust, [])[k] == m[k]
  {
    BaseKeepsOthers(m, k);
    OutboundOnlyForwarded(r, m, map[], trust, [], k);
  }

  /** Proxy-Authorization is end-to-end here and reaches the authority (section 4.4 of RFC 7235). */
  lemma ProxyAuthorizationForwarded(r: Request, m: HeaderMap, trust: bool, k: string)
    requires k == "Proxy-Authorization" && k in m
    ensures k in Outbound(r, m, map[], trust, []) && Outbound(r, m, map[], trust, [])[k] == m[k]
  {
    assert k !in HopHeaders && k !in ForwardedNames;
    OutboundKeepsEndToEnd(r, m, trust, k);
  }

  /** The outcome of one of writeHeader's switches on `key`: trusted inbound value, else the request's own, else absent. */
  predicate Decided(out: HeaderMap, key: string, inbound: string, trust: bool, own: string) {
    if inbound != "" && trust then key in out && out[key] == [inbound]
    else if own != "" then key in out && out[key] == [own]
    else key !in out
  }

  /**
   * X-Forwarded-For holds one value when the peer address splits: the
   * client address, after the trusted inbound chain joined with ", ";
   * otherwise it is left as copied.
   */
  lemma ForwardedForRule(r: Request, m: HeaderMap, fwd: HeaderMap, trust: bool, allowed: seq<string>)
    ensures var out, base := Outbound(r, m, fwd, trust, allowed), Base(m, fwd, allowed);
      match r.clientIP
      case Some(ip) =>
        XForwardedFor in out &&
        out[XForwardedFor] == [if trust && XForwardedFor in m then Join(m[XForwardedFor], ", ") + ", " + ip else ip]
      case None => Lookup(out, XForwardedFor) == Lookup(base, XForwardedFor) && (XForwardedFor in out <==> XForwardedFor in base)
  {
  }

  /**
   * X-Forwarded-Method, -Host and -Uri take the trusted non-empty inbound
   * value, else the request's method, host or request URI when non-empty,
   * and are removed otherwise.
   */
  lemma ChosenRules(r: Request, m: HeaderMap, fwd: HeaderMap, trust: bool, allowed: seq<string>)
    ensures Decided(Outbound(r, m, fwd, trust, allowed), XForwardedMethod, First(m, XForwardedMethod), trust, r.verb)
    ensures Decided(Outbound(r, m, fwd, trust, allowed), XForwardedHost, First(m, XForwardedHost), trust, r.host)
    ensures Decided(Outbound(r, m, fwd, trust, allowed), XForwardedUri, First(m, XForwardedUri), trust, r.urlRequestURI)
  {
  }

  /**
   * X-Forwarded-Proto is always set: the trusted non-empty inbound value,
   * else https over TLS and http otherwise. X-Forwarded-Port is replaced by
   * a trusted non-empty inbound value and otherwise left as copied.
   */
  lemma ProtoAndPortRules(r: Request, m: HeaderMap, fwd: HeaderMap, trust: bool, allowed: seq<string>)
    ensures var out, xfp := Outbound(r, m, fwd, trust, allowed), First(m, XForwardedProto);
      XForwardedProto in out && out[XForwardedProto] == [if xfp != "" && trust then xfp else if r.tls then "https" else "http"]
    ensures var out, base, port := Outbound(r, m, fwd, trust, allowed), Base(m, fwd, allowed), First(m, XForwardedPort);
      if port != "" && trust then XForwardedPort in out && out[XForwardedPort] == [port]
      else Lookup(out, XForwardedPort) == Lookup(base, XForwardedPort) && (XForwardedPort in out <==> XForwardedPort in base)
  {
  }
}

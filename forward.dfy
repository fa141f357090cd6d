/**
 * The forward-auth gate of pkg/middleware/auth/forward.go: it cleans the
 * `Connection` header of the inbound request, asks an authority server
 * about a copy of the request, relays the authority's answer when it
 * refuses, and otherwise copies selected authority headers onto the request
 * and calls the next handler.
 */
module Forward {
  import opened Wrappers
  import opened Canonical
  import opened HeaderTable
  import opened HeaderFuncs
  import opened Exchange
  import opened ForwardHeaders

  const UpgradeHeader := "Upgrade"
  const LocationHeader := "Location"

  datatype ForwardConfig = ForwardConfig(
    address: string,
    trustForwardHeader: bool,
    authResponseHeaders: seq<string>,
    authResponseHeadersRegex: string,
    authRequestHeaders: seq<string>)

  /**
   * The authority's answer: the HTTP client failed, or a status, a header
   * table and a body (None when reading the body failed).
   */
  datatype AuthReply = TransportError | Reply(status: StatusCode, header: HeaderMap, body: Option<string>)

  /**
   * What the gate learns from code the model does not re-implement: whether
   * a pattern compiles and whether it matches a key (regexp), whether
   * http.NewRequest accepts the address, the authority's reply to a request
   * with the given headers (the HTTP client, which follows no redirect and
   * gives up after 30 seconds), Response.Location's parse of a Location
   * value into a URL string, and httpguts.HeaderValuesContainsToken.
   */
  datatype Net = Net(
    compiles: string -> bool,
    matches: (string, string) -> bool,
    requestBuilds: string -> bool,
    authority: (string, HeaderMap) -> AuthReply,
    parseLocation: string -> Option<string>,
    containsToken: (seq<string>, string) -> bool)

  /**
   * The inbound table after the Connection clean-up: every header a
   * `Connection` token names is removed; then, when `Connection` listed the
   * `Upgrade` token and `Upgrade` had a non-empty first value, `Connection`
   * becomes just `Upgrade` and `Upgrade` keeps that value; otherwise
   * `Connection` is dropped.
   */
  function Sanitized(m: HeaderMap, containsToken: (seq<string>, string) -> bool): HeaderMap {
    var upType := if containsToken(Lookup(m, ConnectionHeader), UpgradeHeader) then First(m, UpgradeHeader) else "";
    var s := Stripped(m);
    if upType != "" then s[ConnectionHeader := [UpgradeHeader]][UpgradeHeader := [upType]]
    else s - {ConnectionHeader}
  }

  /** The clean-up of the inbound `Connection` and `Upgrade` headers. */
  method SanitizeConnection(h: Header, containsToken: (seq<string>, string) -> bool)
    modifies h
    ensures h.m == Sanitized(old(h.m), containsToken)
  {
    ConnectionCanonical();
    UpgradeCanonical();
    var reqUpType := "";
    if containsToken(Lookup(h.m, ConnectionHeader), UpgradeHeader) {
      reqUpType := Get(h.m, UpgradeHeader);
    }
    RemoveConnectionHeaders(h);
    if reqUpType != "" {
      h.Set(ConnectionHeader, UpgradeHeader);
      h.Set(UpgradeHeader, reqUpType);
    } else {
      h.Del(ConnectionHeader);
    }
  }

  /**
   * After the clean-up `Connection` is absent or exactly `Upgrade`; it is
   * `Upgrade` exactly when it listed the `Upgrade` token and `Upgrade` had a
   * non-empty first value, which `Upgrade` then holds alone. Every other
   * header a token names is gone, and every header no token names is kept;
   * when the upgrade is not kept, `Upgrade` is gone if a token names it and
   * keeps its values otherwise.
   */
  lemma SanitizedSpec(m: HeaderMap, containsToken: (seq<string>, string) -> bool)
    ensures var s := Sanitized(m, containsToken);
      ConnectionHeader !in s || s[ConnectionHeader] == [UpgradeHeader]
    ensures var s := Sanitized(m, containsToken);
      ConnectionHeader in s <==> containsToken(Lookup(m, ConnectionHeader), UpgradeHeader) && First(m, UpgradeHeader) != ""
    ensures var s := Sanitized(m, containsToken);
      ConnectionHeader in s ==> UpgradeHeader in s && s[UpgradeHeader] == [First(m, UpgradeHeader)]
    ensures forall k :: k in ConnectionNames(Lookup(m, ConnectionHeader)) && k != ConnectionHeader && k != UpgradeHeader ==>
      k !in Sanitized(m, containsToken)
    ensures forall k :: k in m && k !in ConnectionNames(Lookup(m, ConnectionHeader)) && k != ConnectionHeader && k != UpgradeHeader ==>
      k in Sanitized(m, containsToken) && Sanitized(m, containsToken)[k] == m[k]
    ensures var kept := containsToken(Lookup(m, ConnectionHeader), UpgradeHeader) && First(m, UpgradeHeader) != "";
      !kept && UpgradeHeader in ConnectionNames(Lookup(m, ConnectionHeader)) ==> UpgradeHeader !in Sanitized(m, containsToken)
    ensures var kept := containsToken(Lookup(m, ConnectionHeader), UpgradeHeader) && First(m, UpgradeHeader) != "";
      !kept && UpgradeHeader in m && UpgradeHeader !in ConnectionNames(Lookup(m, ConnectionHeader)) ==>
        UpgradeHeader in Sanitized(m, containsToken) && Sanitized(m, containsToken)[UpgradeHeader] == m[UpgradeHeader]
  {
  }

  /** The keys of `auth` that hold at least one value. */
  function NonEmptyKeys(auth: HeaderMap): set<string> {
    set k | k in auth && |auth[k]| > 0
  }

  /** The table after the listed keys are replaced by the authority's values, or removed where it has none. */
  function Replaced(m: HeaderMap, auth: HeaderMap, keys: set<string>): HeaderMap {
    map k | k in (m.Keys - keys) + (keys * NonEmptyKeys(auth)) :: if k in keys then auth[k] else m[k]
  }

  /** The copy of the listed authority response headers onto the request. */
  method MergeListed(h: Header, names: seq<string>, auth: HeaderMap)
    modifies h
    ensures h.m == Replaced(old(h.m), auth, CanonSet(names))
  {
    ghost var m0 := h.m;
    var i := 0;
    while i < |names|
      invariant 0 <= i <= |names|
      invariant h.m == Replaced(m0, auth, CanonSet(names[..i]))
    {
      var headerKey := Canon(names[i]);
      CanonSetSnoc(names, i);
      ReplacedStep(m0, auth, CanonSet(names[..i]), headerKey);
      CanonIdempotent(names[i]);
      h.Del(headerKey);
      if |Lookup(auth, headerKey)| > 0 {
        h.Put(headerKey, auth[headerKey]);
      }
      i := i + 1;
    }
    assert names[..i] == names;
  }

  /** Listing one more key replaces that key alone. */
  lemma ReplacedStep(m: HeaderMap, auth: HeaderMap, keys: set<string>, k: string)
    ensures Replaced(m, auth, keys + {k}) ==
      if |Lookup(auth, k)| > 0 then (Replaced(m, auth, keys) - {k})[k := auth[k]] else Replaced(m, auth, keys) - {k}
  {
    var a := Replaced(m, auth, keys + {k});
    var b := if |Lookup(auth, k)| > 0 then (Replaced(m, auth, keys) - {k})[k := auth[k]] else Replaced(m, auth, keys) - {k};
    assert a.Keys == b.Keys;
    forall x | x in a
      ensures a[x] == b[x]
    {
    }
  }

  /**
   * Each listed key takes the authority's values, or is removed when the
   * authority has none for it; every other key keeps its values.
   */
  lemma ReplacedSpec(m: HeaderMap, auth: HeaderMap, keys: set<string>)
    ensures forall k :: k in keys ==> (k in Replaced(m, auth, keys) <==> k in auth && |auth[k]| > 0)
    ensures forall k :: k in keys && k in Replaced(m, auth, keys) ==> Replaced(m, auth, keys)[k] == auth[k]
    ensures forall k :: k !in keys ==> (k in Replaced(m, auth, keys) <==> k in m)
    ensures forall k :: k !in keys && k in m ==> Replaced(m, auth, keys)[k] == m[k]
  {
  }

  /** The keys the matching pass deletes: the canonical form of every matching inbound key. */
  function Dropped(m: HeaderMap, pattern: string, matches: (string, string) -> bool): set<string> {
    set k | k in m && matches(pattern, k) :: Canon(k)
  }

  /** The authority's keys that match. */
  function Taken(auth: HeaderMap, pattern: string, matches: (string, string) -> bool): set<string> {
    set k | k in auth && matches(pattern, k)
  }

  /** The table after the matching pass: matching inbound keys removed, then matching authority keys written over it. */
  function Matched(m: HeaderMap, auth: HeaderMap, pattern: string, matches: (string, string) -> bool): HeaderMap {
    Overlaid(m - Dropped(m, pattern, matches), Restrict(auth, Taken(auth, pattern, matches)))
  }

  /** `m` with the entries of `top` written over it. */
  function Overlaid(m: HeaderMap, top: HeaderMap): HeaderMap {
    map k | k in m.Keys + top.Keys :: if k in top then top[k] else m[k]
  }

  /**
   * The regular-expression pass: delete every inbound key that matches,
   * then copy in every authority key that matches. The inbound keys are
   * scanned as they were before the pass; a key deleted earlier in the scan
   * is canonical, so deleting it again changes nothing.
   */
  method MergeMatching(h: Header, auth: HeaderMap, pattern: string, matches: (string, string) -> bool)
    modifies h
    ensures h.m == Matched(old(h.m), auth, pattern, matches)
  {
    DeleteMatching(h, pattern, matches);
    CopyMatching(h, auth, pattern, matches);
  }

  /** The first loop of the regular-expression pass. */
  method DeleteMatching(h: Header, pattern: string, matches: (string, string) -> bool)
    modifies h
    ensures h.m == old(h.m) - Dropped(old(h.m), pattern, matches)
  {
    ghost var m0 := h.m;
    var todo := h.m.Keys;
    ghost var gone: set<string> := {};
    DroppedStart(m0, pattern, matches);
    while todo != {}
      invariant todo <= m0.Keys
      invariant gone == Dropped(Restrict(m0, m0.Keys - todo), pattern, matches)
      invariant h.m == m0 - gone
      decreases todo
    {
      var headerKey :| headerKey in todo;
      DroppedStep(m0, m0.Keys - todo, headerKey, pattern, matches);
      if matches(pattern, headerKey) {
        var key := Canon(headerKey);
        h.Del(headerKey);
        SubtractTwice(m0, gone, key);
        gone := gone + {key};
      }
      assert m0.Keys - (todo - {headerKey}) == (m0.Keys - todo) + {headerKey};
      todo := todo - {headerKey};
    }
    assert Restrict(m0, m0.Keys - todo) == m0;
  }

  /** The second loop of the regular-expression pass. */
  method CopyMatching(h: Header, auth: HeaderMap, pattern: string, matches: (string, string) -> bool)
    modifies h
    ensures h.m == Overlaid(old(h.m), Restrict(auth, Taken(auth, pattern, matches)))
  {
    ghost var m1 := h.m;
    ghost var taken := Taken(auth, pattern, matches);
    var pending := auth.Keys;
    OverlaidStart(m1, auth, taken);
    while pending != {}
      invariant pending <= auth.Keys
      invariant h.m == Overlaid(m1, Restrict(auth, taken - pending))
      decreases pending
    {
      var headerKey :| headerKey in pending;
      OverlaidStep(m1, auth, taken, pending, headerKey);
      if matches(pattern, headerKey) {
        h.Put(headerKey, auth[headerKey]);
      }
      pending := pending - {headerKey};
    }
    assert taken - pending == taken;
  }

  lemma SubtractTwice(m: HeaderMap, gone: set<string>, k: string)
    ensures (m - gone) - {k} == m - (gone + {k})
  {
  }

  lemma DroppedStart(m: HeaderMap, pattern: string, matches: (string, string) -> bool)
    ensures Dropped(Restrict(m, m.Keys - m.Keys), pattern, matches) == {}
  {
    assert Restrict(m, m.Keys - m.Keys) == map[];
  }

  lemma DroppedStep(m: HeaderMap, done: set<string>, k: string, pattern: string, matches: (string, string) -> bool)
    requires k in m
    ensures Dropped(Restrict(m, done + {k}), pattern, matches) ==
      Dropped(Restrict(m, done), pattern, matches) + (if matches(pattern, k) then {Canon(k)} else {})
  {
    var a := Dropped(Restrict(m, done + {k}), pattern, matches);
    var b := Dropped(Restrict(m, done), pattern, matches) + (if matches(pattern, k) then {Canon(k)} else {});
    forall x | x in a
      ensures x in b
    {
      var y :| y in Restrict(m, done + {k}) && matches(pattern, y) && Canon(y) == x;
    }
    if matches(pattern, k) {
      assert k in Restrict(m, done + {k});
    }
  }

  lemma OverlaidStart(m: HeaderMap, auth: HeaderMap, taken: set<string>)
    ensures Overlaid(m, Restrict(auth, taken - auth.Keys)) == m
  {
    assert Restrict(auth, taken - auth.Keys) == map[];
  }

  lemma OverlaidStep(m: HeaderMap, auth: HeaderMap, taken: set<string>, pending: set<string>, k: string)
    requires k in pending && pending <= auth.Keys
    ensures Overlaid(m, Restrict(auth, taken - (pending - {k}))) ==
      if k in taken then Overlaid(m, Restrict(auth, taken - pending))[k := auth[k]]
      else Overlaid(m, Restrict(auth, taken - pending))
  {
    var a := Overlaid(m, Restrict(auth, taken - (pending - {k})));
    var b := if k in taken then Overlaid(m, Restrict(auth, taken - pending))[k := auth[k]]
      else Overlaid(m, Restrict(auth, taken - pending));
    assert a.Keys == b.Keys;
    forall x | x in a
      ensures a[x] == b[x]
    {
    }
  }

  /**
   * What the regular-expression pass guarantees: every matching authority
   * key arrives with the authority's values; a canonical inbound key that
   * matches survives only as the authority's copy; every other key that
   * remains keeps its inbound values.
   */
  lemma MatchedSpec(m: HeaderMap, auth: HeaderMap, pattern: string, matches: (string, string) -> bool)
    ensures forall k :: k in auth && matches(pattern, k) ==>
      k in Matched(m, auth, pattern, matches) && Matched(m, auth, pattern, matches)[k] == auth[k]
    ensures forall k :: k in m && matches(pattern, k) && Canon(k) == k && k !in auth ==>
      k !in Matched(m, auth, pattern, matches)
    ensures forall k :: k in Matched(m, auth, pattern, matches) && !(k in auth && matches(pattern, k)) ==>
      k in m && Matched(m, auth, pattern, matches)[k] == m[k]
    ensures forall k :: k in m && k !in Dropped(m, pattern, matches) ==>
      k in Matched(m, auth, pattern, matches)
  {
    forall k | k in m && matches(pattern, k) && Canon(k) == k && k !in auth
      ensures k !in Matched(m, auth, pattern, matches)
    {
      assert k in Dropped(m, pattern, matches);
    }
  }

  /**
   * The answer relayed for a refusal: the authority's headers appended to
   * the response's, hop-by-hop headers removed; then, when the authority
   * sent a `Location`, either 500 because it does not parse or the parsed
   * URL as the only `Location`; then the authority's status and body.
   */
  function Denial(m: HeaderMap, uri: string, wm: HeaderMap, status: StatusCode, auth: HeaderMap, body: string,
                  parseLocation: string -> Option<string>): Effect
  {
    var wh := Appended(wm, auth) - CanonSet(HopHeaders);
    var location := First(auth, LocationHeader);
    if location == "" then Effect(m, uri, wh, status, body, false)
    else match parseLocation(location)
      case None => Effect(m, uri, wh, StatusInternalServerError, "", false)
      case Some(u) => Effect(m, uri, if u != "" then wh[LocationHeader := [u]] else wh, status, body, false)
  }

  /** The refusal branch of the handler: relay the authority's answer to the client. */
  method RelayDenial(w: ResponseWriter, r: Request, status: StatusCode, auth: HeaderMap, body: string,
                     parseLocation: string -> Option<string>)
    modifies w, w.header
    ensures var e := Denial(r.header.m, r.requestURI, old(w.header.m), status, auth, body, parseLocation);
      && w.header.m == e.response
      && w.status == (if old(w.status) == 0 then e.code else old(w.status))
      && w.body == old(w.body) + e.body
  {
    var src := new Header(auth);
    CopyHeaders(w.header, src);
    RemoveHeaders(w.header, HopHeaders);
    LocationCanonical();
    var location := Get(auth, LocationHeader);
    if location != "" {
      var redirectURL := parseLocation(location);
      if redirectURL.None? {
        w.WriteHeader(StatusInternalServerError);
        return;
      }
      if redirectURL.value != "" {
        w.header.Set(LocationHeader, redirectURL.value);
      }
    }
    w.WriteHeader(status);
    w.Write(body);
  }

  /**
   * What the handler does with request `r` (inbound headers `m`, request
   * URI `uri`) and response headers `wm`: 500 when the pattern does not
   * compile; otherwise clean `Connection` and consult the authority.
   */
  function ForwardEffect(cfg: ForwardConfig, net: Net, r: Request, m: HeaderMap, uri: string, wm: HeaderMap): Effect {
    var pattern := cfg.authResponseHeadersRegex;
    if pattern != "" && !net.compiles(pattern) then Effect(m, uri, wm, StatusInternalServerError, "", false)
    else Consulted(cfg, net, r, Sanitized(m, net.containsToken), uri, wm)
  }

  /**
   * The handler once `Connection` is clean (headers `m`): 500 when the
   * outbound request cannot be built, the call fails or its body cannot be
   * read; a status outside [200, 300) is relayed; anything else merges the
   * authority's headers into the request, restores its request URI from
   * the URL, and calls the next handler.
   */
  function Consulted(cfg: ForwardConfig, net: Net, r: Request, m: HeaderMap, uri: string, wm: HeaderMap): Effect {
    if !net.requestBuilds(cfg.address) then Effect(m, uri, wm, StatusInternalServerError, "", false)
    else Answered(cfg, net, r, m, uri, wm, AuthorityReply(cfg, net, r, m))
  }

  /** The authority's reply to the outbound request built from `r` with inbound headers `m`. */
  function AuthorityReply(cfg: ForwardConfig, net: Net, r: Request, m: HeaderMap): AuthReply {
    net.authority(cfg.address, Outbound(r, m, map[], cfg.trustForwardHeader, cfg.authRequestHeaders))
  }

  /** The handler once the authority has given `reply`. */
  function Answered(cfg: ForwardConfig, net: Net, r: Request, m: HeaderMap, uri: string, wm: HeaderMap, reply: AuthReply): Effect {
    match reply
    case TransportError => Effect(m, uri, wm, StatusInternalServerError, "", false)
    case Reply(status, auth, body) =>
      if body.None? then Effect(m, uri, wm, StatusInternalServerError, "", false)
      else if status < 200 || status >= 300 then Denial(m, uri, wm, status, auth, body.value, net.parseLocation)
      else Effect(Admitted(cfg, net, m, auth), r.urlRequestURI, wm, 0, "", true)
  }

  /** The request headers handed on: listed keys replaced, then the matching pass when a pattern is set. */
  function Admitted(cfg: ForwardConfig, net: Net, m: HeaderMap, auth: HeaderMap): HeaderMap {
    var m2 := Replaced(m, auth, CanonSet(cfg.authResponseHeaders));
    var pattern := cfg.authResponseHeadersRegex;
    if pattern != "" then Matched(m2, auth, pattern, net.matches) else m2
  }

  /** The handler ForwardAuth returns. */
  method Forward(cfg: ForwardConfig, net: Net, w: ResponseWriter, r: Request, next: Next)
    requires r.header != w.header
    modifies r, r.header, w, w.header, next
    ensures var e := ForwardEffect(cfg, net, r, old(r.header.m), old(r.requestURI), old(w.header.m));
      && r.header.m == e.request && r.requestURI == e.requestURI && w.header.m == e.response
      && w.status == (if old(w.status) == 0 then e.code else old(w.status))
      && w.body == old(w.body) + e.body
      && next.calls == old(next.calls) + (if e.forwarded then [Call(e.request, e.requestURI)] else [])
  {
    var pattern := cfg.authResponseHeadersRegex;
    if pattern != "" && !net.compiles(pattern) {
      w.WriteHeader(StatusInternalServerError);
      return;
    }
    SanitizeConnection(r.header, net.containsToken);
    Consult(cfg, net, w, r, next);
  }

  /** The part of the handler after the `Connection` clean-up. */
  method Consult(cfg: ForwardConfig, net: Net, w: ResponseWriter, r: Request, next: Next)
    requires r.header != w.header
    modifies r, r.header, w, w.header, next
    ensures var e := Consulted(cfg, net, r, old(r.header.m), old(r.requestURI), old(w.header.m));
      && r.header.m == e.request && r.requestURI == e.requestURI && w.header.m == e.response
      && w.status == (if old(w.status) == 0 then e.code else old(w.status))
      && w.body == old(w.body) + e.body
      && next.calls == old(next.calls) + (if e.forwarded then [Call(e.request, e.requestURI)] else [])
  {
    if !net.requestBuilds(cfg.address) {
      w.WriteHeader(StatusInternalServerError);
      return;
    }
    var reply := Ask(cfg, net, r);
    Respond(cfg, net, w, r, next, reply);
  }

  /** Build the outbound request from `r` and send it to the authority. */
  method Ask(cfg: ForwardConfig, net: Net, r: Request) returns (reply: AuthReply)
    ensures reply == AuthorityReply(cfg, net, r, r.header.m)
  {
    var forwardReq := new Header(map[]);
    WriteHeader(r, forwardReq, cfg.trustForwardHeader, cfg.authRequestHeaders);
    reply := net.authority(cfg.address, forwardReq.m);
  }

  /** The part of the handler that acts on the authority's reply. */
  method Respond(cfg: ForwardConfig, net: Net, w: ResponseWriter, r: Request, next: Next, reply: AuthReply)
    requires r.header != w.header
    modifies r, r.header, w, w.header, next
    ensures var e := Answered(cfg, net, r, old(r.header.m), old(r.requestURI), old(w.header.m), reply);
      && r.header.m == e.request && r.requestURI == e.requestURI && w.header.m == e.response
      && w.status == (if old(w.status) == 0 then e.code else old(w.status))
      && w.body == old(w.body) + e.body
      && next.calls == old(next.calls) + (if e.forwarded then [Call(e.request, e.requestURI)] else [])
  {
    if reply.TransportError? || reply.body.None? {
      w.WriteHeader(StatusInternalServerError);
      return;
    }
    if reply.status < 200 || reply.status >= 300 {
      RelayDenial(w, r, reply.status, reply.header, reply.body.value, net.parseLocation);
      return;
    }
    Admit(cfg, net, r.header, reply.header);
    r.requestURI := r.urlRequestURI;
    next.ServeHTTP(w, r);
  }

  /** The merge of the authority's headers into the request. */
  method Admit(cfg: ForwardConfig, net: Net, h: Header, auth: HeaderMap)
    modifies h
    ensures h.m == Admitted(cfg, net, old(h.m), auth)
  {
    MergeListed(h, cfg.authResponseHeaders, auth);
    if cfg.authResponseHeadersRegex != "" {
      MergeMatching(h, auth, cfg.authResponseHeadersRegex, net.matches);
    }
  }

  /**
   * The next handler is called exactly when the pattern (if any) compiles,
   * the outbound request is built, and the authority answers with a
   * readable body and a status in [200, 300).
   */
  lemma ForwardPassesIff(cfg: ForwardConfig, net: Net, r: Request, m: HeaderMap, uri: string, wm: HeaderMap)
    ensures ForwardEffect(cfg, net, r, m, uri, wm).forwarded <==>
      (cfg.authResponseHeadersRegex == "" || net.compiles(cfg.authResponseHeadersRegex)) &&
      net.requestBuilds(cfg.address) &&
      var reply := AuthorityReply(cfg, net, r, Sanitized(m, net.containsToken));
      reply.Reply? && reply.body.Some? && 200 <= reply.status < 300
  {
  }

  /** A pattern that does not compile answers 500 before anything else is touched. */
  lemma BadPatternIs500(cfg: ForwardConfig, net: Net, r: Request, m: HeaderMap, uri: string, wm: HeaderMap)
    requires cfg.authResponseHeadersRegex != "" && !net.compiles(cfg.authResponseHeadersRegex)
    ensures ForwardEffect(cfg, net, r, m, uri, wm) == Effect(m, uri, wm, 500, "", false)
  {
  }

  /**
   * An address the request cannot be built from, a failed call and an
   * unreadable body all answer 500 with no body; the response headers are
   * untouched, and the request keeps only the `Connection` clean-up.
   */
  lemma AuthorityFailureIs500(cfg: ForwardConfig, net: Net, r: Request, m: HeaderMap, uri: string, wm: HeaderMap)
    requires cfg.authResponseHeadersRegex == "" || net.compiles(cfg.authResponseHeadersRegex)
    requires var reply := AuthorityReply(cfg, net, r, Sanitized(m, net.containsToken));
      !net.requestBuilds(cfg.address) || reply.TransportError? || reply.body.None?
    ensures ForwardEffect(cfg, net, r, m, uri, wm) == Effect(Sanitized(m, net.containsToken), uri, wm, 500, "", false)
  {
  }

  /**
   * A refusal without `Location` is relayed as it came: the authority's
   * status and body, its headers added to the response's, and no
   * hop-by-hop header in the result.
   */
  lemma RefusalIsRelayed(cfg: ForwardConfig, net: Net, r: Request, m: HeaderMap, uri: string, wm: HeaderMap,
                         status: StatusCode, auth: HeaderMap, body: string)
    requires cfg.authResponseHeadersRegex == "" || net.compiles(cfg.authResponseHeadersRegex)
    requires net.requestBuilds(cfg.address)
    requires AuthorityReply(cfg, net, r, Sanitized(m, net.containsToken)) == Reply(status, auth, Some(body))
    requires status < 200 || status >= 300
    requires First(auth, LocationHeader) == ""
    ensures var e := ForwardEffect(cfg, net, r, m, uri, wm);
      && !e.forwarded && e.code == status && e.body == body
      && e.request == Sanitized(m, net.containsToken) && e.requestURI == uri
      && (forall k :: k in auth && k !in CanonSet(HopHeaders) ==> k in e.response && e.response[k] == Lookup(wm, k) + auth[k])
      && (forall h :: h in HopHeaders ==> Canon(h) !in e.response)
  {
  }

  /**
   * A refusal whose `Location` parses to a non-empty URL carries exactly
   * that URL as `Location`, with the authority's status and body, and no
   * hop-by-hop header.
   */
  lemma RedirectIsRelayed(cfg: ForwardConfig, net: Net, r: Request, m: HeaderMap, uri: string, wm: HeaderMap,
                          status: StatusCode, auth: HeaderMap, body: string, url: string)
    requires cfg.authResponseHeadersRegex == "" || net.compiles(cfg.authResponseHeadersRegex)
    requires net.requestBuilds(cfg.address)
    requires AuthorityReply(cfg, net, r, Sanitized(m, net.containsToken)) == Reply(status, auth, Some(body))
    requires status < 200 || status >= 300
    requires First(auth, LocationHeader) != "" && net.parseLocation(First(auth, LocationHeader)) == Some(url) && url != ""
    ensures var e := ForwardEffect(cfg, net, r, m, uri, wm);
      && !e.forwarded && e.code == status && e.body == body
      && LocationHeader in e.response && e.response[LocationHeader] == [url]
      && (forall h :: h in HopHeaders ==> Canon(h) !in e.response)
  {
    var wh := Appended(wm, auth) - CanonSet(HopHeaders);
    var m1 := Sanitized(m, net.containsToken);
    assert ForwardEffect(cfg, net, r, m, uri, wm) == Effect(m1, uri, wh[LocationHeader := [url]], status, body, false);
    LocationIsNoHop();
  }

  /** `Location` is not a hop-by-hop header. */
  lemma LocationIsNoHop()
    ensures LocationHeader !in CanonSet(HopHeaders)
  {
    forall h | h in HopHeaders
      ensures Canon(h) != LocationHeader
    {
      if h == "Trailers" {
        TrailersCanonical();
        assert h[0] != LocationHeader[0];
      } else {
        assert |Canon(h)| == |h| != |LocationHeader|;
      }
    }
  }

  /** A refusal whose `Location` does not parse answers 500 with no body, the authority's headers already copied. */
  lemma BadLocationIs500(cfg: ForwardConfig, net: Net, r: Request, m: HeaderMap, uri: string, wm: HeaderMap,
                         status: StatusCode, auth: HeaderMap, body: string)
    requires cfg.authResponseHeadersRegex == "" || net.compiles(cfg.authResponseHeadersRegex)
    requires net.requestBuilds(cfg.address)
    requires AuthorityReply(cfg, net, r, Sanitized(m, net.containsToken)) == Reply(status, auth, Some(body))
    requires status < 200 || status >= 300
    requires First(auth, LocationHeader) != "" && net.parseLocation(First(auth, LocationHeader)).None?
    ensures ForwardEffect(cfg, net, r, m, uri, wm) ==
      Effect(Sanitized(m, net.containsToken), uri, Appended(wm, auth) - CanonSet(HopHeaders), 500, "", false)
  {
  }

  /**
   * On success the response is untouched and no status is written, the
   * request URI is rebuilt from the URL, and every listed header reaches
   * the next handler only with the authority's values: a value the client
   * sent under that name never survives, and one the authority sent
   * arrives when no pattern is set or the pattern matches its key.
   */
  lemma ListedHeadersComeFromAuthority(cfg: ForwardConfig, net: Net, r: Request, m: HeaderMap, uri: string, wm: HeaderMap,
                                       status: StatusCode, auth: HeaderMap, body: string, name: string)
    requires cfg.authResponseHeadersRegex == "" || net.compiles(cfg.authResponseHeadersRegex)
    requires net.requestBuilds(cfg.address)
    requires AuthorityReply(cfg, net, r, Sanitized(m, net.containsToken)) == Reply(status, auth, Some(body))
    requires 200 <= status < 300
    requires name in cfg.authResponseHeaders
    ensures var e := ForwardEffect(cfg, net, r, m, uri, wm);
      && e.forwarded && e.response == wm && e.code == 0 && e.body == "" && e.requestURI == r.urlRequestURI
      && (Canon(name) in e.request ==> Canon(name) in auth && e.request[Canon(name)] == auth[Canon(name)])
      && (Canon(name) in auth && |auth[Canon(name)]| > 0 &&
          (cfg.authResponseHeadersRegex == "" || net.matches(cfg.authResponseHeadersRegex, Canon(name))) ==>
          Canon(name) in e.request)
  {
    var m1 := Sanitized(m, net.containsToken);
    assert ForwardEffect(cfg, net, r, m, uri, wm) == Effect(Admitted(cfg, net, m1, auth), r.urlRequestURI, wm, 0, "", true);
    AdmittedListed(cfg, net, m1, auth, name);
  }

  /** The merge gives each listed key the authority's values, or removes it when the authority has none. */
  lemma AdmittedListed(cfg: ForwardConfig, net: Net, m: HeaderMap, auth: HeaderMap, name: string)
    requires name in cfg.authResponseHeaders
    ensures Canon(name) in Admitted(cfg, net, m, auth) ==>
      Canon(name) in auth && Admitted(cfg, net, m, auth)[Canon(name)] == auth[Canon(name)]
    ensures (Canon(name) in auth && |auth[Canon(name)]| > 0 &&
             (cfg.authResponseHeadersRegex == "" || net.matches(cfg.authResponseHeadersRegex, Canon(name)))) ==>
      Canon(name) in Admitted(cfg, net, m, auth)
  {
    var m2 := Replaced(m, auth, CanonSet(cfg.authResponseHeaders));
    assert Canon(name) in CanonSet(cfg.authResponseHeaders);
    ReplacedSpec(m, auth, CanonSet(cfg.authResponseHeaders));
    var pattern := cfg.authResponseHeadersRegex;
    if pattern != "" {
      MatchedSpec(m2, auth, pattern, net.matches);
    }
  }

  /**
   * The merge leaves every other request header as it was: a key that is
   * not listed, and that no key of either table matching the pattern is
   * or canonicalises to, keeps its values.
   */
  lemma AdmittedKeepsOthers(cfg: ForwardConfig, net: Net, m: HeaderMap, auth: HeaderMap, k: string)
    requires k in m && k !in CanonSet(cfg.authResponseHeaders)
    requires cfg.authResponseHeadersRegex != "" ==>
      forall j :: j in m.Keys + auth.Keys && net.matches(cfg.authResponseHeadersRegex, j) ==> j != k && Canon(j) != k
    ensures k in Admitted(cfg, net, m, auth) && Admitted(cfg, net, m, auth)[k] == m[k]
  {
    var m2 := Replaced(m, auth, CanonSet(cfg.authResponseHeaders));
    ReplacedSpec(m, auth, CanonSet(cfg.authResponseHeaders));
    var pattern := cfg.authResponseHeadersRegex;
    if pattern != "" {
      MatchedSpec(m2, auth, pattern, net.matches);
      assert k !in Dropped(m2, pattern, net.matches);
    }
  }

  /**
   * With a pattern set, every authority header whose key matches reaches
   * the next handler with the authority's values, and no canonical key
   * that matches carries a value the client sent.
   */
  lemma MatchingHeadersComeFromAuthority(cfg: ForwardConfig, net: Net, r: Request, m: HeaderMap, uri: string, wm: HeaderMap,
                                         status: StatusCode, auth: HeaderMap, body: string)
    requires cfg.authResponseHeadersRegex != "" && net.compiles(cfg.authResponseHeadersRegex)
    requires net.requestBuilds(cfg.address)
    requires AuthorityReply(cfg, net, r, Sanitized(m, net.containsToken)) == Reply(status, auth, Some(body))
    requires 200 <= status < 300
    ensures var e := ForwardEffect(cfg, net, r, m, uri, wm);
      && (forall k :: k in auth && net.matches(cfg.authResponseHeadersRegex, k) ==> k in e.request && e.request[k] == auth[k])
      && (forall k :: k in e.request && net.matches(cfg.authResponseHeadersRegex, k) && Canon(k) == k ==>
            k in auth && e.request[k] == auth[k])
  {
    var m2 := Replaced(Sanitized(m, net.containsToken), auth, CanonSet(cfg.authResponseHeaders));
    MatchedSpec(m2, auth, cfg.authResponseHeadersRegex, net.matches);
  }
}

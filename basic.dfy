/**
 * The Basic authentication gate of pkg/middleware/auth/basic.go: the user
 * registry built from `name:hash` entries, the secret lookup, the challenge
 * written on failure, and the handler that lets a request through only when
 * its credentials check out.
 */
module Basic {
  import opened Wrappers
  import opened Text
  import opened Canonical
  import opened HeaderTable
  import opened Exchange
  import opened HttpAuth
  import opened Secret

  const DefaultRealm := "reverse_proxy"
  const AuthorizationHeader := "Authorization"
  const ContentType := "Content-Type"

  /** A parser of one configured entry into a user name and its hashed password. */
  type UserParser = string -> Result<(string, string)>

  /**
   * basicUserParser: an entry is `name:hash` with exactly one ':'; the name
   * is what precedes it and the hash what follows (possibly empty).
   */
  function BasicUserParser(user: string): (r: Result<(string, string)>)
    ensures r.Ok? <==> Count(user, ':') == 1
    ensures r.Ok? ==> user == r.value.0 + ":" + r.value.1
    ensures r.Ok? ==> ':' !in r.value.0 && ':' !in r.value.1
    ensures r.Err? ==> r.error == "error parsing BasicUser: " + user
  {
    var split := Split(user, ':');
    if |split| != 2 then Err("error parsing BasicUser: " + user)
    else
      SplitJoin(user, ':');
      SplitPieces(user, ':');
      assert Join(split, ":") == split[0] + ":" + Join(split[1..], ":");
      Ok((split[0], split[1]))
  }

  /**
   * The registry the entries make, read in order: the first entry that
   * fails to parse makes the whole build fail with its error, and a later
   * entry for a name replaces an earlier one.
   */
  function Registry(users: seq<string>, parser: UserParser): Result<map<string, string>> {
    if users == [] then Ok(map[])
    else
      match Registry(users[..|users| - 1], parser)
      case Err(e) => Err(e)
      case Ok(m) =>
        match parser(users[|users| - 1])
        case Err(e) => Err(e)
        case Ok(entry) => Ok(m[entry.0 := entry.1])
  }

  /** getUsers: fill the registry entry by entry, giving up at the first bad one. */
  method GetUsers(users: seq<string>, parser: UserParser) returns (r: Result<map<string, string>>)
    ensures r == Registry(users, parser)
  {
    var userMap: map<string, string> := map[];
    var i := 0;
    while i < |users|
      invariant 0 <= i <= |users|
      invariant Registry(users[..i], parser) == Ok(userMap)
    {
      assert users[..i + 1][..i] == users[..i];
      var parsed := parser(users[i]);
      if parsed.Err? {
        assert Registry(users[..i + 1], parser) == Err(parsed.error);
        RegistryErrorSticks(users, parser, i + 1);
        return Err(parsed.error);
      }
      userMap := userMap[parsed.value.0 := parsed.value.1];
      i := i + 1;
    }
    assert users[..i] == users;
    return Ok(userMap);
  }

  /** Once a prefix of the entries fails, the whole build fails with the same error. */
  lemma {:induction false} RegistryErrorSticks(users: seq<string>, parser: UserParser, n: nat)
    requires n <= |users| && Registry(users[..n], parser).Err?
    ensures Registry(users, parser) == Registry(users[..n], parser)
    decreases |users| - n
  {
    if n < |users| {
      assert users[..n + 1][..n] == users[..n];
      RegistryErrorSticks(users, parser, n + 1);
    } else {
      assert users[..n] == users;
    }
  }

  /** The build succeeds exactly when every entry parses. */
  lemma {:induction false} RegistryOkIff(users: seq<string>, parser: UserParser)
    ensures Registry(users, parser).Ok? <==> forall i :: 0 <= i < |users| ==> parser(users[i]).Ok?
  {
    if users != [] {
      var init := users[..|users| - 1];
      RegistryOkIff(init, parser);
      assert forall i :: 0 <= i < |init| ==> init[i] == users[i];
    }
  }

  /** A failed build reports the error of the first entry that does not parse. */
  lemma {:induction false} RegistryFirstError(users: seq<string>, parser: UserParser, i: nat)
    requires i < |users| && parser(users[i]).Err?
    requires forall j :: 0 <= j < i ==> parser(users[j]).Ok?
    ensures Registry(users, parser) == Err(parser(users[i]).error)
  {
    var prefix := users[..i + 1];
    RegistryOkIff(users[..i], parser);
    assert prefix[..i] == users[..i];
    assert Registry(prefix, parser) == Err(parser(users[i]).error);
    RegistryErrorSticks(users, parser, i + 1);
  }

  /** The registry's names are exactly the names the entries give. */
  lemma {:induction false} RegistryKeys(users: seq<string>, parser: UserParser, k: string)
    requires Registry(users, parser).Ok?
    ensures k in Registry(users, parser).value <==>
      exists i :: 0 <= i < |users| && parser(users[i]).Ok? && parser(users[i]).value.0 == k
  {
    if users != [] {
      var init := users[..|users| - 1];
      RegistryKeys(init, parser, k);
      assert forall i :: 0 <= i < |init| ==> init[i] == users[i];
      if k in Registry(users, parser).value && k !in Registry(init, parser).value {
        assert parser(users[|users| - 1]).value.0 == k;
      }
    }
  }

  /** An entry's hash is kept unless a later entry gives the same name: the last duplicate wins. */
  lemma {:induction false} RegistryLastWins(users: seq<string>, parser: UserParser, i: nat)
    requires Registry(users, parser).Ok?
    requires i < |users| && parser(users[i]).Ok?
    requires forall j :: i < j < |users| ==> parser(users[j]).Ok? && parser(users[j]).value.0 != parser(users[i]).value.0
    ensures parser(users[i]).value.0 in Registry(users, parser).value
    ensures Registry(users, parser).value[parser(users[i]).value.0] == parser(users[i]).value.1
  {
    var init := users[..|users| - 1];
    if i < |users| - 1 {
      assert init[i] == users[i];
      forall j | i < j < |init|
        ensures parser(init[j]).Ok? && parser(init[j]).value.0 != parser(init[i]).value.0
      {
        assert init[j] == users[j];
      }
      RegistryLastWins(init, parser, i);
    }
  }

  /** secretBasic: the stored hash of a known user, "" for an unknown one. */
  function SecretBasic(users: map<string, string>, user: string, realm: string): (secret: string)
    ensures user in users ==> secret == users[user]
    ensures secret == "" <==> user !in users || users[user] == ""
  {
    if user in users then users[user] else ""
  }

  /** The authenticator the gate builds over a registry: default realm, headers unset. */
  function BasicAuthOf(users: map<string, string>): BasicAuth {
    BasicAuth(DefaultRealm, (user, realm) => SecretBasic(users, user, realm), None)
  }

  /**
   * Request.BasicAuth: the credentials carried by the first `Authorization`
   * value; none when there is no such value. Decoding the value (the
   * `Basic ` scheme and base64 of `user:password`) is the `decode` input.
   */
  function Credentials(m: HeaderMap, decode: string -> Option<(string, string)>): (creds: Option<(string, string)>)
    ensures creds == if First(m, AuthorizationHeader) == "" then None else decode(First(m, AuthorizationHeader))
  {
    AuthorizationCanonical();
    var auth := Get(m, AuthorizationHeader);
    if auth == "" then None else decode(auth)
  }

  /** The gate's verdict: credentials present, a non-empty stored secret, and the password matches it. */
  function Authenticated(a: BasicAuth, c: Crypto, creds: Option<(string, string)>): bool {
    creds.Some? &&
    var secret := a.secrets(creds.value.0, a.realm);
    secret != "" && Verify(c, secret, creds.value.1)
  }

  /** The response headers of the challenge: Content-Type and the Basic challenge with the realm. */
  function Challenge(a: BasicAuth, wm: HeaderMap): HeaderMap {
    var h := HeadersOf(a);
    wm[Canon(ContentType) := [h.unauthContentType]][Canon(h.authenticate) := ["Basic realm=\"" + a.realm + "\""]]
  }

  /** RequireAuth: write the challenge, its status and its body. */
  method RequireAuth(a: BasicAuth, w: ResponseWriter)
    modifies w, w.header
    ensures w.header.m == Challenge(a, old(w.header.m))
    ensures w.status == if old(w.status) == 0 then HeadersOf(a).unauthCode else old(w.status)
    ensures w.body == old(w.body) + HeadersOf(a).unauthResponse
  {
    var h := HeadersOf(a);
    w.header.Set(ContentType, h.unauthContentType);
    w.header.Set(h.authenticate, "Basic realm=\"" + a.realm + "\"");
    w.WriteHeader(h.unauthCode);
    w.Write(h.unauthResponse);
  }

  /** What the Basic gate does with a request whose header table is `m`, answered on a writer whose header table is `wm`. */
  function BasicEffect(users: seq<string>, c: Crypto, decode: string -> Option<(string, string)>,
                       m: HeaderMap, uri: string, wm: HeaderMap): Effect
  {
    match Registry(users, BasicUserParser)
    case Err(_) => Effect(m, uri, wm, StatusInternalServerError, "", false)
    case Ok(registry) =>
      var a := BasicAuthOf(registry);
      if !Authenticated(a, c, Credentials(m, decode)) then
        Effect(m, uri, Challenge(a, wm), HeadersOf(a).unauthCode, HeadersOf(a).unauthResponse, false)
      else
        Effect(m - {Canon(AuthorizationHeader)}, uri, wm, 0, "", true)
  }

  /**
   * The handler Basic returns: rebuild the registry, answer 500 if it
   * fails, challenge a request without valid credentials, and otherwise
   * drop `Authorization` and call the next handler.
   */
  method Basic(users: seq<string>, c: Crypto, decode: string -> Option<(string, string)>,
               w: ResponseWriter, r: Request, next: Next)
    requires r.header != w.header
    modifies r.header, w, w.header, next
    ensures var e := BasicEffect(users, c, decode, old(r.header.m), old(r.requestURI), old(w.header.m));
      && r.header.m == e.request && r.requestURI == e.requestURI && w.header.m == e.response
      && w.status == (if old(w.status) == 0 then e.code else old(w.status))
      && w.body == old(w.body) + e.body
      && next.calls == old(next.calls) + (if e.forwarded then [Call(e.request, e.requestURI)] else [])
  {
    var registry := GetUsers(users, BasicUserParser);
    if registry.Err? {
      w.WriteHeader(StatusInternalServerError);
      return;
    }
    var a := BasicAuthOf(registry.value);
    var creds := Credentials(r.header.m, decode);
    var ok := creds.Some?;
    if ok {
      var secret := a.secrets(creds.value.0, a.realm);
      if secret == "" {
        ok := false;
      } else {
        var matches := CheckSecret(c, creds.value.1, secret);
        ok := matches;
      }
    }
    if !ok {
      RequireAuth(a, w);
      return;
    }
    r.header.Del(AuthorizationHeader);
    next.ServeHTTP(w, r);
  }

  /**
   * The gate calls the next handler exactly when every entry parses, the
   * request carries credentials, the user is registered with a non-empty
   * hash, and the password matches that hash.
   */
  lemma BasicPassesIff(users: seq<string>, c: Crypto, decode: string -> Option<(string, string)>,
                       m: HeaderMap, uri: string, wm: HeaderMap)
    ensures BasicEffect(users, c, decode, m, uri, wm).forwarded <==>
      Registry(users, BasicUserParser).Ok? &&
      var reg, creds := Registry(users, BasicUserParser).value, Credentials(m, decode);
      creds.Some? && creds.value.0 in reg && reg[creds.value.0] != "" && Verify(c, reg[creds.value.0], creds.value.1)
  {
  }

  /** A request without an `Authorization` value, or with a user the registry lacks, is never let through. */
  lemma UnknownUserFails(users: seq<string>, c: Crypto, decode: string -> Option<(string, string)>,
                         m: HeaderMap, uri: string, wm: HeaderMap)
    requires Get(m, AuthorizationHeader) == "" ||
      (Registry(users, BasicUserParser).Ok? && Credentials(m, decode).Some? &&
       Credentials(m, decode).value.0 !in Registry(users, BasicUserParser).value)
    ensures !BasicEffect(users, c, decode, m, uri, wm).forwarded
  {
  }

  /** A bad entry anywhere makes every request get 500, with nothing else touched. */
  lemma BadEntryIs500(users: seq<string>, c: Crypto, decode: string -> Option<(string, string)>,
                      m: HeaderMap, uri: string, wm: HeaderMap, i: nat)
    requires i < |users| && Count(users[i], ':') != 1
    ensures BasicEffect(users, c, decode, m, uri, wm) == Effect(m, uri, wm, 500, "", false)
  {
    RegistryOkIff(users, BasicUserParser);
  }

  /** The entry `name:`, for a name without ':', parses to the name and an empty hash. */
  lemma TrailingColonParts(name: string)
    requires ':' !in name
    ensures BasicUserParser(name + ":") == Ok((name, ""))
  {
    SplitAt(name, "", ':');
    assert name + ":" == name + [':'] + "";
  }

  /** A user registered with an empty hash is never let through, whatever the password. */
  lemma EmptyHashNeverAuthenticates(users: seq<string>, c: Crypto, decode: string -> Option<(string, string)>,
                                    m: HeaderMap, uri: string, wm: HeaderMap, i: nat, name: string)
    requires Registry(users, BasicUserParser).Ok?
    requires i < |users| && users[i] == name + ":" && ':' !in name
    requires forall j :: i < j < |users| ==> BasicUserParser(users[j]).Ok? && BasicUserParser(users[j]).value.0 != name
    requires Credentials(m, decode).Some? && Credentials(m, decode).value.0 == name
    ensures !BasicEffect(users, c, decode, m, uri, wm).forwarded
  {
    TrailingColonParts(name);
    RegistryLastWins(users, BasicUserParser, i);
    assert Registry(users, BasicUserParser).value[name] == "";
    BasicPassesIff(users, c, decode, m, uri, wm);
  }

  /** The challenge of the gate's authenticator, with the header names in canonical form. */
  lemma DefaultChallenge(registry: map<string, string>, wm: HeaderMap)
    ensures Challenge(BasicAuthOf(registry), wm) ==
      wm["Content-Type" := ["text/plain"]]["Www-Authenticate" := ["Basic realm=\"reverse_proxy\""]]
  {
    var h := HeadersOf(BasicAuthOf(registry));
    assert h.authenticate == "WWW-Authenticate" && h.unauthContentType == "text/plain";
    assert "Basic realm=\"" + "reverse_proxy" == "Basic realm=\"reverse_proxy";
    assert "Basic realm=\"reverse_proxy" + "\"" == "Basic realm=\"reverse_proxy\"";
    ContentTypeCanonical();
    WwwAuthenticateFolded();
  }

  /**
   * A request the gate refuses gets the Basic challenge for realm
   * `reverse_proxy`: Content-Type text/plain, WWW-Authenticate (stored under
   * its canonical key), status 401 and body "401 Unauthorized\n"; the
   * request is left alone.
   */
  lemma RefusalIsChallenge(users: seq<string>, c: Crypto, decode: string -> Option<(string, string)>,
                           m: HeaderMap, uri: string, wm: HeaderMap)
    requires Registry(users, BasicUserParser).Ok?
    requires !BasicEffect(users, c, decode, m, uri, wm).forwarded
    ensures BasicEffect(users, c, decode, m, uri, wm) ==
      Effect(m, uri, wm["Content-Type" := ["text/plain"]]["Www-Authenticate" := ["Basic realm=\"reverse_proxy\""]],
             401, "401 Unauthorized\n", false)
  {
    DefaultChallenge(Registry(users, BasicUserParser).value, wm);
  }

  /** A request the gate lets through loses `Authorization` and nothing else; the response is untouched. */
  lemma AcceptanceDropsAuthorization(users: seq<string>, c: Crypto, decode: string -> Option<(string, string)>,
                                     m: HeaderMap, uri: string, wm: HeaderMap)
    requires BasicEffect(users, c, decode, m, uri, wm).forwarded
    ensures BasicEffect(users, c, decode, m, uri, wm) == Effect(m - {"Authorization"}, uri, wm, 0, "", true)
  {
    AuthorizationCanonical();
  }
}

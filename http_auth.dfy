/**
 * The authenticator records of pkg/middleware/auth/http_auth.go: the header
 * names, status code and body of an authentication challenge, and the Basic
 * authenticator of RFC 7617 that carries them.
 */
module HttpAuth {
  import opened Wrappers
  import opened Exchange

  /** The headers and the challenge an authenticator answers with. */
  datatype Headers = Headers(
    authenticate: string,
    authorization: string,
    authInfo: string,
    unauthCode: StatusCode,
    unauthContentType: string,
    unauthResponse: string)

  const StatusUnauthorized := 401
  const StatusProxyAuthRequired := 407

  /** http.StatusText, for the two codes a challenge uses. */
  function StatusText(code: int): string {
    if code == StatusUnauthorized then "Unauthorized"
    else if code == StatusProxyAuthRequired then "Proxy Authentication Required"
    else ""
  }

  function Digit(d: nat): char
    requires d < 10
  {
    ("0123456789")[d]
  }

  /** The decimal form of a non-negative number, as the `%d` verb writes it. */
  function Itoa(n: nat): (s: string)
    ensures |s| > 0
    decreases n
  {
    if n < 10 then [Digit(n)] else Itoa(n / 10) + [Digit(n % 10)]
  }

  /** The body of a challenge: the code, a space, its status text and a newline. */
  function ChallengeBody(code: nat): string {
    Itoa(code) + " " + StatusText(code) + "\n"
  }

  /** The headers of an origin server (RFC 7235 section 4.1 and 4.2). */
  function NormalHeaders(): (h: Headers)
    ensures h.authenticate == "WWW-Authenticate" && h.authorization == "Authorization"
    ensures h.authInfo == "Authentication-Info"
    ensures h.unauthCode == 401 && h.unauthContentType == "text/plain"
    ensures h.unauthResponse == "401 Unauthorized\n"
  {
    UnauthorizedBody();
    Headers("WWW-Authenticate", "Authorization", "Authentication-Info",
      StatusUnauthorized, "text/plain", ChallengeBody(StatusUnauthorized))
  }

  /** The headers of a proxy (RFC 7235 section 4.3 and 4.4). */
  function ProxyHeaders(): (h: Headers)
    ensures h.authenticate == "Proxy-Authenticate" && h.authorization == "Proxy-Authorization"
    ensures h.authInfo == "Proxy-Authentication-Info"
    ensures h.unauthCode == 407 && h.unauthContentType == "text/plain"
    ensures h.unauthResponse == "407 Proxy Authentication Required\n"
  {
    ProxyAuthRequiredBody();
    Headers("Proxy-Authenticate", "Proxy-Authorization", "Proxy-Authentication-Info",
      StatusProxyAuthRequired, "text/plain", ChallengeBody(StatusProxyAuthRequired))
  }

  /** The 401 challenge body as fmt.Sprintf writes it. */
  lemma UnauthorizedBody()
    ensures ChallengeBody(StatusUnauthorized) == "401 Unauthorized\n"
  {
    assert Itoa(4) == "4";
    assert Itoa(40) == "40";
    assert Itoa(401) == "401";
    assert "401" + " " == "401 ";
    assert "401 " + "Unauthorized" == "401 Unauthorized";
    assert "401 Unauthorized" + "\n" == "401 Unauthorized\n";
  }

  /** The 407 challenge body as fmt.Sprintf writes it. */
  lemma ProxyAuthRequiredBody()
    ensures ChallengeBody(StatusProxyAuthRequired) == "407 Proxy Authentication Required\n"
  {
    Itoa407();
    ProxyAuthRequiredLine();
  }

  lemma Itoa407()
    ensures Itoa(407) == "407"
  {
    assert Itoa(40) == "40" by {
      assert Itoa(4) == "4";
    }
  }

  lemma ProxyAuthRequiredLine()
    ensures "407" + " " + "Proxy Authentication Required" + "\n" == "407 Proxy Authentication Required\n"
  {
    assert "407" + " " == "407 ";
    assert "407 " + "Proxy Authentication Required" == "407 Proxy Authentication Required";
  }

  /** Headers.V: an unset record stands for NormalHeaders. */
  function V(h: Option<Headers>): (r: Headers)
    ensures h.Some? ==> r == h.value
    ensures h.None? ==> r == NormalHeaders()
  {
    if h.None? then NormalHeaders() else h.value
  }

  /**
   * The secret stored for a user in a realm; for Basic, the hashed password.
   * The empty string means the authentication fails.
   */
  type SecretProvider = (string, string) -> string

  /** An authenticator for the Basic scheme of RFC 7617. */
  datatype BasicAuth = BasicAuth(realm: string, secrets: SecretProvider, headers: Option<Headers>)

  /** The headers an authenticator uses: its own, or NormalHeaders when it has none. */
  function HeadersOf(a: BasicAuth): Headers {
    V(a.headers)
  }

  /** An unset record and NormalHeaders are the same to every caller of V. */
  lemma UnsetHeadersAreNormal(realm: string, secrets: SecretProvider)
    ensures HeadersOf(BasicAuth(realm, secrets, None)) == HeadersOf(BasicAuth(realm, secrets, Some(NormalHeaders())))
    ensures HeadersOf(BasicAuth(realm, secrets, None)).unauthCode == 401
  {
  }

  /** A set record is used as it is; a proxy answers 407 rather than 401. */
  lemma SetHeadersAreKept(h: Headers)
    ensures V(Some(h)) == h
    ensures V(Some(ProxyHeaders())).unauthCode == 407
  {
  }
}

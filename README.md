# Authentication middleware of `pkg/middleware/auth`, modelled in Dafny

This project models the two authentication gates of the reverse proxy's
`pkg/middleware/auth` package and proves what they promise.

**Basic gate** (`basic.go`, `http_auth.go`).
- It builds a user registry from configured `name:hash` entries.
- It reads the credentials of the `Authorization` header and checks the
  password against the stored hash.
- The hash format decides the check: MD5-crypt, `{SHA}`, or one of the
  four bcrypt prefixes.
- On success it deletes `Authorization` and calls the next handler.
- On failure it writes the RFC 7617 challenge (401, `WWW-Authenticate:
  Basic realm="reverse_proxy"`).

**Forward gate** (`forward.go`).
- It cleans the inbound `Connection`/`Upgrade` headers (section 6.1 of
  RFC 7230).
- It builds a header table for an external authority: the inbound
  headers, minus the hop-by-hop ones, through an optional allow-list, then
  the trust-gated `X-Forwarded-*` rules.
- It sends that table to the authority. A status outside [200, 300) is
  relayed to the client.
- Otherwise it merges selected authority headers into the request and
  calls the next handler.

**Header-table helpers** (`func.go`) serve both gates: additive copy,
delete by name, and removal of the headers a `Connection` header names.

## Files and modules

- `wrappers.dfy`: `Option` and `Result`.
- `text.dfy` (`Text`): the Go string helpers the code relies on (`strings.Split`, `bytes.SplitN`, `strings.Join`, `strings.HasPrefix`, `textproto.TrimString`) with their split/join laws.
- `canonical.dfy` (`Canonical`): `textproto.CanonicalMIMEHeaderKey` as a concrete function `Canon`, proved idempotent; each header name literal whose canonical form a proof relies on is proved canonical.
- `header.dfy` (`HeaderTable`):
  - a Go `http.Header` as a class `Header` over `map<string, seq<string>>`;
  - `Set` and `Del` canonicalise the name, and `Put` is direct assignment `h[k] = v`.
- `func.dfy` (`HeaderFuncs`): `CopyHeaders`, `RemoveHeaders`, `removeConnectionHeaders` as methods on `Header`, each proved against a specification function (`Appended`, map subtraction, `Stripped`).
- `exchange.dfy` (`Exchange`):
  - the request (its header table and request URI are updated in place; method, host, TLS flag, split client address and `URL.RequestURI()` are fixed fields);
  - a response writer (first status wins; a write before any status implies 200);
  - a `Next` handler that records each call;
  - an `Effect` record that states what a handler does to one exchange.
- `http_auth.dfy` (`HttpAuth`): `Headers`, `NormalHeaders`, `ProxyHeaders`, `V`, `SecretProvider`, `BasicAuth`.
- `secret.dfy` (`Secret`): `compareFuncs`, `CheckSecret`, `compareMD5HashAndPassword`, `compareShaHashAndPassword`.
- `basic.dfy` (`Basic`): `basicUserParser`, `getUsers`, `secretBasic`, `RequireAuth` and the `Basic` handler.
  - The handler method is proved to produce `BasicEffect`.
  - Lemmas about `BasicEffect` state when the gate passes and what it writes.
- `forward_headers.dfy` (`ForwardHeaders`): `hopHeaders`, `filterForwardRequestHeaders` and `writeHeader`, with the specification function `Outbound` and the per-header rules proved from it.
- `forward.dfy` (`Forward`): the `Forward` handler.
  - It is split into the steps the code performs in sequence: the pattern check, the `Connection` clean-up (`SanitizeConnection`), building and sending the outbound request (`Ask`), the reply (`Respond`, `RelayDenial`) and the two-pass merge (`MergeListed`, `MergeMatching`).
  - The handler is proved to produce `ForwardEffect`; lemmas about it state the 500 cases, the relay and the merge.

Some calls into code outside the package are re-implemented as concrete functions, because the middleware's behaviour depends on their exact results:
- `strings.Split`, `strings.Join`, `strings.HasPrefix`, `bytes.SplitN` and `textproto.TrimString` in `Text`;
- `textproto.CanonicalMIMEHeaderKey` as `Canonical.Canon`;
- `fmt.Sprintf` with `%d` and `http.StatusText`, for the two challenge codes, in `HttpAuth`;
- the `http.Header` accessors (`Get`, `Values`, `Set`, `Del`, direct assignment) in `HeaderTable`.

The following calls into code outside the package are inputs:
- the digest primitives are fields of `Secret.Crypto`;
- regexp compile and match, `http.NewRequest`, the HTTP client with `io.ReadAll`, `Response.Location`'s parse and `httpguts.HeaderValuesContainsToken` are fields of `Forward.Net`;
- `Request.BasicAuth`'s decoding is the `decode` parameter of the Basic gate;
- `net.SplitHostPort` and `URL.RequestURI` are fields of the request.

The authority is a function from the outbound header table to a reply, so its answer depends only on what it is sent.

Some behaviour the model makes visible:
- The regular-expression pass of the merge deletes each matching key through `Header.Del`, which canonicalises it.
  - A matching key that is not in canonical form is therefore not itself removed.
  - A canonical key that does not match can be removed because a non-canonical key that matches canonicalises to it.
  - `MatchedSpec` states the pass exactly.
  - `ListedHeadersComeFromAuthority` promises arrival of a listed authority header only when no pattern is set or the pattern matches its key.
- `Credentials` reads only the first `Authorization` value, as `Request.BasicAuth` does through `Header.Get`.

## Model

| member | source | states |
|---|---|---|
| HeaderFuncs.CopyHeaders | pkg/middleware/auth/func.go:25-29 | the destination ends as `Appended(old dst, src)`: every source key's values appended after the destination's own |
| HeaderFuncs.CopyIsAdditive | pkg/middleware/auth/func.go:23-29 | the copy never loses a key; each old value list is a prefix of the new one, followed by the source's values; keys the source lacks are unchanged |
| HeaderFuncs.RemoveHeaders | pkg/middleware/auth/func.go:32-36 | the table ends as the old one minus the canonical form of every given name |
| HeaderFuncs.RemovedNamesAreGone | pkg/middleware/auth/func.go:31-36 | after removal no canonical form of a given name is a key; every other key keeps its values; if no name was present, the table is unchanged |
| HeaderFuncs.RemoveConnectionHeaders | pkg/middleware/auth/func.go:38-46 | the table ends as `Stripped(old table)`: the old table minus every key a `Connection` token names; the values are read once, before any deletion |
| HeaderFuncs.RemoveTokens | pkg/middleware/auth/func.go:40-44 | the table ends as the old one minus the canonical form of every trimmed, non-empty piece of one `Connection` value |
| HeaderFuncs.ConnectionNamesMember | pkg/middleware/auth/func.go:39-43 | a key is named exactly when some `Connection` value has a trimmed, non-empty comma-separated token that canonicalises to it |
| HeaderFuncs.StrippedRemovesNamed | pkg/middleware/auth/func.go:38-46 | every header a non-empty trimmed token names is gone; every header no token names keeps its values |
| HeaderFuncs.EmptyTokensNameNothing | pkg/middleware/auth/func.go:41 | empty and blank tokens name no key, so they delete nothing |
| HeaderFuncs.StrippedKeepsConnection | pkg/middleware/auth/func.go:38-46 | `Connection` survives with its values unless one of its own tokens names it |
| HeaderFuncs.StrippedIdempotent | pkg/middleware/auth/func.go:38-46 | applying the removal twice gives the table applying it once gives |
| Canonical.CanonIdempotent | pkg/middleware/auth/forward.go:206-207 | canonicalising a canonical key changes nothing, so `Del` of a canonicalised name removes exactly that key |
| HttpAuth.NormalHeaders | pkg/middleware/auth/http_auth.go:41-48 | `WWW-Authenticate`, `Authorization`, `Authentication-Info`, code 401, `text/plain`, body `"401 Unauthorized\n"` |
| HttpAuth.ProxyHeaders | pkg/middleware/auth/http_auth.go:52-59 | `Proxy-Authenticate`, `Proxy-Authorization`, `Proxy-Authentication-Info`, code 407, `text/plain`, body `"407 Proxy Authentication Required\n"` |
| HttpAuth.UnsetHeadersAreNormal | pkg/middleware/auth/http_auth.go:31-36 | an authenticator without a header record behaves as one with `NormalHeaders`, and challenges with 401 |
| HttpAuth.V | pkg/middleware/auth/http_auth.go:31-36 | a set record is returned as it is; an unset one gives `NormalHeaders` in full: the `WWW-Authenticate` challenge, code 401, `text/plain` and body `"401 Unauthorized\n"` |
| HttpAuth.SetHeadersAreKept | pkg/middleware/auth/http_auth.go:31-36 | `V` returns a set record as it is; with `ProxyHeaders` the challenge code is 407 |
| Basic.BasicUserParser | pkg/middleware/auth/basic.go:127-133 | an entry parses exactly when it holds one ':'; the entry is then name + ":" + hash and neither part holds ':'; otherwise the error names the entry |
| Basic.TrailingColonParts | pkg/middleware/auth/basic.go:127-133 | the entry `name:` parses to the name and an empty hash |
| Basic.GetUsers | pkg/middleware/auth/basic.go:114-125 | the loop with its early return yields `Registry(users)`: the first bad entry's error, or the map of all entries, the later entry winning |
| Basic.RegistryErrorSticks | pkg/middleware/auth/basic.go:116-120 | once a prefix of the entries fails, the whole build fails with the same error |
| Basic.RegistryOkIff | pkg/middleware/auth/basic.go:114-125 | the build succeeds exactly when every entry parses |
| Basic.RegistryFirstError | pkg/middleware/auth/basic.go:117-119 | a failed build reports the error of the first entry that does not parse |
| Basic.RegistryKeys | pkg/middleware/auth/basic.go:116-122 | the registry's names are exactly the names the entries give |
| Basic.RegistryLastWins | pkg/middleware/auth/basic.go:121 | an entry's hash is kept unless a later entry gives the same name |
| Basic.RequireAuth | pkg/middleware/auth/basic.go:58-63 | the response gains Content-Type and the `Basic realm="…"` challenge under the authenticator's header name; status and body are the record's code and text |
| Basic.Basic | pkg/middleware/auth/basic.go:66-109 | the handler's request table, request URI, response table, status, body and calls to next are exactly those of `BasicEffect` |
| Basic.BasicPassesIff | pkg/middleware/auth/basic.go:85-97 | next is called exactly when every entry parses, credentials are present, the user's stored secret is non-empty and the password verifies against it |
| Basic.SecretBasic | pkg/middleware/auth/basic.go:48-54 | a known user's stored hash, whatever the realm; the result is empty exactly when the user is unknown or its hash is empty |
| Basic.Credentials | pkg/middleware/auth/basic.go:85 | the credentials are exactly the decoding of the first value under the canonical `Authorization` key; none when that key is absent, has no value, or its first value is empty |
| Basic.UnknownUserFails | pkg/middleware/auth/basic.go:48-54 | a request without `Authorization`, or for a user the registry lacks, never reaches next |
| Basic.BadEntryIs500 | pkg/middleware/auth/basic.go:72-77 | one bad entry makes every request get 500 with no body, nothing else touched and next not called |
| Basic.EmptyHashNeverAuthenticates | pkg/middleware/auth/basic.go:87-89 | a user registered as `name:` is refused whatever the password |
| Basic.DefaultChallenge | pkg/middleware/auth/basic.go:58-60 | the gate's challenge sets `Content-Type: text/plain` and `Www-Authenticate: Basic realm="reverse_proxy"` |
| Basic.RefusalIsChallenge | pkg/middleware/auth/basic.go:93-97 | a refused request gets exactly that challenge, status 401 and body `"401 Unauthorized\n"`; the request is left alone |
| Basic.AcceptanceDropsAuthorization | pkg/middleware/auth/basic.go:102-106 | an accepted request loses `Authorization` and nothing else; the response is untouched |
| Secret.CheckSecret | pkg/middleware/auth/basic.go:171-180 | the scan with `break` applies the comparator `Verify` selects: the first listed prefix, MD5-crypt when none |
| Secret.DispatchIsFirstMatch | pkg/middleware/auth/basic.go:172-178 | the first prefix of the table that the secret begins with decides the comparator |
| Secret.DispatchDefault | pkg/middleware/auth/basic.go:172 | MD5-crypt is used exactly when no listed prefix matches |
| Secret.PrefixesExclusive | pkg/middleware/auth/basic.go:140-166 | no secret begins with two of the listed prefixes |
| Secret.BcryptPrefixesShareComparator | pkg/middleware/auth/basic.go:162-165 | for all four bcrypt prefixes the verdict is bcrypt's alone |
| Secret.CompareMD5 | pkg/middleware/auth/basic.go:182-186 | a hash with fewer than three '$' never matches |
| Secret.MD5Fields | pkg/middleware/auth/basic.go:183-192 | a hash `f0$magic$salt$rest` matches exactly when it equals MD5-crypt of the password with that salt and magic `$magic$` |
| Secret.MD5RoundTrip | pkg/middleware/auth/basic.go:182-193 | a password verifies against the `$1$` or `$apr1$` secret MD5-crypt makes from it |
| Secret.CompareSha | pkg/middleware/auth/basic.go:195-202 | the check passes exactly when the stored secret is its five-byte tag followed by base64(SHA-1(password)) |
| Secret.ShaVerdict | pkg/middleware/auth/basic.go:195-202 | a `{SHA}` secret matches exactly when what follows the tag is base64(SHA-1(password)) |
| Secret.ShaRoundTrip | pkg/middleware/auth/basic.go:195-202 | a password verifies against the `{SHA}` secret made from it |
| ForwardHeaders.HopKeys | pkg/middleware/auth/forward.go:62-69 | the hop-by-hop names are removed under exactly the keys `Connection`, `Keep-Alive`, `Te`, `Trailers`, `Transfer-Encoding`, `Upgrade` |
| ForwardHeaders.FilterForwardRequestHeaders | pkg/middleware/auth/forward.go:295-309 | the loop builds `Filtered(table, allowed)` |
| ForwardHeaders.FilterProperties | pkg/middleware/auth/forward.go:295-309 | identity for an empty allow-list; otherwise the keys are exactly the canonical allowed names with values, each with its own values |
| ForwardHeaders.SetChosen | pkg/middleware/auth/forward.go:250-258 | one switch of writeHeader: the trusted non-empty inbound value, else the request's own non-empty value, else the key is deleted |
| ForwardHeaders.WriteHeader | pkg/middleware/auth/forward.go:235-293 | the outbound table ends as `Outbound(request, inbound table, old outbound table, trust, allow-list)` |
| ForwardHeaders.OutboundOnlyForwarded | pkg/middleware/auth/forward.go:241-292 | past the copied, stripped and filtered table only the `X-Forwarded-*` keys change |
| ForwardHeaders.BaseLacksHop | pkg/middleware/auth/forward.go:236-239 | the copied, stripped and filtered table holds no hop-by-hop key |
| ForwardHeaders.BaseKeepsOthers | pkg/middleware/auth/forward.go:236-239 | with no allow-list every other inbound header is copied with its values |
| ForwardHeaders.OutboundStripsHop | pkg/middleware/auth/forward.go:236-237 | no hop-by-hop header reaches the authority |
| ForwardHeaders.OutboundKeepsEndToEnd | pkg/middleware/auth/forward.go:236-239 | with no allow-list every other non-`X-Forwarded-*` inbound header reaches the authority unchanged |
| ForwardHeaders.ProxyAuthorizationForwarded | pkg/middleware/auth/forward.go:59-69 | `Proxy-Authorization` reaches the authority unchanged (section 4.4 of RFC 7235) |
| ForwardHeaders.ForwardedForRule | pkg/middleware/auth/forward.go:241-248 | when the peer address splits, `X-Forwarded-For` is one value: the client address, after the trusted inbound chain joined with ", "; otherwise it stays as copied |
| ForwardHeaders.ChosenRules | pkg/middleware/auth/forward.go:250-292 | `X-Forwarded-Method`, `-Host` and `-Uri` take the trusted non-empty inbound value, else the request's own non-empty value, else are absent |
| ForwardHeaders.ProtoAndPortRules | pkg/middleware/auth/forward.go:260-272 | `X-Forwarded-Proto` is the trusted inbound value, else https over TLS, else http; `X-Forwarded-Port` changes only to a trusted non-empty inbound value |
| Forward.SanitizeConnection | pkg/middleware/auth/forward.go:131-143 | the request table ends as `Sanitized(old table)` |
| Forward.SanitizedSpec | pkg/middleware/auth/forward.go:131-143 | `Connection` is then absent or exactly `Upgrade`, and it is `Upgrade` exactly when it listed the `Upgrade` token and `Upgrade` had a non-empty first value, which `Upgrade` then holds alone; other token-named headers are gone; the rest keep their values; when the upgrade is not kept, `Upgrade` is gone if a token names it and keeps its values otherwise |
| Forward.MergeListed | pkg/middleware/auth/forward.go:205-211 | the request table ends as `Replaced(old, authority headers, canonical listed names)` |
| Forward.ReplacedSpec | pkg/middleware/auth/forward.go:205-211 | a listed key is present exactly when the authority has values for it, and then holds them; every other key is unchanged |
| Forward.MergeMatching | pkg/middleware/auth/forward.go:213-225 | the request table ends as `Matched(old, authority headers, pattern)` |
| Forward.DeleteMatching | pkg/middleware/auth/forward.go:214-218 | the table ends as the old one minus the canonical form of every matching key |
| Forward.CopyMatching | pkg/middleware/auth/forward.go:220-224 | every matching authority key is written over the table with the authority's values |
| Forward.MatchedSpec | pkg/middleware/auth/forward.go:213-225 | matching authority keys arrive with the authority's values; a canonical matching inbound key the authority lacks is gone; every other surviving key keeps its inbound values |
| Forward.RelayDenial | pkg/middleware/auth/forward.go:176-203 | the response table, status and body become those of `Denial`: authority headers appended minus hop-by-hop ones, `Location` rules, then the authority's status and body |
| Forward.Forward | pkg/middleware/auth/forward.go:100-231 | the handler's request table, request URI, response table, status, body and calls to next are exactly those of `ForwardEffect` |
| Forward.Consult | pkg/middleware/auth/forward.go:146-230 | the handler after the clean-up produces `Consulted` |
| Forward.Ask | pkg/middleware/auth/forward.go:146-157 | the authority is sent exactly `Outbound(request, cleaned table, empty table, trust, allow-list)` |
| Forward.Respond | pkg/middleware/auth/forward.go:157-230 | the handler after the call produces `Answered` for the reply |
| Forward.Admit | pkg/middleware/auth/forward.go:205-225 | the request table ends as `Admitted`: listed keys replaced, then the matching pass when a pattern is set |
| Forward.ForwardPassesIff | pkg/middleware/auth/forward.go:176 | next is called exactly when the pattern compiles or is unset, the request builds, and the authority answers with a readable body and a status in [200, 300) |
| Forward.BadPatternIs500 | pkg/middleware/auth/forward.go:119-127 | a pattern that does not compile gives 500 with no body, before any header is touched |
| Forward.AuthorityFailureIs500 | pkg/middleware/auth/forward.go:146-171 | a request that cannot be built, a failed call or an unreadable body gives 500 with no body; only the clean-up touched the request |
| Forward.RefusalIsRelayed | pkg/middleware/auth/forward.go:176-203 | a refusal without `Location` relays the authority's status, body and non-hop headers (appended to the response's) and leaves no hop-by-hop header |
| Forward.RedirectIsRelayed | pkg/middleware/auth/forward.go:184-196 | a refusal whose `Location` parses to a non-empty URL carries exactly that `Location`, the authority's status and body, and no hop-by-hop header |
| Forward.BadLocationIs500 | pkg/middleware/auth/forward.go:187-194 | a `Location` that does not parse gives 500 with no body after the authority's headers were copied |
| Forward.ListedHeadersComeFromAuthority | pkg/middleware/auth/forward.go:205-227 | on success the response is untouched, the request URI comes from the URL, and a listed header reaches next only with the authority's values |
| Forward.AdmittedListed | pkg/middleware/auth/forward.go:205-225 | after the merge a listed key holds the authority's values or is absent |
| Forward.AdmittedKeepsOthers | pkg/middleware/auth/forward.go:205-225 | an unlisted key that no matching key is or canonicalises to keeps its inbound values |
| Forward.MatchingHeadersComeFromAuthority | pkg/middleware/auth/forward.go:213-225 | with a pattern, every matching authority header reaches next with its values, and no canonical matching key carries a client value |

## Left out

- Digest primitives: MD5-crypt, SHA-1, base64 and bcrypt are uninterpreted function fields.
  - `subtle.ConstantTimeCompare` is plain equality; its timing behaviour cannot be stated.
- `Request.BasicAuth` decoding of the `Basic` scheme and base64 is an uninterpreted input.
- The HTTP client is one uninterpreted function from the outbound header table to a reply. Left out with it:
  - its 30-second timeout and no-redirect policy;
  - `io.ReadAll`;
  - closing the body;
  - the outbound request's method, URL and body.
- Regular expressions, `Response.Location`'s URL parsing, `net.SplitHostPort`, `URL.RequestURI` and `httpguts.HeaderValuesContainsToken` are uninterpreted inputs.
- Logging and the error of `w.Write` are left out; they change no state the model tracks.
- Concurrency: each handler call is modelled as one sequential run over its own request and response.
- Go strings are byte strings. Here each byte is one `char`, with no encoding.
- `StatusText` is given only for 401 and 407, the codes the challenge records use.
- Status codes are the range net/http accepts in `WriteHeader` (100 to 999). A value outside it panics in Go and is not representable here.
- Go's `for … range` over a map visits keys in an unspecified order. The loops pick keys with `:|`, so every order is covered.
- The map copies the code makes (`append([]string(nil), …)`) are value copies here, so aliasing between tables is not modelled.
- Forward.ListedHeadersComeFromAuthority: the arrival half holds only when no pattern is set or the pattern matches the listed key. The matching pass can delete a non-matching canonical key that a matching non-canonical key canonicalises to; `MatchedSpec` states the pass exactly.
- Forward.AdmittedListed: the arrival half carries the same condition, for the same reason.
- `ForwardConfig.Address` is used only as the argument of the request-building and authority functions.

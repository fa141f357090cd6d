/**
 * Canonical header keys, as textproto.CanonicalMIMEHeaderKey computes them
 * (reached through http.Header's Get, Set, Del and Values and through
 * http.CanonicalHeaderKey): a key made only of token characters gets its
 * first letter and every letter after a '-' in upper case and all other
 * letters in lower case; any other key is left as it is.
 */
module Canonical {

  /** A token character of section 3.2.6 of RFC 7230. */
  predicate IsTokenChar(c: char) {
    || ('a' <= c <= 'z') || ('A' <= c <= 'Z') || ('0' <= c <= '9')
    || c == '!' || c == '#' || c == '$' || c == '%' || c == '&' || c == '\''
    || c == '*' || c == '+' || c == '-' || c == '.' || c == '^' || c == '_'
    || c == '`' || c == '|' || c == '~'
  }

  function Upper(c: char): char {
    if 'a' <= c <= 'z' then (c as int - 32) as char else c
  }

  function Lower(c: char): char {
    if 'A' <= c <= 'Z' then (c as int + 32) as char else c
  }

  /** The canonical case of the character at position i. */
  function CaseAt(s: string, i: nat): char
    requires i < |s|
  {
    if i == 0 || s[i - 1] == '-' then Upper(s[i]) else Lower(s[i])
  }

  /** Every character of s[i..] is a token character. */
  predicate ValidFrom(s: string, i: nat)
    decreases |s| - i
  {
    i >= |s| || (IsTokenChar(s[i]) && ValidFrom(s, i + 1))
  }

  /** The canonical form of s[i..]. */
  function CanonFrom(s: string, i: nat): string
    decreases |s| - i
  {
    if i >= |s| then [] else [CaseAt(s, i)] + CanonFrom(s, i + 1)
  }

  /** textproto.CanonicalMIMEHeaderKey */
  function Canon(s: string): (r: string)
    ensures |r| == |s|
  {
    CanonFromIndex(s, 0);
    if ValidFrom(s, 0) then CanonFrom(s, 0) else s
  }

  /** s[i..] is already canonical: token characters only, each in its canonical case. */
  predicate IsCanonicalFrom(s: string, i: nat)
    decreases |s| - i
  {
    i >= |s| || (IsTokenChar(s[i]) && s[i] == CaseAt(s, i) && IsCanonicalFrom(s, i + 1))
  }

  /** Sets of canonical keys, as http.Header.Del produces them from a list of names. */
  function CanonSet(names: seq<string>): (keys: set<string>)
    ensures forall n :: n in names ==> Canon(n) in keys
    ensures forall k :: k in keys ==> exists n :: n in names && Canon(n) == k
  {
    set n | n in names :: Canon(n)
  }

  lemma {:induction false} CanonFromIndex(s: string, i: nat)
    requires i <= |s|
    ensures |CanonFrom(s, i)| == |s| - i
    ensures forall k :: i <= k < |s| ==> CanonFrom(s, i)[k - i] == CaseAt(s, k)
    decreases |s| - i
  {
    if i < |s| {
      CanonFromIndex(s, i + 1);
      var r := CanonFrom(s, i + 1);
      assert CanonFrom(s, i) == [CaseAt(s, i)] + r;
      forall k | i < k < |s|
        ensures CanonFrom(s, i)[k - i] == CaseAt(s, k)
      {
        assert CanonFrom(s, i)[k - i] == r[k - (i + 1)];
      }
    }
  }

  lemma {:induction false} ValidFromIndex(s: string, i: nat)
    requires i <= |s|
    ensures ValidFrom(s, i) <==> forall k :: i <= k < |s| ==> IsTokenChar(s[k])
    decreases |s| - i
  {
    if i < |s| {
      ValidFromIndex(s, i + 1);
    }
  }

  lemma {:induction false} IsCanonicalFromIndex(s: string, i: nat)
    requires i <= |s|
    ensures IsCanonicalFrom(s, i) <==> forall k :: i <= k < |s| ==> IsTokenChar(s[k]) && s[k] == CaseAt(s, k)
    decreases |s| - i
  {
    if i < |s| {
      IsCanonicalFromIndex(s, i + 1);
    }
  }

  /** A key already in canonical form is left unchanged. */
  lemma CanonicalFixed(s: string)
    requires IsCanonicalFrom(s, 0)
    ensures Canon(s) == s
  {
    IsCanonicalFromIndex(s, 0);
    ValidFromIndex(s, 0);
    CanonFromIndex(s, 0);
  }

  /** One more name adds its canonical form to the key set. */
  lemma CanonSetSnoc(names: seq<string>, i: nat)
    requires i < |names|
    ensures CanonSet(names[..i + 1]) == CanonSet(names[..i]) + {Canon(names[i])}
  {
    assert names[..i + 1] == names[..i] + [names[i]];
  }

  /** Canonicalising twice is canonicalising once. */
  lemma CanonIdempotent(s: string)
    ensures Canon(Canon(s)) == Canon(s)
  {
    ValidFromIndex(s, 0);
    if ValidFrom(s, 0) {
      var t := CanonFrom(s, 0);
      CanonFromIndex(s, 0);
      forall k | 0 <= k < |t|
        ensures IsTokenChar(t[k]) && t[k] == CaseAt(t, k)
      {
        assert t[k] == CaseAt(s, k);
        if k > 0 {
          assert t[k - 1] == CaseAt(s, k - 1);
          assert (t[k - 1] == '-') == (s[k - 1] == '-');
        }
      }
      IsCanonicalFromIndex(t, 0);
      CanonicalFixed(t);
    }
  }

  /** The hop-by-hop header names are written in canonical form. */
  lemma HopNamesCanonical()
    ensures Canon("Connection") == "Connection"
    ensures Canon("Keep-Alive") == "Keep-Alive"
    ensures Canon("Te") == "Te"
    ensures Canon("Trailers") == "Trailers"
    ensures Canon("Transfer-Encoding") == "Transfer-Encoding"
    ensures Canon("Upgrade") == "Upgrade"
  {
    ConnectionCanonical();
    KeepAliveCanonical();
    TeCanonical();
    TrailersCanonical();
    TransferEncodingCanonical();
    UpgradeCanonical();
  }

  // One literal per lemma: the solver unrolls IsCanonicalFrom on a literal a
  // few positions at a time (every sixth position is asserted first), and
  // literals proved side by side in one lemma make each other's unrolling
  // too costly.

  lemma ConnectionCanonical() ensures Canon("Connection") == "Connection" {
    assert IsCanonicalFrom("Connection", 6);
    CanonicalFixed("Connection");
  }

  lemma KeepAliveCanonical() ensures Canon("Keep-Alive") == "Keep-Alive" {
    assert IsCanonicalFrom("Keep-Alive", 6);
    CanonicalFixed("Keep-Alive");
  }

  lemma TeCanonical() ensures Canon("Te") == "Te" {
    CanonicalFixed("Te");
  }

  lemma TrailersCanonical() ensures Canon("Trailers") == "Trailers" {
    assert IsCanonicalFrom("Trailers", 6);
    CanonicalFixed("Trailers");
  }

  lemma TransferEncodingCanonical() ensures Canon("Transfer-Encoding") == "Transfer-Encoding" {
    assert IsCanonicalFrom("Transfer-Encoding", 12);
    assert IsCanonicalFrom("Transfer-Encoding", 6);
    CanonicalFixed("Transfer-Encoding");
  }

  lemma UpgradeCanonical() ensures Canon("Upgrade") == "Upgrade" {
    assert IsCanonicalFrom("Upgrade", 6);
    CanonicalFixed("Upgrade");
  }

  lemma XForwardedForCanonical() ensures Canon("X-Forwarded-For") == "X-Forwarded-For" {
    assert IsCanonicalFrom("X-Forwarded-For", 12);
    assert IsCanonicalFrom("X-Forwarded-For", 6);
    CanonicalFixed("X-Forwarded-For");
  }

  lemma XForwardedMethodCanonical() ensures Canon("X-Forwarded-Method") == "X-Forwarded-Method" {
    assert IsCanonicalFrom("X-Forwarded-Method", 12);
    assert IsCanonicalFrom("X-Forwarded-Method", 6);
    CanonicalFixed("X-Forwarded-Method");
  }

  lemma XForwardedProtoCanonical() ensures Canon("X-Forwarded-Proto") == "X-Forwarded-Proto" {
    assert IsCanonicalFrom("X-Forwarded-Proto", 12);
    assert IsCanonicalFrom("X-Forwarded-Proto", 6);
    CanonicalFixed("X-Forwarded-Proto");
  }

  lemma XForwardedPortCanonical() ensures Canon("X-Forwarded-Port") == "X-Forwarded-Port" {
    assert IsCanonicalFrom("X-Forwarded-Port", 12);
    assert IsCanonicalFrom("X-Forwarded-Port", 6);
    CanonicalFixed("X-Forwarded-Port");
  }

  lemma XForwardedHostCanonical() ensures Canon("X-Forwarded-Host") == "X-Forwarded-Host" {
    assert IsCanonicalFrom("X-Forwarded-Host", 12);
    assert IsCanonicalFrom("X-Forwarded-Host", 6);
    CanonicalFixed("X-Forwarded-Host");
  }

  lemma XForwardedUriCanonical() ensures Canon("X-Forwarded-Uri") == "X-Forwarded-Uri" {
    assert IsCanonicalFrom("X-Forwarded-Uri", 12);
    assert IsCanonicalFrom("X-Forwarded-Uri", 6);
    CanonicalFixed("X-Forwarded-Uri");
  }

  lemma LocationCanonical() ensures Canon("Location") == "Location" {
    assert IsCanonicalFrom("Location", 6);
    CanonicalFixed("Location");
  }

  lemma AuthorizationCanonical() ensures Canon("Authorization") == "Authorization" {
    assert IsCanonicalFrom("Authorization", 12);
    assert IsCanonicalFrom("Authorization", 6);
    CanonicalFixed("Authorization");
  }

  lemma ContentTypeCanonical() ensures Canon("Content-Type") == "Content-Type" {
    assert IsCanonicalFrom("Content-Type", 6);
    CanonicalFixed("Content-Type");
  }

  /** The name NormalHeaders writes is folded to lower case after its first letter. */
  lemma WwwAuthenticateFolded() ensures Canon("WWW-Authenticate") == "Www-Authenticate" {
    assert ValidFrom("WWW-Authenticate", 12);
    assert ValidFrom("WWW-Authenticate", 6);
    assert ValidFrom("WWW-Authenticate", 0);
    assert CanonFrom("WWW-Authenticate", 12) == "cate";
    assert CanonFrom("WWW-Authenticate", 6) == "thenticate";
    assert CanonFrom("WWW-Authenticate", 0) == "Www-Authenticate";
  }
}

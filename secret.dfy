/**
 * Password verification of pkg/middleware/auth/basic.go: the stored secret's
 * prefix selects a comparator (MD5-crypt by default, `{SHA}`, or one of the
 * four bcrypt prefixes), which then checks the password against it.
 * Strings stand for byte strings, one `char` per byte.
 */
module Secret {
  import opened Text

  /**
   * The digest primitives, which the model does not re-implement: MD5-crypt
   * (password, salt, magic), SHA-1, standard base64, and bcrypt's
   * CompareHashAndPassword (true when it reports no error).
   * subtle.ConstantTimeCompare is plain equality here.
   */
  datatype Crypto = Crypto(
    md5Crypt: (string, string, string) -> string,
    sha1: string -> string,
    base64: string -> string,
    bcrypt: (string, string) -> bool)

  datatype Comparator = MD5 | SHA | Bcrypt

  datatype Scheme = Scheme(prefix: string, compare: Comparator)

  /** compareFuncs: the default comes first, then the prefixes CheckSecret scans in order. */
  const CompareFuncs: seq<Scheme> := [
    Scheme("", MD5),
    Scheme("{SHA}", SHA),
    Scheme("$2a$", Bcrypt),
    Scheme("$2b$", Bcrypt),
    Scheme("$2x$", Bcrypt),
    Scheme("$2y$", Bcrypt)
  ]

  /**
   * compareMD5HashAndPassword: the stored hash must split on '$' into four
   * pieces (at most four are taken); the second is the magic and the third
   * the salt, and the hash must equal MD5-crypt of the password with them.
   */
  function CompareMD5(c: Crypto, hashed: string, password: string): (ok: bool)
    ensures Count(hashed, '$') < 3 ==> !ok
  {
    var parts := SplitN(hashed, '$', 4);
    if |parts| != 4 then false
    else hashed == c.md5Crypt(password, parts[2], "$" + parts[1] + "$")
  }

  /** compareShaHashAndPassword: what follows the five-byte `{SHA}` tag must be base64(SHA-1(password)). */
  function CompareSha(c: Crypto, hashed: string, password: string): (ok: bool)
    requires |hashed| >= 5
    ensures ok <==> hashed == hashed[..5] + c.base64(c.sha1(password))
  {
    hashed[5..] == c.base64(c.sha1(password))
  }

  /** The comparator applied to the stored secret and the password. */
  function Compare(cmp: Comparator, c: Crypto, hashed: string, password: string): bool
    requires cmp == SHA ==> |hashed| >= 5
  {
    match cmp
    case MD5 => CompareMD5(c, hashed, password)
    case SHA => CompareSha(c, hashed, password)
    case Bcrypt => c.bcrypt(hashed, password)
  }

  /** The comparator a stored secret selects, written out prefix by prefix. */
  function Dispatch(secret: string): (cmp: Comparator)
    ensures cmp == SHA ==> |secret| >= 5
  {
    if HasPrefix(secret, "{SHA}") then SHA
    else if HasPrefix(secret, "$2a$") || HasPrefix(secret, "$2b$")
         || HasPrefix(secret, "$2x$") || HasPrefix(secret, "$2y$") then Bcrypt
    else MD5
  }

  /** The password matches the stored secret. */
  function Verify(c: Crypto, secret: string, password: string): bool {
    Compare(Dispatch(secret), c, secret, password)
  }

  /**
   * CheckSecret: start from the default comparator, take the comparator of
   * the first prefix the secret begins with, and apply it.
   */
  method CheckSecret(c: Crypto, password: string, secret: string) returns (ok: bool)
    ensures ok == Verify(c, secret, password)
  {
    var compare := CompareFuncs[0].compare;
    ghost var matched := false;
    var i := 1;
    while i < |CompareFuncs|
      invariant 1 <= i <= |CompareFuncs|
      invariant compare == MD5
      invariant forall j :: 1 <= j < i ==> !HasPrefix(secret, CompareFuncs[j].prefix)
    {
      if HasPrefix(secret, CompareFuncs[i].prefix) {
        compare := CompareFuncs[i].compare;
        DispatchIsFirstMatch(secret, i);
        matched := true;
        break;
      }
      i := i + 1;
    }
    if !matched {
      DispatchDefault(secret);
    }
    ok := Compare(compare, c, secret, password);
  }

  /**
   * The table and the prefix-by-prefix definition agree: the first listed
   * prefix the secret begins with decides, and MD5-crypt is used only when
   * none does.
   */
  lemma DispatchIsFirstMatch(secret: string, i: nat)
    requires 1 <= i < |CompareFuncs| && HasPrefix(secret, CompareFuncs[i].prefix)
    requires forall j :: 1 <= j < i ==> !HasPrefix(secret, CompareFuncs[j].prefix)
    ensures Dispatch(secret) == CompareFuncs[i].compare
  {
    if i > 1 {
      assert !HasPrefix(secret, CompareFuncs[1].prefix);
    }
  }

  lemma DispatchDefault(secret: string)
    ensures Dispatch(secret) == MD5 <==> forall j :: 1 <= j < |CompareFuncs| ==> !HasPrefix(secret, CompareFuncs[j].prefix)
  {
    if forall j :: 1 <= j < |CompareFuncs| ==> !HasPrefix(secret, CompareFuncs[j].prefix) {
      assert !HasPrefix(secret, CompareFuncs[1].prefix);
      assert !HasPrefix(secret, CompareFuncs[2].prefix);
      assert !HasPrefix(secret, CompareFuncs[3].prefix);
      assert !HasPrefix(secret, CompareFuncs[4].prefix);
      assert !HasPrefix(secret, CompareFuncs[5].prefix);
    } else {
      var j :| 1 <= j < |CompareFuncs| && HasPrefix(secret, CompareFuncs[j].prefix);
      assert CompareFuncs[j].compare != MD5;
      if j == 1 {
        assert HasPrefix(secret, "{SHA}");
      } else {
        assert Dispatch(secret) == SHA || Dispatch(secret) == Bcrypt;
      }
    }
  }

  /** No secret begins with two of the listed prefixes, so their order does not matter. */
  lemma PrefixesExclusive(secret: string, i: nat, j: nat)
    requires 1 <= i < j < |CompareFuncs|
    requires HasPrefix(secret, CompareFuncs[i].prefix)
    ensures !HasPrefix(secret, CompareFuncs[j].prefix)
  {
    var p, q := CompareFuncs[i].prefix, CompareFuncs[j].prefix;
    assert secret[..|p|] == p;
    if i == 1 {
      assert secret[0] == '{' && q[0] == '$';
    } else {
      assert secret[2] == p[2] && q[2] != p[2];
    }
  }

  /** The four bcrypt prefixes share one comparator: bcrypt decides alone. */
  lemma BcryptPrefixesShareComparator(c: Crypto, secret: string, password: string)
    requires HasPrefix(secret, "$2a$") || HasPrefix(secret, "$2b$")
          || HasPrefix(secret, "$2x$") || HasPrefix(secret, "$2y$")
    ensures Verify(c, secret, password) == c.bcrypt(secret, password)
  {
    assert secret[0] == '$';
    assert !HasPrefix(secret, "{SHA}");
  }

  /** A `{SHA}` secret matches exactly the passwords whose base64 SHA-1 digest follows the tag. */
  lemma ShaVerdict(c: Crypto, secret: string, password: string)
    requires HasPrefix(secret, "{SHA}")
    ensures Verify(c, secret, password) <==> secret[5..] == c.base64(c.sha1(password))
  {
  }

  /** A password verifies against the `{SHA}` secret made from it. */
  lemma ShaRoundTrip(c: Crypto, password: string)
    ensures Verify(c, "{SHA}" + c.base64(c.sha1(password)), password)
  {
    var secret := "{SHA}" + c.base64(c.sha1(password));
    assert secret[..5] == "{SHA}";
    assert secret[5..] == c.base64(c.sha1(password));
  }

  /**
   * A hash with at least three '$' is read as `f0$magic$salt$rest`: it
   * matches exactly when it equals MD5-crypt of the password with that salt
   * and the magic `$magic$`.
   */
  lemma {:induction false} MD5Fields(c: Crypto, f0: string, magic: string, salt: string, rest: string, password: string)
    requires '$' !in f0 && '$' !in magic && '$' !in salt
    ensures CompareMD5(c, f0 + "$" + magic + "$" + salt + "$" + rest, password) <==>
      f0 + "$" + magic + "$" + salt + "$" + rest == c.md5Crypt(password, salt, "$" + magic + "$")
  {
    var t2 := salt + ['$'] + rest;
    var t1 := magic + ['$'] + t2;
    var hashed := f0 + ['$'] + t1;
    assert f0 + "$" + magic + "$" + salt + "$" + rest == hashed;
    SplitNAt(f0, t1, '$', 4);
    SplitNAt(magic, t2, '$', 3);
    SplitNAt(salt, rest, '$', 2);
    assert SplitN(rest, '$', 1) == [rest];
    assert SplitN(hashed, '$', 4) == [f0, magic, salt, rest];
  }

  /**
   * A password verifies against the secret MD5-crypt makes from it, for the
   * two MD5-crypt magics `$1$` and `$apr1$`, given that MD5-crypt writes its
   * magic, then its salt and a '$', then the digest.
   */
  lemma MD5RoundTrip(c: Crypto, password: string, magic: string, salt: string, digest: string)
    requires magic == "1" || magic == "apr1"
    requires '$' !in salt
    requires c.md5Crypt(password, salt, "$" + magic + "$") == "$" + magic + "$" + salt + "$" + digest
    ensures Verify(c, c.md5Crypt(password, salt, "$" + magic + "$"), password)
  {
    var secret := "$" + magic + "$" + salt + "$" + digest;
    assert secret == "" + "$" + magic + "$" + salt + "$" + digest;
    MD5Fields(c, "", magic, salt, digest, password);
    assert secret[1] == magic[0];
    assert secret[0] == '$' && secret[1] != '2';
  }
}

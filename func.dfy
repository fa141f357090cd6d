/**
 * The header-table helpers of pkg/middleware/auth/func.go: additive copy,
 * delete by name, and removal of the headers that a `Connection` header
 * names (section 6.1 of RFC 7230).
 */
module HeaderFuncs {
  import opened Text
  import opened Canonical
  import opened HeaderTable

  const ConnectionHeader := "Connection"

  /**
   * The table CopyHeaders leaves in `dst`: for every key of `src`, its values
   * appended after those `dst` already had; nothing is overwritten or removed.
   */
  function Appended(dst: HeaderMap, src: HeaderMap): HeaderMap {
    map k | k in dst.Keys + src.Keys :: Lookup(dst, k) + Lookup(src, k)
  }

  /**
   * CopyHeaders is additive: no key is lost, every old value list is kept as
   * a prefix and followed by the source's values, and keys the source lacks
   * keep their values.
   */
  lemma CopyIsAdditive(dst: HeaderMap, src: HeaderMap)
    ensures Appended(dst, src).Keys == dst.Keys + src.Keys
    ensures forall k :: k in dst ==> dst[k] <= Appended(dst, src)[k]
    ensures forall k :: k in src ==> Appended(dst, src)[k] == Lookup(dst, k) + src[k]
    ensures forall k :: k in dst && k !in src ==> Appended(dst, src)[k] == dst[k]
  {
  }

  /** CopyHeaders (func.go): append every value of `src` to `dst`, key by key. */
  method CopyHeaders(dst: Header, src: Header)
    modifies dst
    ensures dst.m == Appended(old(dst.m), old(src.m))
  {
    var s := src.m;
    ghost var d0 := dst.m;
    var todo := s.Keys;
    AppendedNothing(d0, s);
    while todo != {}
      invariant todo <= s.Keys
      invariant dst.m == Appended(d0, Restrict(s, s.Keys - todo))
      decreases todo
    {
      var k :| k in todo;
      AppendedStep(d0, s, s.Keys - todo, k);
      dst.Put(k, Lookup(dst.m, k) + s[k]);
      assert s.Keys - (todo - {k}) == (s.Keys - todo) + {k};
      todo := todo - {k};
    }
    assert Restrict(s, s.Keys - todo) == s;
  }

  /** The part of `m` whose keys are in `keys`. */
  function Restrict(m: HeaderMap, keys: set<string>): HeaderMap {
    map k | k in m && k in keys :: m[k]
  }

  /** Before any key is copied, the table is unchanged. */
  lemma AppendedNothing(dst: HeaderMap, src: HeaderMap)
    ensures Appended(dst, Restrict(src, {})) == dst
  {
    var a := Appended(dst, Restrict(src, {}));
    assert a.Keys == dst.Keys;
    forall x | x in a
      ensures a[x] == dst[x]
    {
      assert Lookup(Restrict(src, {}), x) == [];
    }
  }

  /** Copying one more key of `src` appends its values to that key only. */
  lemma AppendedStep(dst: HeaderMap, src: HeaderMap, done: set<string>, k: string)
    requires k in src && k !in done
    ensures Appended(dst, Restrict(src, done + {k})) ==
      Appended(dst, Restrict(src, done))[k := Lookup(dst, k) + src[k]]
  {
    var a := Appended(dst, Restrict(src, done + {k}));
    var b := Appended(dst, Restrict(src, done))[k := Lookup(dst, k) + src[k]];
    assert a.Keys == b.Keys;
    forall x | x in a
      ensures a[x] == b[x]
    {
    }
  }

  /** RemoveHeaders (func.go): delete every listed name; absent names change nothing. */
  method RemoveHeaders(h: Header, names: seq<string>)
    modifies h
    ensures h.m == old(h.m) - CanonSet(names)
  {
    var i := 0;
    while i < |names|
      invariant 0 <= i <= |names|
      invariant h.m == old(h.m) - CanonSet(names[..i])
    {
      h.Del(names[i]);
      assert CanonSet(names[..i + 1]) == CanonSet(names[..i]) + {Canon(names[i])} by {
        assert names[..i + 1] == names[..i] + [names[i]];
      }
      i := i + 1;
    }
    assert names[..|names|] == names;
  }

  /**
   * After RemoveHeaders no canonical form of a given name is a key; every
   * other key keeps its values, and a name that was absent changes nothing.
   */
  lemma RemovedNamesAreGone(m: HeaderMap, names: seq<string>)
    ensures forall n :: n in names ==> Canon(n) !in m - CanonSet(names)
    ensures forall k :: k in m && k !in CanonSet(names) ==> k in m - CanonSet(names) && (m - CanonSet(names))[k] == m[k]
    ensures (forall n :: n in names ==> Canon(n) !in m) ==> m - CanonSet(names) == m
  {
  }

  /**
   * The keys a list of comma-separated pieces designates: every piece
   * trimmed, empty pieces skipped, the rest canonicalised as Del does.
   */
  function TokenNames(parts: seq<string>): set<string> {
    set p | p in parts && Trim(p) != "" :: Canon(Trim(p))
  }

  /** The keys designated by the tokens of all the given `Connection` values. */
  function ConnectionNames(values: seq<string>): set<string> {
    if values == [] then {}
    else ConnectionNames(values[..|values| - 1]) + TokenNames(Split(values[|values| - 1], ','))
  }

  /** The table removeConnectionHeaders leaves: every key a `Connection` token names is gone. */
  function Stripped(m: HeaderMap): HeaderMap {
    m - ConnectionNames(Lookup(m, ConnectionHeader))
  }

  /**
   * removeConnectionHeaders (func.go). The values of `Connection` are read
   * once, before the loop, so deleting `Connection` itself part-way through
   * does not stop the scan.
   */
  method RemoveConnectionHeaders(h: Header)
    modifies h
    ensures h.m == Stripped(old(h.m))
  {
    var values := Lookup(h.m, ConnectionHeader);
    ghost var m0 := h.m;
    var i := 0;
    while i < |values|
      invariant 0 <= i <= |values|
      invariant h.m == m0 - ConnectionNames(values[..i])
    {
      RemoveTokens(h, Split(values[i], ','));
      ConnectionNamesSnoc(values, i);
      SubtractBoth(m0, ConnectionNames(values[..i]), TokenNames(Split(values[i], ',')));
      i := i + 1;
    }
    assert values[..i] == values;
  }

  /** The inner loop of removeConnectionHeaders: delete the key of every trimmed, non-empty piece. */
  method RemoveTokens(h: Header, parts: seq<string>)
    modifies h
    ensures h.m == old(h.m) - TokenNames(parts)
  {
    ghost var m0 := h.m;
    ghost var inner: set<string> := {};
    var j := 0;
    while j < |parts|
      invariant 0 <= j <= |parts|
      invariant inner == TokenNames(parts[..j])
      invariant h.m == m0 - inner
    {
      var sf := Trim(parts[j]);
      if sf != "" {
        h.Del(sf);
        SubtractBoth(m0, inner, {Canon(sf)});
        inner := inner + {Canon(sf)};
      }
      TokenNamesSnoc(parts, j);
      j := j + 1;
    }
    assert parts[..j] == parts;
  }

  /** Removing two key sets one after the other removes their union. */
  lemma SubtractBoth(m: HeaderMap, a: set<string>, b: set<string>)
    ensures (m - a) - b == m - (a + b)
  {
  }

  lemma ConnectionNamesSnoc(values: seq<string>, i: nat)
    requires i < |values|
    ensures ConnectionNames(values[..i + 1]) == ConnectionNames(values[..i]) + TokenNames(Split(values[i], ','))
  {
    assert values[..i + 1][..i] == values[..i];
  }

  lemma TokenNamesSnoc(parts: seq<string>, j: nat)
    requires j < |parts|
    ensures TokenNames(parts[..j + 1]) == TokenNames(parts[..j]) + (if Trim(parts[j]) != "" then {Canon(Trim(parts[j]))} else {})
  {
    var a := TokenNames(parts[..j + 1]);
    var b := TokenNames(parts[..j]) + (if Trim(parts[j]) != "" then {Canon(Trim(parts[j]))} else {});
    assert parts[..j + 1] == parts[..j] + [parts[j]];
    forall x | x in a ensures x in b {
      var q :| q in parts[..j + 1] && Trim(q) != "" && Canon(Trim(q)) == x;
    }
  }

  /** The comma-separated value `v` holds a trimmed, non-empty token whose canonical form is `k`. */
  predicate Names(v: string, k: string) {
    exists p :: p in Split(v, ',') && Trim(p) != "" && Canon(Trim(p)) == k
  }

  /** A key is named by a `Connection` value exactly when one of its trimmed, non-empty tokens canonicalises to it. */
  lemma {:induction false} ConnectionNamesMember(values: seq<string>, k: string)
    ensures k in ConnectionNames(values) <==> exists v :: v in values && Names(v, k)
  {
    if values != [] {
      var init, last := values[..|values| - 1], values[|values| - 1];
      ConnectionNamesMember(init, k);
      assert values == init + [last];
      assert k in TokenNames(Split(last, ',')) <==> Names(last, k);
    }
  }

  /**
   * removeConnectionHeaders deletes the header named by every non-empty
   * trimmed token of every `Connection` value, and leaves every other
   * header, with its values, in place.
   */
  lemma StrippedRemovesNamed(m: HeaderMap)
    ensures forall v, p :: v in Lookup(m, ConnectionHeader) && p in Split(v, ',') && Trim(p) != "" ==>
      Canon(Trim(p)) !in Stripped(m)
    ensures forall k :: k in m && (forall v, p :: v in Lookup(m, ConnectionHeader) && p in Split(v, ',') && Trim(p) != "" ==> Canon(Trim(p)) != k) ==>
      k in Stripped(m) && Stripped(m)[k] == m[k]
  {
    var values := Lookup(m, ConnectionHeader);
    forall v, p | v in values && p in Split(v, ',') && Trim(p) != ""
      ensures Canon(Trim(p)) !in Stripped(m)
    {
      assert Names(v, Canon(Trim(p)));
      ConnectionNamesMember(values, Canon(Trim(p)));
    }
    forall k | k in m && (forall v, p :: v in values && p in Split(v, ',') && Trim(p) != "" ==> Canon(Trim(p)) != k)
      ensures k in Stripped(m) && Stripped(m)[k] == m[k]
    {
      ConnectionNamesMember(values, k);
    }
  }

  /** Empty tokens ("a,,b", a trailing comma, blanks) delete nothing: no named key is empty. */
  lemma {:induction false} EmptyTokensNameNothing(values: seq<string>)
    ensures "" !in ConnectionNames(values)
  {
    if values != [] {
      EmptyTokensNameNothing(values[..|values| - 1]);
      var parts := Split(values[|values| - 1], ',');
      forall p | p in parts && Trim(p) != ""
        ensures Canon(Trim(p)) != ""
      {
        assert |Canon(Trim(p))| == |Trim(p)| > 0;
      }
    }
  }

  /** `Connection` itself survives unless one of its own tokens names it. */
  lemma StrippedKeepsConnection(m: HeaderMap)
    requires ConnectionHeader in m
    requires ConnectionHeader !in ConnectionNames(m[ConnectionHeader])
    ensures ConnectionHeader in Stripped(m) && Stripped(m)[ConnectionHeader] == m[ConnectionHeader]
  {
  }

  /** Applying removeConnectionHeaders twice gives the table applying it once gives. */
  lemma StrippedIdempotent(m: HeaderMap)
    ensures Stripped(Stripped(m)) == Stripped(m)
  {
    var s := Stripped(m);
    if ConnectionHeader in s {
      assert Lookup(s, ConnectionHeader) == Lookup(m, ConnectionHeader);
    } else {
      assert Lookup(s, ConnectionHeader) == [];
    }
  }
}

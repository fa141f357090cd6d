/**
 * An HTTP header table (Go's http.Header): a map from header name to the
 * ordered list of its values. The accessors Get, Values, Set and Del
 * canonicalise the name they are given; direct indexing `h[key]` does not.
 */
module HeaderTable {
  import opened Canonical

  type HeaderMap = map<string, seq<string>>

  /** Direct indexing `h[key]`: the values under exactly this key, or none. */
  function Lookup(m: HeaderMap, key: string): seq<string> {
    if key in m then m[key] else []
  }

  /** http.Header.Values: the values under the canonical form of the name. */
  function Values(m: HeaderMap, name: string): seq<string> {
    Lookup(m, Canon(name))
  }

  /** The first value under exactly this key, or "". */
  function First(m: HeaderMap, key: string): string {
    if key in m && |m[key]| > 0 then m[key][0] else ""
  }

  /** http.Header.Get: the first value under the canonical form of the name, or "". */
  function Get(m: HeaderMap, name: string): (v: string)
    ensures v != "" ==> Canon(name) in m && |m[Canon(name)]| > 0 && m[Canon(name)][0] == v
    ensures Canon(name) in m && |m[Canon(name)]| > 0 ==> v == m[Canon(name)][0]
  {
    First(m, Canon(name))
  }

  /** A header table that handlers update in place. */
  class Header {
    var m: HeaderMap

    constructor (init: HeaderMap)
      ensures m == init
    {
      m := init;
    }

    /** http.Header.Set: the name's only value becomes `value`. */
    method Set(name: string, value: string)
      modifies this
      ensures m == old(m)[Canon(name) := [value]]
    {
      m := m[Canon(name) := [value]];
    }

    /** http.Header.Del: the name is no longer a key; an absent name is a no-op. */
    method Del(name: string)
      modifies this
      ensures m == old(m) - {Canon(name)}
    {
      m := m - {Canon(name)};
    }

    /** Direct assignment `h[key] = values`, with no canonicalisation. */
    method Put(key: string, values: seq<string>)
      modifies this
      ensures m == old(m)[key := values]
    {
      m := m[key := values];
    }
  }
}

/**
 * The string helpers of Go's standard library that the middleware relies on:
 * strings.Split and bytes.SplitN with a one-byte separator, strings.Join,
 * strings.HasPrefix and textproto.TrimString. A Go string is a sequence of
 * bytes; here each byte is one `char`.
 */
module Text {

  /** ASCII white space in the sense of textproto.TrimString. */
  predicate IsSpace(c: char) {
    c == ' ' || c == '\t' || c == '\n' || c == '\r'
  }

  /** strings.HasPrefix */
  predicate HasPrefix(s: string, prefix: string) {
    |prefix| <= |s| && s[..|prefix|] == prefix
  }

  /** Number of occurrences of `c` in `s`. */
  function Count(s: string, c: char): (n: nat)
    ensures n <= |s|
    ensures n == 0 <==> c !in s
  {
    if s == [] then 0
    else
      assert s == [s[0]] + s[1..];
      (if s[0] == c then 1 else 0) + Count(s[1..], c)
  }

  /** strings.Split(s, string(sep)): every piece between separators, empty ones included. */
  function Split(s: string, sep: char): (parts: seq<string>)
    ensures |parts| == Count(s, sep) + 1
  {
    if s == [] then [""]
    else
      var rest := Split(s[1..], sep);
      if s[0] == sep then [""] + rest
      else [[s[0]] + rest[0]] + rest[1..]
  }

  /**
   * bytes.SplitN(s, []byte{sep}, n) for n >= 1: at most n pieces, the last
   * one being the unsplit remainder.
   */
  function SplitN(s: string, sep: char, n: nat): (parts: seq<string>)
    requires n >= 1
    ensures |parts| == if Count(s, sep) + 1 < n then Count(s, sep) + 1 else n
    decreases |s|
  {
    if n == 1 || s == [] then [s]
    else
      var rest := SplitN(s[1..], sep, if s[0] == sep then n - 1 else n);
      if s[0] == sep then [""] + rest
      else [[s[0]] + rest[0]] + rest[1..]
  }

  /** strings.Join */
  function Join(parts: seq<string>, sep: string): string {
    if parts == [] then ""
    else if |parts| == 1 then parts[0]
    else parts[0] + sep + Join(parts[1..], sep)
  }

  /** No piece of Split holds the separator. */
  lemma {:induction false} SplitPieces(s: string, sep: char)
    ensures forall i :: 0 <= i < |Split(s, sep)| ==> sep !in Split(s, sep)[i]
  {
    if s != [] {
      SplitPieces(s[1..], sep);
    }
  }

  /** Joining the pieces of Split with the separator gives back the input. */
  lemma {:induction false} SplitJoin(s: string, sep: char)
    ensures Join(Split(s, sep), [sep]) == s
  {
    if s != [] {
      var rest := Split(s[1..], sep);
      SplitJoin(s[1..], sep);
      var parts := Split(s, sep);
      if s[0] == sep {
        assert parts[1..] == rest;
      } else if |rest| == 1 {
        assert parts == [[s[0]] + rest[0]];
      } else {
        assert parts[1..] == rest[1..];
        assert Join(rest, [sep]) == rest[0] + [sep] + Join(rest[1..], [sep]);
      }
    }
  }

  /** A separator-free head is Split's first piece; the rest is split on its own. */
  lemma {:induction false} SplitAt(a: string, b: string, sep: char)
    requires sep !in a
    ensures Split(a + [sep] + b, sep) == [a] + Split(b, sep)
  {
    var s := a + [sep] + b;
    if a == [] {
      assert s[1..] == b;
    } else {
      assert s[0] == a[0] != sep;
      assert s[1..] == a[1..] + [sep] + b;
      SplitAt(a[1..], b, sep);
      var rest := Split(s[1..], sep);
      assert rest[0] == a[1..] && rest[1..] == Split(b, sep);
      assert [a[0]] + a[1..] == a;
    }
  }

  /** A separator-free head is SplitN's first piece; the rest is split with one piece fewer. */
  lemma {:induction false} SplitNAt(a: string, b: string, sep: char, n: nat)
    requires n >= 2 && sep !in a
    ensures SplitN(a + [sep] + b, sep, n) == [a] + SplitN(b, sep, n - 1)
    decreases |a|
  {
    var s := a + [sep] + b;
    if a == [] {
      assert s[1..] == b;
    } else {
      assert s[1..] == a[1..] + [sep] + b;
      SplitNAt(a[1..], b, sep, n);
      assert [a[0]] + a[1..] == a;
    }
  }

  /** textproto.TrimString: drop leading and trailing ASCII white space. */
  function Trim(s: string): string {
    TrimRight(TrimLeft(s))
  }

  function TrimLeft(s: string): string {
    if s != [] && IsSpace(s[0]) then TrimLeft(s[1..]) else s
  }

  function TrimRight(s: string): string {
    if s != [] && IsSpace(s[|s| - 1]) then TrimRight(s[..|s| - 1]) else s
  }
}

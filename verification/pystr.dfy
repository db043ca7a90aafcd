/**
 * The few Python `str` operations the packaging helpers use: `strip` with the
 * default whitespace set or with an explicit set of characters, `startswith`
 * and `split` on one separator character.
 */
module PyStr {

  /** The characters Python's `str.isspace` accepts, which `str.strip()` removes. */
  const Whitespace: set<char> :=
    {'\U{9}', '\U{A}', '\U{B}', '\U{C}', '\U{D}', '\U{1C}', '\U{1D}', '\U{1E}',
     '\U{1F}', '\U{20}', '\U{85}', '\U{A0}', '\U{1680}', '\U{2000}', '\U{2001}', '\U{2002}',
     '\U{2003}', '\U{2004}', '\U{2005}', '\U{2006}', '\U{2007}', '\U{2008}', '\U{2009}', '\U{200A}',
     '\U{2028}', '\U{2029}', '\U{202F}', '\U{205F}', '\U{3000}'}

  predicate AllIn(s: string, cs: set<char>) {
    forall k :: 0 <= k < |s| ==> s[k] in cs
  }

  /** Neither end of `s` is a character of `cs`. */
  predicate Trimmed(s: string, cs: set<char>) {
    s == [] || (s[0] !in cs && s[|s| - 1] !in cs)
  }

  predicate StartsWith(s: string, prefix: string) {
    |prefix| <= |s| && s[..|prefix|] == prefix
  }

  /** `s.lstrip(cs)`: the longest suffix of `s` that does not start with a character of `cs`. */
  function StripLeft(s: string, cs: set<char>): (r: string)
    ensures |r| <= |s| && r == s[|s| - |r|..]
    ensures AllIn(s[..|s| - |r|], cs)
    ensures r == [] || r[0] !in cs
  {
    if s == [] || s[0] !in cs then s
    else
      var r := StripLeft(s[1..], cs);
      assert s[..|s| - |r|] == [s[0]] + s[1..][..|s| - 1 - |r|];
      r
  }

  /** `s.rstrip(cs)`: the longest prefix of `s` that does not end with a character of `cs`. */
  function StripRight(s: string, cs: set<char>): (r: string)
    ensures |r| <= |s| && r == s[..|r|]
    ensures AllIn(s[|r|..], cs)
    ensures r == [] || r[|r| - 1] !in cs
  {
    if s == [] || s[|s| - 1] !in cs then s
    else
      var r := StripRight(s[..|s| - 1], cs);
      assert s[|r|..] == s[..|s| - 1][|r|..] + [s[|s| - 1]];
      r
  }

  /** `s.strip(cs)`: neither end of the result is in `cs`; `StripIsSlice` and `StripPadded` pin it down. */
  function Strip(s: string, cs: set<char>): (r: string)
    ensures Trimmed(r, cs) && |r| <= |s|
  {
    StripRight(StripLeft(s, cs), cs)
  }

  /** `Strip` only cuts characters of `cs` from the two ends: the result is a slice of `s`. */
  lemma StripIsSlice(s: string, cs: set<char>)
    ensures exists i ::
      (0 <= i <= |s| - |Strip(s, cs)| && Strip(s, cs) == s[i..i + |Strip(s, cs)|]
       && AllIn(s[..i], cs) && AllIn(s[i + |Strip(s, cs)|..], cs))
  {
    var l := StripLeft(s, cs);
    var r := StripRight(l, cs);
    var i := |s| - |l|;
    assert r == s[i..i + |r|];
    assert s[i + |r|..] == l[|r|..];
  }

  lemma {:induction false} StripLeftPadded(p: string, m: string, cs: set<char>)
    requires AllIn(p, cs) && (m == [] || m[0] !in cs)
    ensures StripLeft(p + m, cs) == m
  {
    if p != [] {
      assert (p + m)[1..] == p[1..] + m;
      StripLeftPadded(p[1..], m, cs);
    }
  }

  lemma {:induction false} StripRightPadded(m: string, q: string, cs: set<char>)
    requires AllIn(q, cs) && (m == [] || m[|m| - 1] !in cs)
    ensures StripRight(m + q, cs) == m
  {
    if q != [] {
      assert (m + q)[..|m + q| - 1] == m + q[..|q| - 1];
      StripRightPadded(m, q[..|q| - 1], cs);
    }
  }

  /** The characterisation of `Strip` is unique: padding in `cs` around a trimmed core strips to the core. */
  lemma StripPadded(p: string, m: string, q: string, cs: set<char>)
    requires AllIn(p, cs) && AllIn(q, cs) && Trimmed(m, cs)
    ensures Strip(p + m + q, cs) == m
  {
    if m == [] {
      assert p + m + q == p + q;
      assert AllIn(p + q, cs);
    } else {
      assert p + m + q == p + (m + q);
      StripLeftPadded(p, m + q, cs);
      StripRightPadded(m, q, cs);
    }
  }

  /** Stripping only removes characters: one absent from `s` is absent from the result. */
  lemma StripKeepsAbsent(s: string, cs: set<char>, c: char)
    requires c !in s
    ensures c !in Strip(s, cs)
  {
    var l := StripLeft(s, cs);
    var r := StripRight(l, cs);
    var i := |s| - |l|;
    assert forall k :: 0 <= k < |r| ==> r[k] == l[k] == s[i + k];
  }

  /** Python's `s.split(sep)` for a one-character separator. */
  function Split(s: string, sep: char): (r: seq<string>)
    ensures |r| >= 1
    ensures |r| == 1 <==> sep !in s
    ensures forall j :: 0 <= j < |r| ==> sep !in r[j]
    ensures Join(r, sep) == s
  {
    if s == [] then [""]
    else
      var rest := Split(s[1..], sep);
      if s[0] == sep then [""] + rest
      else [[s[0]] + rest[0]] + rest[1..]
  }

  /** `sep.join(parts)`, the inverse of `Split`. */
  function Join(parts: seq<string>, sep: char): string
    requires |parts| >= 1
  {
    if |parts| == 1 then parts[0] else parts[0] + [sep] + Join(parts[1..], sep)
  }

  /** Splitting text that has its first separator after `a` yields `a` and then the pieces of the rest. */
  lemma {:induction false} SplitAtFirst(a: string, b: string, sep: char)
    requires sep !in a
    ensures Split(a + [sep] + b, sep) == [a] + Split(b, sep)
  {
    if a == [] {
      assert (a + [sep] + b)[1..] == b;
    } else {
      assert (a + [sep] + b)[1..] == a[1..] + [sep] + b;
      SplitAtFirst(a[1..], b, sep);
      assert [a[0]] + a[1..] == a;
    }
  }

  /** Text without the separator is one piece. */
  lemma {:induction false} SplitNoSeparator(s: string, sep: char)
    requires sep !in s
    ensures Split(s, sep) == [s]
  {
    if s != [] {
      SplitNoSeparator(s[1..], sep);
      assert [s[0]] + s[1..] == s;
    }
  }
}

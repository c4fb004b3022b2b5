/** Cache keys: parts joined with colons, and the glob patterns that the invalidators use. */
module CacheKeys {

  const COLON := ':'

  /** `":".join(parts)`. */
  function Join(parts: seq<string>): string
    requires parts != []
  {
    if |parts| == 1 then parts[0] else parts[0] + [COLON] + Join(parts[1..])
  }

  function MakeKey(namespace: string, parts: seq<string>): string {
    Join([namespace] + parts)
  }

  lemma MakeKeyOfTwo(namespace: string, a: string, b: string)
    ensures MakeKey(namespace, [a, b]) == namespace + [COLON] + (a + [COLON] + b)
  {
    var all := [namespace] + [a, b];
    assert all == [namespace, a, b] && all[1..] == [a, b] && [a, b][1..] == [b];
    assert Join([b]) == b;
    assert Join([a, b]) == a + [COLON] + b;
  }

  /** The parts between the colons. */
  function Split(s: string): (parts: seq<string>)
    ensures parts != []
  {
    if s == "" then [""]
    else
      var rest := Split(s[1..]);
      if s[0] == COLON then [""] + rest else [[s[0]] + rest[0]] + rest[1..]
  }

  predicate ColonFree(s: string) {
    COLON !in s
  }

  predicate AllColonFree(parts: seq<string>) {
    forall i :: 0 <= i < |parts| ==> ColonFree(parts[i])
  }

  lemma {:induction false} SplitPartsColonFree(s: string)
    ensures AllColonFree(Split(s))
  {
    if s == "" {
    } else {
      SplitPartsColonFree(s[1..]);
    }
  }

  lemma {:induction false} SplitPart(p: string)
    requires ColonFree(p)
    ensures Split(p) == [p]
  {
    if p == "" {
    } else {
      SplitPart(p[1..]);
      assert [p[0]] + p[1..] == p;
    }
  }

  lemma {:induction false} SplitFirst(p: string, rest: string)
    requires ColonFree(p)
    ensures Split(p + [COLON] + rest) == [p] + Split(rest)
  {
    var s := p + [COLON] + rest;
    if p == "" {
      assert s[1..] == rest;
    } else {
      assert s[1..] == p[1..] + [COLON] + rest;
      SplitFirst(p[1..], rest);
      assert [p[0]] + p[1..] == p;
    }
  }

  lemma {:induction false} SplitJoin(parts: seq<string>)
    requires parts != [] && AllColonFree(parts)
    ensures Split(Join(parts)) == parts
  {
    if |parts| == 1 {
      SplitPart(parts[0]);
    } else {
      SplitJoin(parts[1..]);
      SplitFirst(parts[0], Join(parts[1..]));
    }
  }

  /** A key gives its parts back exactly when none of them contains a colon. */
  lemma KeyRoundTrip(parts: seq<string>)
    requires parts != []
    ensures Split(Join(parts)) == parts <==> AllColonFree(parts)
  {
    if AllColonFree(parts) {
      SplitJoin(parts);
    }
    SplitPartsColonFree(Join(parts));
  }

  /** The namespace can always be read off a key, whatever the other parts contain. */
  lemma NamespaceOfKey(namespace: string, parts: seq<string>)
    requires ColonFree(namespace)
    ensures Split(MakeKey(namespace, parts))[0] == namespace
  {
    var all := [namespace] + parts;
    if parts == [] {
      SplitPart(namespace);
    } else {
      assert all[1..] == parts;
      SplitFirst(namespace, Join(parts));
    }
  }

  // ----- glob patterns -----

  predicate IsWild(c: char) {
    c in "*?[\\"
  }

  /** Without character classes and escapes, which `Glob` does not model. */
  predicate Simple(s: string) {
    forall i :: 0 <= i < |s| ==> s[i] != '[' && s[i] != '\\'
  }

  predicate Literal(s: string) {
    forall i :: 0 <= i < |s| ==> !IsWild(s[i])
  }

  /** Redis glob matching for patterns of literal characters, `?` and `*`. */
  predicate Glob(pattern: string, s: string)
    decreases |pattern| + |s|
  {
    if pattern == "" then s == ""
    else if pattern[0] == '*' then Glob(pattern[1..], s) || (s != "" && Glob(pattern, s[1..]))
    else s != "" && (pattern[0] == '?' || pattern[0] == s[0]) && Glob(pattern[1..], s[1..])
  }

  /** A question mark stands for any one character. */
  lemma QuestionGlob(pattern: string, s: string)
    ensures Glob("?" + pattern, s) <==> s != "" && Glob(pattern, s[1..])
  {
    assert ("?" + pattern)[1..] == pattern;
  }

  /** A star stands for any text, the empty one included. */
  lemma {:induction false} StarGlob(pattern: string, s: string)
    ensures Glob("*" + pattern, s) <==> exists k :: 0 <= k <= |s| && Glob(pattern, s[k..])
    decreases |s|
  {
    var starred := "*" + pattern;
    assert starred[1..] == pattern && s[0..] == s;
    if s != "" {
      StarGlob(pattern, s[1..]);
      if k :| 0 <= k <= |s[1..]| && Glob(pattern, s[1..][k..]) {
        assert s[k + 1..] == s[1..][k..];
      }
      if k :| 0 < k <= |s| && Glob(pattern, s[k..]) {
        assert s[1..][k - 1..] == s[k..];
      }
    }
  }

  lemma {:induction false} StarMatchesAll(s: string)
    ensures Glob("*", s)
  {
    assert "*"[1..] == "";
    if s == "" {
    } else {
      StarMatchesAll(s[1..]);
    }
  }

  /** A pattern with a literal prefix matches the strings with that prefix whose rest the rest matches. */
  lemma {:induction false} LiteralPrefix(prefix: string, pattern: string, s: string)
    requires Literal(prefix)
    ensures Glob(prefix + pattern, s) <==> prefix <= s && Glob(pattern, s[|prefix|..])
  {
    if prefix == "" {
      assert prefix + pattern == pattern && s[0..] == s;
    } else {
      assert !IsWild(prefix[0]);
      assert (prefix + pattern)[1..] == prefix[1..] + pattern;
      if s != "" {
        LiteralPrefix(prefix[1..], pattern, s[1..]);
        assert prefix == [prefix[0]] + prefix[1..];
        assert s == [s[0]] + s[1..];
        assert prefix <= s ==> s[1..][|prefix| - 1..] == s[|prefix|..];
      }
    }
  }

  /** A literal prefix followed by a star matches exactly the strings that start with the prefix. */
  lemma {:induction false} PrefixGlob(prefix: string, s: string)
    requires Literal(prefix)
    ensures Glob(prefix + "*", s) <==> prefix <= s
  {
    LiteralPrefix(prefix, "*", s);
    if prefix <= s {
      StarMatchesAll(s[|prefix|..]);
    }
  }
}

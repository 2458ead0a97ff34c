/**
 The layout of a cache key, cache:<tenant>:<namespace>:<key>, the prefix a flush
 removes, and the LIKE pattern the database store turns that prefix into.
 */
module Keys {
  import opened Wrappers

  predicate SlugStart(c: char) {
    'a' <= c <= 'z' || '0' <= c <= '9'
  }

  predicate SlugChar(c: char) {
    SlugStart(c) || c == '_' || c == '-'
  }

  /** The regular expression ^[a-z0-9][a-z0-9_-]{0,63}$. */
  predicate ValidTenant(s: string) {
    1 <= |s| <= 64 && SlugStart(s[0]) && forall c :: c in s ==> SlugChar(c)
  }

  datatype KeyError = NoTenant | BadNamespace | EmptyKey

  function Prefix(tenant: string, namespace: string): Result<string, KeyError> {
    if !ValidTenant(tenant) then Err(NoTenant)
    else if !ValidTenant(namespace) then Err(BadNamespace)
    else Ok("cache:" + tenant + ":" + namespace + ":")
  }

  function FullKey(tenant: string, namespace: string, key: string): Result<string, KeyError> {
    match Prefix(tenant, namespace)
    case Err(e) => Err(e)
    case Ok(prefix) => if key == "" then Err(EmptyKey) else Ok(prefix + key)
  }

  /** Two strings cut at their first separator have the same two halves. */
  lemma CutAtFirst(a: string, x: string, b: string, y: string, sep: char)
    requires sep !in a && sep !in b
    requires a + [sep] + x == b + [sep] + y
    ensures a == b && x == y
  {
    var s := a + [sep] + x;
    var t := b + [sep] + y;
    assert s[|a|] == sep && t[|b|] == sep;
    assert forall i :: 0 <= i < |a| ==> s[i] == a[i];
    assert forall i :: 0 <= i < |b| ==> t[i] == b[i];
    assert |a| == |b|;
    assert a == s[..|a|] && b == t[..|b|];
    assert x == s[|a| + 1..] && y == t[|b| + 1..];
  }

  /** And two strings cut at their last. */
  lemma CutAtLast(a: string, x: string, b: string, y: string, sep: char)
    requires sep !in x && sep !in y
    requires a + [sep] + x == b + [sep] + y
    ensures a == b && x == y
  {
    var s := a + [sep] + x;
    var t := b + [sep] + y;
    assert s[|a|] == sep && t[|b|] == sep;
    assert forall i :: 0 <= i < |x| ==> s[|a| + 1 + i] == x[i];
    assert forall i :: 0 <= i < |y| ==> t[|b| + 1 + i] == y[i];
    assert |a| == |b|;
    assert a == s[..|a|] && b == t[..|b|];
    assert x == s[|a| + 1..] && y == t[|b| + 1..];
  }

  lemma NoColon(s: string)
    requires ValidTenant(s)
    ensures ':' !in s
  {
  }

  /** p is a prefix of s exactly when s is p followed by something. */
  lemma PrefixSplits(p: string, s: string)
    requires p <= s
    ensures s == p + s[|p|..]
  {
  }

  /** Where the three segments of a full key stand, after the leading "cache:". */
  lemma Segments(tenant: string, namespace: string, rest: string)
    requires ValidTenant(tenant) && ValidTenant(namespace)
    ensures ("cache:" + tenant + ":" + namespace + ":" + rest)[6..]
         == tenant + [':'] + (namespace + [':'] + rest)
  {
  }

  /**
   A full key says whose it is: the prefix of one tenant and namespace starts the
   key of another only when both pairs are the same, whatever the application's key.
   */
  lemma PrefixSeparates(t1: string, n1: string, t2: string, n2: string, key: string)
    requires Prefix(t1, n1).Ok? && Prefix(t2, n2).Ok?
    ensures Prefix(t1, n1).value <= Prefix(t2, n2).value + key <==> t1 == t2 && n1 == n2
  {
    var p, full := Prefix(t1, n1).value, Prefix(t2, n2).value + key;
    if p <= full {
      var rest := full[|p|..];
      PrefixSplits(p, full);
      Segments(t1, n1, rest);
      Segments(t2, n2, key);
      NoColon(t1);
      NoColon(t2);
      NoColon(n1);
      NoColon(n2);
      CutAtFirst(t1, n1 + [':'] + rest, t2, n2 + [':'] + key, ':');
      CutAtFirst(n1, rest, n2, key, ':');
    }
  }

  /** A key is formed exactly of a good tenant, a good namespace and something; what is wrong first is what is said. */
  lemma FullKeyExactly(tenant: string, namespace: string, key: string)
    ensures FullKey(tenant, namespace, key).Ok? <==> ValidTenant(tenant) && ValidTenant(namespace) && key != ""
    ensures FullKey(tenant, namespace, key) == Err(NoTenant) <==> !ValidTenant(tenant)
    ensures FullKey(tenant, namespace, key) == Err(BadNamespace) <==> ValidTenant(tenant) && !ValidTenant(namespace)
    ensures FullKey(tenant, namespace, key) == Err(EmptyKey)
            <==> ValidTenant(tenant) && ValidTenant(namespace) && key == ""
  {
  }

  /** The full key determines the tenant, the namespace and the application's key. */
  lemma FullKeyInjective(t1: string, n1: string, k1: string, t2: string, n2: string, k2: string)
    requires FullKey(t1, n1, k1).Ok? && FullKey(t1, n1, k1) == FullKey(t2, n2, k2)
    ensures t1 == t2 && n1 == n2 && k1 == k2
  {
    PrefixSeparates(t1, n1, t2, n2, k2);
    var p := Prefix(t1, n1).value;
    assert (p + k1)[|p|..] == k1 && (p + k2)[|p|..] == k2;
  }

  /**
   Every entry of a store whose keys all come from FullKey is removed by a flush of
   (tenant, namespace) exactly when it belongs to that tenant and that namespace.
   */
  lemma FlushTakesItsOwn(tenant: string, namespace: string, t: string, n: string, key: string)
    requires Prefix(tenant, namespace).Ok? && FullKey(t, n, key).Ok?
    ensures Prefix(tenant, namespace).value <= FullKey(t, n, key).value <==> tenant == t && namespace == n
  {
    PrefixSeparates(tenant, namespace, t, n, key);
  }

  /** Without the check on the segments two tenants share an entry. */
  lemma ColonInATenantCollides()
    ensures "cache:" + "acme:user" + ":" + "session" + ":" + "1" == "cache:" + "acme" + ":" + "user" + ":" + "session:1"
    ensures !ValidTenant("acme:user")
  {
    assert ':' in "acme:user" by { assert "acme:user"[4] == ':'; }
  }

  // ---------------------------------------------------------------- LIKE

  predicate Special(c: char) {
    c == '%' || c == '_' || c == '\\'
  }

  function Escaped(p: string): string {
    if p == "" then ""
    else (if Special(p[0]) then ['\\', p[0]] else [p[0]]) + Escaped(p[1..])
  }

  lemma {:induction false} EscapedAppends(p: string, c: char)
    ensures Escaped(p + [c]) == Escaped(p) + (if Special(c) then ['\\', c] else [c])
  {
    if p == "" {
      assert p + [c] == [c];
      assert [c][1..] == "";
    } else {
      assert (p + [c])[1..] == p[1..] + [c];
      EscapedAppends(p[1..], c);
    }
  }

  /** The loop of likePrefix: one pass over the bytes, then the trailing wildcard. */
  method LikePrefix(prefix: string) returns (pattern: string)
    ensures pattern == Escaped(prefix) + "%"
  {
    var out := "";
    for i := 0 to |prefix|
      invariant out == Escaped(prefix[..i])
    {
      EscapedAppends(prefix[..i], prefix[i]);
      assert prefix[..i + 1] == prefix[..i] + [prefix[i]];
      if prefix[i] == '%' || prefix[i] == '_' || prefix[i] == '\\' {
        out := out + ['\\'];
      }
      out := out + [prefix[i]];
    }
    assert prefix[..|prefix|] == prefix;
    pattern := out + "%";
  }

  /**
   SQL LIKE on the whole of s. `escape` says whether a backslash takes the character
   after it literally, which is the default of MySQL and PostgreSQL and not of SQLite.
   */
  predicate Like(pattern: string, s: string, escape: bool)
    decreases |pattern| + |s|
  {
    if pattern == "" then s == ""
    else if escape && pattern[0] == '\\' && |pattern| > 1 then
      s != "" && s[0] == pattern[1] && Like(pattern[2..], s[1..], escape)
    else if pattern[0] == '%' then
      Like(pattern[1..], s, escape) || (s != "" && Like(pattern, s[1..], escape))
    else
      s != "" && (pattern[0] == '_' || s[0] == pattern[0]) && Like(pattern[1..], s[1..], escape)
  }

  lemma {:induction false} PercentMatchesAll(s: string, escape: bool)
    ensures Like("%", s, escape)
  {
    assert "%"[1..] == "";
    if s != "" { PercentMatchesAll(s[1..], escape); }
  }

  /** With the backslash as escape, the pattern of a prefix matches exactly its extensions. */
  lemma {:induction false} EscapedMatchesExtensions(p: string, s: string)
    ensures Like(Escaped(p) + "%", s, true) <==> p <= s
  {
    var pattern := Escaped(p) + "%";
    if p == "" {
      assert pattern == "%";
      PercentMatchesAll(s, true);
    } else {
      var tail := Escaped(p[1..]) + "%";
      if Special(p[0]) {
        assert pattern[2..] == tail;
      } else {
        assert pattern[1..] == tail;
      }
      if s != "" {
        EscapedMatchesExtensions(p[1..], s[1..]);
        assert p <= s <==> p[0] == s[0] && p[1..] <= s[1..] by { PrefixStep(p, s); }
      }
    }
  }

  lemma PrefixStep(p: string, s: string)
    requires p != "" && s != ""
    ensures p <= s <==> p[0] == s[0] && p[1..] <= s[1..]
  {
    if p[0] == s[0] && p[1..] <= s[1..] {
      assert p == [p[0]] + p[1..] && s == [s[0]] + s[1..];
    }
    if p <= s {
      assert p[1..] == s[1..|p|];
    }
  }

  // The same pattern where the backslash is an ordinary character.

  lemma {:induction false} PercentSkips(rest: string, s: string) returns (k: nat)
    requires Like("%" + rest, s, false)
    ensures k <= |s| && Like(rest, s[k..], false)
  {
    assert ("%" + rest)[1..] == rest;
    if Like(rest, s, false) {
      k := 0;
      assert s[0..] == s;
    } else {
      var j := PercentSkips(rest, s[1..]);
      k := j + 1;
      assert s[1..][j..] == s[k..];
    }
  }

  lemma {:induction false} MatchIsNoShorter(p: string, s: string)
    requires Like(Escaped(p) + "%", s, false)
    ensures |p| <= |s|
  {
    if p != "" {
      var pattern, tail := Escaped(p) + "%", Escaped(p[1..]) + "%";
      if !Special(p[0]) {
        assert pattern[1..] == tail;
        MatchIsNoShorter(p[1..], s[1..]);
      } else {
        assert pattern[1..] == [p[0]] + tail;
        var t := s[1..];
        if p[0] == '%' {
          var k := PercentSkips(tail, t);
          MatchIsNoShorter(p[1..], t[k..]);
        } else {
          assert pattern[1..][1..] == tail;
          MatchIsNoShorter(p[1..], t[1..]);
        }
      }
    }
  }

  lemma {:induction false} SpecialMissesItself(p: string)
    requires exists c :: c in p && Special(c)
    ensures !Like(Escaped(p) + "%", p, false)
  {
    var pattern, tail := Escaped(p) + "%", Escaped(p[1..]) + "%";
    if !Special(p[0]) {
      assert pattern[1..] == tail;
      assert p == [p[0]] + p[1..];
      SpecialMissesItself(p[1..]);
    } else if p[0] == '\\' && |p| > 1 && Like(tail, p[2..], false) {
      MatchIsNoShorter(p[1..], p[2..]);
    } else {
      assert pattern[1..] == [p[0]] + tail;
      assert pattern[1..][1..] == tail;
      if |p| > 1 { assert p[1..][1..] == p[2..]; }
    }
  }

  lemma {:induction false} PlainMatchesExtensions(p: string, s: string)
    requires forall c :: c in p ==> !Special(c)
    ensures Like(Escaped(p) + "%", s, false) <==> p <= s
  {
    var pattern := Escaped(p) + "%";
    if p == "" {
      assert pattern == "%";
      PercentMatchesAll(s, false);
    } else {
      assert pattern[1..] == Escaped(p[1..]) + "%";
      assert forall c :: c in p[1..] ==> c in p;
      if s != "" {
        PlainMatchesExtensions(p[1..], s[1..]);
        PrefixStep(p, s);
      }
    }
  }

  ghost predicate MatchesItsExtensions(p: string, escape: bool) {
    forall s: string :: Like(Escaped(p) + "%", s, escape) <==> p <= s
  }

  /**
   Without an escape character the pattern is right exactly for the prefixes that hold
   none of the three special characters; any other misses the prefix itself.
   */
  lemma UnescapedExactly(p: string)
    ensures MatchesItsExtensions(p, false) <==> forall c :: c in p ==> !Special(c)
  {
    if c :| c in p && Special(c) {
      SpecialMissesItself(p);
      assert p <= p;
    } else {
      forall s: string ensures Like(Escaped(p) + "%", s, false) <==> p <= s {
        PlainMatchesExtensions(p, s);
      }
    }
  }
}

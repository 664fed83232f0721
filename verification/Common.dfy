// Small vocabulary shared by every module: optional values, fallible results,
// and the dotted names under which both caches file their entries.
module Common {

  datatype Option<+T> = None | Some(value: T)

  datatype Result<+T, +E> = Ok(value: T) | Err(error: E)

  // The "%s.%s" of a schema and a table name: a cache key, or the name a table has in SQL text.
  function Dotted(schema: string, table: string): string {
    schema + "." + table
  }

  // Neither schema name is the other one extended by a dot.
  predicate Apart(s: string, s': string) {
    s == s' || !(s + "." <= s' || s' + "." <= s)
  }

  lemma ShorterIsExtended(s: string, t: string, s': string, t': string)
    requires Dotted(s, t) == Dotted(s', t') && |s| <= |s'|
    ensures (s == s' && t == t') || s + "." <= s'
  {
    var d := Dotted(s, t);
    assert s == d[..|s|] && s' == d[..|s'|] && d[|s|] == '.';
    assert t == d[|s| + 1..] && t' == d[|s'| + 1..];
    if |s| < |s'| {
      assert s'[..|s| + 1] == d[..|s| + 1] == s + ".";
    }
  }

  // Dotted names of schemas that are apart identify their parts.
  lemma DottedInjective(s: string, t: string, s': string, t': string)
    requires Apart(s, s')
    ensures Dotted(s, t) == Dotted(s', t') <==> s == s' && t == t'
  {
    if Dotted(s, t) == Dotted(s', t') {
      if |s| <= |s'| { ShorterIsExtended(s, t, s', t'); } else { ShorterIsExtended(s', t', s, t); }
    }
  }

  lemma ExtendedClashes(s: string, s': string) returns (t: string)
    requires s + "." <= s'
    ensures Dotted(s, t) == Dotted(s', "")
  {
    t := s'[|s| + 1..] + ".";
    assert s' == s + "." + s'[|s| + 1..];
  }

  // Two schemas have tables that share a dotted name if and only if one of them is the other one extended by a dot.
  lemma DottedClashIff(s: string, s': string)
    requires s != s'
    ensures (exists t, t' :: Dotted(s, t) == Dotted(s', t')) <==> s + "." <= s' || s' + "." <= s
  {
    if t, t' :| Dotted(s, t) == Dotted(s', t') {
      if |s| <= |s'| { ShorterIsExtended(s, t, s', t'); } else { ShorterIsExtended(s', t', s, t); }
    }
    if s + "." <= s' {
      var t := ExtendedClashes(s, s');
    } else if s' + "." <= s {
      var t := ExtendedClashes(s', s);
      assert Dotted(s, "") == Dotted(s', t);
    }
  }

  // No schema is another one extended by a dot: one schema alone, say, or names without dots.
  ghost predicate NoneExtends(schemas: set<string>) {
    forall s, s' {:trigger Apart(s, s')} :: s in schemas && s' in schemas ==> Apart(s, s')
  }

  // A cache keyed by dotted name holds, for every table of such schemas, what `truth` says.
  ghost predicate CacheAgrees<V(!new)>(cache: map<string, V>, truth: (string, string) -> V, schemas: set<string>) {
    NoneExtends(schemas) && forall s, t :: s in schemas && Dotted(s, t) in cache ==> cache[Dotted(s, t)] == truth(s, t)
  }

  // Filing the true value under its own dotted name keeps the cache right for every table.
  lemma CacheAgreesInsert<V(!new)>(cache: map<string, V>, truth: (string, string) -> V, schemas: set<string>,
                                   schema: string, table: string)
    requires CacheAgrees(cache, truth, schemas) && schema in schemas
    ensures CacheAgrees(cache[Dotted(schema, table) := truth(schema, table)], truth, schemas)
  {
    var cache' := cache[Dotted(schema, table) := truth(schema, table)];
    forall s, t | s in schemas && Dotted(s, t) in cache'
      ensures cache'[Dotted(s, t)] == truth(s, t)
    {
      DottedInjective(s, t, schema, table);
    }
  }
}

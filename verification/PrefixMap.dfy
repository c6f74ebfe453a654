/** URI prefixes registered by backends, and the ordered scan that looks them up. */
module PrefixMap {
  import opened Entities
  import opened Text

  type Prefixes = map<string, set<string>>

  /** "name:port:sequence". */
  function ServiceId(service: BackendService): string {
    Rendered(service.backend.name, service.backend.port) + ":" + Decimal(service.sequence)
  }

  /** No prefix is kept without a service that defines it. */
  ghost predicate Held(prefixes: Prefixes) {
    forall p :: p in prefixes ==> prefixes[p] != {}
  }

  function Added(prefixes: Prefixes, prefix: string, id: string): Prefixes {
    prefixes[prefix := (if prefix in prefixes then prefixes[prefix] else {}) + {id}]
  }

  /** The prefix loses the given ids, and goes when that leaves none. */
  function Without(prefixes: Prefixes, prefix: string, ids: set<string>): Prefixes {
    if prefix !in prefixes then prefixes
    else
      var rest := prefixes[prefix] - ids;
      if rest == {} then prefixes - {prefix} else prefixes[prefix := rest]
  }

  lemma WithoutTwice(prefixes: Prefixes, prefix: string, a: set<string>, b: set<string>)
    requires Held(prefixes)
    ensures Without(Without(prefixes, prefix, a), prefix, b) == Without(prefixes, prefix, a + b)
    ensures Held(Without(prefixes, prefix, a))
  {
    if prefix in prefixes {
      assert prefixes[prefix] - a - b == prefixes[prefix] - (a + b);
    }
  }

  lemma WithoutNone(prefixes: Prefixes, prefix: string)
    requires Held(prefixes)
    ensures Without(prefixes, prefix, {}) == prefixes
  {
    if prefix in prefixes {
      assert prefixes[prefix] - {} == prefixes[prefix];
    }
  }

  // ----- Translation: the shortest registered prefix -----

  function ShortestFrom(keys: set<string>, uri: string, n: nat): string
    requires n <= |uri|
    decreases |uri| - n
  {
    if uri[..n] in keys then uri[..n]
    else if n == |uri| then uri
    else ShortestFrom(keys, uri, n + 1)
  }

  /** The shortest registered prefix of the URI, or the URI itself. */
  function Translated(keys: set<string>, uri: string): string {
    ShortestFrom(keys, uri, 0)
  }

  predicate Matches(keys: set<string>, uri: string) {
    exists p :: p in keys && p <= uri
  }

  lemma {:induction false} ShortestFromSpec(keys: set<string>, uri: string, n: nat, p: string)
    requires n <= |uri|
    requires p in keys && p <= uri && |p| >= n
    requires forall q :: q in keys && q <= uri && |q| >= n ==> |p| <= |q|
    ensures ShortestFrom(keys, uri, n) == p
    decreases |uri| - n
  {
    assert uri[..|p|] == p;
    if uri[..n] in keys {
      assert uri[..n] <= uri;
    } else {
      ShortestFromSpec(keys, uri, n + 1, p);
    }
  }

  lemma {:induction false} ShortestFromHit(keys: set<string>, uri: string, n: nat)
    requires n <= |uri|
    ensures var t := ShortestFrom(keys, uri, n);
            if t in keys then t <= uri && |t| >= n && forall q :: q in keys && q <= uri && |q| >= n ==> |t| <= |q|
            else t == uri && forall q :: q in keys && q <= uri ==> |q| < n
    decreases |uri| - n
  {
    forall q | q in keys && q <= uri && |q| == n ensures uri[..n] == q {
    }
    if uri[..n] !in keys && n < |uri| {
      ShortestFromHit(keys, uri, n + 1);
    }
  }

  /** Translation returns the shortest registered prefix exactly when there is one. */
  lemma TranslatedSpec(keys: set<string>, uri: string)
    ensures var t := Translated(keys, uri);
            && (t in keys <==> Matches(keys, uri))
            && (t in keys ==> t <= uri && forall q :: q in keys && q <= uri ==> |t| <= |q|)
            && (t !in keys ==> t == uri)
  {
    ShortestFromHit(keys, uri, 0);
  }

  /** Translating a translation changes nothing, for every map and every URI. */
  lemma TranslationIdempotent(keys: set<string>, uri: string)
    ensures Translated(keys, Translated(keys, uri)) == Translated(keys, uri)
  {
    TranslatedSpec(keys, uri);
    var t := Translated(keys, uri);
    TranslatedSpec(keys, t);
    var u := Translated(keys, t);
    if t in keys {
      assert u in keys by { assert t <= t; }
      assert u <= t <= uri;
      assert u == t[..|u|];
    }
  }

  class URIPrefixMap {
    var prefixMap: Prefixes

    ghost predicate Valid()
      reads this
    {
      Held(prefixMap)
    }

    constructor ()
      ensures Valid() && prefixMap == map[]
    {
      prefixMap := map[];
    }

    method AddPrefix(prefix: string, service: BackendService)
      requires Valid()
      modifies this
      ensures Valid()
      ensures prefixMap == Added(old(prefixMap), prefix, ServiceId(service))
    {
      var id := ServiceId(service);
      var ids := if prefix in prefixMap then prefixMap[prefix] else {};
      prefixMap := prefixMap[prefix := ids + {id}];
      assert id in prefixMap[prefix];
    }

    method RemoveBackend(prefix: string, service: BackendService)
      requires Valid()
      modifies this
      ensures Valid()
      ensures prefixMap == Without(old(prefixMap), prefix, {ServiceId(service)})
    {
      var id := ServiceId(service);
      if prefix in prefixMap {
        var ids := prefixMap[prefix];
        if id in ids {
          ids := ids - {id};
          prefixMap := prefixMap[prefix := ids];
          if ids == {} {
            prefixMap := prefixMap - {prefix};
          }
        } else {
          assert ids - {id} == ids;
        }
      }
    }

    /** Visits the keys in std::map order and stops at the first that starts the URI. */
    method Translate(uri: string) returns (r: string)
      ensures r == Translated(prefixMap.Keys, uri)
    {
      var todo := prefixMap.Keys;
      while todo != {}
        invariant todo <= prefixMap.Keys
        invariant forall p :: p in prefixMap.Keys && p <= uri ==> p in todo
        decreases todo
      {
        ghost var least := LeastExists(todo);
        var curr :| curr in todo && forall k :: k in todo ==> LexLeq(curr, k);
        if curr <= uri {
          forall q | q in prefixMap.Keys && q <= uri ensures |curr| <= |q| {
            assert q in todo;
            ShorterPrefixFirst(curr, q, uri);
          }
          ShortestFromSpec(prefixMap.Keys, uri, 0, curr);
          return curr;
        }
        todo := todo - {curr};
      }
      TranslatedSpec(prefixMap.Keys, uri);
      r := uri;
    }
  }

  /** Of two prefixes of one string the lexicographically smaller is the shorter. */
  lemma ShorterPrefixFirst(a: string, b: string, uri: string)
    requires a <= uri && b <= uri && LexLeq(a, b)
    ensures |a| <= |b|
  {
    if |b| < |a| {
      assert b <= a;
      PrefixIsLexLeq(b, a);
      LexTotal(a, b);
    }
  }
}

/** What wrapped sequence numbers do to the prefix map, whose ids hold them. */
module WrappedPrefixes {
  import opened Entities
  import opened Text
  import opened RoutingTable
  import opened PrefixMap
  import opened Services
  import opened Protocol
  import opened Heartbeat
  import opened Wraparound

  /** The id with the number at its end wrapped. */
  ghost function WrapId(id: string): string {
    if exists name, n :: id == Rendered(name, n) then
      var name, n :| id == Rendered(name, n);
      Rendered(name, n % SEQUENCE_RANGE)
    else id
  }

  ghost function WrapIds(ids: set<string>): set<string> {
    set id | id in ids :: WrapId(id)
  }

  ghost function WrapPrefixes(prefixes: Prefixes): Prefixes {
    map p | p in prefixes :: WrapIds(prefixes[p])
  }

  lemma WrapRendered(name: string, n: int)
    ensures WrapId(Rendered(name, n)) == Rendered(name, n % SEQUENCE_RANGE)
  {
    forall other, m | Rendered(name, n) == Rendered(other, m) ensures other == name && m == n {
      RenderedInjective(name, n, other, m);
    }
  }

  lemma WrapServiceId(s: BackendService)
    ensures WrapId(ServiceId(s)) == ServiceId(WrapService(s))
  {
    WrapRendered(Rendered(s.backend.name, s.backend.port), s.sequence);
  }

  lemma SameId(s: BackendService, t: BackendService)
    ensures ServiceId(s) == ServiceId(t) <==> s.Key() == t.Key() && s.sequence == t.sequence
  {
    RenderedInjective(s.backend.name, s.backend.port, t.backend.name, t.backend.port);
    RenderedInjective(Rendered(s.backend.name, s.backend.port), s.sequence,
                      Rendered(t.backend.name, t.backend.port), t.sequence);
  }

  /** Two ids become one when the backend is the same and whole turns lie between them. */
  lemma SameWrappedId(s: BackendService, t: BackendService)
    ensures WrapId(ServiceId(s)) == WrapId(ServiceId(t)) <==>
            s.Key() == t.Key() && s.sequence % SEQUENCE_RANGE == t.sequence % SEQUENCE_RANGE
  {
    WrapServiceId(s);
    WrapServiceId(t);
    SameId(WrapService(s), WrapService(t));
  }

  lemma {:induction false} IdsWrapped(services: seq<BackendService>)
    ensures Ids(WrapList(services)) == WrapIds(Ids(services))
  {
    if services != [] {
      var n := |services| - 1;
      IdsWrapped(services[..n]);
      assert WrapList(services)[..n] == WrapList(services[..n]);
      WrapServiceId(services[n]);
      WrapOneMore(Ids(services[..n]), ServiceId(services[n]));
    }
  }

  lemma ListedWrapped(table: Table)
    ensures ListedIds(WrapTable(table)) == WrapIds(ListedIds(table))
  {
    forall u | u in table ensures Ids(WrapTable(table)[u].services) == WrapIds(Ids(table[u].services)) {
      IdsWrapped(table[u].services);
    }
    forall w | w in WrapIds(ListedIds(table)) ensures w in ListedIds(WrapTable(table)) {
      var id :| id in ListedIds(table) && WrapId(id) == w;
      var u :| u in table && id in Ids(table[u].services);
      assert w in Ids(WrapTable(table)[u].services);
    }
  }

  // ----- One step -----

  ghost predicate Genuine(id: string) {
    exists s: BackendService :: id == ServiceId(s)
  }

  ghost predicate AllGenuine(prefixes: Prefixes) {
    forall p, id :: p in prefixes && id in prefixes[p] ==> Genuine(id)
  }

  lemma {:induction false} ListedGenuine(services: seq<BackendService>)
    ensures forall id :: id in Ids(services) ==> Genuine(id)
  {
    if services != [] {
      ListedGenuine(services[..|services| - 1]);
    }
  }

  /** Some id is kept though no such service is listed, and a whole number of turns away from
      its cycle the same backend is listed. */
  ghost predicate Confused(kept: set<string>, listed: set<string>) {
    exists s: BackendService, t: BackendService ::
      && ServiceId(s) in kept && ServiceId(s) !in listed && ServiceId(t) in listed
      && s.Key() == t.Key() && s.sequence % SEQUENCE_RANGE == t.sequence % SEQUENCE_RANGE
  }

  lemma ConfusedIds(kept: set<string>, listed: set<string>)
    requires forall id :: id in kept + listed ==> Genuine(id)
    ensures Confused(kept, listed) <==> WrapIds(kept - listed) * WrapIds(listed) != {}
  {
    if Confused(kept, listed) {
      var s, t :| ServiceId(s) in kept && ServiceId(s) !in listed && ServiceId(t) in listed
        && s.Key() == t.Key() && s.sequence % SEQUENCE_RANGE == t.sequence % SEQUENCE_RANGE;
      SameWrappedId(s, t);
      assert ServiceId(s) in kept - listed;
      assert WrapId(ServiceId(s)) in WrapIds(kept - listed) * WrapIds(listed);
    }
    if w :| w in WrapIds(kept - listed) * WrapIds(listed) {
      var a :| a in kept - listed && WrapId(a) == w;
      var b :| b in listed && WrapId(b) == w;
      assert a in kept + listed && b in kept + listed;
      var s: BackendService :| a == ServiceId(s);
      var t: BackendService :| b == ServiceId(t);
      SameWrappedId(s, t);
    }
  }

  lemma WrapDifference(a: set<string>, b: set<string>)
    ensures WrapIds(a) - WrapIds(b) == WrapIds(a - b) - WrapIds(b)
  {
    forall w | w in WrapIds(a) - WrapIds(b) ensures w in WrapIds(a - b) {
      var id :| id in a && WrapId(id) == w;
      assert id in a - b;
    }
    forall w | w in WrapIds(a - b) ensures w in WrapIds(a) {
      var id :| id in a - b && WrapId(id) == w;
      assert id in a;
    }
  }

  lemma Untouched(rest: set<string>, others: set<string>)
    ensures rest - others == rest <==> rest * others == {}
  {
    if rest - others == rest {
      forall x | x in rest ensures x !in others { assert x in rest - others; }
    } else if rest * others == {} {
      forall x | x in rest ensures x in rest - others {
        assert x !in rest * others;
      }
    }
  }

  /** The ids a prefix map holds for one prefix. */
  function At(prefixes: Prefixes, prefix: string): set<string> {
    if prefix in prefixes then prefixes[prefix] else {}
  }

  lemma SameMap(a: Prefixes, b: Prefixes, prefix: string)
    requires Held(a) && Held(b) && a - {prefix} == b - {prefix}
    ensures a == b <==> At(a, prefix) == At(b, prefix)
  {
    if At(a, prefix) == At(b, prefix) {
      assert forall p :: p != prefix ==> (p in a <==> p in a - {prefix}) && (p in b <==> p in b - {prefix});
      assert forall p :: p != prefix && p in a ==> a[p] == (a - {prefix})[p] == (b - {prefix})[p] == b[p];
    }
  }

  lemma WithoutAt(prefixes: Prefixes, uri: string, ids: set<string>)
    requires Held(prefixes)
    ensures At(Without(prefixes, uri, ids), uri) == At(prefixes, uri) - ids
    ensures Without(prefixes, uri, ids) - {uri} == prefixes - {uri}
    ensures Held(Without(prefixes, uri, ids))
  {
  }

  lemma WrapAt(prefixes: Prefixes, uri: string)
    requires Held(prefixes)
    ensures At(WrapPrefixes(prefixes), uri) == WrapIds(At(prefixes, uri))
    ensures WrapPrefixes(prefixes - {uri}) == WrapPrefixes(prefixes) - {uri}
    ensures Held(WrapPrefixes(prefixes))
  {
    forall p | p in prefixes ensures WrapIds(prefixes[p]) != {} {
      NoIds(prefixes[p]);
    }
  }

  /** Forgetting ids and wrapping them commute exactly when no two ids are confused. */
  lemma WithoutWrapped(prefixes: Prefixes, uri: string, listed: set<string>)
    requires Held(prefixes) && AllGenuine(prefixes) && forall id :: id in listed ==> Genuine(id)
    ensures Without(WrapPrefixes(prefixes), uri, WrapIds(listed)) == WrapPrefixes(Without(prefixes, uri, listed)) <==>
            !Confused(At(prefixes, uri), listed)
  {
    var kept, rest := At(prefixes, uri), Without(prefixes, uri, listed);
    WithoutAt(prefixes, uri, listed);
    WrapAt(prefixes, uri);
    WrapAt(rest, uri);
    WithoutAt(WrapPrefixes(prefixes), uri, WrapIds(listed));
    ConfusedIds(kept, listed);
    WrapDifference(kept, listed);
    Untouched(WrapIds(kept - listed), WrapIds(listed));
    SameMap(Without(WrapPrefixes(prefixes), uri, WrapIds(listed)), WrapPrefixes(rest), uri);
  }

  /** A listed service of the same backend, a whole number of turns away. */
  ghost predicate HasTwin(s: BackendService, listed: set<string>) {
    exists t: BackendService ::
      ServiceId(t) in listed && t.Key() == s.Key() && t.sequence % SEQUENCE_RANGE == s.sequence % SEQUENCE_RANGE
  }

  lemma TwinExactly(s: BackendService, listed: set<string>)
    requires forall id :: id in listed ==> Genuine(id)
    ensures HasTwin(s, listed) <==> WrapId(ServiceId(s)) in WrapIds(listed)
  {
    if HasTwin(s, listed) {
      var t: BackendService :| ServiceId(t) in listed && t.Key() == s.Key() &&
        t.sequence % SEQUENCE_RANGE == s.sequence % SEQUENCE_RANGE;
      SameWrappedId(s, t);
    }
    if WrapId(ServiceId(s)) in WrapIds(listed) {
      var id :| id in listed && WrapId(id) == WrapId(ServiceId(s));
      assert Genuine(id);
      var t: BackendService :| id == ServiceId(t);
      SameWrappedId(s, t);
    }
  }

  lemma AllTwins(kept: set<string>, listed: set<string>)
    requires forall id :: id in kept + listed ==> Genuine(id)
    ensures WrapIds(kept) <= WrapIds(listed) <==>
            forall s: BackendService :: ServiceId(s) in kept ==> HasTwin(s, listed)
  {
    assert forall id :: id in listed ==> id in kept + listed;
    if WrapIds(kept) <= WrapIds(listed) {
      forall s: BackendService | ServiceId(s) in kept ensures HasTwin(s, listed) {
        TwinExactly(s, listed);
        assert WrapId(ServiceId(s)) in WrapIds(kept);
      }
    }
    if forall s: BackendService :: ServiceId(s) in kept ==> HasTwin(s, listed) {
      forall w | w in WrapIds(kept) ensures w in WrapIds(listed) {
        var id :| id in kept && WrapId(id) == w;
        assert id in kept + listed;
        var s: BackendService :| id == ServiceId(s);
        TwinExactly(s, listed);
      }
    }
  }

  /** The prefix itself stays in both machines or goes in both, exactly when all its services are
      listed or one of them has no listed twin. */
  lemma PrefixKeptByBoth(prefixes: Prefixes, uri: string, listed: set<string>)
    requires Held(prefixes) && AllGenuine(prefixes) && forall id :: id in listed ==> Genuine(id)
    ensures (uri in Without(WrapPrefixes(prefixes), uri, WrapIds(listed)) <==>
        uri in Without(prefixes, uri, listed)) <==>
            (At(prefixes, uri) <= listed ||
             exists s: BackendService :: ServiceId(s) in At(prefixes, uri) && !HasTwin(s, listed))
  {
    var kept := At(prefixes, uri);
    WrapAt(prefixes, uri);
    NothingLeft(kept, listed);
    NothingLeft(WrapIds(kept), WrapIds(listed));
    AllTwins(kept, listed);
    if kept <= listed {
      assert WrapIds(kept) <= WrapIds(listed);
    }
  }

  lemma NoIds(ids: set<string>)
    ensures WrapIds(ids) == {} <==> ids == {}
  {
    if id :| id in ids {
      assert WrapId(id) in WrapIds(ids);
    }
  }

  lemma WrapOneMore(ids: set<string>, id: string)
    ensures WrapIds(ids + {id}) == WrapIds(ids) + {WrapId(id)}
  {
    forall w | w in WrapIds(ids + {id}) ensures w in WrapIds(ids) + {WrapId(id)} {
      var x :| x in ids + {id} && WrapId(x) == w;
    }
    forall x | x in ids ensures WrapId(x) in WrapIds(ids + {id}) {
      assert x in ids + {id};
    }
    assert id in ids + {id};
  }

  lemma AddedIdWrapped(prefixes: Prefixes, prefix: string, id: string)
    ensures Added(WrapPrefixes(prefixes), prefix, WrapId(id)) == WrapPrefixes(Added(prefixes, prefix, id))
  {
    WrapOneMore(At(prefixes, prefix), id);
    assert WrapIds({}) == {};
    var engine, ideal := Added(WrapPrefixes(prefixes), prefix, WrapId(id)), WrapPrefixes(Added(prefixes, prefix, id));
    assert At(WrapPrefixes(prefixes), prefix) == WrapIds(At(prefixes, prefix));
    assert engine[prefix] == ideal[prefix];
  }

  // ----- Whole runs -----

  /** The engine's prefix map is the ideal one with every id wrapped. */
  ghost predicate PrefixesMatch(engine: Frontend, ideal: Frontend) {
    engine.prefixes == WrapPrefixes(ideal.prefixes)
  }

  ghost predicate Clear(ideal: Frontend, e: Event) {
    e.Evict? ==> !Confused(At(ideal.prefixes, e.uri), ListedIds(ideal.table))
  }

  /** No eviction of the run confuses two ids. */
  ghost predicate Unconfused(trace: seq<Event>, maxSkipped: nat) {
    trace == [] ||
    (Unconfused(trace[..|trace| - 1], maxSkipped) &&
        Clear(Run(trace[..|trace| - 1], maxSkipped, 0), trace[|trace| - 1]))
  }

  lemma UnconfusedSnoc(trace: seq<Event>, e: Event, maxSkipped: nat)
    ensures Unconfused(trace + [e], maxSkipped) <==>
            Unconfused(trace, maxSkipped) && Clear(Run(trace, maxSkipped, 0), e)
  {
    assert (trace + [e])[..|trace|] == trace;
  }

  lemma TableGenuine(table: Table)
    ensures forall id :: id in ListedIds(table) ==> Genuine(id)
  {
    forall id | id in ListedIds(table) ensures Genuine(id) {
      var u :| u in table && id in Ids(table[u].services);
      ListedGenuine(table[u].services);
    }
  }

  lemma StepGenuine(s: Frontend, e: Event, maxSkipped: nat)
    requires AllGenuine(s.prefixes)
    ensures AllGenuine(Step(s, e, maxSkipped, 0).prefixes)
  {
  }

  lemma {:induction false} RunGenuine(trace: seq<Event>, maxSkipped: nat)
    ensures AllGenuine(Run(trace, maxSkipped, 0).prefixes)
  {
    if trace != [] {
      var before := trace[..|trace| - 1];
      RunGenuine(before, maxSkipped);
      StepGenuine(Run(before, maxSkipped, 0), trace[|trace| - 1], maxSkipped);
    }
  }

  lemma PrefixAdded(engine: Frontend, ideal: Frontend, e: Event, maxSkipped: nat)
    requires e.Add? && PrefixesMatch(engine, ideal)
    ensures PrefixesMatch(Step(engine, WrapEvent(e), maxSkipped, SEQUENCE_RANGE), Step(ideal, e, maxSkipped, 0))
  {
    WrapServiceId(e.service);
    AddedIdWrapped(ideal.prefixes, e.uri, ServiceId(e.service));
  }

  lemma PrefixEvicted(engine: Frontend, ideal: Frontend, e: Event, maxSkipped: nat)
    requires e.Evict? && Wraparound.Matches(engine, ideal) && PrefixesMatch(engine, ideal)
    ensures Step(ideal, e, maxSkipped, 0).prefixes == Without(ideal.prefixes, e.uri, ListedIds(ideal.table))
    ensures Step(engine, e, maxSkipped, SEQUENCE_RANGE).prefixes ==
            Without(WrapPrefixes(ideal.prefixes), e.uri, WrapIds(ListedIds(ideal.table)))
  {
    ListedWrapped(ideal.table);
  }

  lemma PrefixStep(engine: Frontend, ideal: Frontend, e: Event, maxSkipped: nat)
    requires Wraparound.Matches(engine, ideal) && PrefixesMatch(engine, ideal)
    requires Held(ideal.prefixes) && AllGenuine(ideal.prefixes)
    ensures PrefixesMatch(Step(engine, WrapEvent(e), maxSkipped, SEQUENCE_RANGE), Step(ideal, e, maxSkipped, 0)) <==>
        Clear(ideal, e)
  {
    if e.Add? {
      PrefixAdded(engine, ideal, e, maxSkipped);
    } else if e.Evict? {
      PrefixEvicted(engine, ideal, e, maxSkipped);
      TableGenuine(ideal.table);
      WithoutWrapped(ideal.prefixes, e.uri, ListedIds(ideal.table));
    }
  }

  /** Where the prefix maps part, exactly: they match as long as no eviction confused two ids,
      and the first that does is the first step after which they do not. */
  lemma {:induction false} PrefixWraparound(trace: seq<Event>, maxSkipped: nat)
    requires Legal(trace, maxSkipped, 0) && Timely(trace, maxSkipped) && maxSkipped + 1 < SEQUENCE_RANGE
    ensures trace == [] || Unconfused(trace[..|trace| - 1], maxSkipped) ==>
      (PrefixesMatch(Run(WrapTrace(trace), maxSkipped, SEQUENCE_RANGE), Run(trace, maxSkipped, 0)) <==>
          Unconfused(trace, maxSkipped))
  {
    if trace == [] {
      assert WrapPrefixes(map[]) == map[];
    } else {
      var n := |trace| - 1;
      var before := trace[..n];
      if Unconfused(before, maxSkipped) {
        PrefixWraparound(before, maxSkipped);
        WraparoundHarmless(before, maxSkipped);
        KnownUris(before, maxSkipped, 0);
        RunGenuine(before, maxSkipped);
        assert WrapTrace(trace)[..n] == WrapTrace(before);
        PrefixStep(Run(WrapTrace(before), maxSkipped, SEQUENCE_RANGE), Run(before, maxSkipped, 0), trace[n],
            maxSkipped);
      }
    }
  }

  ghost predicate AlwaysMatch(trace: seq<Event>, maxSkipped: nat) {
    forall n :: 0 <= n <= |trace| ==>
      PrefixesMatch(Run(WrapTrace(trace[..n]), maxSkipped, SEQUENCE_RANGE), Run(trace[..n], maxSkipped, 0))
  }

  lemma AlwaysMatchNext(trace: seq<Event>, maxSkipped: nat)
    requires trace != []
    ensures AlwaysMatch(trace, maxSkipped) <==>
            AlwaysMatch(trace[..|trace| - 1], maxSkipped) &&
            PrefixesMatch(Run(WrapTrace(trace), maxSkipped, SEQUENCE_RANGE), Run(trace, maxSkipped, 0))
  {
    var before := trace[..|trace| - 1];
    assert trace[..|trace|] == trace;
    assert forall n :: 0 <= n <= |before| ==> before[..n] == trace[..n];
  }

  /** Over whole runs: the prefix maps match after every step if and only if no eviction of the
      run confuses two ids. */
  lemma {:induction false} PrefixesAlwaysMatch(trace: seq<Event>, maxSkipped: nat)
    requires Legal(trace, maxSkipped, 0) && Timely(trace, maxSkipped) && maxSkipped + 1 < SEQUENCE_RANGE
    ensures AlwaysMatch(trace, maxSkipped) <==> Unconfused(trace, maxSkipped)
  {
    PrefixWraparound(trace, maxSkipped);
    if trace == [] {
      assert trace[..0] == [];
    } else {
      PrefixesAlwaysMatch(trace[..|trace| - 1], maxSkipped);
      AlwaysMatchNext(trace, maxSkipped);
    }
  }

  /** So without confusion every lookup is translated alike. */
  lemma SameTranslation(trace: seq<Event>, maxSkipped: nat, resource: string)
    requires Legal(trace, maxSkipped, 0) && Timely(trace, maxSkipped) && maxSkipped + 1 < SEQUENCE_RANGE
    requires Unconfused(trace, maxSkipped)
    ensures Translated(Run(WrapTrace(trace), maxSkipped, SEQUENCE_RANGE).prefixes.Keys, resource) ==
            Translated(Run(trace, maxSkipped, 0).prefixes.Keys, resource)
  {
    PrefixWraparound(trace, maxSkipped);
    var ideal := Run(trace, maxSkipped, 0);
    assert WrapPrefixes(ideal.prefixes).Keys == ideal.prefixes.Keys;
  }
}

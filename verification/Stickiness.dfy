/** Where a client ends up, end to end. */
module Stickiness {
  import opened Entities
  import opened RoutingTable
  import opened PrefixMap
  import opened Services
  import opened Protocol
  import opened Wraparound
  import opened LockstepRuns
  import Forwarders
  import Rendezvous
  import Cookies

  /** A run of the engine in which replies arrive in per-backend order and are not a whole turn late. */
  ghost predicate Orderly(trace: seq<Event>, maxSkipped: nat) {
    && Legal(trace, maxSkipped, 0) && Timely(trace, maxSkipped) && maxSkipped + 1 < SEQUENCE_RANGE
    && InOrder(trace) && Plain(trace, maxSkipped)
  }

  ghost function EngineState(trace: seq<Event>, maxSkipped: nat): Frontend {
    Run(WrapTrace(trace), maxSkipped, SEQUENCE_RANGE)
  }

  /** The backends listed for a resource. */
  ghost function Listed(s: Frontend, resource: string): seq<BackendKey> {
    ServiceKeys(RowAt(s.table, Translated(s.prefixes.Keys, resource)).services)
  }

  /** The lookup finds a service, at the index the forwarder picks by this scoring. */
  ghost predicate Reaches(s: Frontend, resource: string, found: Found, connections: Connections,
                          coefficient: real, score: Rendezvous.Scoring) {
    && found.Service?
    && Answers(found, s.table, s.prefixes, resource)
    && var infos := RowAt(s.table, Translated(s.prefixes.Keys, resource)).infos;
       Rendezvous.Chosen(InfoKeys(infos), connections, coefficient, score, found.index)
  }

  /** In an orderly run the service found is the one the forwarder meant. */
  lemma FoundAsMeant(trace: seq<Event>, maxSkipped: nat, resource: string, found: Found, connections: Connections,
                     coefficient: real, score: Rendezvous.Scoring)
    requires Orderly(trace, maxSkipped)
    requires Reaches(EngineState(trace, maxSkipped), resource, found, connections, coefficient, score)
    ensures var listed := Listed(EngineState(trace, maxSkipped), resource);
            && Rendezvous.Chosen(listed, connections, coefficient, score, found.index)
            && listed[found.index] == found.service.Key()
  {
    LockstepOverRuns(trace, maxSkipped);
    var s := EngineState(trace, maxSkipped);
    assert Lockstep(RowAt(s.table, Translated(s.prefixes.Keys, resource)));
  }

  /** What changes and what does not, exactly: between any two states of orderly runs, whatever
      happened to the lists and to the connection counts, a client keeps its backend if and only
      if that is still listed and no hotspot, and no backend newly selectable scores higher. */
  lemma KeepsBackendExactly(
    one: seq<Event>, first: string, found: Found, load: Connections,
    two: seq<Event>, second: string, found2: Found, load2: Connections,
    maxSkipped: nat, coefficient: real, score: Rendezvous.Scoring)
    requires Orderly(one, maxSkipped) && Orderly(two, maxSkipped)
    requires Reaches(EngineState(one, maxSkipped), first, found, load, coefficient, score)
    requires Reaches(EngineState(two, maxSkipped), second, found2, load2, coefficient, score)
    requires Rendezvous.DistinctScores(
      Listed(EngineState(one, maxSkipped), first) + Listed(EngineState(two, maxSkipped), second), score)
    ensures var a := Listed(EngineState(one, maxSkipped), first);
            var b := Listed(EngineState(two, maxSkipped), second);
            var k := found.service.Key();
            found2.service.Key() == k <==>
              && Rendezvous.Selectable(b, load2, coefficient, k)
              && forall x ::
                   (Rendezvous.Selectable(b, load2, coefficient, x) &&
                    !Rendezvous.Selectable(a, load, coefficient, x)) ==>
                     score(x) < score(k)
  {
    FoundAsMeant(one, maxSkipped, first, found, load, coefficient, score);
    FoundAsMeant(two, maxSkipped, second, found2, load2, coefficient, score);
    Rendezvous.StaysExactly(
      Listed(EngineState(one, maxSkipped), first), load, found.index,
      Listed(EngineState(two, maxSkipped), second), load2, found2.index, coefficient, score);
  }

  /** In any two states of orderly runs (of one frontend at two times, or of two frontends)
      with the same set of backends listed, in whatever order and however often, and the same
      connection counts, one scoring reaches one backend. */
  lemma SameBackendEverywhere(
    one: seq<Event>, first: string, found: Found, two: seq<Event>, second: string, found2: Found,
    maxSkipped: nat, connections: Connections, coefficient: real, score: Rendezvous.Scoring)
    requires Orderly(one, maxSkipped) && Orderly(two, maxSkipped)
    requires Reaches(EngineState(one, maxSkipped), first, found, connections, coefficient, score)
    requires Reaches(EngineState(two, maxSkipped), second, found2, connections, coefficient, score)
    requires forall k :: k in Listed(EngineState(one, maxSkipped), first) <==>
        k in Listed(EngineState(two, maxSkipped), second)
    requires Rendezvous.DistinctScores(Listed(EngineState(one, maxSkipped), first), score)
    ensures found.service.Key() == found2.service.Key()
  {
    FoundAsMeant(one, maxSkipped, first, found, connections, coefficient, score);
    FoundAsMeant(two, maxSkipped, second, found2, connections, coefficient, score);
    Rendezvous.OnlyTheSetMatters(
      Listed(EngineState(one, maxSkipped), first), found.index,
      Listed(EngineState(two, maxSkipped), second), found2.index, connections, coefficient, score);
  }

  lemma {:induction false} OrderlyPrefix(trace: seq<Event>, maxSkipped: nat, n: nat)
    requires Orderly(trace, maxSkipped) && n <= |trace|
    ensures Orderly(trace[..n], maxSkipped)
    decreases |trace| - n
  {
    if n < |trace| {
      OrderlyPrefix(trace, maxSkipped, n + 1);
      assert trace[..n + 1][..n] == trace[..n];
    } else {
      assert trace[..n] == trace;
    }
  }

  /** What the lookup promises for a request in sticky mode. */
  ghost predicate Routed(s: Frontend, request: Request, found: Found, connections: Connections,
                         coefficient: real, cookieName: string)
  {
    && found.Service?
    && Answers(found, s.table, s.prefixes, request.resource)
    && var infos := RowAt(s.table, Translated(s.prefixes.Keys, request.resource)).infos;
       Forwarders.CanSelect(Sticky, coefficient, cookieName, infos, connections, request, [], found.index)
  }

  /** End-to-end stickiness: at any two points of one orderly run at which the listed backends
      are the same set, through duplicate registrations, late replies and pruning in between,
      two requests with one selection key reach the same backend. */
  lemma EndToEndStickiness(
    trace: seq<Event>, m: nat, first: Request, found: Found, n: nat, second: Request, found2: Found,
    maxSkipped: nat, connections: Connections, coefficient: real, cookieName: string)
    requires Orderly(trace, maxSkipped) && m <= n <= |trace|
    requires Cookies.ExtractKey(cookieName, first) == Cookies.ExtractKey(cookieName, second)
    requires var s, t := EngineState(trace[..m], maxSkipped), EngineState(trace[..n], maxSkipped);
      && Routed(s, first, found, connections, coefficient, cookieName)
      && Routed(t, second, found2, connections, coefficient, cookieName)
      && (forall k :: k in Listed(s, first.resource) <==> k in Listed(t, second.resource))
      && Rendezvous.DistinctScores(Listed(s, first.resource),
          Rendezvous.ScoreFor(Cookies.ExtractKey(cookieName, first)))
    ensures found.service.Key() == found2.service.Key()
  {
    OrderlyPrefix(trace, maxSkipped, m);
    OrderlyPrefix(trace, maxSkipped, n);
    SameBackendEverywhere(trace[..m], first.resource, found, trace[..n], second.resource, found2,
                          maxSkipped, connections, coefficient,
                              Rendezvous.ScoreFor(Cookies.ExtractKey(cookieName, first)));
  }

  /** Why order matters: a late old answer of the client's own backend, then a prune, and with
      the same two backends still listed the client is sent to the other one. */
  lemma LateReplyBreaksStickiness(aNew: BackendService, bNew: BackendService, aOld: BackendService,
                                  infos: seq<BackendInfo>, current: int, score: Rendezvous.Scoring, coefficient: real,
                                  before: Row, i: nat, after: Row, j: nat)
    requires before == Row([aNew, bNew, aOld], infos) && Lockstep(before)
    requires aNew.Key() == aOld.Key() != bNew.Key()
    requires aNew.sequence == bNew.sequence == current != aOld.sequence
    requires after == SweptRow(before, Stale(current))
    requires score(aNew.Key()) > score(bNew.Key())
    requires Rendezvous.Chosen(InfoKeys(before.infos), map[], coefficient, score, i)
    requires Rendezvous.Chosen(InfoKeys(after.infos), map[], coefficient, score, j)
    ensures forall k :: k in ServiceKeys(before.services) <==> k in ServiceKeys(after.services)
    ensures i < |before.services| && before.services[i].Key() == aNew.Key()
    ensures j < |after.services| && after.services[j].Key() == bNew.Key()
  {
    LateReplyBreaksLockstep(aNew, bNew, aOld, infos, current);
    ThreeKeys(aNew, bNew, aOld);
    ChosenBeforeAndAfter(aNew.Key(), bNew.Key(), coefficient, score, i, j);
  }

  lemma ChosenBeforeAndAfter(ka: BackendKey, kb: BackendKey, coefficient: real, score: Rendezvous.Scoring, i: nat,
          j: nat)
    requires score(ka) > score(kb)
    requires Rendezvous.Chosen([ka, kb, ka], map[], coefficient, score, i)
    requires Rendezvous.Chosen([kb, ka], map[], coefficient, score, j)
    ensures i != 1 && j == 1
  {
    FirstOfTheBest([ka, kb, ka], ka, kb, coefficient, score, i);
    FirstOfTheBest([kb, ka], ka, kb, coefficient, score, j);
  }

  lemma ThreeKeys(a: BackendService, b: BackendService, c: BackendService)
    ensures ServiceKeys([a, b, c]) == [a.Key(), b.Key(), c.Key()] && ServiceKeys([a, b]) == [a.Key(), b.Key()]
  {
  }

  /** With no connections anywhere, the better of two backends is chosen. */
  lemma FirstOfTheBest(keys: seq<BackendKey>, best: BackendKey, other: BackendKey, coefficient: real,
          score: Rendezvous.Scoring, i: nat)
    requires best in keys && forall k :: k in keys ==> k == best || k == other
    requires score(best) > score(other)
    requires Rendezvous.Chosen(keys, map[], coefficient, score, i)
    ensures keys[i] == best
  {
    var j :| 0 <= j < |keys| && keys[j] == best;
    NobodyIsAHotspot(keys, coefficient, best);
    assert keys[i] in keys;
  }

  lemma NobodyIsAHotspot(keys: seq<BackendKey>, coefficient: real, key: BackendKey)
    requires keys != []
    ensures Rendezvous.Eligible(keys, map[], coefficient, key)
  {
    Rendezvous.ThresholdMonotone(coefficient, Rendezvous.MinCount(keys, map[]), Rendezvous.MinCount(keys, map[]));
  }
}

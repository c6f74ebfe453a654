/** Situations and runs that occur and in which a documented promise fails. */
module Counterexamples {
  import opened Entities
  import opened Lists
  import opened RoutingTable
  import opened PrefixMap
  import opened Services
  import opened Protocol
  import opened Messages
  import opened Heartbeat
  import opened Wraparound
  import opened WrappedPrefixes
  import opened LockstepRuns
  import opened Stickiness
  import opened Rendezvous
  import opened EngineRuns
  import opened Runs

  // ----- Adding, removing, and busier backends -----

  /** For every client there are three backends it ranks one above the other. */
  lemma Ranked(clientKey: string) returns (a: BackendKey, b: BackendKey, c: BackendKey)
    ensures ScoreFor(clientKey)(a) > ScoreFor(clientKey)(b) > ScoreFor(clientKey)(c)
  {
    var x, y, z := BackendKey("x", 80), BackendKey("y", 80), BackendKey("z", 80);
    assert "" + ['x'] + "" == "x" && "" + ['y'] + "" == "y" && "" + ['z'] + "" == "z";
    NearNamesakesNeverTie("", 'x', 'y', "", 80, clientKey);
    NearNamesakesNeverTie("", 'x', 'z', "", 80, clientKey);
    NearNamesakesNeverTie("", 'y', 'z', "", 80, clientKey);
    a, b, c := Sorted(x, y, z, ScoreFor(clientKey));
  }

  lemma Sorted(x: BackendKey, y: BackendKey, z: BackendKey, score: Scoring)
    returns (a: BackendKey, b: BackendKey, c: BackendKey)
    requires score(x) != score(y) && score(x) != score(z) && score(y) != score(z)
    ensures score(a) > score(b) > score(c)
  {
    a, b := if score(x) > score(y) then x else y, if score(x) > score(y) then y else x;
    if score(z) > score(a) {
      a, b, c := z, a, b;
    } else if score(z) > score(b) {
      b, c := z, b;
    } else {
      c := z;
    }
  }

  lemma Doubled(m: nat)
    ensures Threshold(2.0, m) == 2 * m + 4
  {
    assert Scaled(2.0, m) == (2 * m) as real;
  }

  lemma LeastOf(keys: seq<BackendKey>, load: Connections, i: nat)
    requires i < |keys| && forall j :: 0 <= j < |keys| ==> Count(load, keys[i]) <= Count(load, keys[j])
    ensures MinCount(keys, load) == Count(load, keys[i])
  {
    var m :| 0 <= m < |keys| && MinCount(keys, load) == Count(load, keys[m]);
  }

  /** Of two busy backends the first is still within twice the other's load and four. */
  lemma FirstOfTwo(a: BackendKey, b: BackendKey, m: ConnectionCount, score: Scoring)
    requires score(a) > score(b) && 3 <= m <= 10
    ensures Chosen([a, b], map[a := m, b := 3], 2.0, score, 0)
  {
    var keys, load: Connections := [a, b], map[a := m, b := 3];
    assert keys[0] == a && keys[1] == b;
    LeastOf(keys, load, 1);
    Doubled(3);
  }

  /** Beside an idle one it is not. */
  lemma SecondOfThree(a: BackendKey, b: BackendKey, c: BackendKey, m: ConnectionCount, score: Scoring)
    requires score(a) > score(b) > score(c) && m > 4
    ensures Chosen([a, b, c], map[a := m, b := 3], 2.0, score, 1)
  {
    var keys, load: Connections := [a, b, c], map[a := m, b := 3];
    assert keys[0] == a && keys[1] == b && keys[2] == c;
    LeastOf(keys, load, 2);
    Doubled(0);
  }

  /** A new idle backend, ranked last, sends a client from one old backend to the other. */
  lemma NewcomerMovesOthers(a: BackendKey, b: BackendKey, c: BackendKey, score: Scoring)
    requires score(a) > score(b) > score(c)
    ensures var load: Connections := map[a := 5, b := 3];
            Chosen([a, b], load, 2.0, score, 0) && Chosen([a, b] + [c], load, 2.0, score, 1)
  {
    FirstOfTwo(a, b, 5, score);
    SecondOfThree(a, b, c, 5, score);
    assert [a, b] + [c] == [a, b, c];
  }

  /** Removing an idle backend sends a client away that was not on it. */
  lemma RemovalMovesOthers(a: BackendKey, b: BackendKey, c: BackendKey, score: Scoring)
    requires score(a) > score(b) > score(c)
    ensures var load: Connections := map[a := 10, b := 3];
            Chosen([a, b, c], load, 2.0, score, 1) && Chosen(RemoveAt([a, b, c], 2), load, 2.0, score, 0)
  {
    SecondOfThree(a, b, c, 10, score);
    FirstOfTwo(a, b, 10, score);
    assert RemoveAt([a, b, c], 2) == [a, b];
  }

  /** With the backend set unchanged, five connections too many send a client elsewhere. */
  lemma LoadMovesClient(a: BackendKey, b: BackendKey, score: Scoring)
    requires score(a) > score(b)
    ensures Chosen([a, b], map[], 2.0, score, 0) && Chosen([a, b], map[a := 5], 2.0, score, 1)
  {
    var keys := [a, b];
    var busy: Connections := map[a := 5];
    assert keys[0] == a && keys[1] == b;
    LeastOf(keys, map[], 0);
    LeastOf(keys, busy, 1);
    Doubled(0);
  }

  /** So both promises fail for every client, with the hash as it is. */
  lemma EveryClientCanBeMoved(clientKey: string) returns (a: BackendKey, b: BackendKey, c: BackendKey)
    ensures var score := ScoreFor(clientKey);
      && Chosen([a, b], map[], 2.0, score, 0) && Chosen([a, b], map[a := 5], 2.0, score, 1)
      && Chosen([a, b], map[a := 5, b := 3], 2.0, score, 0) && Chosen([a, b] + [c], map[a := 5, b := 3], 2.0, score, 1)
      && Chosen([a, b, c], map[a := 10, b := 3], 2.0, score, 1)
      && Chosen(RemoveAt([a, b, c], 2), map[a := 10, b := 3], 2.0, score, 0)
  {
    a, b, c := Ranked(clientKey);
    LoadMovesClient(a, b, ScoreFor(clientKey));
    NewcomerMovesOthers(a, b, c, ScoreFor(clientKey));
    RemovalMovesOthers(a, b, c, ScoreFor(clientKey));
  }

  // ----- Runs -----

  predicate Single(a: Advert, u: string) {
    Simple(a) && |a.services| == 1 && a.services[0].uri == u
  }

  predicate Prefixed(a: Advert) {
    a.services != [] && a.services[0].isPrefix == Some(true)
  }

  function InfoFor(x: BackendService): BackendInfo {
    InfoOf(x, x.backend.load)
  }

  function Three(x: BackendService, y: BackendService, z: BackendService): Row {
    Row([x, y, z], [InfoFor(x), InfoFor(y), InfoFor(z)])
  }

  lemma ThreeExtended(x: BackendService, y: BackendService, z: BackendService, u: string)
    requires x.uri == u && y.uri == u && z.uri == u
    ensures RowWith(RowWith(RowWith(Row([], []), x, u), y, u), z, u) == Three(x, y, z)
  {
    assert [] + [x] + [y] + [z] == [x, y, z];
    assert [] + [InfoFor(x)] + [InfoFor(y)] + [InfoFor(z)] == [InfoFor(x), InfoFor(y), InfoFor(z)];
  }

  lemma TwoRequests(maxSkipped: nat) returns (s: Frontend)
    ensures Built([Discover, Deadline, Discover], s, [], maxSkipped) && Runs.Idle(s)
    ensures s.table == map[] && s.prefixes == map[] && s.sequence == 2
  {
    Begin(maxSkipped);
    s := BuildStep([], START, Discover, [], maxSkipped);
    s := BuildStep([] + [Discover], s, Deadline, [], maxSkipped);
    s := BuildStep([] + [Discover] + [Deadline], s, Discover, [], maxSkipped);
    assert [] + [Discover] + [Deadline] + [Discover] == [Discover, Deadline, Discover];
  }

  // ----- A late reply -----

  /** A and B answer the second request; then A's answer to the first arrives. */
  function LateExchanges(a: Advert, b: Advert): seq<Exchange> {
    [AnswerIn(a, 2), AnswerIn(b, 2), AnswerIn(a, 1)]
  }

  function LateRun(a: Advert, b: Advert): seq<Event>
    requires Simple(a) && Simple(b)
  {
    [Discover, Deadline, Discover] +
    CycleSteps(AnswerIn(a, 2)) + CycleSteps(AnswerIn(b, 2)) + CycleSteps(AnswerIn(a, 1))
  }

  lemma OnTimeBuilt(a: Advert, b: Advert, u: string, maxSkipped: nat) returns (s: Frontend)
    requires Single(a, u) && Single(b, u) && !Prefixed(a) && !Prefixed(b)
    ensures var trace := [Discover, Deadline, Discover] + CycleSteps(AnswerIn(a, 2)) + CycleSteps(AnswerIn(b, 2));
            Built(trace, s, [AnswerIn(a, 2), AnswerIn(b, 2)], maxSkipped)
    ensures Runs.Idle(s) && s.sequence == 2 && s.prefixes == map[]
    ensures RowAt(s.table, u) == RowWith(RowWith(Row([], []), Offered(a, 2, 0), u), Offered(b, 2, 0), u)
  {
    var trace := [Discover, Deadline, Discover];
    s := TwoRequests(maxSkipped);
    s := BuildReply(trace, s, a, 2, [], maxSkipped);
    assert [] + [AnswerIn(a, 2)] == [AnswerIn(a, 2)];
    s := BuildReply(trace + CycleSteps(AnswerIn(a, 2)), s, b, 2, [AnswerIn(a, 2)], maxSkipped);
    assert [AnswerIn(a, 2)] + [AnswerIn(b, 2)] == [AnswerIn(a, 2), AnswerIn(b, 2)];
  }

  lemma LateRunBuilt(a: Advert, b: Advert, u: string, maxSkipped: nat) returns (s: Frontend)
    requires Single(a, u) && Single(b, u) && !Prefixed(a) && !Prefixed(b)
    ensures Built(LateRun(a, b), s, LateExchanges(a, b), maxSkipped) && Runs.Idle(s)
    ensures s.sequence == 2 && s.received > 0 && s.prefixes == map[] && u in s.table
    ensures s.table[u] == Three(Offered(a, 2, 0), Offered(b, 2, 0), Offered(a, 1, 0))
  {
    s := OnTimeBuilt(a, b, u, maxSkipped);
    s := BuildReply([Discover, Deadline, Discover] + CycleSteps(AnswerIn(a, 2)) + CycleSteps(AnswerIn(b, 2)), s, a, 1,
                    [AnswerIn(a, 2), AnswerIn(b, 2)], maxSkipped);
    assert [AnswerIn(a, 2), AnswerIn(b, 2)] + [AnswerIn(a, 1)] == LateExchanges(a, b);
    ThreeExtended(Offered(a, 2, 0), Offered(b, 2, 0), Offered(a, 1, 0), u);
    assert RowAt(s.table, u) == Three(Offered(a, 2, 0), Offered(b, 2, 0), Offered(a, 1, 0));
  }

  lemma TwoChoices(ka: BackendKey, kb: BackendKey, coefficient: real, score: Scoring)
    requires score(ka) > score(kb)
    ensures Chosen([ka, kb, ka], map[], coefficient, score, 0) && Chosen([kb, ka], map[], coefficient, score, 1)
  {
    var old3, new2 := [ka, kb, ka], [kb, ka];
    LeastOf(old3, map[], 0);
    LeastOf(new2, map[], 0);
    ThresholdMonotone(coefficient, 0, 0);
    assert old3[0] == ka && old3[2] == ka && new2[1] == ka;
  }

  /** The two rows of the late reply, before and after the deadline, and who is chosen. */
  lemma RowsOfLateReply(a: BackendService, b: BackendService, late: BackendService, coefficient: real, score: Scoring)
    requires a.sequence == b.sequence == 2 && late.sequence == 1
    requires a.Key() == late.Key() && score(a.Key()) > score(b.Key())
    ensures var row := Three(a, b, late);
            var after := SweptRow(row, Stale(2));
      && after.services == [a, b]
      && Chosen(InfoKeys(row.infos), map[], coefficient, score, 0)
      && Chosen(InfoKeys(after.infos), map[], coefficient, score, 1)
      && ServiceKeys(row.services) == [a.Key(), b.Key(), a.Key()]
      && ServiceKeys(after.services) == [a.Key(), b.Key()]
  {
    var infos := [InfoFor(a), InfoFor(b), InfoFor(late)];
    assert InfoKeys(infos) == [a.Key(), b.Key(), a.Key()];
    ThreeKeys(a, b, late);
    SweepThree(a, b, late, infos, Stale(2));
    TwoChoices(a.Key(), b.Key(), coefficient, score);
  }

  lemma ReachesAt(s: Frontend, u: string, i: nat, coefficient: real, score: Scoring)
    requires s.prefixes == map[] && u in s.table && i < |s.table[u].services|
    requires Chosen(InfoKeys(s.table[u].infos), map[], coefficient, score, i)
    ensures Reaches(s, u, Service(s.table[u].services[i], i), map[], coefficient, score)
    ensures Listed(s, u) == ServiceKeys(s.table[u].services)
  {
    TranslatedSpec({}, u);
    assert s.prefixes.Keys == {};
  }

  /** In the first turn, without prefixes and removals, the engine's lookup is the ideal one. */
  lemma EngineAlike(trace: seq<Event>, s: Frontend, maxSkipped: nat)
    requires Reached(trace, s, maxSkipped) && Peaceful(trace) && maxSkipped + 1 < SEQUENCE_RANGE
    requires s.sequence < SEQUENCE_RANGE && s.prefixes == map[]
    ensures EngineState(trace, maxSkipped).table == s.table && EngineState(trace, maxSkipped).prefixes == map[]
  {
    FirstTurn(trace, s, maxSkipped);
    PeacefulPrefixes(trace, s, maxSkipped);
    assert WrapPrefixes(map[]) == map[];
  }

  lemma LateIsExchanged(a: Advert, b: Advert, u: string, maxSkipped: nat)
    requires Single(a, u) && Single(b, u) && !Prefixed(a) && !Prefixed(b) && maxSkipped + 1 < SEQUENCE_RANGE
    requires !("/" + a.name <= u) && !("/" + b.name <= u)
    ensures Exchanged(WrapTrace(LateRun(a, b) + [Deadline]), maxSkipped, LateExchanges(a, b))
    ensures AllApart(LateExchanges(a, b)) && !InRequestOrder(LateExchanges(a, b))
  {
    var s := LateRunBuilt(a, b, u, maxSkipped);
    s := BuildStep(LateRun(a, b), s, Deadline, LateExchanges(a, b), maxSkipped);
    BuiltIsExchanged(LateRun(a, b) + [Deadline], maxSkipped, LateExchanges(a, b));
    OnlyTheOrderIsWrong(a, b, u);
  }

  lemma OnlyTheOrderIsWrong(a: Advert, b: Advert, u: string)
    requires Single(a, u) && Single(b, u) && !("/" + a.name <= u) && !("/" + b.name <= u)
    ensures AllApart(LateExchanges(a, b)) && !InRequestOrder(LateExchanges(a, b))
  {
    var exchanges := LateExchanges(a, b);
    assert exchanges[0] == AnswerIn(a, 2) && exchanges[2] == AnswerIn(a, 1);
    assert Source(exchanges[0]) == Source(exchanges[2]);
  }

  /** A late reply in a run of the engine made of whole replies, seen by a client: before the
      deadline it reaches A, after it B, though A and B are listed all along and nobody has any
      connections. Only the order of A's two answers is wrong. */
  lemma LateReplyMovesClient(a: Advert, b: Advert, u: string, maxSkipped: nat, coefficient: real, score: Scoring)
    requires Single(a, u) && Single(b, u) && !Prefixed(a) && !Prefixed(b) && maxSkipped + 1 < SEQUENCE_RANGE
    requires !("/" + a.name <= u) && !("/" + b.name <= u)
    requires score(BackendKey(a.name, a.host.port)) > score(BackendKey(b.name, b.host.port))
    ensures var trace, exchanges := LateRun(a, b), LateExchanges(a, b);
            var ka, kb := BackendKey(a.name, a.host.port), BackendKey(b.name, b.host.port);
      && Exchanged(WrapTrace(trace + [Deadline]), maxSkipped, exchanges)
      && AllApart(exchanges) && !InRequestOrder(exchanges)
      && Reaches(EngineState(trace, maxSkipped), u, Service(Offered(a, 2, 0), 0), map[], coefficient, score)
      && Reaches(EngineState(trace + [Deadline], maxSkipped), u, Service(Offered(b, 2, 0), 1), map[], coefficient,
          score)
      && Listed(EngineState(trace, maxSkipped), u) == [ka, kb, ka]
      && Listed(EngineState(trace + [Deadline], maxSkipped), u) == [ka, kb]
  {
    LateIsExchanged(a, b, u, maxSkipped);
    BeforeDeadline(a, b, u, maxSkipped, coefficient, score);
    AfterDeadline(a, b, u, maxSkipped, coefficient, score);
  }

  lemma BeforeDeadline(a: Advert, b: Advert, u: string, maxSkipped: nat, coefficient: real, score: Scoring)
    requires Single(a, u) && Single(b, u) && !Prefixed(a) && !Prefixed(b) && maxSkipped + 1 < SEQUENCE_RANGE
    requires score(BackendKey(a.name, a.host.port)) > score(BackendKey(b.name, b.host.port))
    ensures var s := EngineState(LateRun(a, b), maxSkipped);
            var ka, kb := BackendKey(a.name, a.host.port), BackendKey(b.name, b.host.port);
      && Reaches(s, u, Service(Offered(a, 2, 0), 0), map[], coefficient, score) && Listed(s, u) == [ka, kb, ka]
  {
    var s := LateRunBuilt(a, b, u, maxSkipped);
    RowsOfLateReply(Offered(a, 2, 0), Offered(b, 2, 0), Offered(a, 1, 0), coefficient, score);
    EngineAlike(LateRun(a, b), s, maxSkipped);
    ReachesAt(EngineState(LateRun(a, b), maxSkipped), u, 0, coefficient, score);
  }

  lemma AfterDeadline(a: Advert, b: Advert, u: string, maxSkipped: nat, coefficient: real, score: Scoring)
    requires Single(a, u) && Single(b, u) && !Prefixed(a) && !Prefixed(b) && maxSkipped + 1 < SEQUENCE_RANGE
    requires score(BackendKey(a.name, a.host.port)) > score(BackendKey(b.name, b.host.port))
    ensures var t := EngineState(LateRun(a, b) + [Deadline], maxSkipped);
            var ka, kb := BackendKey(a.name, a.host.port), BackendKey(b.name, b.host.port);
      && Reaches(t, u, Service(Offered(b, 2, 0), 1), map[], coefficient, score) && Listed(t, u) == [ka, kb]
  {
    var s := LateRunBuilt(a, b, u, maxSkipped);
    var t := BuildStep(LateRun(a, b), s, Deadline, LateExchanges(a, b), maxSkipped);
    RowsOfLateReply(Offered(a, 2, 0), Offered(b, 2, 0), Offered(a, 1, 0), coefficient, score);
    EngineAlike(LateRun(a, b) + [Deadline], t, maxSkipped);
    ReachesAt(EngineState(LateRun(a, b) + [Deadline], maxSkipped), u, 1, coefficient, score);
  }

  // ----- A removal by URI -----

  /** A advertises the URI that names it for another of its URIs; it answers in two cycles, B in
      the first. */
  function UriExchanges(a: Advert, b: Advert): seq<Exchange> {
    [AnswerIn(a, 1), AnswerIn(b, 1), AnswerIn(a, 2)]
  }

  function UriRun(a: Advert, b: Advert): seq<Event>
    requires Simple(a) && Simple(b)
  {
    [Discover] + CycleSteps(AnswerIn(a, 1)) + CycleSteps(AnswerIn(b,
        1)) + [Deadline] + [Discover] + CycleSteps(AnswerIn(a, 2))
  }

  /** Two services, the first under the URI that names the host for the second. */
  predicate NamesItself(a: Advert, u: string, uri: string) {
    && Simple(a) && |a.services| == 2 && a.services[0].uri == u && a.services[1].uri == uri
    && u == "/" + a.name + uri && uri != ""
  }

  lemma {:induction false} NothingSwept(services: seq<BackendService>, infos: seq<BackendInfo>, rule: Rule)
    requires forall i :: 0 <= i < |services| ==> !Doomed(rule, services[i])
    ensures Kept(services, rule) == services && Swept(services, infos, rule) == infos
  {
    if services != [] {
      var n := |services| - 1;
      NothingSwept(services[..n], infos, rule);
      assert services == services[..n] + [services[n]];
    }
  }

  function Five(x: BackendService, y: BackendService, b: BackendService, x2: BackendService, y2: BackendService): Row {
    Row([x, y, b, x2, y2], [InfoFor(x), InfoFor(y), InfoFor(b), InfoFor(x2), InfoFor(y2)])
  }

  lemma FiveExtended(x: BackendService, y: BackendService, b: BackendService, x2: BackendService, y2: BackendService,
          u: string)
    requires x.uri == u && Direct(y) == u && b.uri == u && x2.uri == u && Direct(y2) == u
    ensures RowWith(RowWith(RowWith(Row([], []), x, u), y, u), b, u) == Three(x, y, b)
    ensures RowWith(RowWith(Three(x, y, b), x2, u), y2, u) == Five(x, y, b, x2, y2)
  {
    assert [] + [x] + [y] + [b] == [x, y, b];
    assert [] + [InfoFor(x)] + [InfoFor(y)] + [InfoFor(b)] == [InfoFor(x), InfoFor(y), InfoFor(b)];
    assert [x, y, b] + [x2] + [y2] == [x, y, b, x2, y2];
  }

  lemma FirstUriCycle(a: Advert, b: Advert, u: string, uri: string, maxSkipped: nat) returns (s: Frontend)
    requires NamesItself(a, u, uri) && Single(b, u)
    ensures var trace := [Discover] + CycleSteps(AnswerIn(a, 1)) + CycleSteps(AnswerIn(b, 1));
            Built(trace, s, [AnswerIn(a, 1), AnswerIn(b, 1)], maxSkipped)
    ensures Runs.Idle(s) && s.sequence == 1 && s.received > 0 && u in s.table
    ensures RowAt(s.table, u) ==
            RowWith(RowWith(RowWith(Row([], []), Offered(a, 1, 0), u), Offered(a, 1, 1), u), Offered(b, 1, 0), u)
  {
    Begin(maxSkipped);
    s := BuildStep([], START, Discover, [], maxSkipped);
    assert [] + [Discover] == [Discover];
    s := BuildDouble([Discover], s, a, 1, [], maxSkipped);
    s := BuildReply([Discover] + CycleSteps(AnswerIn(a, 1)), s, b, 1, [] + [AnswerIn(a, 1)], maxSkipped);
    assert [] + [AnswerIn(a, 1)] + [AnswerIn(b, 1)] == [AnswerIn(a, 1), AnswerIn(b, 1)];
  }

  lemma UriRunBuilt(a: Advert, b: Advert, u: string, uri: string, maxSkipped: nat) returns (s: Frontend)
    requires NamesItself(a, u, uri) && Single(b, u)
    ensures Built(UriRun(a, b), s, UriExchanges(a, b), maxSkipped) && Runs.Idle(s) && s.sequence == 2 && u in s.table
    ensures s.table[u] ==
            Five(Offered(a, 1, 0), Offered(a, 1, 1), Offered(b, 1, 0), Offered(a, 2, 0), Offered(a, 2, 1))
  {
    var x, y, z := Offered(a, 1, 0), Offered(a, 1, 1), Offered(b, 1, 0);
    FiveExtended(x, y, z, Offered(a, 2, 0), Offered(a, 2, 1), u);
    var trace := [Discover] + CycleSteps(AnswerIn(a, 1)) + CycleSteps(AnswerIn(b, 1));
    var exchanges := [AnswerIn(a, 1), AnswerIn(b, 1)];
    s := FirstUriCycle(a, b, u, uri, maxSkipped);
    NothingSwept([x, y, z], [InfoFor(x), InfoFor(y), InfoFor(z)], Stale(1));
    s := BuildStep(trace, s, Deadline, exchanges, maxSkipped);
    assert RowAt(s.table, u) == Three(x, y, z);
    s := BuildStep(trace + [Deadline], s, Discover, exchanges, maxSkipped);
    s := BuildDouble(trace + [Deadline] + [Discover], s, a, 2, exchanges, maxSkipped);
    assert exchanges + [AnswerIn(a, 2)] == UriExchanges(a, b);
  }

  lemma FiveKeys(x: BackendService, y: BackendService, b: BackendService, x2: BackendService, y2: BackendService)
    ensures var row := Five(x, y, b, x2, y2);
            && ServiceKeys(row.services) == [x.Key(), y.Key(), b.Key(), x2.Key(), y2.Key()]
            && InfoKeys(row.infos) == ServiceKeys(row.services)
  {
  }

  lemma FiveSwept(x: BackendService, y: BackendService, b: BackendService, x2: BackendService, y2: BackendService,
          rule: Rule)
    requires !Doomed(rule, x) && Doomed(rule, y) && !Doomed(rule, b) && !Doomed(rule, x2) && Doomed(rule, y2)
    ensures Kept([x, y, b, x2, y2], rule) == [x, b, x2]
    ensures Gone([x, y, b, x2, y2], rule) == multiset{y.Key(), y2.Key()}
  {
    KeptCons(x, [y, b, x2, y2], rule);
    KeptCons(y, [b, x2, y2], rule);
    KeptCons(b, [x2, y2], rule);
    KeptCons(x2, [y2], rule);
    KeptOne(y2, rule);
    assert [x, y, b, x2, y2] == [x] + ([y] + ([b] + ([x2] + [y2])));
    assert [y, b, x2, y2] == [y] + ([b] + ([x2] + [y2])) && [b, x2, y2] == [b] + ([x2] + [y2]) &&
        [x2, y2] == [x2] + [y2];
    FiveGone(x, y, b, x2, y2, rule);
  }

  lemma PairGone(x: BackendService, y: BackendService, rule: Rule)
    requires !Doomed(rule, x) && Doomed(rule, y)
    ensures Gone([x, y], rule) == multiset{y.Key()}
  {
    assert [x, y][..1] == [x] && [x][..0] == [];
    assert Gone([x], rule) == multiset{} + multiset{};
    assert multiset{} + multiset{y.Key()} == multiset{y.Key()};
  }

  lemma FiveGone(x: BackendService, y: BackendService, b: BackendService, x2: BackendService, y2: BackendService,
          rule: Rule)
    requires !Doomed(rule, x) && Doomed(rule, y) && !Doomed(rule, b) && !Doomed(rule, x2) && Doomed(rule, y2)
    ensures Gone([x, y, b, x2, y2], rule) == multiset{y.Key(), y2.Key()}
  {
    var front, back := [x, y], [b, x2, y2];
    assert [x, y, b, x2, y2] == front + back;
    PairGone(x, y, rule);
    LastPairGone(b, x2, y2, rule);
    GoneConcat(front, back, rule);
    TwoKeys(y.Key(), y2.Key());
  }

  lemma LastPairGone(b: BackendService, x: BackendService, y: BackendService, rule: Rule)
    requires !Doomed(rule, b) && !Doomed(rule, x) && Doomed(rule, y)
    ensures Gone([b, x, y], rule) == multiset{y.Key()}
  {
    assert [b, x, y] == [b] + [x, y];
    PairGone(x, y, rule);
    GoneCons(b, [x, y], rule);
  }

  lemma TwoKeys(a: BackendKey, b: BackendKey)
    ensures multiset{a} + multiset{b} == multiset{a, b}
  {
  }

  lemma DropTwoOfFive(ka: BackendKey, kb: BackendKey)
    requires ka != kb
    ensures DropFirst([ka, ka, kb, ka, ka], multiset{ka, ka}) == [kb, ka, ka]
  {
    var back := [kb, ka, ka];
    assert [ka, ka, kb, ka, ka] == [ka, ka] + back;
    DropAll([ka, ka], back, multiset([ka, ka]));
    assert multiset([ka, ka]) == multiset{ka, ka};
  }

  /** The row A, A, B, A, A; one URI of A is removed and leaves A, B, A beside B, A, A. */
  lemma RowOfRemoval(x: BackendService, y: BackendService, b: BackendService, x2: BackendService, y2: BackendService,
          rule: Rule)
    requires !Doomed(rule, x) && Doomed(rule, y) && !Doomed(rule, b) && !Doomed(rule, x2) && Doomed(rule, y2)
    requires x.Key() == y.Key() == x2.Key() == y2.Key() != b.Key()
    ensures !Lockstep(SweptRow(Five(x, y, b, x2, y2), rule))
  {
    var ka, kb := x.Key(), b.Key();
    FiveKeys(x, y, b, x2, y2);
    FiveSwept(x, y, b, x2, y2, rule);
    DropTwoOfFive(ka, kb);
    SweepLockstepExactly(Five(x, y, b, x2, y2), rule);
    var kept := ServiceKeys([x, b, x2]);
    assert kept[0] == ka;
  }

  lemma OnlyTheUriIsWrong(a: Advert, b: Advert, u: string, uri: string)
    requires NamesItself(a, u, uri)
    ensures InRequestOrder(UriExchanges(a, b)) && !AllApart(UriExchanges(a, b))
  {
    var exchanges := UriExchanges(a, b);
    assert exchanges[0] == AnswerIn(a, 1) && exchanges[0] in exchanges;
    assert a.services[0] in exchanges[0].advert.services;
    assert "/" + a.name <= u;
  }

  lemma EngineEnds(trace: seq<Event>, s: Frontend, e: Event, exchanges: seq<Exchange>, maxSkipped: nat)
    requires Built(trace, s, exchanges, maxSkipped) && s.running && e.Evict?
    requires maxSkipped + 1 < SEQUENCE_RANGE && s.sequence < SEQUENCE_RANGE
    ensures Exchanged(WrapTrace(trace + [e]), maxSkipped, exchanges)
    ensures EngineState(trace + [e], maxSkipped).table == SweptTable(s.table, Evicted(e.host, e.port, e.uri))
  {
    Extend(trace, s, e, maxSkipped);
    AddEventsSnoc(trace, e);
    assert AddEvents(trace) + [] == AddEvents(trace);
    BuiltIsExchanged(trace + [e], maxSkipped, exchanges);
    FirstTurn(trace + [e], Step(s, e, maxSkipped, 0), maxSkipped);
  }

  /** A host advertises a URI that begins with "/" and its own name, so one list holds two service
      URIs of it. Every answer is taken in request order; a removal of the one URI breaks the
      lockstep. Only the adverts are wrong. */
  lemma RemovalByUri(a: Advert, b: Advert, u: string, uri: string, maxSkipped: nat)
    requires NamesItself(a, u, uri) && Single(b, u) && maxSkipped + 1 < SEQUENCE_RANGE
    requires BackendKey(a.name, a.host.port) != BackendKey(b.name, b.host.port)
    ensures var all := UriRun(a, b) + [Evict(a.name, a.host.port, uri)];
            var engine := EngineState(all, maxSkipped);
      && Exchanged(WrapTrace(all), maxSkipped, UriExchanges(a, b))
      && InRequestOrder(UriExchanges(a, b)) && !AllApart(UriExchanges(a, b))
      && u in engine.table && !Lockstep(engine.table[u])
  {
    var e := Evict(a.name, a.host.port, uri);
    var s := UriRunBuilt(a, b, u, uri, maxSkipped);
    EngineEnds(UriRun(a, b), s, e, UriExchanges(a, b), maxSkipped);
    OnlyTheUriIsWrong(a, b, u, uri);
    assert |u| > |uri|;
    RowOfRemoval(Offered(a, 1, 0), Offered(a, 1, 1), Offered(b, 1, 0), Offered(a, 2, 0), Offered(a, 2, 1),
                 Evicted(e.host, e.port, e.uri));
  }

  // ----- Prefixes -----

  function PrefixPair(p: string, d: string, ids: set<string>): Prefixes {
    map[p := ids, d := ids]
  }

  lemma PrefixesFromNothing(x: BackendService)
    requires x.definesPrefix
    ensures PrefixesWith(map[], x) == PrefixPair(x.uri, Direct(x), {ServiceId(x)})
  {
    TwoUris(x);
    assert {} + {ServiceId(x)} == {ServiceId(x)};
  }

  /** Requests below p go to p while p is registered, and on as themselves when only the URI that
      names the host is. */
  lemma TwoTranslations(p: string, d: string, r: string)
    requires p != d && !(d <= p + r) && r != ""
    ensures Translated({p, d}, p + r) == p && Translated({p}, p + r) == p && Translated({d}, p + r) == p + r
  {
    TranslatedSpec({p, d}, p + r);
    TranslatedSpec({p}, p + r);
    TranslatedSpec({d}, p + r);
    assert p <= p + r;
  }

  lemma OneReply(a: Advert, maxSkipped: nat) returns (s: Frontend)
    requires Simple(a) && |a.services| == 1 && Prefixed(a)
    ensures Built([Discover] + CycleSteps(AnswerIn(a, 1)), s, [AnswerIn(a, 1)], maxSkipped) && Runs.Idle(s)
    ensures var x := Offered(a, 1, 0);
      && s.prefixes == PrefixPair(x.uri, Direct(x), {ServiceId(x)})
      && x.uri in s.table && x in s.table[x.uri].services && s.sequence == 1 && s.received == 1 && s.skipped == 0
      && ServicesCarry(s.table, 1)
  {
    var x := Offered(a, 1, 0);
    Begin(maxSkipped);
    s := BuildStep([], START, Discover, [], maxSkipped);
    assert [] + [Discover] == [Discover];
    var t := BuildReply([Discover], s, a, 1, [], maxSkipped);
    PrefixesFromNothing(x);
    assert [] + [AnswerIn(a, 1)] == [AnswerIn(a, 1)];
    assert RowAt(t.table, x.uri).services == [x];
    CarriedOn(s, x, t.(received := s.received, replying := true), 1);
    s := t;
  }

  lemma CarriedOn(s: Frontend, x: BackendService, t: Frontend, n: int)
    requires FiledIn(s, x, t) && ServicesCarry(s.table, n) && x.sequence == n
    ensures ServicesCarry(t.table, n)
    ensures x.uri in t.table && x in t.table[x.uri].services
    ensures forall u, y :: u in s.table && y in s.table[u].services ==> u in t.table && y in t.table[u].services
  {
    forall u, y | u in t.table && y in t.table[u].services ensures y.sequence == n {
      assert y in RowAt(t.table, u).services;
      assert y in RowAt(s.table, u).services || y == x;
    }
    assert x in RowAt(t.table, x.uri).services;
    forall u, y | u in s.table && y in s.table[u].services ensures u in t.table && y in t.table[u].services {
      assert y in RowAt(t.table, u).services;
    }
  }

  /** One answer and one removal of some other backend under the same URI: the answering backend
      stays listed, but requests below its prefix are no longer translated to it. */
  lemma OthersRemovalTakesPrefix(a: Advert, p: string, r: string, host: string, port: int, maxSkipped: nat)
    requires Single(a, p) && Prefixed(a) && BackendKey(host, port) != BackendKey(a.name, a.host.port)
    requires r != "" && !("/" + a.name + p <= p + r) && maxSkipped + 1 < SEQUENCE_RANGE
    ensures var trace, e := [Discover] + CycleSteps(AnswerIn(a, 1)), Evict(host, port, p);
            var s, t := EngineState(trace, maxSkipped), EngineState(trace + [e], maxSkipped);
      && Exchanged(WrapTrace(trace + [e]), maxSkipped, [AnswerIn(a, 1)])
      && Translated(s.prefixes.Keys, p + r) == p && Translated(t.prefixes.Keys, p + r) == p + r
      && p in t.table && Offered(a, 1, 0) in t.table[p].services
  {
    var x, trace, e := Offered(a, 1, 0), [Discover] + CycleSteps(AnswerIn(a, 1)), Evict(host, port, p);
    var s := OneReply(a, maxSkipped);
    EngineEnds(trace, s, e, [AnswerIn(a, 1)], maxSkipped);
    KeptMembers(s.table[p].services, Evicted(host, port, p));
    IdListed(s.table, p, x);
    TwoUris(x);
    TwoTranslations(p, Direct(x), r);
    PeacefulPrefixes(trace, s, maxSkipped);
    PairWrapped(p, Direct(x), {ServiceId(x)});
    PairForgotten(p, Direct(x), ServiceId(x), ListedIds(s.table));
    EvictedMatch(trace, s, e, maxSkipped);
    PairWrapped1(Direct(x), {ServiceId(x)});
  }

  lemma PairWrapped(p: string, d: string, ids: set<string>)
    requires p != d
    ensures WrapPrefixes(PrefixPair(p, d, ids)) == PrefixPair(p, d, WrapIds(ids))
    ensures WrapPrefixes(PrefixPair(p, d, ids)).Keys == {p, d} == PrefixPair(p, d, ids).Keys
  {
  }

  lemma PairWrapped1(d: string, ids: set<string>)
    ensures WrapPrefixes(map[d := ids]) == map[d := WrapIds(ids)] && WrapPrefixes(map[d := ids]).Keys == {d}
  {
  }

  lemma PairForgotten(p: string, d: string, id: string, listed: set<string>)
    requires p != d && id in listed
    ensures Without(PrefixPair(p, d, {id}), p, listed) == map[d := {id}]
  {
    assert {id} - listed == {};
  }

  lemma IdListed(table: Table, u: string, s: BackendService)
    requires u in table && s in table[u].services
    ensures ServiceId(s) in ListedIds(table)
  {
    IdsMembers(table[u].services, s);
  }

  /** A removal of which all the prefix's services are listed leaves the prefix maps matching. */
  lemma EvictedMatch(trace: seq<Event>, s: Frontend, e: Event, maxSkipped: nat)
    requires Reached(trace, s, maxSkipped) && Peaceful(trace) && s.running && e.Evict? &&
        maxSkipped + 1 < SEQUENCE_RANGE
    requires WrappedPrefixes.At(s.prefixes, e.uri) <= ListedIds(s.table)
    ensures EngineState(trace + [e], maxSkipped).prefixes ==
        WrapPrefixes(Without(s.prefixes, e.uri, ListedIds(s.table)))
  {
    Extend(trace, s, e, maxSkipped);
    PeacefulIsClear(trace, maxSkipped);
    UnconfusedSnoc(trace, e, maxSkipped);
    assert (trace + [e])[..|trace|] == trace;
    PrefixWraparound(trace + [e], maxSkipped);
  }

  // ----- The prefix maps of the two machines part and meet -----

  const TURN: nat := SEQUENCE_RANGE + 1

  lemma {:induction false} QuietTurn(trace: seq<Event>, s: Frontend, exchanges: seq<Exchange>, n: int, k: nat)
    returns (t: Frontend)
    requires Built(trace, s, exchanges, 0) && Waiting(s) && ServicesCarry(s.table, n) && n <= s.sequence
    ensures Built(trace + SilentCycles(k), t, exchanges, 0) && Waiting(t) && ServicesCarry(t.table, n)
    ensures t.sequence == s.sequence + k && t.prefixes == s.prefixes && (k > 0 ==> AllListsEmpty(t.table))
  {
    if k == 0 {
      t := s;
      assert trace + [] == trace;
    } else {
      t := QuietTurn(trace, s, exchanges, n, k - 1);
      var before := trace + SilentCycles(k - 1);
      t := QuietCycle(before, t, exchanges, n);
      assert before + [Discover] + [Deadline] == trace + SilentCycles(k);
    }
  }

  /** Between two cycles. */
  ghost predicate Waiting(s: Frontend) {
    !s.listening && !s.replying && s.received == 0 && s.skipped == 0 && s.running
  }

  /** With no skipped cycles allowed, a silent cycle empties the table and leaves the prefixes. */
  lemma QuietCycle(trace: seq<Event>, s: Frontend, exchanges: seq<Exchange>, n: int) returns (t: Frontend)
    requires Built(trace, s, exchanges, 0) && Waiting(s) && ServicesCarry(s.table, n) && n <= s.sequence
    ensures Built(trace + [Discover] + [Deadline], t, exchanges, 0) && Waiting(t) && ServicesCarry(t.table, n)
    ensures t.sequence == s.sequence + 1 && t.prefixes == s.prefixes && AllListsEmpty(t.table)
  {
    t := BuildStep(trace, s, Discover, exchanges, 0);
    SweepServices(s.table, n, t.sequence);
    SweepShrinks(s.table, Stale(t.sequence), n);
    t := BuildStep(trace + [Discover], t, Deadline, exchanges, 0);
  }

  /** A registers a prefix in cycle 1 and is silent for a turn; then A and B answer. */
  function TurnExchanges(a: Advert, b: Advert): seq<Exchange> {
    [AnswerIn(a, 1), AnswerIn(a, TURN), AnswerIn(b, TURN)]
  }

  function TurnRun(a: Advert, b: Advert): seq<Event>
    requires Simple(a) && Simple(b)
  {
    [Discover] + CycleSteps(AnswerIn(a, 1)) + [Deadline] + SilentCycles(SEQUENCE_RANGE - 1) + [Discover] +
    CycleSteps(AnswerIn(a, TURN)) + CycleSteps(AnswerIn(b, TURN))
  }

  lemma QuietTurnBuilt(a: Advert) returns (s: Frontend)
    requires Simple(a) && |a.services| == 1 && Prefixed(a)
    ensures Built([Discover] + CycleSteps(AnswerIn(a, 1)) + [Deadline] + SilentCycles(SEQUENCE_RANGE - 1) + [Discover],
                  s, [AnswerIn(a, 1)], 0)
    ensures Runs.Idle(s) && s.sequence == TURN && AllListsEmpty(s.table)
    ensures var x := Offered(a, 1, 0); s.prefixes == PrefixPair(x.uri, Direct(x), {ServiceId(x)})
  {
    var trace, exchanges := [Discover] + CycleSteps(AnswerIn(a, 1)), [AnswerIn(a, 1)];
    s := OneReply(a, 0);
    SweepShrinks(s.table, Stale(1), 1);
    s := BuildStep(trace, s, Deadline, exchanges, 0);
    s := QuietTurn(trace + [Deadline], s, exchanges, 1, SEQUENCE_RANGE - 1);
    s := BuildStep(trace + [Deadline] + SilentCycles(SEQUENCE_RANGE - 1), s, Discover, exchanges, 0);
  }

  lemma PrefixesAgain(x: BackendService, y: BackendService)
    requires x.definesPrefix && y.definesPrefix && x.uri == y.uri && x.Key() == y.Key()
    ensures PrefixesWith(PrefixPair(x.uri, Direct(x), {ServiceId(x)}), y) ==
            PrefixPair(x.uri, Direct(x), {ServiceId(x), ServiceId(y)})
  {
    TwoUris(x);
    assert Direct(y) == Direct(x);
    assert {ServiceId(x)} + {ServiceId(y)} == {ServiceId(x), ServiceId(y)};
  }

  function ReturnRun(a: Advert): seq<Event>
    requires Simple(a)
  {
    [Discover] + CycleSteps(AnswerIn(a, 1)) + [Deadline] + SilentCycles(SEQUENCE_RANGE - 1) + [Discover] +
    CycleSteps(AnswerIn(a, TURN))
  }

  lemma ReturnBuilt(a: Advert, p: string) returns (t: Frontend)
    requires Single(a, p) && Prefixed(a)
    ensures Built(ReturnRun(a), t, [AnswerIn(a, 1), AnswerIn(a, TURN)], 0) && Runs.Idle(t) && t.sequence == TURN
    ensures var x, y := Offered(a, 1, 0), Offered(a, TURN, 0);
      && t.prefixes == PrefixPair(p, Direct(x), {ServiceId(x), ServiceId(y)})
      && ServicesCarry(t.table, TURN) && p in t.table && y in t.table[p].services
  {
    var x, y := Offered(a, 1, 0), Offered(a, TURN, 0);
    var s := QuietTurnBuilt(a);
    assert ServicesCarry(s.table, TURN);
    t := BuildReply(
      [Discover] + CycleSteps(AnswerIn(a, 1)) + [Deadline] + SilentCycles(SEQUENCE_RANGE - 1) + [Discover],
      s, a, TURN, [AnswerIn(a, 1)], 0);
    CarriedOn(s, y, t.(received := s.received, replying := true), TURN);
    PrefixesAgain(x, y);
    assert [AnswerIn(a, 1)] + [AnswerIn(a, TURN)] == [AnswerIn(a, 1), AnswerIn(a, TURN)];
  }

  lemma TurnRunBuilt(a: Advert, b: Advert, p: string, q: string) returns (s: Frontend)
    requires Single(a, p) && Single(b, q) && Prefixed(a) && !Prefixed(b)
    ensures Built(TurnRun(a, b), s, TurnExchanges(a, b), 0) && Runs.Idle(s) && s.sequence == TURN
    ensures var x, y, z := Offered(a, 1, 0), Offered(a, TURN, 0), Offered(b, TURN, 0);
      && s.prefixes == PrefixPair(p, Direct(x), {ServiceId(x), ServiceId(y)})
      && ServicesCarry(s.table, TURN)
      && p in s.table && y in s.table[p].services && q in s.table && z in s.table[q].services
  {
    var z := Offered(b, TURN, 0);
    var t := ReturnBuilt(a, p);
    s := BuildReply(ReturnRun(a), t, b, TURN, [AnswerIn(a, 1), AnswerIn(a, TURN)], 0);
    CarriedOn(t, z, s.(received := t.received, replying := true), TURN);
    assert [AnswerIn(a, 1), AnswerIn(a, TURN)] + [AnswerIn(b, TURN)] == TurnExchanges(a, b);
  }

  lemma {:induction false} IdsCarry(services: seq<BackendService>, s: BackendService, n: int)
    requires forall x :: x in services ==> x.sequence == n
    ensures s.sequence != n ==> ServiceId(s) !in Ids(services)
  {
    if services != [] {
      var last := |services| - 1;
      IdsCarry(services[..last], s, n);
      SameId(s, services[last]);
      assert services[last] in services;
    }
  }

  lemma NotListed(table: Table, s: BackendService, n: int)
    requires ServicesCarry(table, n) && s.sequence != n
    ensures ServiceId(s) !in ListedIds(table)
  {
    forall u | u in table ensures ServiceId(s) !in Ids(table[u].services) {
      IdsCarry(table[u].services, s, n);
    }
  }

  lemma ATurnLater(n: int)
    ensures (n + SEQUENCE_RANGE) % SEQUENCE_RANGE == n % SEQUENCE_RANGE
  {
  }

  lemma SameTurn(x: BackendService, y: BackendService)
    requires y.sequence == x.sequence + SEQUENCE_RANGE && y.Key() == x.Key()
    ensures WrapId(ServiceId(x)) == WrapId(ServiceId(y))
  {
    ATurnLater(x.sequence);
    SameWrappedId(x, y);
  }

  /** Two ids that are one to the engine: the removal drops both there, and only the listed one in
      the machine that never wraps. */
  lemma TakenForOne(p: string, d: string, earlier: string, later: string, listed: set<string>)
    requires p != d && earlier !in listed && later in listed && WrapId(earlier) == WrapId(later)
    ensures var prefixes, w := PrefixPair(p, d, {earlier, later}), WrapId(later);
      && Without(prefixes, p, listed) == map[p := {earlier}, d := {earlier, later}]
      && Without(WrapPrefixes(prefixes), p, WrapIds(listed)) == map[d := {w}]
  {
    var ids, w := {earlier, later}, WrapId(later);
    assert ids - listed == {earlier};
    OneId(earlier, later);
    assert w in WrapIds(listed);
    PairWrapped(p, d, ids);
    PairForgotten(p, d, w, WrapIds(listed));
  }

  lemma StillRunning(s: Frontend, e: Event, q: string, b: BackendService)
    requires e.Evict? && q in s.table && b in s.table[q].services && b.Key() != BackendKey(e.host, e.port)
    ensures Step(s, e, 0, 0).running
  {
    KeptMembers(s.table[q].services, Evicted(e.host, e.port, e.uri));
    assert b in SweptTable(s.table, Evicted(e.host, e.port, e.uri))[q].services;
  }

  lemma WrappedSnoc(trace: seq<Event>, e: Event)
    ensures Run(WrapTrace(trace + [e]), 0, SEQUENCE_RANGE) ==
            Step(Run(WrapTrace(trace), 0, SEQUENCE_RANGE), WrapEvent(e), 0, SEQUENCE_RANGE)
  {
    assert WrapTrace(trace + [e]) == WrapTrace(trace) + [WrapEvent(e)];
    RunSnoc(START, WrapTrace(trace), WrapEvent(e), 0, SEQUENCE_RANGE);
  }

  function Parting(a: Advert, b: Advert, p: string): seq<Event>
    requires Simple(a) && Simple(b)
  {
    TurnRun(a, b) + [Evict(a.name, a.host.port, p)]
  }

  /** The prefixes of the two machines after A is removed under its prefix. */
  lemma PrefixesPart(a: Advert, b: Advert, p: string, q: string) returns (t: Frontend)
    requires Single(a, p) && Single(b, q) && Prefixed(a) && !Prefixed(b)
    requires BackendKey(a.name, a.host.port) != BackendKey(b.name, b.host.port)
    ensures Reached(Parting(a, b, p), t, 0) && Runs.Idle(t) && t.sequence == TURN
    ensures forall x :: x in TurnExchanges(a, b) ==> Answered(x)
    ensures AddEvents(Parting(a, b, p)) == AllRegistrations(TurnExchanges(a, b))
    ensures var x, y := Offered(a, 1, 0), Offered(a, TURN, 0);
      && t.prefixes == map[p := {ServiceId(x)}, Direct(x) := {ServiceId(x), ServiceId(y)}]
      && Run(WrapTrace(Parting(a, b, p)), 0, SEQUENCE_RANGE).prefixes == map[Direct(x) := {WrapId(ServiceId(y))}]
      && WrapId(ServiceId(x)) == WrapId(ServiceId(y))
  {
    var x, y, z, e := Offered(a, 1, 0), Offered(a, TURN, 0), Offered(b, TURN, 0), Evict(a.name, a.host.port, p);
    var trace := TurnRun(a, b);
    var s := TurnRunBuilt(a, b, p, q);
    StillRunning(s, e, q, z);
    Extend(trace, s, e, 0);
    t := Step(s, e, 0, 0);
    AddEventsSnoc(trace, e);
    assert AddEvents(trace) + [] == AddEvents(trace);
    PeacefulPrefixes(trace, s, 0);
    WraparoundHarmless(trace, 0);
    PrefixEvicted(Run(WrapTrace(trace), 0, SEQUENCE_RANGE), s, e, 0);
    WrappedSnoc(trace, e);
    NotListed(s.table, x, TURN);
    IdListed(s.table, p, y);
    SameTurn(x, y);
    TwoUris(x);
    TakenForOne(p, Direct(x), ServiceId(x), ServiceId(y), ListedIds(s.table));
  }

  /** A backend registers a prefix in cycle 1, is silent for a turn, registers it again in cycle
      65536, and is then removed under that prefix. The machine that never wraps keeps the prefix
      for the old id; the engine takes the two ids for one and drops it. Requests below the prefix
      go on as themselves in the engine only. */
  lemma PrefixMapsPart(a: Advert, b: Advert, p: string, q: string, r: string)
    requires Single(a, p) && Single(b, q) && Prefixed(a) && !Prefixed(b)
    requires BackendKey(a.name, a.host.port) != BackendKey(b.name, b.host.port)
    requires r != "" && !("/" + a.name + p <= p + r)
    ensures var trace := Parting(a, b, p);
            var engine, ideal := Run(WrapTrace(trace), 0, SEQUENCE_RANGE), Run(trace, 0, 0);
      && Exchanged(WrapTrace(trace), 0, TurnExchanges(a, b)) && InRequestOrder(TurnExchanges(a, b))
      && !PrefixesMatch(engine, ideal)
      && Translated(ideal.prefixes.Keys, p + r) == p
      && Translated(engine.prefixes.Keys, p + r) == p + r
  {
    PartingExchanged(a, b, p, q);
    var t := PrefixesPart(a, b, p, q);
    var x, y := Offered(a, 1, 0), Offered(a, TURN, 0);
    TwoUris(x);
    PartedLookups(p, Direct(x), r, {ServiceId(x)}, {ServiceId(x), ServiceId(y)}, {WrapId(ServiceId(y))});
  }

  lemma PartingExchanged(a: Advert, b: Advert, p: string, q: string)
    requires Single(a, p) && Single(b, q) && Prefixed(a) && !Prefixed(b)
    requires BackendKey(a.name, a.host.port) != BackendKey(b.name, b.host.port)
    ensures Exchanged(WrapTrace(Parting(a, b, p)), 0, TurnExchanges(a, b)) && InRequestOrder(TurnExchanges(a, b))
  {
    var t := PrefixesPart(a, b, p, q);
    BuiltIsExchanged(Parting(a, b, p), 0, TurnExchanges(a, b));
    TurnInOrder(a, b);
  }

  lemma TurnInOrder(a: Advert, b: Advert)
    ensures InRequestOrder(TurnExchanges(a, b))
  {
    var exchanges := TurnExchanges(a, b);
    assert exchanges[0].cycle == 1 && exchanges[1].cycle == TURN && exchanges[2].cycle == TURN;
  }

  lemma PartedLookups(p: string, d: string, r: string, ids: set<string>, all: set<string>, wrapped: set<string>)
    requires p != d && r != "" && !(d <= p + r)
    ensures var ideal: Prefixes, engine: Prefixes := map[p := ids, d := all], map[d := wrapped];
      && engine != WrapPrefixes(ideal)
      && Translated(ideal.Keys, p + r) == p && Translated(engine.Keys, p + r) == p + r
  {
    var ideal: Prefixes, engine: Prefixes := map[p := ids, d := all], map[d := wrapped];
    assert ideal.Keys == {p, d} && engine.Keys == {d};
    assert p in WrapPrefixes(ideal) && p !in engine;
    TwoTranslations(p, d, r);
  }

  lemma EngineReply(trace: seq<Event>, a: Advert, cycle: nat)
    requires Simple(a) && |a.services| == 1 && cycle >= 1
    ensures Run(WrapTrace(trace + CycleSteps(AnswerIn(a, cycle))), 0, SEQUENCE_RANGE).prefixes ==
            PrefixesWith(Run(WrapTrace(trace), 0, SEQUENCE_RANGE).prefixes, WrapService(Offered(a, cycle, 0)))
  {
    var x := Offered(a, cycle, 0);
    var one, two := Filings(x)[0], Filings(x)[1];
    WrappedSnoc(trace, one);
    WrappedSnoc(trace + [one], two);
    WrappedSnoc(trace + [one] + [two], Accept);
    OneService(a, cycle);
    assert trace + [one] + [two] + [Accept] == trace + CycleSteps(AnswerIn(a, cycle));
  }

  function MeetingExchanges(a: Advert, b: Advert): seq<Exchange> {
    TurnExchanges(a, b) + [AnswerIn(a, TURN)]
  }

  function Meeting(a: Advert, b: Advert, p: string): seq<Event>
    requires Simple(a) && Simple(b)
  {
    Parting(a, b, p) + CycleSteps(AnswerIn(a, TURN))
  }

  lemma MeetingReached(a: Advert, b: Advert, p: string, q: string) returns (t: Frontend)
    requires Single(a, p) && Single(b, q) && Prefixed(a) && !Prefixed(b)
    requires BackendKey(a.name, a.host.port) != BackendKey(b.name, b.host.port)
    ensures Reached(Meeting(a, b, p), t, 0)
    ensures AddEvents(Meeting(a, b, p)) == AllRegistrations(MeetingExchanges(a, b))
    ensures var x, y := Offered(a, 1, 0), Offered(a, TURN, 0);
            t.prefixes == PrefixesWith(map[p := {ServiceId(x)}, Direct(x) := {ServiceId(x), ServiceId(y)}], y)
  {
    var before := PrefixesPart(a, b, p, q);
    t := ReachReply(Parting(a, b, p), before, a, TURN, 0);
    AddEventsConcat(Parting(a, b, p), CycleSteps(AnswerIn(a, TURN)));
    assert MeetingExchanges(a, b)[..3] == TurnExchanges(a, b);
  }

  /** And they meet again: A's answer arrives a second time, as a datagram may. */
  lemma PrefixMapsMeetAgain(a: Advert, b: Advert, p: string, q: string)
    requires Single(a, p) && Single(b, q) && Prefixed(a) && !Prefixed(b)
    requires BackendKey(a.name, a.host.port) != BackendKey(b.name, b.host.port)
    ensures Exchanged(WrapTrace(Meeting(a, b, p)), 0, MeetingExchanges(a, b))
    ensures PrefixesMatch(Run(WrapTrace(Meeting(a, b, p)), 0, SEQUENCE_RANGE), Run(Meeting(a, b, p), 0, 0))
  {
    var t := MeetingReached(a, b, p, q);
    BuiltIsExchanged(Meeting(a, b, p), 0, MeetingExchanges(a, b));
    EngineMeets(a, b, p, q);
  }

  lemma EngineMeets(a: Advert, b: Advert, p: string, q: string)
    requires Single(a, p) && Single(b, q) && Prefixed(a) && !Prefixed(b)
    requires BackendKey(a.name, a.host.port) != BackendKey(b.name, b.host.port)
    ensures PrefixesMatch(Run(WrapTrace(Meeting(a, b, p)), 0, SEQUENCE_RANGE), Run(Meeting(a, b, p), 0, 0))
  {
    var x, y := Offered(a, 1, 0), Offered(a, TURN, 0);
    var before := PrefixesPart(a, b, p, q);
    var t := MeetingReached(a, b, p, q);
    EngineReply(Parting(a, b, p), a, TURN);
    TwoUris(x);
    MetAgain(p, Direct(x), x, y);
  }

  lemma BothAgain(p: string, d: string, x: string, y: string)
    requires p != d && WrapId(x) == WrapId(y)
    ensures Added(Added(map[p := {x}, d := {x, y}], p, y), d, y) == PrefixPair(p, d, {x, y})
    ensures Added(Added(map[d := {WrapId(y)}], p, WrapId(y)), d, WrapId(y)) == WrapPrefixes(PrefixPair(p, d, {x, y}))
  {
    var w, ids := WrapId(y), {x, y};
    assert {x} + {y} == ids && ids + {y} == ids;
    EngineAgain(p, d, w);
    OneId(x, y);
    PairWrapped(p, d, ids);
  }

  lemma OneId(x: string, y: string)
    requires WrapId(x) == WrapId(y)
    ensures WrapIds({x, y}) == {WrapId(y)}
  {
  }

  lemma EngineAgain(p: string, d: string, w: string)
    requires p != d
    ensures Added(Added(map[d := {w}], p, w), d, w) == PrefixPair(p, d, {w})
  {
    assert {w} + {w} == {w} && {} + {w} == {w};
  }

  lemma MetAgain(p: string, d: string, x: BackendService, y: BackendService)
    requires p != d && y.definesPrefix && y.uri == p && Direct(y) == d && WrapId(ServiceId(x)) == WrapId(ServiceId(y))
    ensures PrefixesWith(map[d := {WrapId(ServiceId(y))}], WrapService(y)) ==
            WrapPrefixes(PrefixesWith(map[p := {ServiceId(x)}, d := {ServiceId(x), ServiceId(y)}], y))
  {
    WrapServiceId(y);
    BothAgain(p, d, ServiceId(x), ServiceId(y));
  }
}

/** Runs put together from whole replies. */
module Runs {
  import opened Entities
  import opened RoutingTable
  import opened PrefixMap
  import opened Protocol
  import opened Messages
  import opened Wraparound
  import opened WrappedPrefixes
  import opened EngineRuns

  /** A backend with some services and no info queries. */
  predicate Simple(a: Advert) {
    a.services != [] && a.infoQueries == [] && a.host.throttle >= 0
  }

  /** The backend answers the request of a cycle. */
  function AnswerIn(a: Advert, cycle: nat): Exchange {
    Exchange(a, Discovery("", cycle % SEQUENCE_RANGE), cycle)
  }

  /** What the frontend registers for one of its services. */
  function Offered(a: Advert, cycle: nat, i: nat): (x: BackendService)
    requires Simple(a) && cycle >= 1 && i < |a.services|
    ensures x.sequence == cycle && x.uri == a.services[i].uri
    ensures x.Key() == BackendKey(a.name, a.host.port) && x.backend.name == a.name
    ensures x.definesPrefix <==> a.services[i].isPrefix == Some(true)
  {
    ServiceOf(EngineRuns.Reply(AnswerIn(a, cycle)).(seqnum := cycle), a.services[i])
  }

  /** The URI that names the host. */
  function Direct(x: BackendService): string {
    "/" + x.backend.name + x.uri
  }

  function Filings(x: BackendService): seq<Event> {
    [Add(x, x.uri, x.backend.load), Add(x, Direct(x), x.backend.load)]
  }

  lemma OneService(a: Advert, cycle: nat)
    requires Simple(a) && cycle >= 1 && |a.services| == 1
    ensures CycleSteps(AnswerIn(a, cycle)) == Filings(Offered(a, cycle, 0)) + [Accept]
  {
    var m := EngineRuns.Reply(AnswerIn(a, cycle)).(seqnum := cycle);
    assert ServiceEvents(m, 0) == [] && RequestEvents(m, 0) == [];
    assert ServiceEvents(m, 1) == Filings(Offered(a, cycle, 0));
  }

  lemma TwoServices(a: Advert, cycle: nat)
    requires Simple(a) && cycle >= 1 && |a.services| == 2
    ensures CycleSteps(AnswerIn(a, cycle)) == Filings(Offered(a, cycle, 0)) + Filings(Offered(a, cycle, 1)) + [Accept]
  {
    var m := EngineRuns.Reply(AnswerIn(a, cycle)).(seqnum := cycle);
    assert ServiceEvents(m, 0) == [] && RequestEvents(m, 0) == [];
    assert ServiceEvents(m, 1) == Filings(Offered(a, cycle, 0));
    assert ServiceEvents(m, 2) == Filings(Offered(a, cycle, 0)) + Filings(Offered(a, cycle, 1));
  }

  // ----- What the steps do to rows and prefixes -----

  function RowWith(row: Row, x: BackendService, u: string): Row {
    if u == x.uri || u == Direct(x) then Extended(row, x, x.backend.load) else row
  }

  function PrefixesWith(prefixes: Prefixes, x: BackendService): Prefixes {
    if x.definesPrefix then Added(Added(prefixes, x.uri, ServiceId(x)), Direct(x), ServiceId(x)) else prefixes
  }

  ghost predicate FiledIn(s: Frontend, x: BackendService, t: Frontend) {
    && t == s.(table := t.table, prefixes := PrefixesWith(s.prefixes, x), replying := true)
    && (forall u :: RowAt(t.table, u) == RowWith(RowAt(s.table, u), x, u))
    && t.table.Keys == s.table.Keys + {x.uri, Direct(x)}
  }

  lemma TwoUris(x: BackendService)
    ensures x.uri != Direct(x)
  {
    assert |Direct(x)| > |x.uri|;
  }

  lemma FileBoth(trace: seq<Event>, s: Frontend, x: BackendService, maxSkipped: nat) returns (t: Frontend)
    requires Reached(trace, s, maxSkipped) && s.running && s.listening
    requires x.sequence >= 1 && Recent(x.sequence, s.sequence)
    ensures Reached(trace + Filings(x), t, maxSkipped) && FiledIn(s, x, t)
  {
    var one, two := Filings(x)[0], Filings(x)[1];
    Extend(trace, s, one, maxSkipped);
    var mid := Step(s, one, maxSkipped, 0);
    Extend(trace + [one], mid, two, maxSkipped);
    t := Step(mid, two, maxSkipped, 0);
    assert trace + [one] + [two] == trace + Filings(x);
    TwoUris(x);
  }

  // ----- Runs without removals, from whole replies -----

  predicate Peaceful(trace: seq<Event>) {
    forall e :: e in trace ==> !e.Evict?
  }

  /** A run without removals whose registrations are those of the given answers. */
  ghost predicate Built(trace: seq<Event>, s: Frontend, exchanges: seq<Exchange>, maxSkipped: nat) {
    && Reached(trace, s, maxSkipped) && Peaceful(trace)
    && (forall x :: x in exchanges ==> Answered(x))
    && AddEvents(trace) == AllRegistrations(exchanges)
  }

  lemma AddEventsSnoc(trace: seq<Event>, e: Event)
    ensures AddEvents(trace + [e]) == AddEvents(trace) + if e.Add? then [e] else []
  {
    assert (trace + [e])[..|trace|] == trace;
  }

  lemma Begin(maxSkipped: nat)
    ensures Built([], START, [], maxSkipped)
  {
  }

  lemma BuildStep(trace: seq<Event>, s: Frontend, e: Event, exchanges: seq<Exchange>, maxSkipped: nat)
          returns (t: Frontend)
    requires Built(trace, s, exchanges, maxSkipped) && Enabled(s, e) && (e.Discover? || e.Deadline?)
    ensures t == Step(s, e, maxSkipped, 0) && Built(trace + [e], t, exchanges, maxSkipped)
  {
    Extend(trace, s, e, maxSkipped);
    t := Step(s, e, maxSkipped, 0);
    AddEventsSnoc(trace, e);
    assert AddEvents(trace) + [] == AddEvents(trace);
  }

  lemma StepsPeaceful(x: Exchange)
    requires Answered(x)
    ensures Peaceful(CycleSteps(x))
  {
    var m := EngineRuns.Reply(x).(seqnum := x.cycle);
    ServiceEventsStamped(m, |m.services|);
    RequestEventsStamped(m, |m.infoQueries|);
  }

  lemma BuiltWith(trace: seq<Event>, s: Frontend, x: Exchange, t: Frontend, exchanges: seq<Exchange>, maxSkipped: nat)
    requires Built(trace, s, exchanges, maxSkipped) && Answered(x)
    requires Reached(trace + CycleSteps(x), t, maxSkipped)
    ensures Built(trace + CycleSteps(x), t, exchanges + [x], maxSkipped)
  {
    StepsPeaceful(x);
    AddEventsConcat(trace, CycleSteps(x));
    assert (exchanges + [x])[..|exchanges|] == exchanges;
  }

  ghost predicate Idle(s: Frontend) {
    s.running && s.listening && !s.replying
  }

  lemma ReachReply(trace: seq<Event>, s: Frontend, a: Advert, cycle: nat, maxSkipped: nat) returns (t: Frontend)
    requires Reached(trace, s, maxSkipped) && Idle(s)
    requires Simple(a) && |a.services| == 1 && cycle >= 1 && Recent(cycle, s.sequence)
    ensures Reached(trace + CycleSteps(AnswerIn(a, cycle)), t, maxSkipped)
    ensures FiledIn(s, Offered(a, cycle, 0), t.(received := s.received, replying := true))
    ensures t.received == s.received + 1 && Idle(t)
  {
    var x := Offered(a, cycle, 0);
    t := FileBoth(trace, s, x, maxSkipped);
    Extend(trace + Filings(x), t, Accept, maxSkipped);
    t := Step(t, Accept, maxSkipped, 0);
    OneService(a, cycle);
    assert trace + Filings(x) + [Accept] == trace + CycleSteps(AnswerIn(a, cycle));
  }

  /** A whole reply with one service. */
  lemma BuildReply(trace: seq<Event>, s: Frontend, a: Advert, cycle: nat, exchanges: seq<Exchange>, maxSkipped: nat)
    returns (t: Frontend)
    requires Built(trace, s, exchanges, maxSkipped) && Idle(s)
    requires Simple(a) && |a.services| == 1 && cycle >= 1 && Recent(cycle, s.sequence)
    ensures Built(trace + CycleSteps(AnswerIn(a, cycle)), t, exchanges + [AnswerIn(a, cycle)], maxSkipped)
    ensures FiledIn(s, Offered(a, cycle, 0), t.(received := s.received, replying := true))
    ensures t.received == s.received + 1 && Idle(t)
  {
    t := ReachReply(trace, s, a, cycle, maxSkipped);
    BuiltWith(trace, s, AnswerIn(a, cycle), t, exchanges, maxSkipped);
  }

  /** A whole reply with two services. */
  lemma BuildDouble(trace: seq<Event>, s: Frontend, a: Advert, cycle: nat, exchanges: seq<Exchange>, maxSkipped: nat)
    returns (t: Frontend)
    requires Built(trace, s, exchanges, maxSkipped) && Idle(s)
    requires Simple(a) && |a.services| == 2 && cycle >= 1 && Recent(cycle, s.sequence)
    ensures Built(trace + CycleSteps(AnswerIn(a, cycle)), t, exchanges + [AnswerIn(a, cycle)], maxSkipped)
    ensures var x, y := Offered(a, cycle, 0), Offered(a, cycle, 1);
            forall u :: RowAt(t.table, u) == RowWith(RowWith(RowAt(s.table, u), x, u), y, u)
    ensures s.table.Keys + {Offered(a, cycle, 0).uri, Offered(a, cycle, 1).uri} <= t.table.Keys
    ensures t.received == s.received + 1 && Idle(t) && t.sequence == s.sequence
  {
    var x, y := Offered(a, cycle, 0), Offered(a, cycle, 1);
    var mid := FileBoth(trace, s, x, maxSkipped);
    t := FileBoth(trace + Filings(x), mid, y, maxSkipped);
    Extend(trace + Filings(x) + Filings(y), t, Accept, maxSkipped);
    t := Step(t, Accept, maxSkipped, 0);
    TwoServices(a, cycle);
    assert trace + Filings(x) + Filings(y) + [Accept] == trace + CycleSteps(AnswerIn(a, cycle));
    BuiltWith(trace, s, AnswerIn(a, cycle), t, exchanges, maxSkipped);
  }

  // ----- What the engine makes of them -----

  /** Seen from the engine, such a run is an exchange like any other, also when a removal ends it. */
  lemma BuiltIsExchanged(trace: seq<Event>, maxSkipped: nat, exchanges: seq<Exchange>)
    requires Legal(trace, maxSkipped, 0) && Timely(trace, maxSkipped) && maxSkipped + 1 < SEQUENCE_RANGE
    requires (forall x :: x in exchanges ==> Answered(x)) && AddEvents(trace) == AllRegistrations(exchanges)
    ensures Exchanged(WrapTrace(trace), maxSkipped, exchanges)
  {
    WraparoundHarmless(trace, maxSkipped);
    TimelyRunsEcho(trace, maxSkipped);
  }

  ghost predicate AllPositive(table: Table) {
    forall u, x :: u in table && x in table[u].services ==> x.sequence >= 1
  }

  lemma SweepPositive(table: Table, rule: Rule)
    requires AllPositive(table)
    ensures AllPositive(SweptTable(table, rule))
  {
    forall u | u in table ensures forall x :: x in Kept(table[u].services, rule) ==> x in table[u].services {
      KeptMembers(table[u].services, rule);
    }
  }

  lemma StepPositive(s: Frontend, e: Event, maxSkipped: nat)
    requires AllPositive(s.table) && TimelyEvent(s, e)
    ensures AllPositive(Step(s, e, maxSkipped, 0).table)
  {
    if e.Deadline? {
      SweepPositive(s.table, Stale(s.sequence));
    } else if e.Evict? {
      SweepPositive(s.table, Evicted(e.host, e.port, e.uri));
    }
  }

  lemma {:induction false} RunPositive(trace: seq<Event>, maxSkipped: nat)
    requires Timely(trace, maxSkipped)
    ensures AllPositive(Run(trace, maxSkipped, 0).table)
  {
    if trace != [] {
      var before := trace[..|trace| - 1];
      RunPositive(before, maxSkipped);
      StepPositive(Run(before, maxSkipped, 0), trace[|trace| - 1], maxSkipped);
    }
  }

  lemma SmallUnchanged(table: Table)
    requires forall u, x :: u in table && x in table[u].services ==> 0 <= x.sequence < SEQUENCE_RANGE
    ensures WrapTable(table) == table
  {
    forall u | u in table ensures WrapRow(table[u]) == table[u] {
      var list := table[u].services;
      assert forall i :: 0 <= i < |list| ==> list[i] in list && WrapService(list[i]) == list[i];
    }
  }

  /** In the first turn the engine's table is the very table of the machine that never wraps. */
  lemma FirstTurn(trace: seq<Event>, s: Frontend, maxSkipped: nat)
    requires Reached(trace, s, maxSkipped) && maxSkipped + 1 < SEQUENCE_RANGE && s.sequence < SEQUENCE_RANGE
    ensures Run(WrapTrace(trace), maxSkipped, SEQUENCE_RANGE).table == s.table
    ensures Run(WrapTrace(trace), maxSkipped, SEQUENCE_RANGE).running == s.running
  {
    WraparoundHarmless(trace, maxSkipped);
    EntriesRecent(trace, maxSkipped);
    RunPositive(trace, maxSkipped);
    SmallUnchanged(s.table);
  }

  lemma {:induction false} PeacefulIsClear(trace: seq<Event>, maxSkipped: nat)
    requires Peaceful(trace)
    ensures Unconfused(trace, maxSkipped)
  {
    if trace != [] {
      PeacefulIsClear(trace[..|trace| - 1], maxSkipped);
    }
  }

  /** Without removals the engine's prefixes are the wrapped ones. */
  lemma PeacefulPrefixes(trace: seq<Event>, s: Frontend, maxSkipped: nat)
    requires Reached(trace, s, maxSkipped) && maxSkipped + 1 < SEQUENCE_RANGE && Peaceful(trace)
    ensures Run(WrapTrace(trace), maxSkipped, SEQUENCE_RANGE).prefixes == WrapPrefixes(s.prefixes)
  {
    PeacefulIsClear(trace, maxSkipped);
    if trace == [] {
      assert WrapPrefixes(map[]) == map[];
    } else {
      PeacefulIsClear(trace[..|trace| - 1], maxSkipped);
      PrefixWraparound(trace, maxSkipped);
    }
  }
}

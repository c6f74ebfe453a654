/** The sequence counter modulo 65535 against one that never wraps. In the ideal run every
    entry carries the number of its discovery cycle; in the engine, that number modulo 65535. */
module Wraparound {
  import opened Entities
  import opened RoutingTable
  import opened Services
  import opened Protocol
  import opened Heartbeat

  function WrapService(s: BackendService): BackendService {
    s.(sequence := s.sequence % SEQUENCE_RANGE)
  }

  function WrapList(services: seq<BackendService>): (wrapped: seq<BackendService>)
    ensures |wrapped| == |services|
  {
    seq(|services|, i requires 0 <= i < |services| => WrapService(services[i]))
  }

  function WrapRow(row: Row): Row {
    Row(WrapList(row.services), row.infos)
  }

  function WrapTable(table: Table): Table {
    map u | u in table :: WrapRow(table[u])
  }

  function WrapRequest(r: InfoRequest): InfoRequest {
    r.(sequence := r.sequence % SEQUENCE_RANGE)
  }

  function WrapRequestList(requests: seq<InfoRequest>): (wrapped: seq<InfoRequest>)
    ensures |wrapped| == |requests|
  {
    seq(|requests|, i requires 0 <= i < |requests| => WrapRequest(requests[i]))
  }

  function WrapRequests(requests: InfoRequests): InfoRequests {
    map name | name in requests :: WrapRequestList(requests[name])
  }

  /** Backends echo the request's sequence number, so replies carry the wrapped cycle. */
  function WrapEvent(e: Event): Event {
    match e
    case Add(service, uri, load) => Add(WrapService(service), uri, load)
    case AddRequest(request) => AddRequest(WrapRequest(request))
    case _ => e
  }

  function WrapTrace(trace: seq<Event>): (wrapped: seq<Event>)
    ensures |wrapped| == |trace|
  {
    seq(|trace|, i requires 0 <= i < |trace| => WrapEvent(trace[i]))
  }

  /** The engine's services, requests and counters are the ideal ones with every number wrapped.
      The prefix map, whose ids hold the numbers, is the subject of WrappedPrefixes. */
  ghost predicate Matches(engine: Frontend, ideal: Frontend) {
    && engine.table == WrapTable(ideal.table)
    && engine.requests == WrapRequests(ideal.requests)
    && engine.sequence == ideal.sequence % SEQUENCE_RANGE
    && engine.received == ideal.received && engine.skipped == ideal.skipped
    && engine.listening == ideal.listening && engine.replying == ideal.replying && engine.running == ideal.running
  }

  /** A number from the 65535 cycles up to the current one. */
  predicate Recent(cycle: int, now: nat) {
    now - SEQUENCE_RANGE < cycle <= now
  }

  /** A reply answers a request that was sent, and is not 65535 or more cycles late. */
  predicate TimelyEvent(ideal: Frontend, e: Event) {
    match e
    case Add(service, _, _) => service.sequence >= 1 && Recent(service.sequence, ideal.sequence)
    case AddRequest(request) => request.sequence >= 1 && Recent(request.sequence, ideal.sequence)
    case _ => true
  }

  ghost predicate Timely(trace: seq<Event>, maxSkipped: nat) {
    trace == [] ||
    (Timely(trace[..|trace| - 1], maxSkipped) &&
     TimelyEvent(Run(trace[..|trace| - 1], maxSkipped, 0), trace[|trace| - 1]))
  }

  lemma TimelySnoc(trace: seq<Event>, e: Event, maxSkipped: nat)
    ensures Timely(trace + [e], maxSkipped) <==>
            Timely(trace, maxSkipped) && TimelyEvent(Run(trace, maxSkipped, 0), e)
  {
    assert (trace + [e])[..|trace|] == trace;
  }

  /** A run of the machine that never wraps: its trace, and the state it ends in. */
  ghost predicate Reached(trace: seq<Event>, s: Frontend, maxSkipped: nat) {
    Legal(trace, maxSkipped, 0) && Timely(trace, maxSkipped) && Run(trace, maxSkipped, 0) == s
  }

  lemma Extend(trace: seq<Event>, s: Frontend, e: Event, maxSkipped: nat)
    requires Reached(trace, s, maxSkipped) && Enabled(s, e) && TimelyEvent(s, e)
    ensures Reached(trace + [e], Step(s, e, maxSkipped, 0), maxSkipped)
  {
    LegalSnoc(trace, e, maxSkipped, 0);
    TimelySnoc(trace, e, maxSkipped);
    RunSnoc(START, trace, e, maxSkipped, 0);
  }

  // ----- When wrapped pruning and ideal pruning agree -----

  /** For one entry, exactly: pruning by the wrapped number agrees with pruning by the cycle
      unless the entry is a positive multiple of 65535 cycles old. */
  lemma PruneAgreement(s: BackendService, now: nat)
    requires 0 <= s.sequence <= now
    ensures (Doomed(Stale(now % SEQUENCE_RANGE), WrapService(s)) <==> Doomed(Stale(now), s)) <==>
            (s.sequence == now || (now - s.sequence) % SEQUENCE_RANGE != 0)
  {
  }

  lemma RecentAgreement(cycle: int, now: nat)
    requires Recent(cycle, now)
    ensures cycle % SEQUENCE_RANGE == now % SEQUENCE_RANGE <==> cycle == now
  {
  }

  lemma {:induction false} KeptWrapped(services: seq<BackendService>, rule: Rule, wrapped: Rule)
    requires forall x :: x in services ==> (Doomed(rule, x) <==> Doomed(wrapped, WrapService(x)))
    ensures Kept(WrapList(services), wrapped) == WrapList(Kept(services, rule))
  {
    if services != [] {
      var n := |services| - 1;
      KeptWrapped(services[..n], rule, wrapped);
      assert WrapList(services)[..n] == WrapList(services[..n]);
      var kept, last := Kept(services[..n], rule), services[n];
      assert last in services;
      assert WrapList(kept + [last]) == WrapList(kept) + [WrapService(last)];
      assert kept + [] == kept && WrapList(kept) + [] == WrapList(kept);
    }
  }

  lemma {:induction false} SweptWrapped(services: seq<BackendService>, infos: seq<BackendInfo>, rule: Rule,
          wrapped: Rule)
    requires forall x :: x in services ==> (Doomed(rule, x) <==> Doomed(wrapped, WrapService(x)))
    ensures Swept(WrapList(services), infos, wrapped) == Swept(services, infos, rule)
  {
    if services != [] {
      var n := |services| - 1;
      SweptWrapped(services[..n], infos, rule, wrapped);
      assert WrapList(services)[..n] == WrapList(services[..n]);
      assert services[n] in services && WrapService(services[n]).Key() == services[n].Key();
    }
  }

  lemma {:induction false} KeptRequestsWrapped(requests: seq<InfoRequest>, now: nat)
    requires forall r :: r in requests ==> Recent(r.sequence, now)
    ensures KeptRequests(WrapRequestList(requests), now % SEQUENCE_RANGE) ==
        WrapRequestList(KeptRequests(requests, now))
  {
    if requests != [] {
      var n := |requests| - 1;
      KeptRequestsWrapped(requests[..n], now);
      assert WrapRequestList(requests)[..n] == WrapRequestList(requests[..n]);
      var kept, last := KeptRequests(requests[..n], now), requests[n];
      assert last in requests;
      RecentAgreement(last.sequence, now);
      assert WrapRequestList(kept + [last]) == WrapRequestList(kept) + [WrapRequest(last)];
      assert kept + [] == kept && WrapRequestList(kept) + [] == WrapRequestList(kept);
    }
  }

  ghost predicate Agree(table: Table, rule: Rule, wrapped: Rule) {
    forall u, x :: u in table && x in table[u].services ==> (Doomed(rule, x) <==> Doomed(wrapped, WrapService(x)))
  }

  lemma SweptTableWrapped(table: Table, rule: Rule, wrapped: Rule)
    requires Agree(table, rule, wrapped)
    ensures SweptTable(WrapTable(table), wrapped) == WrapTable(SweptTable(table, rule))
  {
    forall u | u in table
      ensures SweptRow(WrapRow(table[u]), wrapped) == WrapRow(SweptRow(table[u], rule))
    {
      KeptWrapped(table[u].services, rule, wrapped);
      SweptWrapped(table[u].services, table[u].infos, rule, wrapped);
    }
  }

  lemma SweptRequestsWrapped(requests: InfoRequests, now: nat, wrapped: nat)
    requires wrapped == now % SEQUENCE_RANGE
    requires forall name, r :: name in requests && r in requests[name] ==> Recent(r.sequence, now)
    ensures SweptRequests(WrapRequests(requests), wrapped) == WrapRequests(SweptRequests(requests, now))
  {
    forall name | name in requests
      ensures KeptRequests(WrapRequestList(requests[name]), now % SEQUENCE_RANGE) ==
          WrapRequestList(KeptRequests(requests[name], now))
    {
      KeptRequestsWrapped(requests[name], now);
    }
  }

  lemma AddedWrapped(table: Table, uri: string, service: BackendService, load: real)
    ensures ServiceAdded(WrapTable(table), uri, WrapService(service), load) ==
        WrapTable(ServiceAdded(table, uri, service, load))
  {
    var row := RowAt(table, uri);
    assert WrapList(row.services + [service]) == WrapList(row.services) + [WrapService(service)];
    assert uri !in table ==> WrapList([]) == [];
  }

  lemma RequestAddedWrapped(requests: InfoRequests, request: InfoRequest)
    ensures RequestAdded(WrapRequests(requests), WrapRequest(request)) == WrapRequests(RequestAdded(requests, request))
  {
    var list := if request.name in requests then requests[request.name] else [];
    assert WrapRequestList(list + [request]) == WrapRequestList(list) + [WrapRequest(request)];
    assert request.name !in requests ==> WrapRequestList([]) == [];
  }

  // ----- Every entry is recent when the deadline fires -----

  ghost predicate AllRecent(s: Frontend) {
    && (forall u, x :: u in s.table && x in s.table[u].services ==> Recent(x.sequence, s.sequence))
    && (forall name, r :: name in s.requests && r in s.requests[name] ==> Recent(r.sequence, s.sequence))
  }

  lemma {:induction false} IdealSequence(trace: seq<Event>, maxSkipped: nat)
    requires Legal(trace, maxSkipped, 0)
    ensures var s := Run(trace, maxSkipped, 0);
            s.sequence == LastPruned(trace, maxSkipped, 0) + s.skipped + if s.listening then 1 else 0
  {
    if trace != [] {
      IdealSequence(trace[..|trace| - 1], maxSkipped);
    }
  }

  lemma SweepRecent(s: Frontend, rule: Rule, sequence: int)
    requires AllRecent(s)
    ensures AllRecent(s.(table := SweptTable(s.table, rule)))
    ensures AllRecent(s.(requests := SweptRequests(s.requests, sequence)))
  {
    forall u | u in s.table ensures forall x :: x in Kept(s.table[u].services, rule) ==> x in s.table[u].services {
      KeptMembers(s.table[u].services, rule);
    }
    forall name | name in s.requests
      ensures forall r :: r in KeptRequests(s.requests[name], sequence) ==> r in s.requests[name]
    {
      KeptRequestsMembers(s.requests[name], sequence);
    }
  }

  lemma CarriedIsRecent(s: Frontend, n: nat)
    requires AllCarry(s, n) && Recent(n, s.sequence)
    ensures AllRecent(s)
  {
  }

  lemma {:induction false} EntriesRecent(trace: seq<Event>, maxSkipped: nat)
    requires Legal(trace, maxSkipped, 0) && Timely(trace, maxSkipped) && maxSkipped + 1 < SEQUENCE_RANGE
    ensures AllRecent(Run(trace, maxSkipped, 0))
  {
    if trace != [] {
      var before := trace[..|trace| - 1];
      EntriesRecent(before, maxSkipped);
      var s := Run(before, maxSkipped, 0);
      match trace[|trace| - 1]
      case Discover =>
        QuietEntries(before, maxSkipped, 0);
        IdealSequence(before, maxSkipped);
        CarriedIsRecent(Run(trace, maxSkipped, 0), LastPruned(before, maxSkipped, 0));
      case Deadline =>
        SweepRecent(s, Stale(s.sequence), s.sequence);
        SweepRecent(s.(table := SweptTable(s.table, Stale(s.sequence))), Stale(s.sequence), s.sequence);
      case Evict(host, port, uri) => SweepRecent(s, Evicted(host, port, uri), 0);
      case _ =>
    }
  }

  lemma EmptyWrapped(table: Table)
    ensures AllListsEmpty(WrapTable(table)) <==> AllListsEmpty(table)
  {
    assert forall u :: u in table ==> |WrapTable(table)[u].services| == |table[u].services|;
  }

  lemma RecentAgree(ideal: Frontend, wrapped: nat)
    requires AllRecent(ideal) && wrapped == ideal.sequence % SEQUENCE_RANGE
    ensures Agree(ideal.table, Stale(ideal.sequence), Stale(wrapped))
  {
    forall u, x | u in ideal.table && x in ideal.table[u].services
      ensures Doomed(Stale(ideal.sequence), x) <==> Doomed(Stale(wrapped), WrapService(x))
    {
      RecentAgreement(x.sequence, ideal.sequence);
    }
  }

  lemma SettledWrapped(engine: Frontend, ideal: Frontend, t: Table, u: Table, q: InfoRequests, r: InfoRequests,
          skipped: nat)
    requires Matches(engine, ideal) && t == WrapTable(u) && q == WrapRequests(r)
    ensures Matches(Settled(engine, t, q, skipped), Settled(ideal, u, r, skipped))
  {
  }

  lemma DeadlineWrapped(engine: Frontend, ideal: Frontend, maxSkipped: nat)
    requires Matches(engine, ideal) && AllRecent(ideal)
    ensures Matches(Step(engine, Deadline, maxSkipped, SEQUENCE_RANGE), Step(ideal, Deadline, maxSkipped, 0))
  {
    RecentAgree(ideal, engine.sequence);
    SweptTableWrapped(ideal.table, Stale(ideal.sequence), Stale(engine.sequence));
    SweptRequestsWrapped(ideal.requests, ideal.sequence, engine.sequence);
    SettledWrapped(engine, ideal, SweptTable(engine.table, Stale(engine.sequence)),
        SweptTable(ideal.table, Stale(ideal.sequence)),
                   SweptRequests(engine.requests, engine.sequence), SweptRequests(ideal.requests, ideal.sequence), 0);
    SettledWrapped(engine, ideal, engine.table, ideal.table, engine.requests, ideal.requests, ideal.skipped + 1);
  }

  lemma StepWrapped(engine: Frontend, ideal: Frontend, e: Event, maxSkipped: nat)
    requires Matches(engine, ideal) && AllRecent(ideal)
    ensures Matches(Step(engine, WrapEvent(e), maxSkipped, SEQUENCE_RANGE), Step(ideal, e, maxSkipped, 0))
    ensures Enabled(ideal, e) <==> Enabled(engine, WrapEvent(e))
  {
    match e
    case Add(service, uri, load) => AddedWrapped(ideal.table, uri, service, load);
    case AddRequest(request) => RequestAddedWrapped(ideal.requests, request);
    case Deadline => DeadlineWrapped(engine, ideal, maxSkipped);
    case Evict(host, port, uri) =>
      SweptTableWrapped(ideal.table, Evicted(host, port, uri), Evicted(host, port, uri));
      EmptyWrapped(SweptTable(ideal.table, Evicted(host, port, uri)));
    case _ =>
  }

  /** Wraparound is harmless: in every run in which no reply is 65535 or more cycles late, and
      with fewer than 65534 tolerated silent cycles, the engine's services, requests and counters
      are those of the never-wrapping machine, number for number modulo 65535; so it prunes the
      same entries. */
  lemma {:induction false} WraparoundHarmless(trace: seq<Event>, maxSkipped: nat)
    requires Legal(trace, maxSkipped, 0) && Timely(trace, maxSkipped) && maxSkipped + 1 < SEQUENCE_RANGE
    ensures Matches(Run(WrapTrace(trace), maxSkipped, SEQUENCE_RANGE), Run(trace, maxSkipped, 0))
    ensures Legal(WrapTrace(trace), maxSkipped, SEQUENCE_RANGE)
  {
    if trace != [] {
      var n := |trace| - 1;
      WraparoundHarmless(trace[..n], maxSkipped);
      EntriesRecent(trace[..n], maxSkipped);
      assert WrapTrace(trace)[..n] == WrapTrace(trace[..n]);
      StepWrapped(Run(WrapTrace(trace[..n]), maxSkipped, SEQUENCE_RANGE), Run(trace[..n], maxSkipped, 0), trace[n],
          maxSkipped);
    } else {
      assert WrapTable(map[]) == map[] && WrapRequests(map[]) == map[];
    }
  }
}

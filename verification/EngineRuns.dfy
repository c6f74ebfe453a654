/** What the engine itself goes through: its traces carry wrapped numbers and nothing else, and
    its registrations come from replies. */
module EngineRuns {
  import opened Entities
  import opened RoutingTable
  import opened Protocol
  import opened Messages
  import opened Wraparound
  import opened LockstepRuns
  import opened Stickiness
  import Services
  import Rendezvous
  import Cookies

  // ----- Recovering the cycles -----

  function Discoveries(trace: seq<Event>): nat {
    if trace == [] then 0
    else Discoveries(trace[..|trace| - 1]) + if trace[|trace| - 1].Discover? then 1 else 0
  }

  /** The latest of the cycles up to now whose wrapped number this is. */
  function CycleOf(number: int, now: nat): int {
    now - (now - number) % SEQUENCE_RANGE
  }

  /** The number of a request that was sent, fewer than 65535 cycles ago. */
  predicate Sent(number: int, now: nat) {
    0 <= number < SEQUENCE_RANGE && CycleOf(number, now) >= 1
  }

  lemma CycleOfSent(number: int, now: nat)
    requires Sent(number, now)
    ensures CycleOf(number, now) % SEQUENCE_RANGE == number
    ensures Recent(CycleOf(number, now), now)
  {
  }

  predicate EchoEvent(e: Event, now: nat) {
    match e
    case Add(service, _, _) => Sent(service.sequence, now)
    case AddRequest(request) => Sent(request.sequence, now)
    case _ => true
  }

  /** Every reply echoes the number of a request sent fewer than 65535 cycles before. */
  predicate Echoes(trace: seq<Event>) {
    trace == [] ||
    (Echoes(trace[..|trace| - 1]) && EchoEvent(trace[|trace| - 1], Discoveries(trace[..|trace| - 1])))
  }

  function UnwrapEvent(e: Event, now: nat): Event {
    match e
    case Add(service, uri, load) => Add(service.(sequence := CycleOf(service.sequence, now)), uri, load)
    case AddRequest(request) => AddRequest(request.(sequence := CycleOf(request.sequence, now)))
    case _ => e
  }

  /** The trace with the cycle in the place of every number. */
  function Unwrap(trace: seq<Event>): seq<Event> {
    if trace == [] then []
    else
      var before := trace[..|trace| - 1];
      Unwrap(before) + [UnwrapEvent(trace[|trace| - 1], Discoveries(before))]
  }

  lemma StepCounts(s: Frontend, e: Event, maxSkipped: nat)
    ensures Step(s, e, maxSkipped, 0).sequence == s.sequence + if e.Discover? then 1 else 0
  {
  }

  lemma {:induction false} CountsCycles(trace: seq<Event>, maxSkipped: nat)
    ensures Run(trace, maxSkipped, 0).sequence == Discoveries(trace)
  {
    if trace != [] {
      var before := trace[..|trace| - 1];
      CountsCycles(before, maxSkipped);
      StepCounts(Run(before, maxSkipped, 0), trace[|trace| - 1], maxSkipped);
    }
  }

  lemma {:induction false} UnwrapCounts(trace: seq<Event>)
    ensures Discoveries(Unwrap(trace)) == Discoveries(trace) && |Unwrap(trace)| == |trace|
  {
    if trace != [] {
      var before := trace[..|trace| - 1];
      UnwrapCounts(before);
      assert Unwrap(trace)[..|trace| - 1] == Unwrap(before);
    }
  }

  lemma UnwrapOne(e: Event, now: nat)
    requires EchoEvent(e, now)
    ensures WrapEvent(UnwrapEvent(e, now)) == e
  {
    match e
    case Add(service, _, _) => CycleOfSent(service.sequence, now);
    case AddRequest(request) => CycleOfSent(request.sequence, now);
    case _ =>
  }

  lemma UnwrapTimely(e: Event, ideal: Frontend)
    requires EchoEvent(e, ideal.sequence)
    ensures TimelyEvent(ideal, UnwrapEvent(e, ideal.sequence))
  {
    match e
    case Add(service, _, _) => CycleOfSent(service.sequence, ideal.sequence);
    case AddRequest(request) => CycleOfSent(request.sequence, ideal.sequence);
    case _ =>
  }

  lemma WrapSnoc(cycles: seq<Event>, event: Event)
    ensures WrapTrace(cycles + [event]) == WrapTrace(cycles) + [WrapEvent(event)]
  {
  }

  lemma UnwrapNext(cycles: seq<Event>, ideal: Frontend, event: Event, maxSkipped: nat)
    requires Reached(cycles, ideal, maxSkipped) && maxSkipped + 1 < SEQUENCE_RANGE
    requires Enabled(Run(WrapTrace(cycles), maxSkipped, SEQUENCE_RANGE), WrapEvent(event)) && TimelyEvent(ideal, event)
    ensures Legal(cycles + [event], maxSkipped, 0) && Timely(cycles + [event], maxSkipped)
  {
    WraparoundHarmless(cycles, maxSkipped);
    EntriesRecent(cycles, maxSkipped);
    StepWrapped(Run(WrapTrace(cycles), maxSkipped, SEQUENCE_RANGE), ideal, event, maxSkipped);
    LegalSnoc(cycles, event, maxSkipped, 0);
    TimelySnoc(cycles, event, maxSkipped);
  }

  /** Every legal engine run whose replies echo is the wrapped form of a legal and timely run of
      the machine that never wraps, recovered from the engine's own trace. */
  lemma {:induction false} EngineRunsUnwrap(trace: seq<Event>, maxSkipped: nat)
    requires Legal(trace, maxSkipped, SEQUENCE_RANGE) && Echoes(trace) && maxSkipped + 1 < SEQUENCE_RANGE
    ensures WrapTrace(Unwrap(trace)) == trace
    ensures Legal(Unwrap(trace), maxSkipped, 0) && Timely(Unwrap(trace), maxSkipped)
  {
    if trace != [] {
      var n := |trace| - 1;
      var before, e := trace[..n], trace[n];
      EngineRunsUnwrap(before, maxSkipped);
      var cycles := Unwrap(before);
      var ideal := Run(cycles, maxSkipped, 0);
      CountsCycles(cycles, maxSkipped);
      UnwrapCounts(before);
      var event := UnwrapEvent(e, ideal.sequence);
      UnwrapOne(e, ideal.sequence);
      UnwrapTimely(e, ideal);
      WrapSnoc(cycles, event);
      assert trace == before + [e];
      UnwrapNext(cycles, ideal, event, maxSkipped);
    }
  }

  lemma CycleBack(cycle: int, now: nat)
    requires cycle >= 1 && Recent(cycle, now)
    ensures Sent(cycle % SEQUENCE_RANGE, now) && CycleOf(cycle % SEQUENCE_RANGE, now) == cycle
  {
  }

  lemma WrapOne(e: Event, ideal: Frontend)
    requires TimelyEvent(ideal, e)
    ensures EchoEvent(WrapEvent(e), ideal.sequence)
    ensures UnwrapEvent(WrapEvent(e), ideal.sequence) == e
  {
    match e
    case Add(service, _, _) => CycleBack(service.sequence, ideal.sequence);
    case AddRequest(request) => CycleBack(request.sequence, ideal.sequence);
    case _ =>
  }

  lemma {:induction false} WrapCounts(trace: seq<Event>)
    ensures Discoveries(WrapTrace(trace)) == Discoveries(trace)
  {
    if trace != [] {
      var n := |trace| - 1;
      WrapCounts(trace[..n]);
      assert WrapTrace(trace)[..n] == WrapTrace(trace[..n]);
    }
  }

  /** The other way round: what a timely run looks like to the engine echoes, and unwraps to it. */
  lemma {:induction false} TimelyRunsEcho(trace: seq<Event>, maxSkipped: nat)
    requires Timely(trace, maxSkipped)
    ensures Echoes(WrapTrace(trace)) && Unwrap(WrapTrace(trace)) == trace
  {
    if trace != [] {
      var n := |trace| - 1;
      var before := trace[..n];
      TimelyRunsEcho(before, maxSkipped);
      assert WrapTrace(trace)[..n] == WrapTrace(before);
      CountsCycles(before, maxSkipped);
      WrapCounts(before);
      WrapOne(trace[n], Run(before, maxSkipped, 0));
      assert trace == before + [trace[n]];
    }
  }

  // ----- Order of delivery -----

  /** The services a trace registers, in order. */
  function Adds(trace: seq<Event>): seq<BackendService> {
    if trace == [] then []
    else
      var e := trace[|trace| - 1];
      Adds(trace[..|trace| - 1]) + if e.Add? then [e.service] else []
  }

  lemma {:induction false} AddsConcat(a: seq<Event>, b: seq<Event>)
    ensures Adds(a + b) == Adds(a) + Adds(b)
  {
    if b == [] {
      assert a + b == a;
    } else {
      assert (a + b)[..|a + b| - 1] == a + b[..|b| - 1];
      AddsConcat(a, b[..|b| - 1]);
    }
  }

  lemma {:induction false} AddsMembers(trace: seq<Event>, x: BackendService)
    ensures x in Adds(trace) <==> exists i :: 0 <= i < |trace| && trace[i].Add? && trace[i].service == x
  {
    if trace != [] {
      var n := |trace| - 1;
      AddsMembers(trace[..n], x);
      if i :| 0 <= i < n && trace[..n][i].Add? && trace[..n][i].service == x {
        assert trace[i].service == x;
      }
      if i :| 0 <= i < |trace| && trace[i].Add? && trace[i].service == x {
        assert i == n || trace[..n][i] == trace[i];
      }
    }
  }

  lemma OrderedConcat(a: seq<BackendService>, b: seq<BackendService>)
    ensures Ordered(a + b) <==>
            Ordered(a) && Ordered(b) && forall x, y :: x in a && y in b && x.Key() == y.Key() ==>
                x.sequence <= y.sequence
  {
    var all := a + b;
    if Ordered(all) {
      assert forall i :: 0 <= i < |a| ==> all[i] == a[i];
      assert forall j :: 0 <= j < |b| ==> all[|a| + j] == b[j];
    }
  }

  lemma InOrderSnoc(trace: seq<Event>, e: Event)
    ensures InOrder(trace + [e]) <==>
            InOrder(trace) &&
            (e.Add? ==> forall x :: x in Adds(trace) && x.Key() == e.service.Key() ==> x.sequence <= e.service.sequence)
  {
    var all := trace + [e];
    assert all[|trace|] == e && forall i :: 0 <= i < |trace| ==> all[i] == trace[i];
    if InOrder(all) && e.Add? {
      forall x | x in Adds(trace) && x.Key() == e.service.Key() ensures x.sequence <= e.service.sequence {
        AddsMembers(trace, x);
        var i :| 0 <= i < |trace| && trace[i].Add? && trace[i].service == x;
        assert all[i].service == x;
      }
    }
    forall i | 0 <= i < |trace| && trace[i].Add? ensures trace[i].service in Adds(trace) {
      AddsMembers(trace, trace[i].service);
    }
  }

  /** Order of delivery is about the registrations alone. */
  lemma {:induction false} InOrderExactly(trace: seq<Event>)
    ensures InOrder(trace) <==> Ordered(Adds(trace))
  {
    if trace != [] {
      var n := |trace| - 1;
      var before, e := trace[..n], trace[n];
      InOrderExactly(before);
      InOrderSnoc(before, e);
      assert trace == before + [e];
      if e.Add? {
        OrderedConcat(Adds(before), [e.service]);
      } else {
        assert Adds(before) + [] == Adds(before);
      }
    }
  }

  // ----- Exchanges -----

  /** A backend, the request it answers, and the cycle that request was sent in. */
  datatype Exchange = Exchange(advert: Advert, request: Message, cycle: nat)

  predicate Answered(x: Exchange) {
    && x.request.messageType == DiscoveryRequest
    && x.cycle >= 1 && x.request.seqnum == x.cycle % SEQUENCE_RANGE
    && x.advert.services != [] && x.advert.host.throttle >= 0
  }

  function Reply(x: Exchange): Message
    requires Answered(x)
  {
    Answer(x.advert, x.request).value
  }

  /** What the engine does with the reply. */
  function Steps(x: Exchange): seq<Event>
    requires Answered(x)
  {
    ReplyEvents(Reply(x))
  }

  /** The same with the cycle in the place of its number. */
  function CycleSteps(x: Exchange): seq<Event>
    requires Answered(x)
  {
    ReplyEvents(Reply(x).(seqnum := x.cycle))
  }

  lemma WrapConcat(a: seq<Event>, b: seq<Event>)
    ensures WrapTrace(a + b) == WrapTrace(a) + WrapTrace(b)
  {
  }

  lemma {:induction false} ServicesWrapped(m: Message, cycle: nat, n: nat)
    requires Usable(m) && n <= |m.services| && m.seqnum == cycle % SEQUENCE_RANGE
    ensures WrapTrace(ServiceEvents(m.(seqnum := cycle), n)) == ServiceEvents(m, n)
  {
    if n > 0 {
      ServicesWrapped(m, cycle, n - 1);
      var ideal, item, load := m.(seqnum := cycle), m.services[n - 1], m.host.value.load;
      var one := Add(ServiceOf(ideal, item), item.uri, load);
      var two := Add(ServiceOf(ideal, item), "/" + m.name + item.uri, load);
      WrapSnoc(ServiceEvents(ideal, n - 1), one);
      WrapSnoc(ServiceEvents(ideal, n - 1) + [one], two);
    }
  }

  lemma {:induction false} RequestsWrapped(m: Message, cycle: nat, n: nat)
    requires Usable(m) && n <= |m.infoQueries| && m.seqnum == cycle % SEQUENCE_RANGE
    ensures WrapTrace(RequestEvents(m.(seqnum := cycle), n)) == RequestEvents(m, n)
  {
    if n > 0 {
      RequestsWrapped(m, cycle, n - 1);
      var ideal := m.(seqnum := cycle);
      WrapSnoc(RequestEvents(ideal, n - 1), AddRequest(RequestOf(ideal, m.infoQueries[n - 1])));
    }
  }

  /** The cycle's steps, wrapped, are the engine's. */
  lemma StepsWrapped(x: Exchange)
    requires Answered(x)
    ensures WrapTrace(CycleSteps(x)) == Steps(x)
  {
    var m := Reply(x);
    var ideal := m.(seqnum := x.cycle);
    ServicesWrapped(m, x.cycle, |m.services|);
    RequestsWrapped(m, x.cycle, |m.infoQueries|);
    WrapConcat(ServiceEvents(ideal, |m.services|), RequestEvents(ideal, |m.infoQueries|));
    WrapSnoc(ServiceEvents(ideal, |m.services|) + RequestEvents(ideal, |m.infoQueries|), Accept);
  }

  function Source(x: Exchange): BackendKey {
    BackendKey(x.advert.name, x.advert.host.port)
  }

  /** The registrations among the steps of a trace. */
  function AddEvents(trace: seq<Event>): seq<Event> {
    if trace == [] then []
    else
      var e := trace[|trace| - 1];
      AddEvents(trace[..|trace| - 1]) + if e.Add? then [e] else []
  }

  lemma {:induction false} AddEventsConcat(a: seq<Event>, b: seq<Event>)
    ensures AddEvents(a + b) == AddEvents(a) + AddEvents(b)
  {
    if b == [] {
      assert a + b == a;
    } else {
      assert (a + b)[..|a + b| - 1] == a + b[..|b| - 1];
      AddEventsConcat(a, b[..|b| - 1]);
    }
  }

  lemma {:induction false} AddEventsMembers(trace: seq<Event>, e: Event)
    ensures e in AddEvents(trace) <==> e in trace && e.Add?
  {
    if trace != [] {
      var n := |trace| - 1;
      AddEventsMembers(trace[..n], e);
      assert trace == trace[..n] + [trace[n]];
    }
  }

  lemma {:induction false} AddsOfEvents(trace: seq<Event>)
    ensures Adds(AddEvents(trace)) == Adds(trace)
  {
    if trace != [] {
      var n := |trace| - 1;
      AddsOfEvents(trace[..n]);
      var before, e := AddEvents(trace[..n]), trace[n];
      if e.Add? {
        assert (before + [e])[..|before|] == before;
      } else {
        assert before + [] == before;
      }
    }
  }

  /** The registrations of all answers, by cycle. */
  function AllRegistrations(exchanges: seq<Exchange>): seq<Event>
    requires forall x :: x in exchanges ==> Answered(x)
  {
    if exchanges == [] then []
    else AllRegistrations(exchanges[..|exchanges| - 1]) + AddEvents(CycleSteps(exchanges[|exchanges| - 1]))
  }

  /** Answers of one backend are taken in the order of the requests. */
  predicate InRequestOrder(exchanges: seq<Exchange>) {
    forall i, j :: 0 <= i < j < |exchanges| && Source(exchanges[i]) == Source(exchanges[j]) ==>
      exchanges[i].cycle <= exchanges[j].cycle
  }

  /** Each registration carries the cycle and the backend of its exchange. */
  lemma ExchangeStamped(x: Exchange)
    requires Answered(x)
    ensures forall e :: e in AddEvents(CycleSteps(x)) ==>
      e.Add? && e.service.sequence == x.cycle && e.service.Key() == Source(x)
  {
    var m := Reply(x).(seqnum := x.cycle);
    ServiceEventsStamped(m, |m.services|);
    RequestEventsStamped(m, |m.infoQueries|);
    forall e | e in AddEvents(CycleSteps(x))
      ensures e.Add? && e.service.sequence == x.cycle && e.service.Key() == Source(x)
    {
      AddEventsMembers(CycleSteps(x), e);
    }
  }

  lemma {:induction false} RegistrationOf(exchanges: seq<Exchange>, e: Event)
    requires forall x :: x in exchanges ==> Answered(x)
    requires e in AllRegistrations(exchanges)
    ensures exists i :: 0 <= i < |exchanges| && e in AddEvents(CycleSteps(exchanges[i]))
  {
    var n := |exchanges| - 1;
    if e in AllRegistrations(exchanges[..n]) {
      RegistrationOf(exchanges[..n], e);
      var i :| 0 <= i < n && e in AddEvents(CycleSteps(exchanges[..n][i]));
      assert exchanges[..n][i] == exchanges[i];
    }
  }

  lemma AddsMember(trace: seq<Event>, s: BackendService) returns (e: Event)
    requires s in Adds(trace)
    ensures e in trace && e.Add? && e.service == s
  {
    AddsMembers(trace, s);
    var i :| 0 <= i < |trace| && trace[i].Add? && trace[i].service == s;
    e := trace[i];
  }

  lemma StampedOnce(x: Exchange)
    requires Answered(x)
    ensures forall s :: s in Adds(CycleSteps(x)) ==> s.sequence == x.cycle && s.Key() == Source(x)
  {
    ExchangeStamped(x);
    forall s | s in Adds(CycleSteps(x)) ensures s.sequence == x.cycle && s.Key() == Source(x) {
      var e := AddsMember(CycleSteps(x), s);
      AddEventsMembers(CycleSteps(x), e);
    }
  }

  lemma AddsAdded(a: seq<Event>, b: seq<Event>)
    ensures Adds(a + AddEvents(b)) == Adds(a) + Adds(b)
  {
    AddsConcat(a, AddEvents(b));
    AddsOfEvents(b);
  }

  lemma OrderedNext(exchanges: seq<Exchange>, a: seq<BackendService>, x: BackendService, y: BackendService)
    requires (forall x :: x in exchanges ==> Answered(x)) && InRequestOrder(exchanges) && exchanges != []
    requires a == Adds(AllRegistrations(exchanges[..|exchanges| - 1]))
    requires x in a && y in Adds(CycleSteps(exchanges[|exchanges| - 1])) && x.Key() == y.Key()
    ensures x.sequence <= y.sequence
  {
    var n := |exchanges| - 1;
    StampedOnce(exchanges[n]);
    var e := AddsMember(AllRegistrations(exchanges[..n]), x);
    RegistrationOf(exchanges[..n], e);
    var i :| 0 <= i < n && e in AddEvents(CycleSteps(exchanges[..n][i]));
    assert exchanges[..n][i] == exchanges[i];
    ExchangeStamped(exchanges[i]);
  }

  lemma {:induction false} ExchangesOrdered(exchanges: seq<Exchange>)
    requires (forall x :: x in exchanges ==> Answered(x)) && InRequestOrder(exchanges)
    ensures Ordered(Adds(AllRegistrations(exchanges)))
  {
    if exchanges != [] {
      var n := |exchanges| - 1;
      ExchangesOrdered(exchanges[..n]);
      StampedOnce(exchanges[n]);
      var a, b := Adds(AllRegistrations(exchanges[..n])), Adds(CycleSteps(exchanges[n]));
      AddsAdded(AllRegistrations(exchanges[..n]), CycleSteps(exchanges[n]));
      forall x, y | x in a && y in b && x.Key() == y.Key() ensures x.sequence <= y.sequence {
        OrderedNext(exchanges, a, x, y);
      }
      assert forall i :: 0 <= i < |b| ==> b[i] in b;
      OrderedConcat(a, b);
    }
  }

  /** Whatever else happens in between, and wherever it stops: if the registrations of a run are
      the first of those of answers taken in request order, the run is in order. */
  lemma AnswersInOrder(trace: seq<Event>, exchanges: seq<Exchange>)
    requires (forall x :: x in exchanges ==> Answered(x)) && InRequestOrder(exchanges)
    requires AddEvents(trace) <= AllRegistrations(exchanges)
    ensures InOrder(trace)
  {
    ExchangesOrdered(exchanges);
    OrderedSoFar(AddEvents(trace), AllRegistrations(exchanges));
    AddsOfEvents(trace);
    InOrderExactly(trace);
  }

  lemma OrderedSoFar(now: seq<Event>, all: seq<Event>)
    requires now <= all && Ordered(Adds(all))
    ensures Ordered(Adds(now))
  {
    var rest := all[|now|..];
    assert now + rest == all;
    AddsConcat(now, rest);
    OrderedConcat(Adds(now), Adds(rest));
  }

  // ----- One URI for each backend in a list -----

  /** A service is filed under its own URI or under the one that names the host. */
  predicate Filed(s: BackendService, uri: string) {
    uri == s.uri || uri == "/" + s.backend.name + s.uri
  }

  /** No service URI looks like one that names its own host. */
  predicate Apart(s: BackendService) {
    !("/" + s.backend.name <= s.uri)
  }

  ghost predicate FiledApart(table: Table) {
    forall u, x :: u in table && x in table[u].services ==> Filed(x, u) && Apart(x)
  }

  lemma {:induction false} ServicesFiled(m: Message, n: nat)
    requires Usable(m) && n <= |m.services|
    ensures forall e :: e in ServiceEvents(m, n) ==> e.Add? && Filed(e.service, e.uri)
  {
    if n > 0 { ServicesFiled(m, n - 1); }
  }

  /** Replies file services just so. */
  lemma RepliesFiled(m: Message)
    requires Usable(m)
    ensures forall e :: e in ReplyEvents(m) && e.Add? ==> Filed(e.service, e.uri)
  {
    ServicesFiled(m, |m.services|);
    RequestEventsStamped(m, |m.infoQueries|);
  }

  lemma SameUri(x: BackendService, y: BackendService, u: string)
    requires Filed(x, u) && Filed(y, u) && Apart(x) && Apart(y) && x.Key() == y.Key()
    ensures x.uri == y.uri
  {
    var direct := "/" + x.backend.name;
    assert (direct + x.uri)[|direct|..] == x.uri && (direct + y.uri)[|direct|..] == y.uri;
    assert direct <= direct + x.uri && direct <= direct + y.uri;
  }

  lemma StepFiledApart(s: Frontend, e: Event, maxSkipped: nat)
    requires FiledApart(s.table) && (e.Add? ==> Filed(e.service, e.uri) && Apart(e.service))
    ensures FiledApart(Step(s, e, maxSkipped, 0).table)
  {
    if e.Deadline? {
      SweepFiledApart(s.table, Stale(s.sequence));
    } else if e.Evict? {
      SweepFiledApart(s.table, Evicted(e.host, e.port, e.uri));
    }
  }

  lemma {:induction false} RunFiledApart(trace: seq<Event>, maxSkipped: nat)
    requires forall e :: e in trace && e.Add? ==> Filed(e.service, e.uri) && Apart(e.service)
    ensures FiledApart(Run(trace, maxSkipped, 0).table)
  {
    if trace != [] {
      var before := trace[..|trace| - 1];
      RunFiledApart(before, maxSkipped);
      StepFiledApart(Run(before, maxSkipped, 0), trace[|trace| - 1], maxSkipped);
    }
  }

  lemma SweepFiledApart(table: Table, rule: Rule)
    requires FiledApart(table)
    ensures FiledApart(SweptTable(table, rule))
  {
    forall u | u in table ensures forall x :: x in Kept(table[u].services, rule) ==> x in table[u].services {
      KeptMembers(table[u].services, rule);
    }
  }

  /** In a timely run, a removal that names a URI is harmless to lockstep when no backend
      advertises a URI that begins with "/" and its own name. */
  lemma {:induction false} PlainFromAdverts(trace: seq<Event>, maxSkipped: nat)
    requires Timely(trace, maxSkipped)
    requires forall e :: e in trace && e.Add? ==> Filed(e.service, e.uri) && Apart(e.service)
    ensures Plain(trace, maxSkipped)
  {
    if trace != [] {
      var before := trace[..|trace| - 1];
      PlainFromAdverts(before, maxSkipped);
      RunFiledApart(before, maxSkipped);
      var table := Run(before, maxSkipped, 0).table;
      forall u, x, y | u in table && x in table[u].services && y in table[u].services && x.Key() == y.Key()
        ensures x.uri == y.uri
      {
        SameUri(x, y, u);
      }
    }
  }

  /** No advert has a service URI that looks like one that names its own host. */
  predicate AllApart(exchanges: seq<Exchange>) {
    forall x, item :: x in exchanges && item in x.advert.services ==> !("/" + x.advert.name <= item.uri)
  }

  lemma {:induction false} ServicesApart(m: Message, n: nat)
    requires Usable(m) && n <= |m.services|
    requires forall item :: item in m.services ==> !("/" + m.name <= item.uri)
    ensures forall e :: e in ServiceEvents(m, n) ==> e.Add? && Apart(e.service)
  {
    if n > 0 {
      ServicesApart(m, n - 1);
      assert m.services[n - 1] in m.services;
    }
  }

  lemma RegistrationsFiled(exchanges: seq<Exchange>, e: Event)
    requires (forall x :: x in exchanges ==> Answered(x)) && AllApart(exchanges)
    requires e in AllRegistrations(exchanges)
    ensures e.Add? && Filed(e.service, e.uri) && Apart(e.service)
  {
    RegistrationOf(exchanges, e);
    var i :| 0 <= i < |exchanges| && e in AddEvents(CycleSteps(exchanges[i]));
    AddEventsMembers(CycleSteps(exchanges[i]), e);
    assert exchanges[i] in exchanges;
    ExchangeFiled(exchanges[i], e);
  }

  lemma ExchangeFiled(x: Exchange, e: Event)
    requires Answered(x) && e in CycleSteps(x) && e.Add?
    requires forall item :: item in x.advert.services ==> !("/" + x.advert.name <= item.uri)
    ensures Filed(e.service, e.uri) && Apart(e.service)
  {
    var m := Reply(x).(seqnum := x.cycle);
    RepliesFiled(m);
    ServicesApart(m, |m.services|);
    RequestEventsStamped(m, |m.infoQueries|);
  }

  // ----- The engine from its own trace -----

  /** A run of the engine: its replies echo, and its registrations so far are the first of those
      of the given answers. It may stop anywhere, also between two registrations of one reply. */
  ghost predicate Exchanged(trace: seq<Event>, maxSkipped: nat, exchanges: seq<Exchange>) {
    && Legal(trace, maxSkipped, SEQUENCE_RANGE) && Echoes(trace) && maxSkipped + 1 < SEQUENCE_RANGE
    && (forall x :: x in exchanges ==> Answered(x))
    && AddEvents(Unwrap(trace)) <= AllRegistrations(exchanges)
  }

  lemma {:induction false} ExchangedPrefix(trace: seq<Event>, maxSkipped: nat, exchanges: seq<Exchange>, n: nat)
    requires Exchanged(trace, maxSkipped, exchanges) && n <= |trace|
    ensures Exchanged(trace[..n], maxSkipped, exchanges)
    decreases |trace| - n
  {
    if n < |trace| {
      ExchangedPrefix(trace, maxSkipped, exchanges, n + 1);
      var longer := trace[..n + 1];
      UnwrapCounts(longer);
      assert longer[..n] == trace[..n];
      assert Unwrap(longer)[..n] == Unwrap(trace[..n]);
    } else {
      assert trace[..n] == trace;
    }
  }

  /** Such a run is orderly when answers are taken in request order and adverts keep clear of the
      host URIs. */
  lemma ExchangedIsOrderly(trace: seq<Event>, maxSkipped: nat, exchanges: seq<Exchange>)
    requires Exchanged(trace, maxSkipped, exchanges) && InRequestOrder(exchanges) && AllApart(exchanges)
    ensures Orderly(Unwrap(trace), maxSkipped)
    ensures EngineState(Unwrap(trace), maxSkipped) == Run(trace, maxSkipped, SEQUENCE_RANGE)
  {
    var cycles := Unwrap(trace);
    EngineRunsUnwrap(trace, maxSkipped);
    AnswersInOrder(cycles, exchanges);
    forall e | e in cycles && e.Add? ensures Filed(e.service, e.uri) && Apart(e.service) {
      AddEventsMembers(cycles, e);
      assert e in AllRegistrations(exchanges);
      RegistrationsFiled(exchanges, e);
    }
    PlainFromAdverts(cycles, maxSkipped);
  }

  /** The engine, from its own trace: when replies echo, answers of each backend are taken in
      request order and adverts keep clear of the host URIs, every list and its forwarder agree
      position by position after every step, also in the middle of a reply. */
  lemma EngineLockstep(trace: seq<Event>, maxSkipped: nat, exchanges: seq<Exchange>, n: nat)
    requires Exchanged(trace, maxSkipped, exchanges) && InRequestOrder(exchanges) && AllApart(exchanges)
    requires n <= |trace|
    ensures AllLockstep(Run(trace[..n], maxSkipped, SEQUENCE_RANGE).table)
  {
    ExchangedPrefix(trace, maxSkipped, exchanges, n);
    ExchangedIsOrderly(trace[..n], maxSkipped, exchanges);
    LockstepOverRuns(Unwrap(trace[..n]), maxSkipped);
  }

  /** And stickiness: at any two points at which the same set of backends is listed and the
      connection counts are the same, requests with one selection key reach the same backend. */
  lemma EngineStickiness(
    trace: seq<Event>, maxSkipped: nat, exchanges: seq<Exchange>,
    m: nat, first: Request, found: Services.Found, n: nat, second: Request, found2: Services.Found,
    connections: Connections, coefficient: real, cookieName: string)
    requires Exchanged(trace, maxSkipped, exchanges) && InRequestOrder(exchanges) && AllApart(exchanges)
    requires m <= |trace| && n <= |trace|
    requires Cookies.ExtractKey(cookieName, first) == Cookies.ExtractKey(cookieName, second)
    requires
      var s, t := Run(trace[..m], maxSkipped, SEQUENCE_RANGE), Run(trace[..n], maxSkipped, SEQUENCE_RANGE);
      && Routed(s, first, found, connections, coefficient, cookieName)
      && Routed(t, second, found2, connections, coefficient, cookieName)
      && (forall k :: k in Listed(s, first.resource) <==> k in Listed(t, second.resource))
      && Rendezvous.DistinctScores(Listed(s, first.resource),
                                   Rendezvous.ScoreFor(Cookies.ExtractKey(cookieName, first)))
    ensures found.service.Key() == found2.service.Key()
  {
    ExchangedPrefix(trace, maxSkipped, exchanges, m);
    ExchangedPrefix(trace, maxSkipped, exchanges, n);
    ExchangedIsOrderly(trace[..m], maxSkipped, exchanges);
    ExchangedIsOrderly(trace[..n], maxSkipped, exchanges);
    SameBackendEverywhere(
      Unwrap(trace[..m]), first.resource, found, Unwrap(trace[..n]), second.resource, found2,
      maxSkipped, connections, coefficient, Rendezvous.ScoreFor(Cookies.ExtractKey(cookieName, first)));
  }
}

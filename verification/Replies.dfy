/** What an accepted reply leaves behind, in terms of the fields of the message. */
module Replies {
  import opened Entities
  import opened RoutingTable
  import opened Protocol
  import opened Messages
  import opened Text
  import Sentinels

  lemma SetTwice<V>(counters: map<string, V>, name: string, v: V)
    ensures counters[name := v][name := v] == counters[name := v]
  {
  }

  lemma RegisteredTwice(counters: map<string, Sentinels.Counter>, events: seq<Event>, service: BackendService,
                        one: string, two: string, load: real)
    ensures Registrations(counters, events + [Add(service, one, load)] + [Add(service, two, load)]) ==
            Registrations(counters, events)[service.backend.name + ":" + Decimal(service.backend.port) :=
                                              Sentinels.Counter(service.backend.throttle, 0)]
  {
    var first := events + [Add(service, one, load)];
    assert first[..|events|] == events;
    assert (first + [Add(service, two, load)])[..|first|] == first;
  }

  lemma ItemCounters(counters: map<string, Sentinels.Counter>, m: Message, n: nat)
    requires Usable(m) && 0 < n <= |m.services|
    ensures Registrations(counters, ServiceEvents(m, n)) ==
            Registrations(counters, ServiceEvents(m, n - 1))[
              m.name + ":" + Decimal(m.host.value.port) := Sentinels.Counter(m.host.value.throttle, 0)]
  {
    var item := m.services[n - 1];
    RegisteredTwice(counters, ServiceEvents(m, n - 1), ServiceOf(m, item), item.uri, "/" + m.name + item.uri,
        m.host.value.load);
  }

  /** All of a reply's registrations leave one fresh counter, with the throttle of the message. */
  lemma {:induction false} ReplyCounters(counters: map<string, Sentinels.Counter>, m: Message, n: nat)
    requires Usable(m) && n <= |m.services|
    ensures Registrations(counters, ServiceEvents(m, n)) ==
            if n == 0 then counters
            else counters[m.name + ":" + Decimal(m.host.value.port) := Sentinels.Counter(m.host.value.throttle, 0)]
  {
    if n > 0 {
      ReplyCounters(counters, m, n - 1);
      ItemCounters(counters, m, n);
      SetTwice(counters, m.name + ":" + Decimal(m.host.value.port), Sentinels.Counter(m.host.value.throttle, 0));
    }
  }

  /** The service a reply announces with one of its items. */
  lemma ServiceIs(m: Message, i: nat)
    requires Usable(m) && i < |m.services|
    ensures var h, item := m.host.value, m.services[i];
      ServiceOf(m, item) ==
        BackendService(BackendServer(m.name, h.ip, h.port, h.comment, h.load, h.throttle),
                       item.uri, item.lastUpdate, item.allowCache, m.seqnum, item.isPrefix == Some(true))
  {
  }

  /** Item by item: the service under its own URI and then under the one that names the host. */
  lemma {:induction false} ServiceEventsAre(m: Message, n: nat, i: nat)
    requires Usable(m) && i < n <= |m.services|
    ensures var item, load := m.services[i], m.host.value.load;
      && |ServiceEvents(m, n)| == 2 * n
      && ServiceEvents(m, n)[2 * i] == Add(ServiceOf(m, item), item.uri, load)
      && ServiceEvents(m, n)[2 * i + 1] == Add(ServiceOf(m, item), "/" + m.name + item.uri, load)
  {
    var before, item, load := ServiceEvents(m, n - 1), m.services[n - 1], m.host.value.load;
    ServiceEventsStamped(m, n - 1);
    var service := ServiceOf(m, item);
    TwoAtEnd(before, Add(service, item.uri, load), Add(service, "/" + m.name + item.uri, load), i);
    if i < n - 1 { ServiceEventsAre(m, n - 1, i); }
  }

  lemma TwoAtEnd<T>(s: seq<T>, x: T, y: T, i: nat)
    requires |s| % 2 == 0 && 2 * i <= |s|
    ensures var t := s + [x] + [y];
      && t[2 * i] == (if 2 * i < |s| then s[2 * i] else x)
      && t[2 * i + 1] == (if 2 * i < |s| then s[2 * i + 1] else y)
  {
  }

  lemma {:induction false} RequestEventsAre(m: Message, n: nat, i: nat)
    requires Usable(m) && i < n <= |m.infoQueries|
    ensures var h, query := m.host.value, m.infoQueries[i];
      && |RequestEvents(m, n)| == n
      && RequestEvents(m, n)[i] ==
           AddRequest(InfoRequest(BackendServer(m.name, h.ip, h.port, h.comment, h.load, h.throttle),
                                  query.name, query.lastUpdate, m.seqnum))
  {
    RequestEventsStamped(m, n - 1);
    if i < n - 1 { RequestEventsAre(m, n - 1, i); }
  }

  /** The steps of an accepted reply, each given by the fields of the message: service by service its
      own URI and the URI that names the host ... */
  lemma ServiceStep(m: Message, i: nat)
    requires Usable(m) && i < |m.services|
    ensures var events, item, load := ReplyEvents(m), m.services[i], m.host.value.load;
      && |events| == 2 * |m.services| + |m.infoQueries| + 1
      && events[2 * i] == Add(ServiceOf(m, item), item.uri, load)
      && events[2 * i + 1] == Add(ServiceOf(m, item), "/" + m.name + item.uri, load)
  {
    RequestEventsStamped(m, |m.infoQueries|);
    ServiceEventsAre(m, |m.services|, i);
  }

  /** ... then query by query ... */
  lemma QueryStep(m: Message, i: nat)
    requires Usable(m) && i < |m.infoQueries|
    ensures var h, query := m.host.value, m.infoQueries[i];
      && |ReplyEvents(m)| == 2 * |m.services| + |m.infoQueries| + 1
      && ReplyEvents(m)[2 * |m.services| + i] ==
           AddRequest(InfoRequest(BackendServer(m.name, h.ip, h.port, h.comment, h.load, h.throttle),
                                  query.name, query.lastUpdate, m.seqnum))
  {
    ServiceEventsStamped(m, |m.services|);
    RequestEventsAre(m, |m.infoQueries|, i);
  }

  /** ... and the acceptance. */
  lemma LastStep(m: Message)
    requires Usable(m)
    ensures |ReplyEvents(m)| == 2 * |m.services| + |m.infoQueries| + 1
    ensures ReplyEvents(m)[2 * |m.services| + |m.infoQueries|] == Accept
  {
    ServiceEventsStamped(m, |m.services|);
    RequestEventsStamped(m, |m.infoQueries|);
  }

  // ----- The state after a reply -----

  /** Every list of the one goes on, at its end, in the other. */
  ghost predicate Grows(s: Frontend, t: Frontend) {
    && s.table.Keys <= t.table.Keys && s.requests.Keys <= t.requests.Keys
    && (forall u :: u in s.table ==>
         s.table[u].services <= t.table[u].services && s.table[u].infos <= t.table[u].infos)
    && forall name :: name in s.requests ==> s.requests[name] <= t.requests[name]
  }

  lemma GrowsOn(s: Frontend, t: Frontend, v: Frontend)
    requires Grows(s, t) && Grows(t, v)
    ensures Grows(s, v)
  {
    forall u | u in s.table
      ensures s.table[u].services <= v.table[u].services && s.table[u].infos <= v.table[u].infos
    {
      assert u in t.table;
    }
    forall name | name in s.requests ensures s.requests[name] <= v.requests[name] {
      assert name in t.requests;
    }
  }

  predicate Filing(e: Event) {
    e.Add? || e.AddRequest? || e.Accept?
  }

  /** The service, its load and the request are where the event says. */
  ghost predicate Filed(t: Frontend, e: Event) {
    match e
    case Add(service, uri, load) =>
      && uri in t.table && service in t.table[uri].services
      && BackendInfo(service.backend.name, service.backend.port, load) in t.table[uri].infos
    case AddRequest(request) =>
      request.name in t.requests && request in t.requests[request.name]
    case _ => true
  }

  lemma FiledOn(t: Frontend, v: Frontend, e: Event)
    requires Filed(t, e) && Grows(t, v)
    ensures Filed(v, e)
  {
  }

  lemma StepFiles(s: Frontend, e: Event, maxSkipped: nat, range: nat)
    requires Filing(e)
    ensures Grows(s, Step(s, e, maxSkipped, range)) && Filed(Step(s, e, maxSkipped, range), e)
  {
  }

  lemma {:induction false} RunFiles(s: Frontend, events: seq<Event>, maxSkipped: nat, range: nat, i: nat)
    requires forall k :: 0 <= k < |events| ==> Filing(events[k])
    requires i <= |events|
    ensures Grows(s, RunFrom(s, events, maxSkipped, range))
    ensures i < |events| ==> Filed(RunFrom(s, events, maxSkipped, range), events[i])
  {
    if events != [] {
      var n := |events| - 1;
      var before := RunFrom(s, events[..n], maxSkipped, range);
      RunFiles(s, events[..n], maxSkipped, range, if i < n then i else n);
      StepFiles(before, events[n], maxSkipped, range);
      GrowsOn(s, before, RunFrom(s, events, maxSkipped, range));
      if i < n { FiledOn(before, RunFrom(s, events, maxSkipped, range), events[i]); }
    }
  }

  ghost predicate Listed(s: Frontend, u: string, x: BackendService) {
    u in s.table && x in s.table[u].services
  }

  ghost predicate Queried(s: Frontend, name: string, r: InfoRequest) {
    name in s.requests && r in s.requests[name]
  }

  lemma StepFilesOnly(s: Frontend, e: Event, maxSkipped: nat, range: nat, u: string, x: BackendService, r: InfoRequest)
    requires Filing(e)
    ensures var t := Step(s, e, maxSkipped, range);
      && (Listed(t, u, x) ==> Listed(s, u, x) || (e.Add? && e.service == x && e.uri == u))
      && (Queried(t, u, r) ==> Queried(s, u, r) || (e == AddRequest(r) && r.name == u))
  {
  }

  lemma {:induction false} RunFilesOnly(s: Frontend, events: seq<Event>, maxSkipped: nat, range: nat,
                                        u: string, x: BackendService, r: InfoRequest)
    requires forall k :: 0 <= k < |events| ==> Filing(events[k])
    ensures var t := RunFrom(s, events, maxSkipped, range);
      && (Listed(t, u, x) ==> Listed(s, u, x) || exists k :: 0 <= k < |events| && Adds(events[k], u, x))
      && (Queried(t, u, r) ==> Queried(s, u, r) || (r.name == u && AddRequest(r) in events))
  {
    if events != [] {
      var n := |events| - 1;
      RunFilesOnly(s, events[..n], maxSkipped, range, u, x, r);
      StepFilesOnly(RunFrom(s, events[..n], maxSkipped, range), events[n], maxSkipped, range, u, x, r);
      if k :| 0 <= k < n && Adds(events[..n][k], u, x) {
        assert Adds(events[k], u, x);
      }
    }
  }

  predicate Adds(e: Event, u: string, x: BackendService) {
    e.Add? && e.service == x && e.uri == u
  }

  lemma ReplyFiling(m: Message)
    requires Usable(m)
    ensures forall k :: 0 <= k < |ReplyEvents(m)| ==> Filing(ReplyEvents(m)[k])
  {
    ServiceEventsStamped(m, |m.services|);
    RequestEventsStamped(m, |m.infoQueries|);
    assert forall k :: 0 <= k < |ReplyEvents(m)| ==> ReplyEvents(m)[k] in ReplyEvents(m);
  }

  /** After an accepted reply each of its services is listed under its URI and under the URI that
      names the host, with the load of the message in the forwarders, each query is filed under its
      name, and every list begins as before. */
  lemma ReplyFiles(s: Frontend, m: Message, maxSkipped: nat, i: nat)
    requires Usable(m)
    ensures var t := RunFrom(s, ReplyEvents(m), maxSkipped, SEQUENCE_RANGE);
      && Grows(s, t)
      && (i < |m.services| ==>
           var h, item := m.host.value, m.services[i];
           var own, direct := item.uri, "/" + m.name + item.uri;
           && own in t.table && ServiceOf(m, item) in t.table[own].services
           && BackendInfo(m.name, h.port, h.load) in t.table[own].infos
           && direct in t.table && ServiceOf(m, item) in t.table[direct].services
           && BackendInfo(m.name, h.port, h.load) in t.table[direct].infos)
      && (i < |m.infoQueries| ==>
           var h, query := m.host.value, m.infoQueries[i];
           query.name in t.requests &&
           InfoRequest(BackendServer(m.name, h.ip, h.port, h.comment, h.load, h.throttle),
                       query.name, query.lastUpdate, m.seqnum) in t.requests[query.name])
  {
    ReplyFiling(m);
    var events := ReplyEvents(m);
    RunFiles(s, events, maxSkipped, SEQUENCE_RANGE, 0);
    if i < |m.services| {
      ServiceStep(m, i);
      RunFiles(s, events, maxSkipped, SEQUENCE_RANGE, 2 * i);
      RunFiles(s, events, maxSkipped, SEQUENCE_RANGE, 2 * i + 1);
    }
    if i < |m.infoQueries| {
      QueryStep(m, i);
      RunFiles(s, events, maxSkipped, SEQUENCE_RANGE, 2 * |m.services| + i);
    }
  }

  /** And nothing else is listed or filed that was not before. */
  lemma ReplyFilesOnly(s: Frontend, m: Message, maxSkipped: nat, u: string, x: BackendService, r: InfoRequest)
    requires Usable(m)
    ensures var t := RunFrom(s, ReplyEvents(m), maxSkipped, SEQUENCE_RANGE);
      && (u in t.table && x in t.table[u].services ==>
           || (u in s.table && x in s.table[u].services)
           || exists i :: 0 <= i < |m.services| && x == ServiceOf(m, m.services[i]) &&
                          (u == m.services[i].uri || u == "/" + m.name + m.services[i].uri))
      && (u in t.requests && r in t.requests[u] ==>
           || (u in s.requests && r in s.requests[u])
           || exists i :: 0 <= i < |m.infoQueries| && r == RequestOf(m, m.infoQueries[i]) && u == m.infoQueries[i].name)
  {
    ReplyFiling(m);
    var events := ReplyEvents(m);
    RunFilesOnly(s, events, maxSkipped, SEQUENCE_RANGE, u, x, r);
    if k :| 0 <= k < |events| && Adds(events[k], u, x) {
      WhichService(m, k);
    }
    if AddRequest(r) in events {
      var k :| 0 <= k < |events| && events[k] == AddRequest(r);
      WhichQuery(m, k);
    }
  }

  lemma WhichPart(m: Message, k: nat)
    requires Usable(m) && k < |ReplyEvents(m)|
    ensures |ReplyEvents(m)| == 2 * |m.services| + |m.infoQueries| + 1
    ensures ReplyEvents(m)[k].Add? <==> k < 2 * |m.services|
    ensures ReplyEvents(m)[k].AddRequest? <==> 2 * |m.services| <= k < 2 * |m.services| + |m.infoQueries|
  {
    var n := |m.services|;
    ServiceEventsStamped(m, n);
    RequestEventsStamped(m, |m.infoQueries|);
    if k < 2 * n {
      assert ReplyEvents(m)[k] == ServiceEvents(m, n)[k] && ServiceEvents(m, n)[k] in ServiceEvents(m, n);
    } else if k < 2 * n + |m.infoQueries| {
      var requests := RequestEvents(m, |m.infoQueries|);
      assert ReplyEvents(m)[k] == requests[k - 2 * n] && requests[k - 2 * n] in requests;
    }
  }

  lemma WhichService(m: Message, k: nat)
    requires Usable(m) && k < |ReplyEvents(m)| && ReplyEvents(m)[k].Add?
    ensures var e := ReplyEvents(m)[k];
      exists i :: 0 <= i < |m.services| && e.service == ServiceOf(m, m.services[i]) &&
                  (e.uri == m.services[i].uri || e.uri == "/" + m.name + m.services[i].uri)
  {
    WhichPart(m, k);
    var i := k / 2;
    assert k == 2 * i || k == 2 * i + 1;
    ServiceStep(m, i);
  }

  lemma WhichQuery(m: Message, k: nat)
    requires Usable(m) && k < |ReplyEvents(m)| && ReplyEvents(m)[k].AddRequest?
    ensures exists i :: 0 <= i < |m.infoQueries| && ReplyEvents(m)[k].request == RequestOf(m, m.infoQueries[i])
  {
    WhichPart(m, k);
    var i := k - 2 * |m.services|;
    QueryStep(m, i);
    assert ReplyEvents(m)[k].request == RequestOf(m, m.infoQueries[i]);
  }

  lemma {:induction false} RunCounts(s: Frontend, events: seq<Event>, maxSkipped: nat, range: nat)
    requires forall k :: 0 <= k < |events| ==> events[k].Add? || events[k].AddRequest?
    ensures var t := RunFrom(s, events, maxSkipped, range);
      && t.sequence == s.sequence && t.received == s.received && t.skipped == s.skipped
      && t.listening == s.listening && t.running == s.running
  {
    if events != [] { RunCounts(s, events[..|events| - 1], maxSkipped, range); }
  }

  /** A whole reply, whatever it registers, counts as one. */
  lemma ReplyCounts(s: Frontend, m: Message, maxSkipped: nat)
    requires Usable(m)
    ensures var t := RunFrom(s, ReplyEvents(m), maxSkipped, SEQUENCE_RANGE);
      && t.sequence == s.sequence && t.received == s.received + 1 && t.skipped == s.skipped
      && t.listening == s.listening && t.running == s.running && !t.replying
  {
    var events := ServiceEvents(m, |m.services|) + RequestEvents(m, |m.infoQueries|);
    RunSnoc(s, events, Accept, maxSkipped, SEQUENCE_RANGE);
    forall k | 0 <= k < |events| ensures events[k].Add? || events[k].AddRequest? {
      WhichPart(m, k);
      assert ReplyEvents(m)[k] == events[k];
    }
    RunCounts(s, events, maxSkipped, SEQUENCE_RANGE);
  }
}

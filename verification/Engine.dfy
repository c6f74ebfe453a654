/** The frontend engine: discovery rounds, replies and deadlines over the routing state. */
module Engine {
  import opened Entities
  import opened Protocol
  import opened Messages
  import Replies
  import Forwarders
  import ServicesModule = Services
  import Sentinels
  import Text

  datatype Outcome = Ignored | Failed | Accepted

  class Engine {
    const hostname: string
    const maxSkippedCycles: nat
    const services: ServicesModule.Services
    var frontendSequence: nat
    var receivedResponses: nat
    var skippedCycles: nat
    // Where the io thread is.
    ghost var listening: bool
    ghost var replying: bool
    ghost var running: bool

    ghost predicate Valid()
      reads this, services, services.Repr
    {
      services.Valid() && this !in services.Repr
    }

    /** The machine state this engine is in. */
    ghost function View(): Frontend
      reads this, services
    {
      Frontend(services.state.table, services.state.requests, services.state.prefixes,
               frontendSequence, receivedResponses, skippedCycles, listening, replying, running)
    }

    /** The sentinel counters, which the machine does not need. */
    ghost function Counters(): map<string, Sentinels.Counter>
      reads services
    {
      services.state.counters
    }

    constructor (hostname: string, maxSkippedCycles: nat, mode: ForwardingMode, balanceFactor: real,
            stickyCookie: string)
      requires Forwarders.Sound(mode, balanceFactor)
      ensures Valid() && fresh(services.Repr)
      ensures View() == START && Counters() == map[]
      ensures View() == Frontend(map[], map[], map[], 0, 0, 0, false, false, true)
      ensures this.hostname == hostname && this.maxSkippedCycles == maxSkippedCycles
      ensures services.rows.mode == mode && services.rows.coefficient == balanceFactor &&
          services.rows.cookieName == stickyCookie
    {
      this.hostname := hostname;
      this.maxSkippedCycles := maxSkippedCycles;
      services := new ServicesModule.Services(mode, balanceFactor, stickyCookie);
      frontendSequence, receivedResponses, skippedCycles := 0, 0, 0;
      listening, replying, running := false, false, true;
    }

    /** Starts a discovery round with the next sequence number. */
    method StartServiceDiscovery() returns (request: Message)
      modifies this`frontendSequence, this`listening
      ensures View() == Step(old(View()), Discover, maxSkippedCycles, SEQUENCE_RANGE)
      ensures frontendSequence == (old(frontendSequence) + 1) % 65535
      ensures request == Message(hostname, DiscoveryRequest, frontendSequence, None, [], [])
    {
      frontendSequence := (frontendSequence + 1) % 65535;
      listening := true;
      request := Discovery(hostname, frontendSequence);
    }

    /** Prunes by the current sequence number. */
    method Prune(connections: Connections)
      requires Valid()
      modifies this`skippedCycles, services.Repr
      ensures Valid() && services.Repr == old(services.Repr)
      ensures services.state == ServicesModule.AfterPrune(old(services.state), frontendSequence) && skippedCycles == 0
    {
      services.LatestSequence(frontendSequence, connections);
      skippedCycles := 0;
    }

    /** The deadline: prunes if something was received or too many cycles were silent. */
    method EndCycle(connections: Connections)
      requires Valid()
      modifies this`receivedResponses, this`skippedCycles, this`listening, services.Repr
      ensures Valid() && services.Repr == old(services.Repr) && Counters() == old(Counters())
      ensures View() == Step(old(View()), Deadline, maxSkippedCycles, SEQUENCE_RANGE)
    {
      if receivedResponses > 0 {
        Prune(connections);
      } else {
        skippedCycles := skippedCycles + 1;
        if skippedCycles > maxSkippedCycles {
          Prune(connections);
        }
      }
      receivedResponses := 0;
      listening := false;
    }

    /** The deadline handler ends the cycle and, after the heartbeat interval, starts the next.
        A cancelled timer does nothing. */
    method HandleDeadlineTimer(aborted: bool, connections: Connections) returns (request: Option<Message>)
      requires Valid()
      modifies this`frontendSequence, this`receivedResponses, this`skippedCycles, this`listening,
               services.Repr
      ensures Valid() && services.Repr == old(services.Repr) && Counters() == old(Counters())
      ensures View() ==
        if aborted then old(View())
        else Step(Step(old(View()), Deadline, maxSkippedCycles, SEQUENCE_RANGE), Discover, maxSkippedCycles,
            SEQUENCE_RANGE)
      ensures request ==
        if aborted then None else Some(Message(hostname, DiscoveryRequest, frontendSequence, None, [], []))
      ensures !aborted ==> frontendSequence == (old(frontendSequence) + 1) % 65535
    {
      if aborted {
        return None;
      }
      EndCycle(connections);
      var next := StartServiceDiscovery();
      request := Some(next);
    }

    /** One registration of a reply being processed. */
    method Register(service: BackendService, uri: string, connections: Connections)
      requires Valid()
      modifies this`replying, services.Repr
      ensures Valid()
      ensures View() == Step(old(View()), Add(service, uri, service.backend.load), maxSkippedCycles, SEQUENCE_RANGE)
      ensures Counters() == Registered(old(Counters()), Add(service, uri, service.backend.load))
      ensures (forall o :: o in services.Repr ==> o in old(services.Repr) || fresh(o))
    {
      services.AddService(service, uri, service.backend.load, service.backend.throttle, connections);
      replying := true;
    }

    /** Registers every service of a reply. */
    method RegisterServices(message: Message, connections: Connections)
      requires Valid() && Usable(message)
      modifies this`replying, services.Repr
      ensures Valid()
      ensures View() ==
          RunFrom(old(View()), ServiceEvents(message, |message.services|), maxSkippedCycles, SEQUENCE_RANGE)
      ensures Counters() == Registrations(old(Counters()), ServiceEvents(message, |message.services|))
      ensures message.services != [] ==>
        Counters() == old(Counters())[message.name + ":" + Text.Decimal(message.host.value.port) :=
                                        Sentinels.Counter(message.host.value.throttle, 0)]
      ensures (forall o :: o in services.Repr ==> o in old(services.Repr) || fresh(o))
    {
      ghost var counters := Counters();
      for i := 0 to |message.services|
        invariant Valid()
        invariant View() == RunFrom(old(View()), ServiceEvents(message, i), maxSkippedCycles, SEQUENCE_RANGE)
        invariant Counters() == Registrations(old(Counters()), ServiceEvents(message, i))
        invariant (forall o :: o in services.Repr ==> o in old(services.Repr) || fresh(o))
      {
        RegisterItem(message, i, connections, old(View()), old(Counters()));
      }
      Replies.ReplyCounters(counters, message, |message.services|);
    }

    /** Registers one service under its own URI and under the URI that names the host. */
    method RegisterItem(message: Message, i: nat, connections: Connections,
                        ghost start: Frontend, ghost counters: map<string, Sentinels.Counter>)
      requires Valid() && Usable(message) && i < |message.services|
      requires View() == RunFrom(start, ServiceEvents(message, i), maxSkippedCycles, SEQUENCE_RANGE)
      requires Counters() == Registrations(counters, ServiceEvents(message, i))
      modifies this`replying, services.Repr
      ensures Valid()
      ensures View() == RunFrom(start, ServiceEvents(message, i + 1), maxSkippedCycles, SEQUENCE_RANGE)
      ensures Counters() == Registrations(counters, ServiceEvents(message, i + 1))
      ensures (forall o :: o in services.Repr ==> o in old(services.Repr) || fresh(o))
    {
      var item := message.services[i];
      var service := ServiceOf(message, item);
      var directUri := "/" + message.name + item.uri;
      ghost var events := ServiceEvents(message, i);
      ghost var one, two := Add(service, item.uri, service.backend.load), Add(service, directUri, service.backend.load);
      TwoMore(start, counters, events, one, two, maxSkippedCycles);
      Register(service, item.uri, connections);
      Register(service, directUri, connections);
    }

    /** Registers every info query of a reply. */
    method RegisterInfoQueries(message: Message)
      requires Valid() && Usable(message)
      modifies this`replying, services.Repr
      ensures Valid() && services.Repr == old(services.Repr) && Counters() == old(Counters())
      ensures View() ==
          RunFrom(old(View()), RequestEvents(message, |message.infoQueries|), maxSkippedCycles, SEQUENCE_RANGE)
    {
      for i := 0 to |message.infoQueries|
        invariant Valid() && services.Repr == old(services.Repr) && Counters() == old(Counters())
        invariant View() == RunFrom(old(View()), RequestEvents(message, i), maxSkippedCycles, SEQUENCE_RANGE)
      {
        var request := RequestOf(message, message.infoQueries[i]);
        RunSnoc(old(View()), RequestEvents(message, i), AddRequest(request), maxSkippedCycles, SEQUENCE_RANGE);
        RegisterQuery(request);
      }
    }

    method RegisterQuery(request: InfoRequest)
      requires Valid()
      modifies this`replying, services.Repr
      ensures Valid() && services.Repr == old(services.Repr) && Counters() == old(Counters())
      ensures View() == Step(old(View()), AddRequest(request), maxSkippedCycles, SEQUENCE_RANGE)
    {
      services.AddBackendInfoRequest(request);
      replying := true;
    }

    /** Takes a reply apart into registrations. A negative throttle throws before anything is
        added, and the exception ends the io thread and with it the process. */
    method ProcessReply(message: Message, connections: Connections) returns (outcome: Outcome)
      requires Valid()
      modifies this`replying, this`receivedResponses, this`running, services.Repr
      ensures Valid()
      ensures outcome ==
        if message.messageType != DiscoveryReply || message.host.None? || message.services == [] then Ignored
        else if message.host.value.throttle < 0 then Failed
        else Accepted
      ensures outcome != Accepted ==> Counters() == old(Counters())
      ensures outcome == Ignored ==> View() == old(View())
      ensures outcome == Failed ==> View() == Step(old(View()), Crash, maxSkippedCycles, SEQUENCE_RANGE)
      ensures outcome == Failed ==> View() == old(View()).(running := false)
      ensures outcome == Accepted ==>
        && View() == RunFrom(old(View()), ReplyEvents(message), maxSkippedCycles, SEQUENCE_RANGE)
        && Counters() == old(Counters())[message.name + ":" + Text.Decimal(message.host.value.port) :=
                                           Sentinels.Counter(message.host.value.throttle, 0)]
    {
      if message.messageType != DiscoveryReply {
        return Ignored;
      }
      if message.host.None? || |message.services| == 0 {
        return Ignored;
      }
      if message.host.value.throttle < 0 {
        running := false;
        return Failed;
      }
      AcceptReply(message, connections);
      outcome := Accepted;
    }

    /** The registrations of a reply and its acceptance. */
    method AcceptReply(message: Message, connections: Connections)
      requires Valid() && Usable(message)
      modifies this`replying, this`receivedResponses, services.Repr
      ensures Valid()
      ensures View() == RunFrom(old(View()), ReplyEvents(message), maxSkippedCycles, SEQUENCE_RANGE)
      ensures Counters() == old(Counters())[message.name + ":" + Text.Decimal(message.host.value.port) :=
                                              Sentinels.Counter(message.host.value.throttle, 0)]
    {
      ReplyParts(View(), message, maxSkippedCycles);
      RegisterServices(message, connections);
      RegisterInfoQueries(message);
      CountReply();
    }

    method CountReply()
      requires Valid()
      modifies this`replying, this`receivedResponses
      ensures Valid() && Counters() == old(Counters())
      ensures View() == Step(old(View()), Accept, maxSkippedCycles, SEQUENCE_RANGE)
    {
      receivedResponses := receivedResponses + 1;
      replying := false;
    }

    /** Services::removeBackend, as other threads call it; the restart ends the run. */
    method RemoveBackend(host: string, port: int, uri: string, connections: Connections)
      requires Valid()
      modifies this`running, services.Repr
      ensures Valid() && Counters() == old(Counters())
      ensures View() == Step(old(View()), Evict(host, port, uri), maxSkippedCycles, SEQUENCE_RANGE)
      ensures forall u, s {:trigger multiset(View().table[u].services)[s]} :: u in View().table ==>
        multiset(View().table[u].services)[s] ==
          if s.backend.name == host && s.backend.port == port && (uri == "" || uri == s.uri) then 0
          else multiset(old(View()).table[u].services)[s]
      ensures uri == "" ==> forall u, x :: u in View().table && x in View().table[u].infos ==>
        x.hostName != host || x.port != port
      ensures running <==> exists u :: u in View().table && View().table[u].services != []
    {
      EvictStep(View(), services.state, host, port, uri, maxSkippedCycles);
      var restart := services.RemoveBackend(host, port, uri, connections);
      running := !restart;
    }

    /** Only a connection that ended well shows that the backend is alive. */
    method SetBackendAlive(host: string, port: int, exitOk: bool)
      requires Valid()
      modifies services.Repr
      ensures Valid() && View() == old(View())
      ensures Counters() ==
        if exitOk then Sentinels.Apply(old(Counters()), Text.Rendered(host, port),
            Sentinels.Answered(BackendKey(host, port)))
        else old(Counters())
      ensures var name, counters := host + ":" + Text.Decimal(port), old(Counters());
        Counters() ==
          if exitOk && name in counters then counters[name := Sentinels.Counter(counters[name].throttle, 0)]
          else counters
    {
      if exitOk {
        services.SetBackendAlive(host, port);
      }
    }

    /** Exactly the discovery requests are answered, by a reply that echoes the request's number
        and says what the backend is and serves; the frontend takes any answer with services. */
    method ProcessRequest(advert: Advert, message: Message) returns (response: Option<Message>)
      ensures response.Some? <==> message.messageType == DiscoveryRequest
      ensures response.Some? ==>
        && response.value.messageType == DiscoveryReply && response.value.seqnum == message.seqnum
        && response.value.name == advert.name && response.value.host == Some(advert.host)
        && response.value.services == advert.services && response.value.infoQueries == advert.infoQueries
      ensures response.Some? ==> (Acceptable(response.value) <==> advert.services != [])
    {
      if message.messageType == DiscoveryRequest {
        response := Some(Message(advert.name, DiscoveryReply, message.seqnum, Some(advert.host), advert.services,
            advert.infoQueries));
      } else {
        response := None;
      }
    }
  }

  /** The eviction step of the machine is the eviction of the routing state. */
  lemma EvictStep(s: Frontend, r: ServicesModule.Routing, host: string, port: int, uri: string, maxSkipped: nat)
    requires s.table == r.table && s.requests == r.requests && s.prefixes == r.prefixes
    ensures var after := ServicesModule.AfterEvict(r, host, port, uri);
            Step(s, Evict(host, port, uri), maxSkipped, SEQUENCE_RANGE) ==
              s.(table := after.table, prefixes := after.prefixes,
                 running := !ServicesModule.AllListsEmpty(after.table))
  {
  }

  lemma TwoMore(start: Frontend, counters: map<string, Sentinels.Counter>, events: seq<Event>, one: Event,
          two: Event, maxSkipped: nat)
    ensures RunFrom(start, events + [one] + [two], maxSkipped, SEQUENCE_RANGE) ==
            Step(Step(RunFrom(start, events, maxSkipped, SEQUENCE_RANGE), one, maxSkipped, SEQUENCE_RANGE), two,
                maxSkipped, SEQUENCE_RANGE)
    ensures Registrations(counters, events + [one] + [two]) ==
        Registered(Registered(Registrations(counters, events), one), two)
  {
    RunSnoc(start, events, one, maxSkipped, SEQUENCE_RANGE);
    RunSnoc(start, events + [one], two, maxSkipped, SEQUENCE_RANGE);
    assert (events + [one])[..|events|] == events;
    assert (events + [one] + [two])[..|events| + 1] == events + [one];
  }

  lemma {:induction false} RunConcat(s: Frontend, a: seq<Event>, b: seq<Event>, maxSkipped: nat, range: nat)
    ensures RunFrom(s, a + b, maxSkipped, range) == RunFrom(RunFrom(s, a, maxSkipped, range), b, maxSkipped, range)
  {
    if b == [] {
      assert a + b == a;
    } else {
      assert (a + b)[..|a + b| - 1] == a + b[..|b| - 1];
      RunConcat(s, a, b[..|b| - 1], maxSkipped, range);
    }
  }

  /** A reply's steps are its services, then its info queries, then the acceptance. */
  lemma ReplyParts(s: Frontend, m: Message, maxSkipped: nat)
    requires Usable(m)
    ensures RunFrom(s, ReplyEvents(m), maxSkipped, SEQUENCE_RANGE) ==
            Step(RunFrom(RunFrom(s, ServiceEvents(m, |m.services|), maxSkipped, SEQUENCE_RANGE),
                         RequestEvents(m, |m.infoQueries|), maxSkipped, SEQUENCE_RANGE), Accept, maxSkipped,
                             SEQUENCE_RANGE)
  {
    var a, b := ServiceEvents(m, |m.services|), RequestEvents(m, |m.infoQueries|);
    RunConcat(s, a, b, maxSkipped, SEQUENCE_RANGE);
    RunSnoc(s, a + b, Accept, maxSkipped, SEQUENCE_RANGE);
  }
}

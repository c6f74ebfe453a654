/** The routing state of the frontend: services by URI, prefixes, info requests, sentinels. */
module Services {
  import opened Entities
  import opened Text
  import opened RoutingTable
  import opened PrefixMap
  import opened Forwarders
  import opened ServiceMap
  import Sentinels

  function Ids(services: seq<BackendService>): set<string> {
    if services == [] then {}
    else Ids(services[..|services| - 1]) + {ServiceId(services[|services| - 1])}
  }

  /** The ids of the services listed for the URIs outside the given set. */
  ghost function IdsOutside(table: Table, todo: set<string>): set<string> {
    set u, x | u in table && u !in todo && x in Ids(table[u].services) :: x
  }

  /** The ids of all listed services. */
  ghost function ListedIds(table: Table): set<string> {
    IdsOutside(table, {})
  }

  lemma IdsOutsideNext(table: Table, todo: set<string>, u: string)
    requires u in todo && u in table
    ensures IdsOutside(table, todo - {u}) == IdsOutside(table, todo) + Ids(table[u].services)
  {
  }

  ghost predicate AllListsEmpty(table: Table) {
    forall u :: u in table ==> table[u].services == []
  }

  /** The names some backend still offers. */
  function RequestNames(requests: InfoRequests): set<string> {
    set name | name in requests && requests[name] != []
  }

  datatype Found =
    | NothingKnown
    | ListEmpty
    | Service(service: BackendService, index: nat)

  /** What the lookup of a URI means, before the forwarder chooses. */
  ghost predicate Answers(found: Found, table: Table, prefixes: Prefixes, resource: string) {
    var uri := Translated(prefixes.Keys, resource);
    match found
    case NothingKnown => uri !in table
    case ListEmpty => uri in table && table[uri].services == []
    case Service(service, index) =>
      uri in table && index < |table[uri].services| && service == table[uri].services[index]
  }

  /** The routing state as one value. */
  datatype Routing = Routing(
    table: Table, requests: InfoRequests, prefixes: Prefixes, counters: map<string, Sentinels.Counter>)

  function PrefixesAfter(prefixes: Prefixes, service: BackendService, uri: string): Prefixes {
    if service.definesPrefix then Added(prefixes, uri, ServiceId(service)) else prefixes
  }

  /** One registration: a row, perhaps a prefix, and a fresh sentinel. */
  function AfterAdd(r: Routing, service: BackendService, uri: string, load: real, throttle: nat): Routing {
    Routing(ServiceAdded(r.table, uri, service, load), r.requests,
            PrefixesAfter(r.prefixes, service, uri),
            Sentinels.Apply(r.counters, Rendered(service.backend.name, service.backend.port),
                            Sentinels.Registered(service.Key(), throttle)))
  }

  /** Pruning leaves prefixes and sentinels alone. */
  function AfterPrune(r: Routing, sequence: int): Routing {
    Routing(SweptTable(r.table, Stale(sequence)), SweptRequests(r.requests, sequence), r.prefixes, r.counters)
  }

  /** One eviction: the prefix forgets the ids of all listed services, whoever's they are. */
  ghost function AfterEvict(r: Routing, host: string, port: int, uri: string): Routing {
    Routing(SweptTable(r.table, Evicted(host, port, uri)), r.requests,
            Without(r.prefixes, uri, ListedIds(r.table)), r.counters)
  }

  /** One registration, in full: the service and its load at the ends of the two lists of the URI,
      its "name:port:sequence" under the URI if it defines a prefix, a fresh counter, and no more. */
  lemma AfterAddMeans(r: Routing, service: BackendService, uri: string, load: real, throttle: nat)
    ensures var name := service.backend.name + ":" + Decimal(service.backend.port);
      var row := if uri in r.table then r.table[uri] else Row([], []);
      var ids := if uri in r.prefixes then r.prefixes[uri] else {};
      AfterAdd(r, service, uri, load, throttle) == Routing(
        r.table[uri := Row(row.services + [service],
                           row.infos + [BackendInfo(service.backend.name, service.backend.port, load)])],
        r.requests,
        if service.definesPrefix then r.prefixes[uri := ids + {name + ":" + Decimal(service.sequence)}] else r.prefixes,
        r.counters[name := Sentinels.Counter(throttle, 0)])
  {
  }

  lemma {:induction false} IdsMembers(services: seq<BackendService>, s: BackendService)
    requires s in services
    ensures ServiceId(s) in Ids(services)
  {
    var n := |services| - 1;
    if s != services[n] {
      assert s in services[..n];
      IdsMembers(services[..n], s);
    }
  }

  lemma {:induction false} IdHolder(services: seq<BackendService>, x: string) returns (s: BackendService)
    requires x in Ids(services)
    ensures s in services && x == ServiceId(s)
  {
    var n := |services| - 1;
    if x == ServiceId(services[n]) {
      s := services[n];
    } else {
      s := IdHolder(services[..n], x);
      assert s in services[..n];
    }
  }

  /** Exactly the "name:port:sequence" of the services in some list. */
  lemma ListedIdsMeans(table: Table, x: string)
    ensures x in ListedIds(table) <==>
      exists u, s :: u in table && s in table[u].services &&
                     x == s.backend.name + ":" + Decimal(s.backend.port) + ":" + Decimal(s.sequence)
  {
    if x in ListedIds(table) {
      var u :| u in table && x in Ids(table[u].services);
      var s := IdHolder(table[u].services, x);
    }
    if u, s :| u in table && s in table[u].services &&
               x == s.backend.name + ":" + Decimal(s.backend.port) + ":" + Decimal(s.sequence) {
      IdsMembers(table[u].services, s);
    }
  }

  lemma NothingLeft(a: set<string>, b: set<string>)
    ensures a - b == {} <==> a <= b
  {
    if a - b == {} {
      forall x | x in a ensures x in b { assert x !in a - b; }
    }
  }

  /** An eviction touches the prefix it names and no other, and that goes exactly when all the
      ids kept for it are of services listed somewhere, of whichever backend. */
  lemma PrefixLost(r: Routing, host: string, port: int, uri: string)
    ensures var after := AfterEvict(r, host, port, uri).prefixes;
            && (forall p :: p != uri ==>
                (p in after <==> p in r.prefixes) && (p in after ==> after[p] == r.prefixes[p]))
            && (uri in r.prefixes ==> (uri !in after <==> r.prefixes[uri] <= ListedIds(r.table)))
            && (uri in after ==> after[uri] == r.prefixes[uri] - ListedIds(r.table))
            && (uri !in r.prefixes ==> uri !in after)
  {
    if uri in r.prefixes {
      NothingLeft(r.prefixes[uri], ListedIds(r.table));
    }
  }

  /** So a removal that names one backend can take the prefix of another, which stays listed. */
  lemma OthersPrefixLost(r: Routing, u: string, s: BackendService, host: string, port: int)
    requires u in r.table && s in r.table[u].services && s.Key() != BackendKey(host, port)
    requires u in r.prefixes && r.prefixes[u] == {ServiceId(s)}
    ensures var after := AfterEvict(r, host, port, u);
            u in after.table && s in after.table[u].services && u !in after.prefixes
  {
    IdsMembers(r.table[u].services, s);
    assert ServiceId(s) in ListedIds(r.table);
    PrefixLost(r, host, port, u);
    KeptMembers(r.table[u].services, Evicted(host, port, u));
  }

  /** An eviction in terms of host, port and URI: exactly the services it names go from the lists,
      every other service keeps all its copies, and without a URI no forwarder holds the backend. */
  lemma EvictMeans(r: Routing, after: Routing, host: string, port: int, uri: string)
    requires AllBalanced(r.table) && after == AfterEvict(r, host, port, uri)
    ensures after.table.Keys == r.table.Keys && after.requests == r.requests && after.counters == r.counters
    ensures forall u, s {:trigger multiset(after.table[u].services)[s]} :: u in after.table ==>
      multiset(after.table[u].services)[s] ==
        if s.backend.name == host && s.backend.port == port && (uri == "" || uri == s.uri) then 0
        else multiset(r.table[u].services)[s]
    ensures uri == "" ==> forall u, x :: u in after.table && x in after.table[u].infos ==>
      x.hostName != host || x.port != port
  {
    EvictedContents(r.table, host, port, uri);
    EvictedForwarders(r.table, host, port);
  }

  class Services {
    const rows: ServiceURIMap
    const prefixMap: URIPrefixMap
    const sentinels: Sentinels.SentinelMap
    var infoRequests: InfoRequests
    ghost var state: Routing
    ghost var Repr: set<object>

    /** The parts are sound, and a registered prefix is always a known URI. */
    ghost predicate Consistent()
      reads this, rows, rows.forwarders, prefixMap, sentinels, sentinels.objects
    {
      && rows.Valid()
      && prefixMap.Valid() && prefixMap.prefixMap.Keys <= rows.table.Keys
      && sentinels.Valid()
    }

    ghost function Contents(): Routing
      reads this, rows, prefixMap, sentinels
    {
      Routing(rows.table, infoRequests, prefixMap.prefixMap, sentinels.counters)
    }

    /** Repr holds all parts, and the state is what they hold. */
    ghost predicate Valid()
      reads this, Repr
    {
      && {this, rows, prefixMap, sentinels} <= Repr
      && rows.forwarders <= Repr && sentinels.objects <= Repr
      && Consistent()
      && state == Contents()
    }

    constructor (mode: ForwardingMode, coefficient: real, cookieName: string)
      requires Sound(mode, coefficient)
      ensures Valid() && fresh(Repr)
      ensures state == Routing(map[], map[], map[], map[])
      ensures rows.mode == mode && rows.coefficient == coefficient && rows.cookieName == cookieName
    {
      rows := new ServiceURIMap(mode, coefficient, cookieName);
      prefixMap := new URIPrefixMap();
      sentinels := new Sentinels.SentinelMap();
      infoRequests := map[];
      state := Routing(map[], map[], map[], map[]);
      Repr := {this, rows, prefixMap, sentinels};
    }

    /** Brings the ghost state up to date after the parts changed. */
    ghost method Settle()
      requires Consistent() && {this, rows, prefixMap, sentinels} <= Repr
      modifies this`state, this`Repr
      ensures Valid() && state == Contents()
      ensures Repr == old(Repr) + rows.forwarders + sentinels.objects
    {
      state := Contents();
      Repr := Repr + rows.forwarders + sentinels.objects;
    }

    /** A known URI with backends always yields one of them: the index chosen from the
        forwarder's list is a valid position of the service list. */
    method GetService(request: Request, connections: Connections) returns (found: Found, draws: seq<nat>)
      requires Valid()
      modifies Repr
      ensures Valid() && state == old(state) && Repr == old(Repr)
      ensures Answers(found, state.table, state.prefixes, request.resource)
      ensures var uri := Translated(state.prefixes.Keys, request.resource);
        && (found == NothingKnown <==> uri !in state.table)
        && (found == ListEmpty <==> uri in state.table && state.table[uri].services == [])
        && (found.Service? ==>
             && found.index < |state.table[uri].services| == |state.table[uri].infos|
             && found.service == state.table[uri].services[found.index])
      ensures found.Service? ==>
        var uri := Translated(state.prefixes.Keys, request.resource);
        CanSelect(rows.mode, rows.coefficient, rows.cookieName, state.table[uri].infos, connections, request, draws,
            found.index)
      ensures found.Service? && rows.mode == LeastConnections ==>
        var infos := state.table[Translated(state.prefixes.Keys, request.resource)].infos;
        forall j :: 0 <= j < |infos| ==>
          Count(connections, BackendKey(infos[found.index].hostName, infos[found.index].port)) <=
          Count(connections, BackendKey(infos[j].hostName, infos[j].port))
    {
      var uriPrefix := prefixMap.Translate(request.resource);
      if uriPrefix !in rows.slots {
        return NothingKnown, [];
      }
      var backendList := rows.slots[uriPrefix].services;
      if backendList == [] {
        return ListEmpty, [];
      }
      var slot;
      slot, draws := Pick(uriPrefix, connections, request);
      found := Service(backendList[slot], slot);
      BalancedLengths(state.table[uriPrefix]);
      if rows.mode == LeastConnections {
        LeastSelects(rows.coefficient, rows.cookieName, state.table[uriPrefix].infos, connections, request, draws,
            slot);
      }
    }

    method Pick(uri: string, connections: Connections, request: Request) returns (slot: nat, draws: seq<nat>)
      requires Valid() && uri in state.table && state.table[uri].services != []
      modifies Repr
      ensures Valid() && state == old(state) && Repr == old(Repr)
      ensures slot < |state.table[uri].services|
      ensures CanSelect(rows.mode, rows.coefficient, rows.cookieName, state.table[uri].infos, connections, request,
          draws, slot)
    {
      slot, draws := Choose(uri, connections, request);
      Settle();
    }

    method Choose(uri: string, connections: Connections, request: Request) returns (slot: nat, draws: seq<nat>)
      requires Consistent() && uri in rows.table && rows.table[uri].services != []
      modifies rows.forwarders
      ensures Consistent() && Contents() == old(Contents())
      ensures slot < |rows.table[uri].services|
      ensures CanSelect(rows.mode, rows.coefficient, rows.cookieName, rows.table[uri].infos, connections, request,
          draws, slot)
    {
      slot, draws := rows.Select(uri, connections, request);
    }

    /** Adds a service under a URI and gives its backend a fresh sentinel. */
    method AddService(service: BackendService, uri: string, load: real, throttle: nat, connections: Connections)
      requires Valid()
      modifies Repr
      ensures Valid() && (forall o :: o in Repr ==> o in old(Repr) || fresh(o))
      ensures state == AfterAdd(old(state), service, uri, load, throttle)
    {
      File(service, uri, load, connections);
      Enrol(service, throttle);
    }

    method File(service: BackendService, uri: string, load: real, connections: Connections)
      requires Valid()
      modifies Repr
      ensures Valid() && (forall o :: o in Repr ==> o in old(Repr) || fresh(o))
      ensures state == old(state).(table := ServiceAdded(old(state.table), uri, service, load),
                                   prefixes := PrefixesAfter(old(state.prefixes), service, uri))
    {
      AddRow(service, uri, load, connections);
      Settle();
    }

    method Enrol(service: BackendService, throttle: nat)
      requires Valid()
      modifies Repr
      ensures Valid() && (forall o :: o in Repr ==> o in old(Repr) || fresh(o))
      ensures state == old(state).(counters :=
        Sentinels.Apply(old(state.counters), Rendered(service.backend.name, service.backend.port),
                        Sentinels.Registered(service.Key(), throttle)))
    {
      sentinels.Register(service.backend.name, service.backend.port, throttle);
      Settle();
    }

    method AddRow(service: BackendService, uri: string, load: real, connections: Connections)
      requires rows.Valid() && prefixMap.Valid() && prefixMap.prefixMap.Keys <= rows.table.Keys
      modifies rows`slots, rows`table, rows`forwarders, rows.forwarders, prefixMap
      ensures rows.Valid() && prefixMap.Valid() && prefixMap.prefixMap.Keys <= rows.table.Keys
      ensures rows.table == ServiceAdded(old(rows.table), uri, service, load)
      ensures prefixMap.prefixMap == PrefixesAfter(old(prefixMap.prefixMap), service, uri)
      ensures fresh(rows.forwarders - old(rows.forwarders))
    {
      if service.definesPrefix {
        prefixMap.AddPrefix(uri, service);
      }
      rows.Add(uri, service, load, connections);
    }

    /** Drops every service and info request that does not carry the given sequence number. */
    method LatestSequence(sequence: int, connections: Connections)
      requires Valid()
      modifies Repr
      ensures Valid() && Repr == old(Repr)
      ensures state == AfterPrune(old(state), sequence)
      ensures state.table.Keys == old(state).table.Keys && state.requests.Keys == old(state).requests.Keys
      ensures forall u, s {:trigger multiset(state.table[u].services)[s]} :: u in state.table ==>
        multiset(state.table[u].services)[s] ==
          if s.sequence == sequence then multiset(old(state).table[u].services)[s] else 0
      ensures forall name, r {:trigger multiset(state.requests[name])[r]} :: name in state.requests ==>
        multiset(state.requests[name])[r] ==
          if r.sequence == sequence then multiset(old(state).requests[name])[r] else 0
      ensures state.prefixes == old(state).prefixes && state.counters == old(state).counters
    {
      StaleContents(state.table, sequence);
      SweptRequestsContents(state.requests, sequence);
      rows.Sweep(Stale(sequence), connections);
      SweepRequests(sequence);
      Settle();
    }

    method SweepRequests(sequence: int)
      modifies this`infoRequests
      ensures infoRequests == SweptRequests(old(infoRequests), sequence)
    {
      var todo := infoRequests.Keys;
      while todo != {}
        invariant infoRequests.Keys == old(infoRequests.Keys) && todo <= infoRequests.Keys
        invariant forall n :: n in infoRequests ==>
                    infoRequests[n] == if n in todo then old(infoRequests)[n]
                        else KeptRequests(old(infoRequests)[n], sequence)
        decreases todo
      {
        var name :| name in todo;
        var kept := EraseRequests(infoRequests[name], sequence);
        infoRequests := infoRequests[name := kept];
        todo := todo - {name};
      }
    }

    method EraseRequests(requests: seq<InfoRequest>, sequence: int) returns (list: seq<InfoRequest>)
      ensures list == KeptRequests(requests, sequence)
    {
      list := requests;
      var i := 0;
      ghost var n := 0;
      while i < |list|
        invariant 0 <= n <= |requests|
        invariant i == |KeptRequests(requests[..n], sequence)|
        invariant list == KeptRequests(requests[..n], sequence) + requests[n..]
        decreases |requests| - n
      {
        EraseNextRequest(requests, sequence, n, list, i);
        if list[i].sequence != sequence {
          list := list[..i] + list[i + 1..];
        } else {
          i := i + 1;
        }
        n := n + 1;
      }
      assert requests[..n] == requests;
    }

    /** Removes a backend, or one service URI of it. For every listed service, of whichever
        backend, the prefix map is asked to forget the service's id under theURI. The result
        says whether nothing is left, upon which the process restarts. */
    method RemoveBackend(host: string, port: int, uri: string, connections: Connections) returns (restart: bool)
      requires Valid()
      modifies Repr
      ensures Valid() && Repr == old(Repr)
      ensures state == AfterEvict(old(state), host, port, uri)
      ensures state.table.Keys == old(state).table.Keys
      ensures forall u, s {:trigger multiset(state.table[u].services)[s]} :: u in state.table ==>
        multiset(state.table[u].services)[s] ==
          if s.backend.name == host && s.backend.port == port && (uri == "" || uri == s.uri) then 0
          else multiset(old(state).table[u].services)[s]
      ensures uri == "" ==> forall u, x :: u in state.table && x in state.table[u].infos ==>
        x.hostName != host || x.port != port
      ensures state.requests == old(state).requests && state.counters == old(state).counters
      ensures restart <==> forall u :: u in state.table ==> state.table[u].services == []
    {
      ghost var r := state;
      BalancedNow();
      restart := Evict(host, port, uri, connections);
      EvictMeans(r, state, host, port, uri);
    }

    lemma BalancedNow()
      requires Valid()
      ensures AllBalanced(state.table)
    {
    }

    method Evict(host: string, port: int, uri: string, connections: Connections) returns (restart: bool)
      requires Valid()
      modifies Repr
      ensures Valid() && Repr == old(Repr)
      ensures state == AfterEvict(old(state), host, port, uri)
      ensures restart <==> AllListsEmpty(state.table)
    {
      EvictRows(host, port, uri, connections);
      Settle();
      restart := rows.AllEmpty();
    }

    method EvictRows(host: string, port: int, uri: string, connections: Connections)
      requires Consistent()
      modifies rows`slots, rows`table, rows.forwarders, prefixMap
      ensures Consistent() && rows.forwarders == old(rows.forwarders)
      ensures rows.table == SweptTable(old(rows.table), Evicted(host, port, uri))
      ensures prefixMap.prefixMap == Without(old(prefixMap.prefixMap), uri, ListedIds(old(rows.table)))
    {
      ForgetPrefix(uri);
      rows.Sweep(Evicted(host, port, uri), connections);
    }

    method ForgetPrefix(uri: string)
      requires rows.Valid() && prefixMap.Valid()
      modifies prefixMap
      ensures prefixMap.Valid()
      ensures prefixMap.prefixMap == Without(old(prefixMap.prefixMap), uri, ListedIds(rows.table))
    {
      var todo := rows.slots.Keys;
      WithoutNone(prefixMap.prefixMap, uri);
      assert IdsOutside(rows.table, todo) == {};
      while todo != {}
        invariant prefixMap.Valid() && todo <= rows.table.Keys
        invariant prefixMap.prefixMap == Without(old(prefixMap.prefixMap), uri, IdsOutside(rows.table, todo))
        decreases todo
      {
        var u :| u in todo;
        ForgetIds(uri, rows.slots[u].services);
        WithoutTwice(old(prefixMap.prefixMap), uri, IdsOutside(rows.table, todo), Ids(rows.table[u].services));
        IdsOutsideNext(rows.table, todo, u);
        todo := todo - {u};
      }
    }

    method ForgetIds(uri: string, services: seq<BackendService>)
      requires prefixMap.Valid()
      modifies prefixMap
      ensures prefixMap.Valid()
      ensures prefixMap.prefixMap == Without(old(prefixMap.prefixMap), uri, Ids(services))
    {
      WithoutNone(prefixMap.prefixMap, uri);
      for i := 0 to |services|
        invariant prefixMap.Valid()
        invariant prefixMap.prefixMap == Without(old(prefixMap.prefixMap), uri, Ids(services[..i]))
      {
        WithoutTwice(old(prefixMap.prefixMap), uri, Ids(services[..i]), {ServiceId(services[i])});
        assert services[..i + 1][..i] == services[..i];
        prefixMap.RemoveBackend(uri, services[i]);
      }
      assert services[..|services|] == services;
    }

    method AddBackendInfoRequest(request: InfoRequest)
      requires Valid()
      modifies Repr
      ensures Valid() && Repr == old(Repr)
      ensures state == old(state).(requests := RequestAdded(old(state.requests), request))
      ensures state.requests == old(state).requests[request.name :=
        (if request.name in old(state).requests then old(state).requests[request.name] else []) + [request]]
    {
      if request.name in infoRequests {
        infoRequests := infoRequests[request.name := infoRequests[request.name] + [request]];
      } else {
        infoRequests := infoRequests[request.name := [request]];
        assert [] + [request] == [request];
      }
      Settle();
    }

    /** The names at least one backend still offers. */
    method GetInfoRequestNames() returns (names: set<string>)
      requires Valid()
      ensures names == RequestNames(state.requests)
      ensures forall n :: n in names <==> n in state.requests && state.requests[n] != []
    {
      names := {};
      var todo := infoRequests.Keys;
      while todo != {}
        invariant todo <= infoRequests.Keys
        invariant names == set n | n in infoRequests && n !in todo && infoRequests[n] != []
        decreases todo
      {
        var name :| name in todo;
        if infoRequests[name] != [] {
          names := names + {name};
        }
        todo := todo - {name};
      }
    }

    method SetBackendAlive(host: string, port: int)
      requires Valid()
      modifies Repr
      ensures Valid() && Repr == old(Repr)
      ensures state == old(state).(counters :=
        Sentinels.Apply(old(state.counters), Rendered(host, port), Sentinels.Answered(BackendKey(host, port))))
      ensures var name, counters := host + ":" + Decimal(port), old(state).counters;
        state.counters ==
          if name in counters then counters[name := Sentinels.Counter(counters[name].throttle, 0)] else counters
    {
      sentinels.SetBackendAlive(host, port);
      Settle();
    }

    method SignalBackendConnection(host: string, port: int)
      requires Valid()
      modifies Repr
      ensures Valid() && Repr == old(Repr)
      ensures state == old(state).(counters :=
        Sentinels.Apply(old(state.counters), Rendered(host, port), Sentinels.Sent(BackendKey(host, port))))
      ensures var name, counters := host + ":" + Decimal(port), old(state).counters;
        state.counters ==
          if name in counters then
            counters[name := Sentinels.Counter(counters[name].throttle, (counters[name].current + 1) % 0x1_0000_0000)]
          else counters
    {
      sentinels.SignalBackendConnection(host, port);
      Settle();
    }

    /** An unknown backend is not alive; a known one is until more than its throttle of requests
        went unanswered, or for ever with a throttle of zero. */
    method QueryBackendAlive(host: string, port: int) returns (alive: bool)
      requires Valid()
      ensures var name := host + ":" + Decimal(port);
        alive <==>
        && name in state.counters
        && (state.counters[name].throttle == 0 || state.counters[name].current <= state.counters[name].throttle)
    {
      alive := sentinels.QueryBackendAlive(host, port);
    }
  }
}

/** The map from URI to a list of backend services and the forwarder beside it. */
module ServiceMap {
  import opened Entities
  import opened RoutingTable
  import opened Forwarders

  /** std::pair<BackendServiceListPtr, BackendForwarderPtr> */
  datatype Slot = Slot(services: seq<BackendService>, forwarder: BackendForwarder)

  class ServiceURIMap {
    const mode: ForwardingMode
    const coefficient: real
    const cookieName: string
    var slots: map<string, Slot>
    ghost var table: Table
    ghost var forwarders: set<BackendForwarder>

    /** All forwarders are configured alike. */
    ghost predicate Configured()
      reads this
    {
      && Sound(mode, coefficient)
      && forall f :: f in forwarders ==>
           f.mode == mode && f.coefficient == coefficient && f.cookieName == cookieName
    }

    /** No two URIs share a forwarder. */
    ghost predicate Separate()
      reads this
    {
      && (forall u, v :: u in slots && v in slots && u != v ==> slots[u].forwarder != slots[v].forwarder)
      && forall u :: u in slots ==> slots[u].forwarder in forwarders
    }

    /** A row says what a list and its forwarder hold. */
    static ghost predicate Shows(row: Row, slot: Slot)
      reads slot.forwarder
    {
      slot.forwarder.Valid() && row == Row(slot.services, slot.forwarder.infos)
    }

    /** The table says what the lists and the forwarders hold. */
    ghost predicate Mirrored()
      requires Separate()
      reads this, forwarders
    {
      && table.Keys == slots.Keys
      && forall u :: u in slots ==> Shows(table[u], slots[u])
    }

    /** So it does for every URI but one, whose forwarder has just been changed. */
    ghost predicate MirroredExcept(uri: string)
      requires Separate()
      reads this, forwarders
    {
      && table.Keys == slots.Keys
      && forall u :: u in slots && u != uri ==> Shows(table[u], slots[u])
    }

    /** Each list and its forwarder hold the same backends, each as often. */
    ghost predicate Valid()
      reads this, forwarders
    {
      Configured() && Separate() && Mirrored() && AllBalanced(table)
    }

    constructor (mode: ForwardingMode, coefficient: real, cookieName: string)
      requires Sound(mode, coefficient)
      ensures Valid() && table == map[] && forwarders == {}
      ensures this.mode == mode && this.coefficient == coefficient && this.cookieName == cookieName
    {
      this.mode := mode;
      this.coefficient := coefficient;
      this.cookieName := cookieName;
      slots := map[];
      table := map[];
      forwarders := {};
    }

    /** The forwarder's choice for a listed URI is a position of its service list. */
    method Select(uri: string, connections: Connections, request: Request) returns (slot: nat, draws: seq<nat>)
      requires Valid() && uri in table && table[uri].services != []
      modifies forwarders
      ensures Valid()
      ensures slot < |table[uri].services|
      ensures CanSelect(mode, coefficient, cookieName, table[uri].infos, connections, request, draws, slot)
    {
      BalancedLengths(table[uri]);
      var choice;
      choice, draws := slots[uri].forwarder.GetBackend(connections, request);
      slot := choice.value;
    }

    method AddKnown(uri: string, service: BackendService, load: real, connections: Connections)
      requires Separate() && Mirrored() && uri in table
      modifies this`slots, this`table, slots[uri].forwarder
      ensures Separate() && Mirrored() && table == ServiceAdded(old(table), uri, service, load)
    {
      var slot := slots[uri];
      ServiceAddedCases(table, uri, service, load);
      slot.forwarder.AddBackend(service.backend.name, service.backend.port, load, connections);
      Store(uri, slot.services + [service]);
    }

    /** Stores the list of a URI beside its changed forwarder. */
    method Store(uri: string, services: seq<BackendService>)
      requires Separate() && MirroredExcept(uri) && uri in slots && slots[uri].forwarder.Valid()
      modifies this`slots, this`table
      ensures Separate() && Mirrored()
      ensures table == old(table)[uri := Row(services, old(slots)[uri].forwarder.infos)]
    {
      slots := slots[uri := slots[uri].(services := services)];
      table := table[uri := Row(services, slots[uri].forwarder.infos)];
    }

    method NewForwarder(service: BackendService, load: real, connections: Connections)
            returns (forwarder: BackendForwarder)
      requires Sound(mode, coefficient)
      ensures fresh(forwarder) && forwarder.Valid() && forwarder.infos == [InfoOf(service, load)]
      ensures forwarder.mode == mode && forwarder.coefficient == coefficient && forwarder.cookieName == cookieName
    {
      forwarder := new BackendForwarder(mode, coefficient, cookieName);
      forwarder.AddBackend(service.backend.name, service.backend.port, load, connections);
    }

    method AddUnknown(uri: string, service: BackendService, load: real, connections: Connections)
      requires Configured() && Separate() && Mirrored() && uri !in table
      modifies this`slots, this`table, this`forwarders
      ensures Configured() && Separate() && Mirrored() && table == ServiceAdded(old(table), uri, service, load)
      ensures old(forwarders) <= forwarders && fresh(forwarders - old(forwarders))
    {
      ServiceAddedCases(table, uri, service, load);
      var forwarder := NewForwarder(service, load, connections);
      slots := slots[uri := Slot([service], forwarder)];
      forwarders := forwarders + {forwarder};
      table := table[uri := Row([service], forwarder.infos)];
    }

    method Add(uri: string, service: BackendService, load: real, connections: Connections)
      requires Valid()
      modifies this`slots, this`table, this`forwarders, forwarders
      ensures Valid() && table == ServiceAdded(old(table), uri, service, load)
      ensures old(forwarders) <= forwarders && fresh(forwarders - old(forwarders))
    {
      ServiceAddedBalanced(table, uri, service, load);
      if uri in slots {
        AddKnown(uri, service, load, connections);
      } else {
        AddUnknown(uri, service, load, connections);
      }
    }

    /** Walks one list; every doomed service is erased where it stands, and the first entry of
        the same backend is removed from the forwarder. */
    static method EraseDoomed(services: seq<BackendService>, forwarder: BackendForwarder, rule: Rule,
            connections: Connections)
      returns (list: seq<BackendService>)
      requires forwarder.Valid()
      modifies forwarder
      ensures forwarder.Valid()
      ensures list == Kept(services, rule)
      ensures forwarder.infos == Swept(services, old(forwarder.infos), rule)
    {
      list := services;
      var i := 0;
      ghost var n, start := 0, forwarder.infos;
      assert services[..0] == [] && services[0..] == services;
      while i < |list|
        invariant 0 <= n <= |services| && 0 <= i
        invariant Walked(services, start, rule, n, list, i, forwarder.infos)
        invariant forwarder.Valid()
        decreases |services| - n
      {
        EraseNext(services, start, rule, n, list, i, forwarder.infos);
        if Doomed(rule, list[i]) {
          forwarder.RemoveBackend(list[i].backend.name, list[i].backend.port, connections);
          list := list[..i] + list[i + 1..];
        } else {
          i := i + 1;
        }
        n := n + 1;
      }
      WalkEnds(services, start, rule, n, list, i, forwarder.infos);
    }

    method SweepList(uri: string, rule: Rule, connections: Connections)
      requires Separate() && Mirrored() && uri in table
      modifies this`slots, this`table, slots[uri].forwarder
      ensures Separate() && Mirrored() && forwarders == old(forwarders)
      ensures table == old(table)[uri := SweptRow(old(table)[uri], rule)]
    {
      var slot := slots[uri];
      var list := EraseDoomed(slot.services, slot.forwarder, rule, connections);
      Store(uri, list);
    }

    /** What a sweep over all URIs keeps while some are still to be visited. */
    ghost predicate Sweeping(start: Table, todo: set<string>, rule: Rule)
      reads this, forwarders
    {
      Separate() && Mirrored() && todo <= slots.Keys && table == PartlySwept(start, todo, rule)
    }

    /** One visit of a sweep over all URIs. */
    method SweepVisit(uri: string, rule: Rule, connections: Connections, ghost start: Table, ghost todo: set<string>)
      requires Sweeping(start, todo, rule) && uri in todo
      modifies this`slots, this`table, forwarders
      ensures Sweeping(start, todo - {uri}, rule) && forwarders == old(forwarders)
    {
      PartlySweptNext(start, todo, rule, uri);
      SweepList(uri, rule, connections);
    }

    /** Sweeps the list of every URI. */
    method Sweep(rule: Rule, connections: Connections)
      requires Valid()
      modifies this`slots, this`table, forwarders
      ensures Valid() && table == SweptTable(old(table), rule) && forwarders == old(forwarders)
    {
      SweptTableBalanced(table, rule);
      SweepAll(rule, connections);
    }

    method SweepAll(rule: Rule, connections: Connections)
      requires Separate() && Mirrored()
      modifies this`slots, this`table, forwarders
      ensures Separate() && Mirrored() && table == SweptTable(old(table), rule) && forwarders == old(forwarders)
    {
      ghost var start := table;
      PartlySweptEnds(start, rule);
      var todo := slots.Keys;
      while todo != {}
        invariant Sweeping(start, todo, rule) && forwarders == old(forwarders)
        decreases todo
      {
        var uri :| uri in todo;
        SweepVisit(uri, rule, connections, start, todo);
        todo := todo - {uri};
      }
    }

    /** True when no list holds a service any more. */
    method AllEmpty() returns (empty: bool)
      requires Valid()
      ensures empty <==> forall u :: u in table ==> table[u].services == []
    {
      var todo := slots.Keys;
      while todo != {}
        invariant todo <= table.Keys
        invariant forall u :: u in table && u !in todo ==> table[u].services == []
        decreases todo
      {
        var uri :| uri in todo;
        if slots[uri].services != [] {
          return false;
        }
        todo := todo - {uri};
      }
      empty := true;
    }
  }
}

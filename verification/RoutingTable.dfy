/** One row per URI: the backend services, and beside it the forwarder's own list. Sweeps
    erase the first by position and the second by first match. */
module RoutingTable {
  import opened Entities
  import opened Lists

  datatype Row = Row(services: seq<BackendService>, infos: seq<BackendInfo>)

  type Table = map<string, Row>

  /** Which services a sweep erases. */
  datatype Rule =
    | Stale(sequence: int)
    | Evicted(host: string, port: int, uri: string)

  predicate Doomed(rule: Rule, s: BackendService) {
    match rule
    case Stale(n) => s.sequence != n
    case Evicted(host, port, uri) =>
      s.backend.name == host && s.backend.port == port && (uri == "" || uri == s.uri)
  }

  function RemoveFirst(infos: seq<BackendInfo>, key: BackendKey): seq<BackendInfo> {
    if key in InfoKeys(infos) then RemoveAt(infos, FirstIndex(InfoKeys(infos), key)) else infos
  }

  /** The first entry of that host and port is cut out, and nothing else. */
  lemma RemoveFirstMeans(infos: seq<BackendInfo>, host: string, port: int, i: nat)
    requires i <= |infos|
    requires forall j :: 0 <= j < i ==> infos[j].hostName != host || infos[j].port != port
    ensures i == |infos| ==> RemoveFirst(infos, BackendKey(host, port)) == infos
    ensures i < |infos| && infos[i].hostName == host && infos[i].port == port ==>
              RemoveFirst(infos, BackendKey(host, port)) == infos[..i] + infos[i + 1..]
  {
    var keys, key := InfoKeys(infos), BackendKey(host, port);
    assert forall j :: 0 <= j < |keys| ==> (keys[j] == key <==> infos[j].hostName == host && infos[j].port == port);
    if i < |infos| && keys[i] == key { FirstIndexUnique(keys, key, i); }
  }

  /** The services that survive, in their order. */
  function Kept(services: seq<BackendService>, rule: Rule): seq<BackendService> {
    if services == [] then []
    else
      var init, last := services[..|services| - 1], services[|services| - 1];
      Kept(init, rule) + if Doomed(rule, last) then [] else [last]
  }

  /** The forwarder's list after one removal per doomed service. */
  function Swept(services: seq<BackendService>, infos: seq<BackendInfo>, rule: Rule): seq<BackendInfo> {
    if services == [] then infos
    else
      var init, last := services[..|services| - 1], services[|services| - 1];
      var before := Swept(init, infos, rule);
      if Doomed(rule, last) then RemoveFirst(before, last.Key()) else before
  }

  function SweptRow(row: Row, rule: Rule): Row {
    Row(Kept(row.services, rule), Swept(row.services, row.infos, rule))
  }

  function SweptTable(table: Table, rule: Rule): Table {
    map u | u in table :: SweptRow(table[u], rule)
  }

  function RowAt(table: Table, uri: string): Row {
    if uri in table then table[uri] else Row([], [])
  }

  function InfoOf(service: BackendService, load: real): BackendInfo {
    BackendInfo(service.backend.name, service.backend.port, load)
  }

  function Extended(row: Row, service: BackendService, load: real): Row {
    Row(row.services + [service], row.infos + [InfoOf(service, load)])
  }

  function ServiceAdded(table: Table, uri: string, service: BackendService, load: real): Table {
    table[uri := Extended(RowAt(table, uri), service, load)]
  }

  lemma ServiceAddedCases(table: Table, uri: string, service: BackendService, load: real)
    ensures ServiceAdded(table, uri, service, load) ==
      if uri in table then
        table[uri := Row(table[uri].services + [service], table[uri].infos + [InfoOf(service, load)])]
      else
        table[uri := Row([service], [InfoOf(service, load)])]
  {
    assert [] + [service] == [service] && [] + [InfoOf(service, load)] == [InfoOf(service, load)];
  }

  // ----- What the sweep of one list keeps -----

  lemma {:induction false} KeptConcat(a: seq<BackendService>, b: seq<BackendService>, rule: Rule)
    ensures Kept(a + b, rule) == Kept(a, rule) + Kept(b, rule)
  {
    if b == [] {
      assert a + b == a;
    } else {
      assert (a + b)[..|a + b| - 1] == a + b[..|b| - 1];
      KeptConcat(a, b[..|b| - 1], rule);
    }
  }

  lemma CountSnoc(list: seq<BackendService>, x: BackendService, s: BackendService)
    ensures multiset(list + [x])[s] == multiset(list)[s] + if x == s then 1 else 0
  {
    assert multiset(list + [x]) == multiset(list) + multiset{x};
  }

  lemma KeptCountSnoc(init: seq<BackendService>, last: BackendService, rule: Rule, s: BackendService)
    ensures multiset(Kept(init + [last], rule))[s] ==
            multiset(Kept(init, rule))[s] + if last == s && !Doomed(rule, last) then 1 else 0
  {
    assert (init + [last])[..|init|] == init;
    if !Doomed(rule, last) { CountSnoc(Kept(init, rule), last, s); }
  }

  /** Every surviving service keeps all its copies and every doomed one loses all. */
  lemma {:induction false} KeptContents(services: seq<BackendService>, rule: Rule, s: BackendService)
    ensures multiset(Kept(services, rule))[s] == if Doomed(rule, s) then 0 else multiset(services)[s]
  {
    if services != [] {
      var init, last := services[..|services| - 1], services[|services| - 1];
      assert services == init + [last];
      KeptContents(init, rule, s);
      KeptCountSnoc(init, last, rule, s);
      CountSnoc(init, last, s);
    }
  }

  lemma {:induction false} KeptMembers(services: seq<BackendService>, rule: Rule)
    ensures forall s :: s in Kept(services, rule) <==> s in services && !Doomed(rule, s)
  {
    if services != [] {
      var init := services[..|services| - 1];
      KeptMembers(init, rule);
      assert services == init + [services[|services| - 1]];
    }
  }

  // ----- Keys of edited lists -----

  lemma KeysSnoc(a: seq<BackendService>, s: BackendService)
    ensures ServiceKeys(a + [s]) == ServiceKeys(a) + [s.Key()]
  {
  }

  lemma KeysCons(s: BackendService, b: seq<BackendService>)
    ensures ServiceKeys([s] + b) == [s.Key()] + ServiceKeys(b)
  {
  }

  lemma InfoKeysRemoveAt(infos: seq<BackendInfo>, i: nat)
    requires i < |infos|
    ensures InfoKeys(RemoveAt(infos, i)) == RemoveAt(InfoKeys(infos), i)
  {
    var a, b := InfoKeys(RemoveAt(infos, i)), RemoveAt(InfoKeys(infos), i);
    forall k | 0 <= k < |infos| - 1 ensures a[k] == b[k] {
      assert RemoveAt(infos, i)[k] == infos[if k < i then k else k + 1];
    }
  }

  lemma KeysRemoveFirst(infos: seq<BackendInfo>, key: BackendKey)
    requires key in InfoKeys(infos)
    ensures InfoKeys(RemoveFirst(infos, key)) == RemoveAt(InfoKeys(infos), FirstIndex(InfoKeys(infos), key))
  {
    InfoKeysRemoveAt(infos, FirstIndex(InfoKeys(infos), key));
  }

  /** One more entry of a sweep. */
  lemma SweepNext(services: seq<BackendService>, infos: seq<BackendInfo>, rule: Rule, n: nat)
    requires 0 < n <= |services|
    ensures var last, before := services[n - 1], Swept(services[..n - 1], infos, rule);
            && Kept(services[..n], rule) == Kept(services[..n - 1], rule) + (if Doomed(rule, last) then [] else [last])
            && Swept(services[..n], infos, rule) ==
                (if Doomed(rule, last) then RemoveFirst(before, last.Key()) else before)
            && ServiceKeys(services[n - 1..]) == [last.Key()] + ServiceKeys(services[n..])
  {
    assert services[..n][..n - 1] == services[..n - 1];
    assert services[n - 1..] == [services[n - 1]] + services[n..];
    KeysCons(services[n - 1], services[n..]);
  }

  /** A walk that erases in place: list[..i] is settled after n services were seen. */
  ghost predicate Walked(services: seq<BackendService>, start: seq<BackendInfo>, rule: Rule, n: nat,
                         list: seq<BackendService>, i: nat, infos: seq<BackendInfo>) {
    && n <= |services| && i == |Kept(services[..n], rule)|
    && list == Kept(services[..n], rule) + services[n..]
    && infos == Swept(services[..n], start, rule)
  }

  /** One more step of the walk. */
  lemma EraseNext(services: seq<BackendService>, start: seq<BackendInfo>, rule: Rule, n: nat,
                  list: seq<BackendService>, i: nat, infos: seq<BackendInfo>)
    requires Walked(services, start, rule, n, list, i, infos) && i < |list|
    ensures n < |services|
    ensures if Doomed(rule, list[i]) then
              Walked(services, start, rule, n + 1, list[..i] + list[i + 1..], i, RemoveFirst(infos, list[i].Key()))
            else
              Walked(services, start, rule, n + 1, list, i + 1, infos)
  {
    var kept := Kept(services[..n], rule);
    assert services[n..] == [services[n]] + services[n + 1..];
    Around(kept, services[n], services[n + 1..], list);
    SweepNext(services, start, rule, n + 1);
    assert kept + [] == kept;
  }

  lemma WalkEnds(services: seq<BackendService>, start: seq<BackendInfo>, rule: Rule, n: nat,
                 list: seq<BackendService>, i: nat, infos: seq<BackendInfo>)
    requires Walked(services, start, rule, n, list, i, infos) && i >= |list|
    ensures list == Kept(services, rule) && infos == Swept(services, start, rule)
  {
    assert services[..n] == services;
  }

  // ----- In any order: the same backends, each as often -----

  ghost predicate Balanced(row: Row) {
    multiset(ServiceKeys(row.services)) == multiset(InfoKeys(row.infos))
  }

  lemma MoveOne<T>(front: seq<T>, x: T, back: seq<T>)
    ensures multiset(front) + multiset([x] + back) == multiset(front + [x]) + multiset(back)
  {
    assert multiset([x] + back) == multiset{x} + multiset(back);
  }

  lemma BalancedRemoval(infos: seq<BackendInfo>, front: seq<BackendKey>, key: BackendKey, back: seq<BackendKey>)
    requires multiset(InfoKeys(infos)) == multiset(front) + multiset([key] + back)
    ensures multiset(InfoKeys(RemoveFirst(infos, key))) == multiset(front) + multiset(back)
  {
    assert multiset([key] + back) == multiset{key} + multiset(back);
    assert key in multiset(InfoKeys(infos));
    KeysRemoveFirst(infos, key);
    MultisetRemoveAt(InfoKeys(infos), FirstIndex(InfoKeys(infos), key));
  }

  /** The lists agree when the kept front and the untouched back are taken together. */
  ghost predicate BalancedAt(infos: seq<BackendInfo>, front: seq<BackendKey>, back: seq<BackendKey>) {
    multiset(InfoKeys(infos)) == multiset(front) + multiset(back)
  }

  lemma BalancedStep(infos: seq<BackendInfo>, front: seq<BackendKey>, key: BackendKey, back: seq<BackendKey>)
    requires BalancedAt(infos, front, [key] + back)
    ensures BalancedAt(RemoveFirst(infos, key), front, back)
    ensures BalancedAt(infos, front + [key], back)
  {
    BalancedRemoval(infos, front, key, back);
    MoveOne(front, key, back);
  }

  lemma {:induction false} SweepBalanced(row: Row, rule: Rule, n: nat)
    requires Balanced(row) && n <= |row.services|
    ensures BalancedAt(Swept(row.services[..n], row.infos, rule),
                       ServiceKeys(Kept(row.services[..n], rule)), ServiceKeys(row.services[n..]))
  {
    if n == 0 {
      assert row.services[..0] == [] && row.services[0..] == row.services;
      assert ServiceKeys([]) == [];
    } else {
      SweepBalanced(row, rule, n - 1);
      SweepNext(row.services, row.infos, rule, n);
      var kept, last := Kept(row.services[..n - 1], rule), row.services[n - 1];
      BalancedStep(Swept(row.services[..n - 1], row.infos, rule), ServiceKeys(kept), last.Key(),
          ServiceKeys(row.services[n..]));
      KeysSnoc(kept, last);
      assert kept + [] == kept;
    }
  }

  /** Whatever the order of the entries, a sweep leaves both lists with the same backends. */
  lemma SweptRowBalanced(row: Row, rule: Rule)
    requires Balanced(row)
    ensures Balanced(SweptRow(row, rule))
  {
    SweepBalanced(row, rule, |row.services|);
    assert row.services[..|row.services|] == row.services;
  }

  lemma ExtendedBalanced(row: Row, service: BackendService, load: real)
    requires Balanced(row)
    ensures Balanced(Extended(row, service, load))
  {
    KeysSnoc(row.services, service);
    assert InfoKeys(row.infos + [InfoOf(service, load)]) == InfoKeys(row.infos) + [service.Key()];
  }

  lemma BalancedLengths(row: Row)
    requires Balanced(row)
    ensures |row.services| == |row.infos|
  {
    SameLength(ServiceKeys(row.services), InfoKeys(row.infos));
  }

  ghost predicate AllBalanced(table: Table) {
    forall u :: u in table ==> Balanced(table[u])
  }

  lemma ServiceAddedBalanced(table: Table, uri: string, service: BackendService, load: real)
    requires AllBalanced(table)
    ensures AllBalanced(ServiceAdded(table, uri, service, load))
  {
    ExtendedBalanced(RowAt(table, uri), service, load);
  }

  /** The table while a sweep still has some URIs to visit. */
  ghost function PartlySwept(table: Table, todo: set<string>, rule: Rule): Table {
    map u | u in table :: if u in todo then table[u] else SweptRow(table[u], rule)
  }

  lemma PartlySweptEnds(table: Table, rule: Rule)
    ensures PartlySwept(table, table.Keys, rule) == table
    ensures PartlySwept(table, {}, rule) == SweptTable(table, rule)
  {
  }

  lemma PartlySweptNext(table: Table, todo: set<string>, rule: Rule, uri: string)
    requires uri in todo && uri in table
    ensures var now := PartlySwept(table, todo, rule);
            now[uri := SweptRow(now[uri], rule)] == PartlySwept(table, todo - {uri}, rule)
  {
  }

  /** Sweeping never makes a list and its forwarder disagree on who is there. */
  lemma SweptTableBalanced(table: Table, rule: Rule)
    requires AllBalanced(table)
    ensures AllBalanced(SweptTable(table, rule))
  {
    forall u | u in table ensures Balanced(SweptTable(table, rule)[u]) {
      SweptRowBalanced(table[u], rule);
    }
  }

  // ----- What the two sweeps mean -----

  /** A removal takes from every list exactly the services of that backend, or with a URI those of
      them that serve it; every other service keeps all its copies. */
  lemma EvictedContents(table: Table, host: string, port: int, uri: string)
    ensures var after := SweptTable(table, Evicted(host, port, uri));
      && after.Keys == table.Keys
      && forall u, s {:trigger multiset(after[u].services)[s]} :: u in table ==>
           multiset(after[u].services)[s] ==
             if s.backend.name == host && s.backend.port == port && (uri == "" || uri == s.uri) then 0
             else multiset(table[u].services)[s]
  {
    forall u, s | u in table {
      EvictedCount(table[u].services, host, port, uri, s);
    }
  }

  lemma EvictedCount(services: seq<BackendService>, host: string, port: int, uri: string, s: BackendService)
    ensures multiset(Kept(services, Evicted(host, port, uri)))[s] ==
            if s.backend.name == host && s.backend.port == port && (uri == "" || uri == s.uri) then 0
            else multiset(services)[s]
  {
    KeptContents(services, Evicted(host, port, uri), s);
  }

  /** Without a URI no forwarder holds the backend any more either. */
  lemma EvictedForwarders(table: Table, host: string, port: int)
    requires AllBalanced(table)
    ensures var after := SweptTable(table, Evicted(host, port, ""));
      forall u, x :: u in table && x in after[u].infos ==> x.hostName != host || x.port != port
  {
    var after := SweptTable(table, Evicted(host, port, ""));
    forall u, x | u in table && x in after[u].infos ensures x.hostName != host || x.port != port {
      EvictedRow(table[u], host, port, x);
    }
  }

  lemma EvictedRow(row: Row, host: string, port: int, x: BackendInfo)
    requires Balanced(row) && x in SweptRow(row, Evicted(host, port, "")).infos
    ensures x.hostName != host || x.port != port
  {
    var rule := Evicted(host, port, "");
    var after := SweptRow(row, rule);
    SweptRowBalanced(row, rule);
    KeptMembers(row.services, rule);
    var i :| 0 <= i < |after.infos| && after.infos[i] == x;
    assert InfoKeys(after.infos)[i] in multiset(InfoKeys(after.infos));
    var j :| 0 <= j < |after.services| && ServiceKeys(after.services)[j] == InfoKeys(after.infos)[i];
    assert after.services[j] in after.services;
  }

  /** Pruning leaves in every list exactly the services of that number, with all their copies. */
  lemma StaleContents(table: Table, sequence: int)
    ensures var after := SweptTable(table, Stale(sequence));
      && after.Keys == table.Keys
      && forall u, s {:trigger multiset(after[u].services)[s]} :: u in table ==>
           multiset(after[u].services)[s] == if s.sequence == sequence then multiset(table[u].services)[s] else 0
  {
    forall u, s | u in table
      ensures multiset(Kept(table[u].services, Stale(sequence)))[s] ==
              if s.sequence == sequence then multiset(table[u].services)[s] else 0
    {
      KeptContents(table[u].services, Stale(sequence), s);
    }
  }

  // ----- In per-backend order: position by position -----

  ghost predicate Lockstep(row: Row) {
    ServiceKeys(row.services) == InfoKeys(row.infos)
  }

  ghost predicate AllLockstep(table: Table) {
    forall u :: u in table ==> Lockstep(table[u])
  }

  /** The keys of the doomed services. */
  function Gone(services: seq<BackendService>, rule: Rule): multiset<BackendKey> {
    if services == [] then multiset{}
    else
      var init, last := services[..|services| - 1], services[|services| - 1];
      Gone(init, rule) + if Doomed(rule, last) then multiset{last.Key()} else multiset{}
  }

  /** The keys that stay when each key in the multiset loses that many of its first copies. */
  function DropFirst(keys: seq<BackendKey>, gone: multiset<BackendKey>): seq<BackendKey> {
    if keys == [] then []
    else if keys[0] in gone then DropFirst(keys[1..], gone - multiset{keys[0]})
    else [keys[0]] + DropFirst(keys[1..], gone)
  }

  function RemoveKey(keys: seq<BackendKey>, key: BackendKey): seq<BackendKey> {
    if key in keys then RemoveAt(keys, FirstIndex(keys, key)) else keys
  }

  lemma RemoveKeyCons(first: BackendKey, rest: seq<BackendKey>, key: BackendKey)
    ensures RemoveKey([first] + rest, key) == if first == key then rest else [first] + RemoveKey(rest, key)
  {
    var keys := [first] + rest;
    assert keys[1..] == rest;
    if key in keys {
      var i := FirstIndex(keys, key);
      if first == key {
        assert RemoveAt(keys, 0) == rest;
      } else {
        assert keys[..i] == [first] + rest[..i - 1] && keys[i + 1..] == rest[i..];
      }
    }
  }

  lemma {:induction false} DropOneMore(keys: seq<BackendKey>, gone: multiset<BackendKey>, key: BackendKey)
    ensures DropFirst(keys, gone + multiset{key}) == RemoveKey(DropFirst(keys, gone), key)
  {
    if keys != [] {
      var first, rest := keys[0], keys[1..];
      if first in gone {
        assert gone + multiset{key} - multiset{first} == gone - multiset{first} + multiset{key};
        DropOneMore(rest, gone - multiset{first}, key);
      } else {
        DropOneMore(rest, gone, key);
        RemoveKeyCons(first, DropFirst(rest, gone), key);
        assert gone + multiset{key} - multiset{key} == gone;
      }
    }
  }

  lemma {:induction false} DropNone(keys: seq<BackendKey>)
    ensures DropFirst(keys, multiset{}) == keys
  {
    if keys != [] {
      DropNone(keys[1..]);
    }
  }

  /** What a sweep does to the forwarder: each backend loses as many of its first entries as it
      had doomed services. */
  lemma {:induction false} SweptKeys(services: seq<BackendService>, infos: seq<BackendInfo>, rule: Rule)
    ensures InfoKeys(Swept(services, infos, rule)) == DropFirst(InfoKeys(infos), Gone(services, rule))
  {
    if services == [] {
      DropNone(InfoKeys(infos));
    } else {
      var init, last := services[..|services| - 1], services[|services| - 1];
      SweptKeys(init, infos, rule);
      var before := Swept(init, infos, rule);
      DropOneMore(InfoKeys(infos), Gone(init, rule), last.Key());
      if last.Key() in InfoKeys(before) { KeysRemoveFirst(before, last.Key()); }
      assert Gone(init, rule) + multiset{} == Gone(init, rule);
    }
  }

  /** From lists in lockstep, a sweep leaves them in lockstep exactly when dropping the doomed
      services drops the same keys as dropping each backend's first ones. */
  lemma SweepLockstepExactly(row: Row, rule: Rule)
    requires Lockstep(row)
    ensures Lockstep(SweptRow(row, rule)) <==>
              ServiceKeys(Kept(row.services, rule)) == DropFirst(ServiceKeys(row.services), Gone(row.services, rule))
  {
    SweptKeys(row.services, row.infos, rule);
  }

  /** Among the entries of one backend the doomed ones come first. */
  ghost predicate DoomedFirst(services: seq<BackendService>, rule: Rule) {
    forall i, j :: 0 <= i < j < |services| && services[i].Key() == services[j].Key() && Doomed(rule, services[j]) ==>
      Doomed(rule, services[i])
  }

  lemma {:induction false} GoneCons(s: BackendService, rest: seq<BackendService>, rule: Rule)
    ensures Gone([s] + rest, rule) == (if Doomed(rule, s) then multiset{s.Key()} else multiset{}) + Gone(rest, rule)
  {
    var all := [s] + rest;
    if rest == [] {
      assert all[..0] == [];
    } else {
      assert all[..|all| - 1] == [s] + rest[..|rest| - 1];
      GoneCons(s, rest[..|rest| - 1], rule);
    }
  }

  lemma KeptOne(s: BackendService, rule: Rule)
    ensures Kept([s], rule) == if Doomed(rule, s) then [] else [s]
  {
    assert [s][..0] == [];
  }

  lemma KeptCons(s: BackendService, rest: seq<BackendService>, rule: Rule)
    ensures Kept([s] + rest, rule) == (if Doomed(rule, s) then [] else [s]) + Kept(rest, rule)
  {
    KeptConcat([s], rest, rule);
    KeptOne(s, rule);
  }

  lemma {:induction false} NoneGone(services: seq<BackendService>, rule: Rule, key: BackendKey)
    requires forall i :: 0 <= i < |services| && services[i].Key() == key ==> !Doomed(rule, services[i])
    ensures key !in Gone(services, rule)
  {
    if services != [] {
      NoneGone(services[..|services| - 1], rule, key);
    }
  }

  lemma {:induction false} DoomedFirstDrops(services: seq<BackendService>, rule: Rule)
    requires DoomedFirst(services, rule)
    ensures ServiceKeys(Kept(services, rule)) == DropFirst(ServiceKeys(services), Gone(services, rule))
  {
    if services != [] {
      var s, rest := services[0], services[1..];
      assert services == [s] + rest;
      DoomedFirstDrops(rest, rule);
      GoneCons(s, rest, rule);
      KeptCons(s, rest, rule);
      KeysCons(s, rest);
      assert ServiceKeys(services)[1..] == ServiceKeys(rest);
      if Doomed(rule, s) {
        assert multiset{s.Key()} + Gone(rest, rule) - multiset{s.Key()} == Gone(rest, rule);
        assert [] + Kept(rest, rule) == Kept(rest, rule);
      } else {
        assert multiset{} + Gone(rest, rule) == Gone(rest, rule);
        KeysCons(s, Kept(rest, rule));
        assert forall i :: 0 <= i < |rest| ==> rest[i] == services[i + 1];
        NoneGone(rest, rule, s.Key());
      }
    }
  }

  /** In particular when the doomed entries of each backend come first. */
  lemma SweptRowLockstep(row: Row, rule: Rule)
    requires Lockstep(row) && DoomedFirst(row.services, rule)
    ensures Lockstep(SweptRow(row, rule))
  {
    SweepLockstepExactly(row, rule);
    DoomedFirstDrops(row.services, rule);
  }

  lemma ExtendedLockstep(row: Row, service: BackendService, load: real)
    requires Lockstep(row)
    ensures Lockstep(Extended(row, service, load))
  {
    assert InfoKeys(row.infos + [InfoOf(service, load)]) == InfoKeys(row.infos) + [service.Key()];
  }

  /** From lists in lockstep, one erasure leaves them in lockstep exactly when only entries of
      the same backend stand between the erased position and the first match. */
  lemma OneErasure(row: Row, i: nat)
    requires Lockstep(row) && i < |row.services|
    ensures var keys := ServiceKeys(row.services);
            Lockstep(Row(RemoveAt(row.services, i), RemoveFirst(row.infos, keys[i]))) <==>
              forall k :: FirstIndex(keys, keys[i]) <= k <= i ==> keys[k] == keys[i]
  {
    var keys := ServiceKeys(row.services);
    var key := keys[i];
    KeysRemoveFirst(row.infos, key);
    var rest := RemoveAt(row.services, i);
    forall k | 0 <= k < |rest| ensures ServiceKeys(rest)[k] == RemoveAt(keys, i)[k] {
      assert rest[k] == row.services[if k < i then k else k + 1];
    }
    assert ServiceKeys(rest) == RemoveAt(keys, i);
    EraseAgreement(keys, i);
  }

  /** Without per-backend order lockstep is lost: A and B answer the current request, then an
      older answer of A arrives late; pruning leaves A, B beside B, A. */
  lemma LateReplyBreaksLockstep(aNew: BackendService, bNew: BackendService, aOld: BackendService,
                                infos: seq<BackendInfo>, current: int)
    requires Lockstep(Row([aNew, bNew, aOld], infos))
    requires aNew.Key() == aOld.Key() != bNew.Key()
    requires aNew.sequence == bNew.sequence == current != aOld.sequence
    ensures var after := SweptRow(Row([aNew, bNew, aOld], infos), Stale(current));
            && after.services == [aNew, bNew]
            && InfoKeys(after.infos) == [bNew.Key(), aNew.Key()]
            && !Lockstep(after)
  {
    SweepThree(aNew, bNew, aOld, infos, Stale(current));
  }

  /** Removing one service URI of a backend that is listed in a row under two breaks it too. */
  lemma EvictionByUriBreaksLockstep(a: BackendService, b: BackendService, other: BackendService,
          infos: seq<BackendInfo>)
    requires Lockstep(Row([a, b, other], infos))
    requires a.Key() == other.Key() != b.Key() && a.uri != other.uri && other.uri != ""
    ensures var after := SweptRow(Row([a, b, other], infos), Evicted(a.backend.name, a.backend.port, other.uri));
            && after.services == [a, b]
            && InfoKeys(after.infos) == [b.Key(), a.Key()]
            && !Lockstep(after)
  {
    SweepThree(a, b, other, infos, Evicted(a.backend.name, a.backend.port, other.uri));
  }

  lemma SweepOne(front: seq<BackendService>, last: BackendService, infos: seq<BackendInfo>, rule: Rule)
    ensures Kept(front + [last], rule) == Kept(front, rule) + if Doomed(rule, last) then [] else [last]
    ensures var before := Swept(front, infos, rule);
            Swept(front + [last], infos, rule) == if Doomed(rule, last) then RemoveFirst(before, last.Key()) else before
  {
    assert (front + [last])[..|front|] == front;
  }

  lemma SweepThree(s0: BackendService, s1: BackendService, s2: BackendService, infos: seq<BackendInfo>, rule: Rule)
    requires Lockstep(Row([s0, s1, s2], infos)) && s0.Key() == s2.Key()
    requires !Doomed(rule, s0) && !Doomed(rule, s1) && Doomed(rule, s2)
    ensures SweptRow(Row([s0, s1, s2], infos), rule) == Row([s0, s1], infos[1..])
    ensures InfoKeys(infos[1..]) == [s1.Key(), s2.Key()] && ServiceKeys([s0, s1]) == [s0.Key(), s1.Key()]
  {
    var none: seq<BackendService> := [];
    SweepOne(none, s0, infos, rule);
    SweepOne([s0], s1, infos, rule);
    SweepOne([s0, s1], s2, infos, rule);
    assert none + [s0] == [s0];
    assert [s0] + [s1] == [s0, s1];
    assert [s0, s1] + [s2] == [s0, s1, s2];
    FirstRemoved(infos, s0.Key(), s1.Key(), s2.Key());
  }

  lemma FirstRemoved(infos: seq<BackendInfo>, k0: BackendKey, k1: BackendKey, k2: BackendKey)
    requires InfoKeys(infos) == [k0, k1, k2]
    ensures RemoveFirst(infos, k0) == infos[1..] && InfoKeys(infos[1..]) == [k1, k2]
  {
    FirstIndexUnique(InfoKeys(infos), k0, 0);
    KeysRemoveFirst(infos, k0);
    assert RemoveAt(infos, 0) == infos[1..];
    assert RemoveAt(InfoKeys(infos), 0) == [k1, k2];
  }

  // ----- Info requests -----

  type InfoRequests = map<string, seq<InfoRequest>>

  function KeptRequests(requests: seq<InfoRequest>, sequence: int): seq<InfoRequest> {
    if requests == [] then []
    else
      var init, last := requests[..|requests| - 1], requests[|requests| - 1];
      KeptRequests(init, sequence) + if last.sequence == sequence then [last] else []
  }

  function SweptRequests(requests: InfoRequests, sequence: int): InfoRequests {
    map name | name in requests :: KeptRequests(requests[name], sequence)
  }

  function RequestAdded(requests: InfoRequests, request: InfoRequest): InfoRequests {
    requests[request.name := (if request.name in requests then requests[request.name] else []) + [request]]
  }

  lemma KeptRequestsNext(requests: seq<InfoRequest>, sequence: int, n: nat)
    requires n < |requests|
    ensures var kept, last := KeptRequests(requests[..n], sequence), requests[n];
            KeptRequests(requests[..n + 1], sequence) == if last.sequence == sequence then kept + [last] else kept
  {
    assert requests[..n + 1][..n] == requests[..n];
  }

  lemma EraseNextRequest(requests: seq<InfoRequest>, sequence: int, n: nat, list: seq<InfoRequest>, i: nat)
    requires n <= |requests| && i == |KeptRequests(requests[..n], sequence)| < |list|
    requires list == KeptRequests(requests[..n], sequence) + requests[n..]
    ensures n < |requests| && list[i] == requests[n]
    ensures if list[i].sequence != sequence then
              && i == |KeptRequests(requests[..n + 1], sequence)|
              && list[..i] + list[i + 1..] == KeptRequests(requests[..n + 1], sequence) + requests[n + 1..]
            else
              && i + 1 == |KeptRequests(requests[..n + 1], sequence)|
              && list == KeptRequests(requests[..n + 1], sequence) + requests[n + 1..]
  {
    assert requests[n..] == [requests[n]] + requests[n + 1..];
    Around(KeptRequests(requests[..n], sequence), requests[n], requests[n + 1..], list);
    KeptRequestsNext(requests, sequence, n);
  }

  lemma RequestCountSnoc(list: seq<InfoRequest>, x: InfoRequest, r: InfoRequest)
    ensures multiset(list + [x])[r] == multiset(list)[r] + if x == r then 1 else 0
  {
    assert multiset(list + [x]) == multiset(list) + multiset{x};
  }

  /** Pruning leaves exactly the requests of that number, with all their copies. */
  lemma {:induction false} KeptRequestsContents(requests: seq<InfoRequest>, sequence: int, r: InfoRequest)
    ensures multiset(KeptRequests(requests, sequence))[r] ==
            if r.sequence == sequence then multiset(requests)[r] else 0
  {
    if requests != [] {
      var init, last := requests[..|requests| - 1], requests[|requests| - 1];
      assert requests == init + [last];
      KeptRequestsContents(init, sequence, r);
      RequestCountSnoc(init, last, r);
      if last.sequence == sequence { RequestCountSnoc(KeptRequests(init, sequence), last, r); }
    }
  }

  lemma SweptRequestsContents(requests: InfoRequests, sequence: int)
    ensures var after := SweptRequests(requests, sequence);
      && after.Keys == requests.Keys
      && forall name, r {:trigger multiset(after[name])[r]} :: name in requests ==>
           multiset(after[name])[r] == if r.sequence == sequence then multiset(requests[name])[r] else 0
  {
    forall name, r | name in requests {
      KeptRequestsContents(requests[name], sequence, r);
    }
  }

  lemma {:induction false} KeptRequestsMembers(requests: seq<InfoRequest>, sequence: int)
    ensures forall r :: r in KeptRequests(requests, sequence) <==> r in requests && r.sequence == sequence
  {
    if requests != [] {
      var init := requests[..|requests| - 1];
      KeptRequestsMembers(init, sequence);
      assert requests == init + [requests[|requests| - 1]];
    }
  }
}

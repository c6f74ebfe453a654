/** Position-by-position agreement of lists and forwarders over whole runs. */
module LockstepRuns {
  import opened Entities
  import opened RoutingTable
  import opened Protocol
  import opened Wraparound

  /** Replies of one backend are processed in the order of the requests they answer. */
  ghost predicate InOrder(trace: seq<Event>) {
    forall i, j ::
      0 <= i < j < |trace| && trace[i].Add? && trace[j].Add? && trace[i].service.Key() == trace[j].service.Key() ==>
      trace[i].service.sequence <= trace[j].service.sequence
  }

  /** Entries of one backend within one list have one service URI. */
  ghost predicate OneUriEach(table: Table) {
    forall u, x, y :: u in table && x in table[u].services && y in table[u].services && x.Key() == y.Key() ==>
      x.uri == y.uri
  }

  /** Replies are to requests already sent, and evictions name a URI only when it makes no
      difference which entry of the backend goes. */
  ghost predicate Plain(trace: seq<Event>, maxSkipped: nat) {
    trace == [] ||
    var before, e := trace[..|trace| - 1], trace[|trace| - 1];
    var s := Run(before, maxSkipped, 0);
    && Plain(before, maxSkipped)
    && (e.Add? ==> e.service.sequence <= s.sequence)
    && (e.Evict? && e.uri != "" ==> OneUriEach(s.table))
  }

  ghost predicate Seen(trace: seq<Event>, key: BackendKey, sequence: int) {
    exists i :: 0 <= i < |trace| && trace[i].Add? && trace[i].service.Key() == key &&
        trace[i].service.sequence == sequence
  }

  /** Entries of one backend stand in the order of their cycles. */
  ghost predicate Ordered(services: seq<BackendService>) {
    forall i, j :: 0 <= i < j < |services| && services[i].Key() == services[j].Key() ==>
      services[i].sequence <= services[j].sequence
  }

  ghost predicate GoodRow(row: Row, trace: seq<Event>, now: int) {
    && Lockstep(row)
    && Ordered(row.services)
    && forall x :: x in row.services ==> x.sequence <= now && Seen(trace, x.Key(), x.sequence)
  }

  ghost predicate GoodTable(table: Table, trace: seq<Event>, now: int) {
    forall u :: u in table ==> GoodRow(table[u], trace, now)
  }

  lemma {:induction false} KeptOrdered(services: seq<BackendService>, rule: Rule)
    requires Ordered(services)
    ensures Ordered(Kept(services, rule))
  {
    if services != [] {
      var n := |services| - 1;
      KeptOrdered(services[..n], rule);
      KeptMembers(services[..n], rule);
      var kept := Kept(services[..n], rule);
      forall i | 0 <= i < |kept| && kept[i].Key() == services[n].Key()
        ensures kept[i].sequence <= services[n].sequence
      {
        assert kept[i] in services[..n];
      }
    }
  }

  lemma SweptGood(row: Row, rule: Rule, trace: seq<Event>, now: int)
    requires GoodRow(row, trace, now) && DoomedFirst(row.services, rule)
    ensures GoodRow(SweptRow(row, rule), trace, now)
  {
    SweptRowLockstep(row, rule);
    KeptOrdered(row.services, rule);
    KeptMembers(row.services, rule);
  }

  lemma StaleFirst(services: seq<BackendService>, now: int)
    requires Ordered(services) && forall x :: x in services ==> x.sequence <= now
    ensures DoomedFirst(services, Stale(now))
  {
    forall i, j | 0 <= i < j < |services| && services[i].Key() == services[j].Key() && Doomed(Stale(now), services[j])
      ensures Doomed(Stale(now), services[i])
    {
      assert services[j] in services;
    }
  }

  lemma EvictedFirst(services: seq<BackendService>, host: string, port: int, uri: string)
    requires uri == "" || forall x, y :: x in services && y in services && x.Key() == y.Key() ==> x.uri == y.uri
    ensures DoomedFirst(services, Evicted(host, port, uri))
  {
    forall i, j | 0 <= i < j < |services| && services[i].Key() == services[j].Key() &&
                  Doomed(Evicted(host, port, uri), services[j])
      ensures Doomed(Evicted(host, port, uri), services[i])
    {
      assert services[i] in services && services[j] in services;
    }
  }

  lemma SeenLonger(trace: seq<Event>, e: Event, key: BackendKey, sequence: int)
    requires Seen(trace, key, sequence)
    ensures Seen(trace + [e], key, sequence)
  {
    var i :| 0 <= i < |trace| && trace[i].Add? && trace[i].service.Key() == key &&
        trace[i].service.sequence == sequence;
    assert (trace + [e])[i] == trace[i];
  }

  lemma GoodLonger(table: Table, trace: seq<Event>, e: Event, now: int, later: int)
    requires GoodTable(table, trace, now) && now <= later
    ensures GoodTable(table, trace + [e], later)
  {
    forall u, x | u in table && x in table[u].services
      ensures x.sequence <= later && Seen(trace + [e], x.Key(), x.sequence)
    {
      SeenLonger(trace, e, x.Key(), x.sequence);
    }
  }

  lemma ExtendedGood(row: Row, trace: seq<Event>, service: BackendService, uri: string, load: real, now: int)
    requires GoodRow(row, trace + [Add(service, uri, load)], now) && service.sequence <= now
    requires forall x :: x in row.services ==> Seen(trace, x.Key(), x.sequence)
    requires InOrder(trace + [Add(service, uri, load)])
    ensures GoodRow(Extended(row, service, load), trace + [Add(service, uri, load)], now)
  {
    var all := trace + [Add(service, uri, load)];
    ExtendedLockstep(row, service, load);
    assert all[|trace|].Add? && all[|trace|].service == service;
    assert Seen(all, service.Key(), service.sequence);
    forall k | 0 <= k < |row.services| && row.services[k].Key() == service.Key()
      ensures row.services[k].sequence <= service.sequence
    {
      var x := row.services[k];
      assert x in row.services;
      var i :| 0 <= i < |trace| && trace[i].Add? && trace[i].service.Key() == x.Key() &&
          trace[i].service.sequence == x.sequence;
      assert all[i] == trace[i];
    }
  }

  lemma PrunedGood(table: Table, trace: seq<Event>, now: int)
    requires GoodTable(table, trace, now)
    ensures GoodTable(SweptTable(table, Stale(now)), trace, now)
  {
    forall u | u in table ensures GoodRow(SweptRow(table[u], Stale(now)), trace, now) {
      StaleFirst(table[u].services, now);
      SweptGood(table[u], Stale(now), trace, now);
    }
  }

  lemma EvictedGood(table: Table, host: string, port: int, uri: string, trace: seq<Event>, now: int)
    requires GoodTable(table, trace, now) && (uri != "" ==> OneUriEach(table))
    ensures GoodTable(SweptTable(table, Evicted(host, port, uri)), trace, now)
  {
    forall u | u in table ensures GoodRow(SweptRow(table[u], Evicted(host, port, uri)), trace, now) {
      EvictedFirst(table[u].services, host, port, uri);
      SweptGood(table[u], Evicted(host, port, uri), trace, now);
    }
  }

  lemma StepGood(s: Frontend, trace: seq<Event>, e: Event, maxSkipped: nat)
    requires GoodTable(s.table, trace, s.sequence)
    requires InOrder(trace + [e])
    requires e.Add? ==> e.service.sequence <= s.sequence
    requires e.Evict? && e.uri != "" ==> OneUriEach(s.table)
    ensures var t := Step(s, e, maxSkipped, 0); GoodTable(t.table, trace + [e], t.sequence)
  {
    var t := Step(s, e, maxSkipped, 0);
    GoodLonger(s.table, trace, e, s.sequence, t.sequence);
    match e
    case Add(service, uri, load) => ExtendedGood(RowAt(s.table, uri), trace, service, uri, load, s.sequence);
    case Deadline => PrunedGood(s.table, trace + [e], s.sequence);
    case Evict(host, port, uri) => EvictedGood(s.table, host, port, uri, trace + [e], s.sequence);
    case _ =>
  }

  lemma {:induction false} IdealLockstep(trace: seq<Event>, maxSkipped: nat)
    requires InOrder(trace) && Plain(trace, maxSkipped)
    ensures var s := Run(trace, maxSkipped, 0); GoodTable(s.table, trace, s.sequence)
  {
    if trace != [] {
      var before, e := trace[..|trace| - 1], trace[|trace| - 1];
      assert trace == before + [e];
      IdealLockstep(before, maxSkipped);
      StepGood(Run(before, maxSkipped, 0), before, e, maxSkipped);
    }
  }

  /** Lockstep over whole runs: with per-backend order of delivery, after every interleaving of
      registrations, deadlines and evictions each service list and its forwarder agree position
      by position, in the machine that never wraps and in the engine. */
  lemma LockstepOverRuns(trace: seq<Event>, maxSkipped: nat)
    requires InOrder(trace) && Plain(trace, maxSkipped)
    ensures AllLockstep(Run(trace, maxSkipped, 0).table)
    ensures Legal(trace, maxSkipped, 0) && Timely(trace, maxSkipped) && maxSkipped + 1 < SEQUENCE_RANGE ==>
              AllLockstep(Run(WrapTrace(trace), maxSkipped, SEQUENCE_RANGE).table)
  {
    IdealLockstep(trace, maxSkipped);
    if Legal(trace, maxSkipped, 0) && Timely(trace, maxSkipped) && maxSkipped + 1 < SEQUENCE_RANGE {
      WrappedLockstep(trace, maxSkipped);
    }
  }

  lemma WrapKeys(services: seq<BackendService>)
    ensures ServiceKeys(WrapList(services)) == ServiceKeys(services)
  {
    assert forall i :: 0 <= i < |services| ==> WrapList(services)[i].Key() == services[i].Key();
  }

  // ----- Lockstep exactly -----

  /** In every row, dropping the doomed services drops the same keys as dropping each backend's
      first ones. */
  ghost predicate SweepFits(table: Table, rule: Rule) {
    forall u :: u in table ==>
      ServiceKeys(Kept(table[u].services, rule)) ==
          DropFirst(ServiceKeys(table[u].services), Gone(table[u].services, rule))
  }

  lemma SweepFitsExactly(table: Table, rule: Rule)
    requires AllLockstep(table)
    ensures AllLockstep(SweptTable(table, rule)) <==> SweepFits(table, rule)
  {
    forall u | u in table
      ensures Lockstep(SweptTable(table, rule)[u]) <==>
                ServiceKeys(Kept(table[u].services, rule)) ==
                    DropFirst(ServiceKeys(table[u].services), Gone(table[u].services, rule))
    {
      SweepLockstepExactly(table[u], rule);
    }
    if AllLockstep(SweptTable(table, rule)) {
      forall u | u in table ensures Lockstep(SweptTable(table, rule)[u]) {
        assert u in SweptTable(table, rule);
      }
    }
  }

  ghost predicate Fits(s: Frontend, e: Event, maxSkipped: nat) {
    match e
    case Deadline => Prunes(s, maxSkipped) ==> SweepFits(s.table, Stale(s.sequence))
    case Evict(host, port, uri) => SweepFits(s.table, Evicted(host, port, uri))
    case _ => true
  }

  /** Every pruning deadline and every eviction of the run fits. */
  ghost predicate AllFit(trace: seq<Event>, maxSkipped: nat, range: nat) {
    trace == [] ||
    (AllFit(trace[..|trace| - 1], maxSkipped, range) &&
     Fits(Run(trace[..|trace| - 1], maxSkipped, range), trace[|trace| - 1], maxSkipped))
  }

  lemma AddedLockstep(table: Table, uri: string, service: BackendService, load: real)
    requires AllLockstep(table)
    ensures AllLockstep(ServiceAdded(table, uri, service, load))
  {
    ExtendedLockstep(RowAt(table, uri), service, load);
  }

  lemma StepFits(s: Frontend, e: Event, maxSkipped: nat, range: nat)
    requires AllLockstep(s.table)
    ensures AllLockstep(Step(s, e, maxSkipped, range).table) <==> Fits(s, e, maxSkipped)
  {
    match e
    case Add(service, uri, load) => AddedLockstep(s.table, uri, service, load);
    case Deadline => SweepFitsExactly(s.table, Stale(s.sequence));
    case Evict(host, port, uri) => SweepFitsExactly(s.table, Evicted(host, port, uri));
    case _ =>
  }

  ghost predicate AlwaysLockstep(trace: seq<Event>, maxSkipped: nat, range: nat) {
    forall n :: 0 <= n <= |trace| ==> AllLockstep(Run(trace[..n], maxSkipped, range).table)
  }

  lemma AlwaysLockstepNext(trace: seq<Event>, maxSkipped: nat, range: nat)
    requires trace != []
    ensures AlwaysLockstep(trace, maxSkipped, range) <==>
            AlwaysLockstep(trace[..|trace| - 1], maxSkipped, range) && AllLockstep(Run(trace, maxSkipped, range).table)
  {
    var before := trace[..|trace| - 1];
    assert trace[..|trace|] == trace;
    assert forall n :: 0 <= n <= |before| ==> before[..n] == trace[..n];
  }

  /** Lockstep over whole runs, exactly, with no assumption on order or removals: after every step
      of a run each list and its forwarder agree position by position if and only if every
      pruning deadline and every eviction of the run fits. */
  lemma {:induction false} LockstepExactly(trace: seq<Event>, maxSkipped: nat, range: nat)
    ensures AlwaysLockstep(trace, maxSkipped, range) <==> AllFit(trace, maxSkipped, range)
  {
    if trace == [] {
      assert trace[..0] == [];
    } else {
      var before := trace[..|trace| - 1];
      LockstepExactly(before, maxSkipped, range);
      AlwaysLockstepNext(trace, maxSkipped, range);
      if AlwaysLockstep(before, maxSkipped, range) {
        assert before[..|before|] == before;
        StepFits(Run(before, maxSkipped, range), trace[|trace| - 1], maxSkipped, range);
      }
    }
  }

  // ----- A good cycle heals -----

  /** The first k entries are not of cycle n and only balanced, the others are of n and in lockstep. */
  ghost predicate RenewedAt(row: Row, n: int, k: nat) {
    && k <= |row.services| && k <= |row.infos|
    && (forall i :: 0 <= i < k ==> row.services[i].sequence != n)
    && (forall i :: k <= i < |row.services| ==> row.services[i].sequence == n)
    && multiset(ServiceKeys(row.services[..k])) == multiset(InfoKeys(row.infos[..k]))
    && ServiceKeys(row.services[k..]) == InfoKeys(row.infos[k..])
  }

  ghost predicate Renewed(row: Row, n: int) {
    exists k: nat :: RenewedAt(row, n, k)
  }

  ghost predicate AllRenewed(table: Table, n: int) {
    forall u :: u in table ==> Renewed(table[u], n)
  }

  lemma {:induction false} DropAll(front: seq<BackendKey>, back: seq<BackendKey>, gone: multiset<BackendKey>)
    requires gone == multiset(front)
    ensures DropFirst(front + back, gone) == back
  {
    if front == [] {
      assert front + back == back;
      DropNone(back);
    } else {
      var all := front + back;
      assert all[1..] == front[1..] + back;
      assert front == [front[0]] + front[1..];
      assert gone - multiset{front[0]} == multiset(front[1..]);
      DropAll(front[1..], back, gone - multiset{front[0]});
    }
  }

  lemma {:induction false} AllGone(services: seq<BackendService>, rule: Rule)
    requires forall i :: 0 <= i < |services| ==> Doomed(rule, services[i])
    ensures Gone(services, rule) == multiset(ServiceKeys(services)) && Kept(services, rule) == []
  {
    if services != [] {
      var n := |services| - 1;
      AllGone(services[..n], rule);
      assert services == services[..n] + [services[n]];
      KeysSnoc(services[..n], services[n]);
    }
  }

  lemma {:induction false} NoneDoomed(services: seq<BackendService>, rule: Rule)
    requires forall i :: 0 <= i < |services| ==> !Doomed(rule, services[i])
    ensures Gone(services, rule) == multiset{} && Kept(services, rule) == services
  {
    if services != [] {
      var n := |services| - 1;
      NoneDoomed(services[..n], rule);
      assert services == services[..n] + [services[n]];
    }
  }

  lemma {:induction false} GoneConcat(a: seq<BackendService>, b: seq<BackendService>, rule: Rule)
    ensures Gone(a + b, rule) == Gone(a, rule) + Gone(b, rule)
  {
    if b == [] {
      assert a + b == a;
    } else {
      assert (a + b)[..|a + b| - 1] == a + b[..|b| - 1];
      GoneConcat(a, b[..|b| - 1], rule);
    }
  }

  lemma InfoKeysConcat(p: seq<BackendInfo>, q: seq<BackendInfo>)
    ensures InfoKeys(p + q) == InfoKeys(p) + InfoKeys(q)
  {
  }

  /** Whatever the old entries were like, dropping them leaves the new ones in lockstep. */
  lemma SweptParts(a: seq<BackendService>, b: seq<BackendService>, p: seq<BackendInfo>, q: seq<BackendInfo>, rule: Rule)
    requires forall i :: 0 <= i < |a| ==> Doomed(rule, a[i])
    requires forall i :: 0 <= i < |b| ==> !Doomed(rule, b[i])
    requires multiset(ServiceKeys(a)) == multiset(InfoKeys(p)) && ServiceKeys(b) == InfoKeys(q)
    ensures Lockstep(SweptRow(Row(a + b, p + q), rule))
  {
    AllGone(a, rule);
    NoneDoomed(b, rule);
    KeptConcat(a, b, rule);
    assert [] + b == b;
    GoneConcat(a, b, rule);
    assert multiset(InfoKeys(p)) + multiset{} == multiset(InfoKeys(p));
    InfoKeysConcat(p, q);
    DropAll(InfoKeys(p), InfoKeys(q), Gone(a + b, rule));
    SweptKeys(a + b, p + q, rule);
  }

  lemma RenewedSwept(row: Row, n: int)
    requires Renewed(row, n)
    ensures Lockstep(SweptRow(row, Stale(n)))
  {
    var k: nat :| RenewedAt(row, n, k);
    assert row.services == row.services[..k] + row.services[k..] && row.infos == row.infos[..k] + row.infos[k..];
    SweptParts(row.services[..k], row.services[k..], row.infos[..k], row.infos[k..], Stale(n));
  }

  lemma RenewedExtended(row: Row, n: int, service: BackendService, load: real)
    requires Renewed(row, n) && service.sequence == n
    ensures Renewed(Extended(row, service, load), n)
  {
    var k: nat :| RenewedAt(row, n, k);
    var more := Extended(row, service, load);
    assert more.services[..k] == row.services[..k] && more.infos[..k] == row.infos[..k];
    assert more.services[k..] == row.services[k..] + [service];
    assert more.infos[k..] == row.infos[k..] + [InfoOf(service, load)];
    KeysSnoc(row.services[k..], service);
    assert InfoKeys(more.infos[k..]) == InfoKeys(row.infos[k..]) + [service.Key()];
    assert RenewedAt(more, n, k);
  }

  lemma OldRenewed(row: Row, n: int)
    requires Balanced(row) && forall x :: x in row.services ==> x.sequence != n
    ensures Renewed(row, n)
  {
    BalancedLengths(row);
    var k := |row.services|;
    assert row.services[..k] == row.services && row.infos[..k] == row.infos;
    assert ServiceKeys(row.services[k..]) == [] == InfoKeys(row.infos[k..]);
    assert RenewedAt(row, n, k);
  }

  lemma NothingRenewed(n: int)
    ensures Renewed(Row([], []), n)
  {
    assert ServiceKeys([]) == InfoKeys([]) == [];
    OldRenewed(Row([], []), n);
  }

  /** A step of a cycle without late replies or removals. */
  predicate OnTime(e: Event, n: int) {
    match e
    case Add(service, _, _) => service.sequence == n
    case AddRequest(_) => true
    case Accept => true
    case _ => false
  }

  lemma AddedRenewed(table: Table, uri: string, service: BackendService, load: real, n: int)
    requires AllRenewed(table, n) && service.sequence == n
    ensures AllRenewed(ServiceAdded(table, uri, service, load), n)
  {
    if uri !in table {
      NothingRenewed(n);
    }
    RenewedExtended(RowAt(table, uri), n, service, load);
  }

  lemma PrunedRenewed(table: Table, n: int)
    requires AllRenewed(table, n)
    ensures AllLockstep(SweptTable(table, Stale(n)))
  {
    forall u | u in table ensures Lockstep(SweptRow(table[u], Stale(n))) {
      RenewedSwept(table[u], n);
    }
  }

  lemma OldTableRenewed(table: Table, n: int)
    requires AllBalanced(table) && forall u, x :: u in table && x in table[u].services ==> x.sequence != n
    ensures AllRenewed(table, n)
  {
    forall u | u in table ensures Renewed(table[u], n) {
      OldRenewed(table[u], n);
    }
  }

  lemma OnTimeRenewed(s: Frontend, e: Event, maxSkipped: nat, n: int)
    requires AllRenewed(s.table, n) && OnTime(e, n)
    ensures AllRenewed(Step(s, e, maxSkipped, 0).table, n)
  {
    if e.Add? {
      AddedRenewed(s.table, e.uri, e.service, e.load, n);
    }
  }

  lemma {:induction false} CycleRenews(trace: seq<Event>, cycle: seq<Event>, maxSkipped: nat, n: int)
    requires AllRenewed(Run(trace, maxSkipped, 0).table, n) && forall e :: e in cycle ==> OnTime(e, n)
    ensures AllRenewed(Run(trace + cycle, maxSkipped, 0).table, n)
    ensures Run(trace + cycle, maxSkipped, 0).sequence == Run(trace, maxSkipped, 0).sequence
  {
    if cycle == [] {
      assert trace + cycle == trace;
    } else {
      var k := |cycle| - 1;
      CycleRenews(trace, cycle[..k], maxSkipped, n);
      var before := trace + cycle[..k];
      assert trace + cycle == before + [cycle[k]];
      RunSnoc(START, before, cycle[k], maxSkipped, 0);
      OnTimeRenewed(Run(before, maxSkipped, 0), cycle[k], maxSkipped, n);
    }
  }

  /** The code heals: whatever happened before (late replies, removals by URI), one cycle without
      them that ends in pruning leaves every list and its forwarder in lockstep. */
  lemma CycleHeals(trace: seq<Event>, cycle: seq<Event>, maxSkipped: nat)
    requires Legal(trace, maxSkipped, 0) && Timely(trace, maxSkipped) && maxSkipped + 1 < SEQUENCE_RANGE
    requires forall e :: e in cycle ==> OnTime(e, Run(trace, maxSkipped, 0).sequence + 1)
    requires Prunes(Run(trace + [Discover] + cycle, maxSkipped, 0), maxSkipped)
    ensures AllLockstep(Run(trace + [Discover] + cycle + [Deadline], maxSkipped, 0).table)
  {
    var s, begun := Run(trace, maxSkipped, 0), trace + [Discover];
    EntriesRecent(trace, maxSkipped);
    IndexSafety(trace, maxSkipped, 0);
    RunSnoc(START, trace, Discover, maxSkipped, 0);
    OldTableRenewed(s.table, s.sequence + 1);
    CycleRenews(begun, cycle, maxSkipped, s.sequence + 1);
    var t := Run(begun + cycle, maxSkipped, 0);
    RunSnoc(START, begun + cycle, Deadline, maxSkipped, 0);
    PrunedRenewed(t.table, t.sequence);
  }

  /** So it does in the engine. */
  lemma EngineHeals(trace: seq<Event>, cycle: seq<Event>, maxSkipped: nat)
    requires var all := trace + [Discover] + cycle + [Deadline];
      Legal(all, maxSkipped, 0) && Timely(all, maxSkipped) && maxSkipped + 1 < SEQUENCE_RANGE
    requires Legal(trace, maxSkipped, 0) && Timely(trace, maxSkipped)
    requires forall e :: e in cycle ==> OnTime(e, Run(trace, maxSkipped, 0).sequence + 1)
    requires Prunes(Run(trace + [Discover] + cycle, maxSkipped, 0), maxSkipped)
    ensures AllLockstep(Run(WrapTrace(trace + [Discover] + cycle + [Deadline]), maxSkipped, SEQUENCE_RANGE).table)
  {
    CycleHeals(trace, cycle, maxSkipped);
    WrappedLockstep(trace + [Discover] + cycle + [Deadline], maxSkipped);
  }

  lemma WrappedLockstep(trace: seq<Event>, maxSkipped: nat)
    requires Legal(trace, maxSkipped, 0) && Timely(trace, maxSkipped) && maxSkipped + 1 < SEQUENCE_RANGE
    ensures AllLockstep(Run(WrapTrace(trace), maxSkipped, SEQUENCE_RANGE).table) <==>
        AllLockstep(Run(trace, maxSkipped, 0).table)
  {
    WraparoundHarmless(trace, maxSkipped);
    var engine, ideal := Run(WrapTrace(trace), maxSkipped, SEQUENCE_RANGE).table, Run(trace, maxSkipped, 0).table;
    assert engine.Keys == ideal.Keys;
    forall u | u in ideal ensures Lockstep(engine[u]) <==> Lockstep(ideal[u]) {
      WrapKeys(ideal[u].services);
    }
  }
}

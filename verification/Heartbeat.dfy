/** Cycle boundaries and silence. */
module Heartbeat {
  import opened RoutingTable
  import opened Services
  import opened Protocol

  ghost predicate ServicesCarry(table: Table, n: int) {
    forall u, x :: u in table && x in table[u].services ==> x.sequence == n
  }

  ghost predicate RequestsCarry(requests: InfoRequests, n: int) {
    forall name, r :: name in requests && r in requests[name] ==> r.sequence == n
  }

  /** Every service and info request carries sequence number n. */
  ghost predicate AllCarry(s: Frontend, n: int) {
    ServicesCarry(s.table, n) && RequestsCarry(s.requests, n)
  }

  ghost predicate NoServices(s: Frontend) {
    AllListsEmpty(s.table) && RequestNames(s.requests) == {}
  }

  lemma SweepCarries(s: Frontend, n: int)
    ensures ServicesCarry(SweptTable(s.table, Stale(n)), n)
    ensures RequestsCarry(SweptRequests(s.requests, n), n)
  {
    forall u | u in s.table
      ensures forall x :: x in Kept(s.table[u].services, Stale(n)) ==> x.sequence == n
    {
      KeptMembers(s.table[u].services, Stale(n));
    }
    forall name | name in s.requests
      ensures forall r :: r in KeptRequests(s.requests[name], n) ==> r.sequence == n
    {
      KeptRequestsMembers(s.requests[name], n);
    }
  }

  lemma SweepShrinks(table: Table, rule: Rule, n: int)
    requires ServicesCarry(table, n)
    ensures ServicesCarry(SweptTable(table, rule), n)
  {
    forall u | u in table
      ensures forall x :: x in Kept(table[u].services, rule) ==> x in table[u].services
    {
      KeptMembers(table[u].services, rule);
    }
  }

  // ----- Cycle boundaries -----

  /** The sequence number at the latest deadline that pruned; 0, as at the start, before the first. */
  ghost function LastPruned(trace: seq<Event>, maxSkipped: nat, range: nat): nat {
    if trace == [] then 0
    else
      var before := trace[..|trace| - 1];
      var s := Run(before, maxSkipped, range);
      if trace[|trace| - 1].Deadline? && Prunes(s, maxSkipped) then s.sequence
      else LastPruned(before, maxSkipped, range)
  }

  /** The deadlines since the one that pruned last, or since the start. */
  ghost function DeadlinesSince(trace: seq<Event>, maxSkipped: nat, range: nat): nat {
    if trace == [] then 0
    else
      var before := trace[..|trace| - 1];
      if !trace[|trace| - 1].Deadline? then DeadlinesSince(before, maxSkipped, range)
      else if Prunes(Run(before, maxSkipped, range), maxSkipped) then 0
      else DeadlinesSince(before, maxSkipped, range) + 1
  }

  /** While nothing was accepted in the current cycle, only entries of the last pruning cycle remain. */
  lemma {:induction false} QuietEntries(trace: seq<Event>, maxSkipped: nat, range: nat)
    requires Legal(trace, maxSkipped, range)
    ensures var s := Run(trace, maxSkipped, range);
            && s.skipped == DeadlinesSince(trace, maxSkipped, range) <= maxSkipped
            && (!s.listening ==> s.received == 0 && !s.replying)
            && (s.received == 0 && !s.replying ==> AllCarry(s, LastPruned(trace, maxSkipped, range)))
  {
    if trace != [] {
      var before := trace[..|trace| - 1];
      QuietEntries(before, maxSkipped, range);
      var s := Run(before, maxSkipped, range);
      match trace[|trace| - 1]
      case Deadline => SweepCarries(s, s.sequence);
      case Evict(host, port, uri) =>
        if s.received == 0 && !s.replying {
          SweepShrinks(s.table, Evicted(host, port, uri), LastPruned(before, maxSkipped, range));
        }
      case _ =>
    }
  }

  /** After every deadline all services and info requests carry one sequence number, that of the
      last pruning cycle, though late replies with old numbers are accepted; and the count of
      skipped cycles is the number of deadlines since then, never above the limit. */
  lemma CycleBoundary(trace: seq<Event>, maxSkipped: nat, range: nat)
    requires trace != [] && trace[|trace| - 1] == Deadline && Legal(trace, maxSkipped, range)
    ensures var s := Run(trace, maxSkipped, range);
            && AllCarry(s, LastPruned(trace, maxSkipped, range))
            && s.skipped == DeadlinesSince(trace, maxSkipped, range) <= maxSkipped
  {
    QuietEntries(trace, maxSkipped, range);
  }

  // ----- Silence -----

  /** Cycles in which no reply is accepted and nothing is evicted. */
  function SilentCycles(k: nat): seq<Event> {
    if k == 0 then [] else SilentCycles(k - 1) + [Discover, Deadline]
  }

  /** A state right after a deadline, its entries those of the cycle that pruned last. */
  ghost predicate Boundary(s: Frontend, n: int, maxSkipped: nat) {
    && 0 <= n < SEQUENCE_RANGE && s.sequence < SEQUENCE_RANGE
    && !s.listening && !s.replying && s.received == 0 && s.skipped <= maxSkipped
    && AllCarry(s, n) && s.sequence == (n + s.skipped) % SEQUENCE_RANGE
  }

  ghost function SilentCycle(t: Frontend, maxSkipped: nat): Frontend {
    Step(Step(t, Discover, maxSkipped, SEQUENCE_RANGE), Deadline, maxSkipped, SEQUENCE_RANGE)
  }

  lemma OneSilentCycle(s: Frontend, k: nat, maxSkipped: nat)
    ensures RunFrom(s, SilentCycles(k + 1), maxSkipped, SEQUENCE_RANGE) ==
            SilentCycle(RunFrom(s, SilentCycles(k), maxSkipped, SEQUENCE_RANGE), maxSkipped)
  {
    var trace := SilentCycles(k);
    RunSnoc(s, trace, Discover, maxSkipped, SEQUENCE_RANGE);
    RunSnoc(s, trace + [Discover], Deadline, maxSkipped, SEQUENCE_RANGE);
    assert trace + [Discover] + [Deadline] == trace + [Discover, Deadline];
  }

  /** The state k silent cycles later, while they are tolerated. */
  function Idle(s: Frontend, k: nat): Frontend {
    s.(sequence := (s.sequence + k) % SEQUENCE_RANGE, skipped := s.skipped + k)
  }

  lemma Around(a: nat, b: nat)
    ensures (a % SEQUENCE_RANGE + b) % SEQUENCE_RANGE == (a + b) % SEQUENCE_RANGE
  {
  }

  lemma IdleNext(s: Frontend, k: nat, maxSkipped: nat)
    requires !s.listening && s.received == 0 && s.skipped + k < maxSkipped
    ensures SilentCycle(Idle(s, k), maxSkipped) == Idle(s, k + 1)
  {
    Around(s.sequence + k, 1);
  }

  /** Up to the limit silence changes nothing but the counters. */
  lemma {:induction false} Tolerated(s: Frontend, n: int, k: nat, maxSkipped: nat)
    requires Boundary(s, n, maxSkipped) && s.skipped + k <= maxSkipped
    ensures RunFrom(s, SilentCycles(k), maxSkipped, SEQUENCE_RANGE) == Idle(s, k)
  {
    if k > 0 {
      Tolerated(s, n, k - 1, maxSkipped);
      OneSilentCycle(s, k - 1, maxSkipped);
      IdleNext(s, k - 1, maxSkipped);
    }
  }

  /** Sweeping lists that all carry n by another number empties them; by n it changes nothing. */
  lemma SweepServices(table: Table, n: int, m: int)
    requires ServicesCarry(table, n)
    ensures AllListsEmpty(SweptTable(table, Stale(m))) <==> n != m || AllListsEmpty(table)
  {
    forall u | u in table
      ensures SweptTable(table, Stale(m))[u].services == [] <==> n != m || table[u].services == []
    {
      KeptMembers(table[u].services, Stale(m));
      NotEmpty(Kept(table[u].services, Stale(m)));
      NotEmpty(table[u].services);
    }
  }

  lemma NoNames(requests: InfoRequests)
    ensures RequestNames(requests) == {} <==> forall name :: name in requests ==> requests[name] == []
  {
    assert forall name :: name in requests && requests[name] != [] ==> name in RequestNames(requests);
  }

  lemma SweepNames(requests: InfoRequests, n: int, m: int)
    requires RequestsCarry(requests, n)
    ensures RequestNames(SweptRequests(requests, m)) == {} <==> n != m || RequestNames(requests) == {}
  {
    forall name | name in requests
      ensures SweptRequests(requests, m)[name] == [] <==> n != m || requests[name] == []
    {
      KeptRequestsMembers(requests[name], m);
      NotEmpty(KeptRequests(requests[name], m));
      NotEmpty(requests[name]);
    }
    NoNames(requests);
    NoNames(SweptRequests(requests, m));
  }

  lemma NotEmpty<T>(s: seq<T>)
    ensures s != [] <==> exists x :: x in s
  {
    if s != [] { assert s[0] in s; }
  }

  lemma FullTurn(n: nat, k: nat)
    requires n < SEQUENCE_RANGE
    ensures (n + k) % SEQUENCE_RANGE == n <==> k % SEQUENCE_RANGE == 0
  {
  }

  /** The state after a deadline that pruned with number m. */
  function Flushed(s: Frontend, m: nat): Frontend {
    s.(table := SweptTable(s.table, Stale(m)), requests := SweptRequests(s.requests, m), sequence := m, skipped := 0)
  }

  lemma LastCycle(s: Frontend, k: nat, maxSkipped: nat)
    requires !s.listening && s.received == 0 && s.skipped + k == maxSkipped
    ensures SilentCycle(Idle(s, k), maxSkipped) == Flushed(s, ((s.sequence + k) % SEQUENCE_RANGE + 1) % SEQUENCE_RANGE)
  {
  }

  lemma Countdown(sequence: nat, n: nat, skipped: nat, left: nat)
    requires sequence == (n + skipped) % SEQUENCE_RANGE
    ensures ((sequence + left) % SEQUENCE_RANGE + 1) % SEQUENCE_RANGE == (n + (skipped + left) + 1) % SEQUENCE_RANGE
  {
    Around(sequence + left, 1);
    Around(n + skipped, left + 1);
  }

  /** The first silent deadline beyond the limit sweeps with the current sequence number. */
  lemma NotTolerated(s: Frontend, n: int, maxSkipped: nat)
    requires Boundary(s, n, maxSkipped)
    ensures RunFrom(s, SilentCycles(maxSkipped - s.skipped + 1), maxSkipped, SEQUENCE_RANGE) ==
            Flushed(s, (n + maxSkipped + 1) % SEQUENCE_RANGE)
  {
    var left := maxSkipped - s.skipped;
    Tolerated(s, n, left, maxSkipped);
    OneSilentCycle(s, left, maxSkipped);
    LastCycle(s, left, maxSkipped);
    Countdown(s.sequence, n, s.skipped, left);
  }

  lemma FlushedEmpties(s: Frontend, n: nat, cycles: nat)
    requires AllCarry(s, n) && n < SEQUENCE_RANGE
    ensures NoServices(Flushed(s, (n + cycles) % SEQUENCE_RANGE)) <==> cycles % SEQUENCE_RANGE != 0 || NoServices(s)
  {
    var m := (n + cycles) % SEQUENCE_RANGE;
    FullTurn(n, cycles);
    SweepServices(s.table, n, m);
    SweepNames(s.requests, n, m);
  }

  lemma SilenceEmpties(s: Frontend, n: int, maxSkipped: nat)
    requires Boundary(s, n, maxSkipped)
    ensures NoServices(RunFrom(s, SilentCycles(maxSkipped - s.skipped + 1), maxSkipped, SEQUENCE_RANGE)) <==>
              (maxSkipped + 1) % SEQUENCE_RANGE != 0 || NoServices(s)
  {
    NotTolerated(s, n, maxSkipped);
    FlushedEmpties(s, n, maxSkipped + 1);
  }

  /** Silence tolerance, exactly: from a cycle boundary the table stands unchanged through as
      many silent deadlines as the limit still allows, and the next one empties every list and
      leaves no info request name, if and only if the limit plus one is no multiple of the
      sequence range (or there was nothing to begin with). */
  lemma SilenceTolerance(s: Frontend, n: int, maxSkipped: nat)
    requires Boundary(s, n, maxSkipped)
    ensures forall k: nat :: s.skipped + k <= maxSkipped ==>
              RunFrom(s, SilentCycles(k), maxSkipped, SEQUENCE_RANGE) == Idle(s, k)
    ensures NoServices(RunFrom(s, SilentCycles(maxSkipped - s.skipped + 1), maxSkipped, SEQUENCE_RANGE)) <==>
              (maxSkipped + 1) % SEQUENCE_RANGE != 0 || NoServices(s)
  {
    forall k: nat | s.skipped + k <= maxSkipped
      ensures RunFrom(s, SilentCycles(k), maxSkipped, SEQUENCE_RANGE) == Idle(s, k)
    {
      Tolerated(s, n, k, maxSkipped);
    }
    SilenceEmpties(s, n, maxSkipped);
  }

  /** Sequence number q is that of cycle n, some cycles and perhaps a request later. */
  predicate Counted(q: nat, n: nat, skipped: nat, listening: bool) {
    q < SEQUENCE_RANGE && n < SEQUENCE_RANGE && q == (n + skipped + if listening then 1 else 0) % SEQUENCE_RANGE
  }

  lemma CountOn(q: nat, n: nat, skipped: nat)
    ensures Counted(q, n, skipped, false) ==> Counted((q + 1) % SEQUENCE_RANGE, n, skipped, true)
    ensures Counted(q, n, skipped, true) ==> Counted(q, n, skipped + 1, false) && Counted(q, q, 0, false)
  {
    Around(n + skipped, 1);
  }

  lemma CountedStep(s: Frontend, n: nat, e: Event, maxSkipped: nat)
    requires Enabled(s, e) && Counted(s.sequence, n, s.skipped, s.listening)
    ensures var t := Step(s, e, maxSkipped, SEQUENCE_RANGE);
            Counted(t.sequence, if e.Deadline? && Prunes(s, maxSkipped) then s.sequence else n, t.skipped, t.listening)
  {
    CountOn(s.sequence, n, s.skipped);
  }

  /** The sequence number is that of the last pruning cycle plus the cycles since. */
  lemma {:induction false} SequenceOfCycle(trace: seq<Event>, maxSkipped: nat)
    requires Legal(trace, maxSkipped, SEQUENCE_RANGE)
    ensures var s := Run(trace, maxSkipped, SEQUENCE_RANGE);
            Counted(s.sequence, LastPruned(trace, maxSkipped, SEQUENCE_RANGE), s.skipped, s.listening)
  {
    if trace != [] {
      var before := trace[..|trace| - 1];
      SequenceOfCycle(before, maxSkipped);
      CountedStep(Run(before, maxSkipped, SEQUENCE_RANGE), LastPruned(before, maxSkipped, SEQUENCE_RANGE),
                  trace[|trace| - 1], maxSkipped);
    }
  }

  /** The state after every deadline of the running engine is a cycle boundary. */
  lemma ReachableBoundary(trace: seq<Event>, maxSkipped: nat)
    requires trace != [] && trace[|trace| - 1] == Deadline && Legal(trace, maxSkipped, SEQUENCE_RANGE)
    ensures Boundary(Run(trace, maxSkipped, SEQUENCE_RANGE), LastPruned(trace, maxSkipped, SEQUENCE_RANGE), maxSkipped)
  {
    QuietEntries(trace, maxSkipped, SEQUENCE_RANGE);
    SequenceOfCycle(trace, maxSkipped);
  }
}

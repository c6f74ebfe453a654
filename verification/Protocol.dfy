/** The frontend as a state machine over single locked steps. */
module Protocol {
  import opened Entities
  import opened RoutingTable
  import opened PrefixMap
  import opened Services

  // The discovery sequence counts modulo this.
  const SEQUENCE_RANGE: nat := 65535

  /** The routing state, the heartbeat counters, and where the io thread is: waiting for
      replies, in the middle of one, or (after the restart) nowhere. */
  datatype Frontend = Frontend(
    table: Table, requests: InfoRequests, prefixes: Prefixes,
    sequence: nat, received: nat, skipped: nat,
    listening: bool, replying: bool, running: bool)

  const START := Frontend(map[], map[], map[], 0, 0, 0, false, false, true)

  datatype Event =
    | Discover
    | Add(service: BackendService, uri: string, load: real)
    | AddRequest(request: InfoRequest)
    | Accept
    | Deadline
    | Evict(host: string, port: int, uri: string)
    | Crash

  /** The next sequence number; a range of zero stands for a counter that never wraps. */
  function Next(sequence: nat, range: nat): nat {
    if range == 0 then sequence + 1 else (sequence + 1) % range
  }

  /** Whether a deadline prunes: something was received, or too many cycles were silent. */
  predicate Prunes(s: Frontend, maxSkipped: nat) {
    s.received > 0 || s.skipped + 1 > maxSkipped
  }

  /** The cycle is over. */
  function Settled(s: Frontend, table: Table, requests: InfoRequests, skipped: nat): Frontend {
    s.(table := table, requests := requests, skipped := skipped, received := 0, listening := false)
  }

  ghost function Step(s: Frontend, e: Event, maxSkipped: nat, range: nat): Frontend {
    match e
    case Discover =>
      s.(sequence := Next(s.sequence, range), listening := true)
    case Add(service, uri, load) =>
      s.(table := ServiceAdded(s.table, uri, service, load),
         prefixes := PrefixesAfter(s.prefixes, service, uri),
         replying := true)
    case AddRequest(request) =>
      s.(requests := RequestAdded(s.requests, request), replying := true)
    case Accept =>
      s.(received := s.received + 1, replying := false)
    case Deadline =>
      if Prunes(s, maxSkipped) then
        Settled(s, SweptTable(s.table, Stale(s.sequence)), SweptRequests(s.requests, s.sequence), 0)
      else
        Settled(s, s.table, s.requests, s.skipped + 1)
    case Evict(host, port, uri) =>
      var swept := SweptTable(s.table, Evicted(host, port, uri));
      s.(table := swept, prefixes := Without(s.prefixes, uri, ListedIds(s.table)), running := !AllListsEmpty(swept))
    case Crash =>
      s.(running := false)
  }

  ghost function RunFrom(s: Frontend, trace: seq<Event>, maxSkipped: nat, range: nat): Frontend {
    if trace == [] then s
    else Step(RunFrom(s, trace[..|trace| - 1], maxSkipped, range), trace[|trace| - 1], maxSkipped, range)
  }

  ghost function Run(trace: seq<Event>, maxSkipped: nat, range: nat): Frontend {
    RunFrom(START, trace, maxSkipped, range)
  }

  lemma RunSnoc(s: Frontend, trace: seq<Event>, e: Event, maxSkipped: nat, range: nat)
    ensures RunFrom(s, trace + [e], maxSkipped, range) ==
        Step(RunFrom(s, trace, maxSkipped, range), e, maxSkipped, range)
  {
    assert (trace + [e])[..|trace|] == trace;
  }

  /** What the io thread can do next; evictions come from other threads at any time. A crash is
      a reply whose processing throws: the exception leaves the io thread. */
  predicate Enabled(s: Frontend, e: Event) {
    && s.running
    && match e
       case Discover => !s.listening
       case Add(_, _, _) => s.listening
       case AddRequest(_) => s.listening
       case Accept => s.listening && s.replying
       case Deadline => s.listening && !s.replying
       case Evict(_, _, _) => true
       case Crash => s.listening && !s.replying
  }

  ghost predicate Legal(trace: seq<Event>, maxSkipped: nat, range: nat) {
    trace == [] ||
    (Legal(trace[..|trace| - 1], maxSkipped, range) &&
     Enabled(Run(trace[..|trace| - 1], maxSkipped, range), trace[|trace| - 1]))
  }

  lemma LegalSnoc(trace: seq<Event>, e: Event, maxSkipped: nat, range: nat)
    ensures Legal(trace + [e], maxSkipped, range) <==>
            Legal(trace, maxSkipped, range) && Enabled(Run(trace, maxSkipped, range), e)
  {
    assert (trace + [e])[..|trace|] == trace;
  }

  /** A deadline after a silent cycle within the limit counts it and changes nothing else; any other
      leaves in every list exactly the services and requests of the current number, each as often. */
  lemma DeadlineMeans(s: Frontend, maxSkipped: nat, range: nat)
    ensures var t := Step(s, Deadline, maxSkipped, range);
      if s.received == 0 && s.skipped < maxSkipped then
        t == s.(skipped := s.skipped + 1, received := 0, listening := false)
      else
        && t == s.(table := t.table, requests := t.requests, skipped := 0, received := 0, listening := false)
        && t.table.Keys == s.table.Keys && t.requests.Keys == s.requests.Keys
        && (forall u, x {:trigger multiset(t.table[u].services)[x]} :: u in s.table ==>
             multiset(t.table[u].services)[x] ==
               if x.sequence == s.sequence then multiset(s.table[u].services)[x] else 0)
        && forall name, r {:trigger multiset(t.requests[name])[r]} :: name in s.requests ==>
             multiset(t.requests[name])[r] == if r.sequence == s.sequence then multiset(s.requests[name])[r] else 0
  {
    StaleContents(s.table, s.sequence);
    SweptRequestsContents(s.requests, s.sequence);
  }

  // ----- What holds in every run, with no assumption at all -----

  lemma StepBalanced(s: Frontend, e: Event, maxSkipped: nat, range: nat)
    requires AllBalanced(s.table)
    ensures AllBalanced(Step(s, e, maxSkipped, range).table)
  {
    match e
    case Add(service, uri, load) => ServiceAddedBalanced(s.table, uri, service, load);
    case Deadline => SweptTableBalanced(s.table, Stale(s.sequence));
    case Evict(host, port, uri) => SweptTableBalanced(s.table, Evicted(host, port, uri));
    case _ =>
  }

  /** In any order of delivery, with any evictions: each list and its forwarder hold the same
      backends, each as often, so every index the forwarder can choose is valid. */
  lemma {:induction false} IndexSafety(trace: seq<Event>, maxSkipped: nat, range: nat)
    ensures AllBalanced(Run(trace, maxSkipped, range).table)
    ensures var table := Run(trace, maxSkipped, range).table;
            forall u :: u in table ==> |table[u].services| == |table[u].infos|
  {
    if trace != [] {
      var before := trace[..|trace| - 1];
      IndexSafety(before, maxSkipped, range);
      StepBalanced(Run(before, maxSkipped, range), trace[|trace| - 1], maxSkipped, range);
    }
    var table := Run(trace, maxSkipped, range).table;
    forall u | u in table ensures |table[u].services| == |table[u].infos| {
      BalancedLengths(table[u]);
    }
  }

  /** The URIs some service was ever added under. */
  function AddedUris(trace: seq<Event>): set<string> {
    if trace == [] then {}
    else
      var e := trace[|trace| - 1];
      AddedUris(trace[..|trace| - 1]) + if e.Add? then {e.uri} else {}
  }

  lemma StepUris(s: Frontend, e: Event, maxSkipped: nat, range: nat)
    requires s.prefixes.Keys <= s.table.Keys && Held(s.prefixes)
    ensures var t := Step(s, e, maxSkipped, range);
            t.table.Keys == s.table.Keys + (if e.Add? then {e.uri} else {}) && t.prefixes.Keys <= t.table.Keys &&
                Held(t.prefixes)
  {
    if e.Evict? {
      WithoutTwice(s.prefixes, e.uri, ListedIds(s.table), {});
    }
  }

  lemma {:induction false} KnownUris(trace: seq<Event>, maxSkipped: nat, range: nat)
    ensures var s := Run(trace, maxSkipped, range);
            s.table.Keys == AddedUris(trace) && s.prefixes.Keys <= s.table.Keys && Held(s.prefixes)
  {
    if trace != [] {
      var before := trace[..|trace| - 1];
      KnownUris(before, maxSkipped, range);
      StepUris(Run(before, maxSkipped, range), trace[|trace| - 1], maxSkipped, range);
    }
  }

  /** In every reachable state a matching prefix leads to a known URI, and nothing is known
      exactly when no registered prefix matches and the very URI was never added. */
  lemma PrefixAgreement(trace: seq<Event>, maxSkipped: nat, range: nat, resource: string)
    ensures var s := Run(trace, maxSkipped, range);
            && (Matches(s.prefixes.Keys, resource) ==> Translated(s.prefixes.Keys, resource) in s.table)
            && (Translated(s.prefixes.Keys, resource) !in s.table <==>
                 !Matches(s.prefixes.Keys, resource) && resource !in AddedUris(trace))
  {
    KnownUris(trace, maxSkipped, range);
    TranslatedSpec(Run(trace, maxSkipped, range).prefixes.Keys, resource);
  }
}

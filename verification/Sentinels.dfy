/** Per-backend counters of unanswered requests. */
module Sentinels {
  import opened Entities
  import opened Text

  // unsigned int arithmetic
  const UINT_RANGE: nat := 0x1_0000_0000

  class BackendSentinel {
    const throttle: nat
    var currentThrottle: nat

    constructor (throttle: nat)
      ensures this.throttle == throttle && currentThrottle == 0
    {
      this.throttle := throttle;
      currentThrottle := 0;
    }

    method SetAlive()
      modifies this
      ensures currentThrottle == 0
    {
      currentThrottle := 0;
    }

    method GetAlive() returns (alive: bool)
      ensures alive <==> throttle == 0 || currentThrottle <= throttle
    {
      if throttle == 0 {
        return true;
      }
      alive := currentThrottle <= throttle;
    }

    method SignalSentConnection()
      modifies this
      ensures currentThrottle == (old(currentThrottle) + 1) % UINT_RANGE
    {
      currentThrottle := (currentThrottle + 1) % UINT_RANGE;
    }

    ghost function View(): Counter
      reads this
    {
      Counter(throttle, currentThrottle)
    }
  }

  datatype Counter = Counter(throttle: nat, current: nat)

  /** A throttle of zero never blocks. */
  predicate Alive(c: Counter) {
    c.throttle == 0 || c.current <= c.throttle
  }

  datatype Event =
    | Registered(key: BackendKey, throttle: nat)
    | Answered(key: BackendKey)
    | Sent(key: BackendKey)

  /** What one event does to the counters, whatever they are keyed by. */
  function Apply<K(==)>(counters: map<K, Counter>, k: K, e: Event): map<K, Counter> {
    match e
    case Registered(_, throttle) => counters[k := Counter(throttle, 0)]
    case Answered(_) =>
      if k in counters then counters[k := counters[k].(current := 0)] else counters
    case Sent(_) =>
      if k in counters then counters[k := counters[k].(current := (counters[k].current + 1) % UINT_RANGE)]
      else counters
  }

  class SentinelMap {
    var sentinels: map<string, BackendSentinel>
    ghost var counters: map<string, Counter>
    ghost var objects: set<BackendSentinel>

    /** Every name has a sentinel of its own, and the counters say what they hold. */
    ghost predicate Valid()
      reads this, objects
    {
      && (forall a :: a in sentinels ==> sentinels[a] in objects)
      && (forall a, b :: a in sentinels && b in sentinels && a != b ==> sentinels[a] != sentinels[b])
      && counters.Keys == sentinels.Keys
      && forall a :: a in sentinels ==> counters[a] == sentinels[a].View()
    }

    constructor ()
      ensures Valid() && counters == map[] && objects == {}
    {
      sentinels := map[];
      counters := map[];
      objects := {};
    }

    /** A registration replaces the sentinel, with a fresh counter and the new throttle. */
    method Register(host: string, port: int, throttle: nat)
      requires Valid()
      modifies this
      ensures Valid()
      ensures counters == Apply(old(counters), Rendered(host, port), Registered(BackendKey(host, port), throttle))
      ensures old(objects) <= objects && fresh(objects - old(objects))
    {
      var sname := Rendered(host, port);
      var sentinel := new BackendSentinel(throttle);
      sentinels := sentinels[sname := sentinel];
      objects := objects + {sentinel};
      counters := counters[sname := Counter(throttle, 0)];
    }

    method SetBackendAlive(host: string, port: int)
      requires Valid()
      modifies this`counters, objects
      ensures Valid()
      ensures counters == Apply(old(counters), Rendered(host, port), Answered(BackendKey(host, port)))
    {
      var sname := Rendered(host, port);
      if sname in sentinels {
        sentinels[sname].SetAlive();
        counters := counters[sname := sentinels[sname].View()];
      }
    }

    method SignalBackendConnection(host: string, port: int)
      requires Valid()
      modifies this`counters, objects
      ensures Valid()
      ensures counters == Apply(old(counters), Rendered(host, port), Sent(BackendKey(host, port)))
    {
      var sname := Rendered(host, port);
      if sname in sentinels {
        sentinels[sname].SignalSentConnection();
        counters := counters[sname := sentinels[sname].View()];
      }
    }

    method QueryBackendAlive(host: string, port: int) returns (alive: bool)
      requires Valid()
      ensures alive <==> Rendered(host, port) in counters && Alive(counters[Rendered(host, port)])
      ensures alive <==>
        && Rendered(host, port) in counters
        && (counters[Rendered(host, port)].throttle == 0 ||
            counters[Rendered(host, port)].current <= counters[Rendered(host, port)].throttle)
    {
      var sname := Rendered(host, port);
      if sname in sentinels {
        alive := sentinels[sname].GetAlive();
      } else {
        alive := false;
      }
    }
  }

  // ----- Histories -----

  /** The counters as the code keeps them, keyed by the rendered name. */
  function ByName(history: seq<Event>): map<string, Counter> {
    if history == [] then map[]
    else
      var e := history[|history| - 1];
      Apply(ByName(history[..|history| - 1]), Rendered(e.key.name, e.key.port), e)
  }

  /** The counters keyed by the pair itself. */
  function ByKey(history: seq<Event>): map<BackendKey, Counter> {
    if history == [] then map[]
    else
      var e := history[|history| - 1];
      Apply(ByKey(history[..|history| - 1]), e.key, e)
  }

  /** Keying by rendered name never mixes two backends up. */
  lemma {:induction false} NamesAreKeys(history: seq<Event>, k: BackendKey)
    ensures Rendered(k.name, k.port) in ByName(history) <==> k in ByKey(history)
    ensures k in ByKey(history) ==> ByName(history)[Rendered(k.name, k.port)] == ByKey(history)[k]
  {
    if history != [] {
      var e := history[|history| - 1];
      NamesAreKeys(history[..|history| - 1], k);
      RenderedInjective(k.name, k.port, e.key.name, e.key.port);
      assert k == e.key <==> k.name == e.key.name && k.port == e.key.port;
    }
  }

  /** The throttle of the latest registration. */
  function LastThrottle(history: seq<Event>, k: BackendKey): Option<nat> {
    if history == [] then None
    else
      var e := history[|history| - 1];
      if e.Registered? && e.key == k then Some(e.throttle) else LastThrottle(history[..|history| - 1], k)
  }

  /** Requests sent since the backend last registered or answered. */
  function Unanswered(history: seq<Event>, k: BackendKey): nat {
    if history == [] then 0
    else
      var e, before := history[|history| - 1], Unanswered(history[..|history| - 1], k);
      if e.key != k then before else if e.Sent? then before + 1 else 0
  }

  lemma OneMoreUnanswered(n: nat)
    ensures (n % UINT_RANGE + 1) % UINT_RANGE == (n + 1) % UINT_RANGE
  {
  }

  lemma {:induction false} CounterIsHistory(history: seq<Event>, k: BackendKey)
    ensures match LastThrottle(history, k)
            case None => k !in ByKey(history)
            case Some(t) => k in ByKey(history) && ByKey(history)[k] == Counter(t, Unanswered(history, k) % UINT_RANGE)
  {
    if history != [] {
      CounterIsHistory(history[..|history| - 1], k);
      OneMoreUnanswered(Unanswered(history[..|history| - 1], k));
    }
  }

  /** Over every history: a backend is alive exactly when it has registered and its throttle
      is zero or is not exceeded by the unanswered sends, counted in 32 bits. */
  lemma SentinelHistory(history: seq<Event>, k: BackendKey)
    ensures var name := Rendered(k.name, k.port);
            name in ByName(history) && Alive(ByName(history)[name]) <==>
              LastThrottle(history, k).Some? &&
              var t := LastThrottle(history, k).value; t == 0 || Unanswered(history, k) % UINT_RANGE <= t
    ensures Unanswered(history, k) < UINT_RANGE ==> Unanswered(history, k) % UINT_RANGE == Unanswered(history, k)
  {
    NamesAreKeys(history, k);
    CounterIsHistory(history, k);
    NoWrap(Unanswered(history, k));
  }

  lemma NoWrap(n: nat)
    ensures n < UINT_RANGE ==> n % UINT_RANGE == n
  {
  }
}

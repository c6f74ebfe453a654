/** A forwarder: its own list of backends, the cached weights, and the choice of an index. */
module Forwarders {
  import opened Entities
  import opened Lists
  import opened RoutingTable
  import Balancing
  import DoubleRandom
  import Rendezvous
  import Cookies
  import Fnv
  import Text

  /** Only the strategies that divide by it need a balance factor that is not negative. */
  predicate Sound(mode: ForwardingMode, coefficient: real) {
    mode.InverseConnections? || mode.InverseLoad? ==> coefficient >= 0.0
  }

  /** The weights a strategy computes; the unweighted strategies keep none. */
  function Weights(mode: ForwardingMode, coefficient: real, infos: seq<BackendInfo>,
          connections: Connections): seq<real>
    requires Sound(mode, coefficient)
  {
    match mode
    case InverseConnections =>
      var x := Balancing.ConnectionCounts(infos, connections);
      Balancing.InverseRawAntitone(x, coefficient);
      Balancing.Normalised(Balancing.InverseRaw(x, coefficient))
    case InverseLoad =>
      var x := Balancing.ClampedLoads(infos);
      Balancing.InverseRawAntitone(x, coefficient);
      Balancing.Normalised(Balancing.InverseRaw(x, coefficient))
    case LeastConnections =>
      Balancing.Normalised(Balancing.LeastRaw(Balancing.ConnectionCounts(infos, connections)))
    case _ => []
  }

  /** Where a request is sent when the generator yields these numbers: sticky draws none,
      double random the two it compares, the others the index itself, which for the weighted
      strategies has positive weight. */
  ghost predicate CanSelect(mode: ForwardingMode, coefficient: real, cookieName: string,
                            infos: seq<BackendInfo>, connections: Connections, request: Request,
                            draws: seq<nat>, i: nat)
    requires Sound(mode, coefficient)
  {
    && i < |infos|
    && match mode
       case Random => draws == [i]
       case DoubleRandom =>
         && |draws| == 2 && draws[0] < |infos| && draws[1] < |infos|
         && i == DoubleRandom.Selected(DoubleRandom.Counts(infos, connections), draws[0], draws[1])
       case Sticky =>
         && draws == []
         && Rendezvous.Chosen(InfoKeys(infos), connections, coefficient,
                              Rendezvous.ScoreFor(Cookies.ExtractKey(cookieName, request)), i)
       case _ =>
         var w := Weights(mode, coefficient, infos, connections);
         draws == [i] && |w| == |infos| && w[i] > 0.0
  }

  predicate Weighted(mode: ForwardingMode) {
    mode.InverseConnections? || mode.InverseLoad? || mode.LeastConnections?
  }

  lemma SomePositive(mode: ForwardingMode, coefficient: real, infos: seq<BackendInfo>, connections: Connections)
    returns (i: nat)
    requires Sound(mode, coefficient) && infos != [] && Weighted(mode)
    ensures i < |infos| == |Weights(mode, coefficient, infos, connections)|
    ensures Weights(mode, coefficient, infos, connections)[i] > 0.0
  {
    i := 0;
    match mode
    case InverseConnections => Balancing.InverseConnectionsFair(infos, connections, coefficient);
    case InverseLoad => Balancing.InverseLoadFair(infos, coefficient);
    case LeastConnections =>
      Balancing.LeastConnectionsFair(infos, connections);
      i := Balancing.LeastAt(Balancing.ConnectionCounts(infos, connections));
  }

  // ----- What the weights and the choice mean, in counts and loads -----

  /** In every weighted strategy the weights are a distribution that never favours more
      connections, or a higher load, and does no worse on average than a uniform choice. */
  lemma FairWeights(mode: ForwardingMode, coefficient: real, infos: seq<BackendInfo>, connections: Connections)
    requires Sound(mode, coefficient) && infos != [] && Weighted(mode)
    ensures var w := Weights(mode, coefficient, infos, connections);
      if mode == InverseLoad then
        && Balancing.FairDistribution(w, Balancing.ClampedLoads(infos))
        && Balancing.FairDistribution(w, Balancing.Loads(infos))
      else
        Balancing.FairDistribution(w, Balancing.ConnectionCounts(infos, connections))
  {
    match mode
    case InverseConnections => Balancing.InverseConnectionsFair(infos, connections, coefficient);
    case InverseLoad => Balancing.InverseLoadFair(infos, coefficient);
    case LeastConnections => Balancing.LeastConnectionsFair(infos, connections);
  }

  /** Inverse connections: two weights are to one another as 1 + a * connections the other way round. */
  lemma InverseConnectionsRatio(a: real, infos: seq<BackendInfo>, connections: Connections, w: seq<real>,
                                i: nat, j: nat, u: real, v: real)
    requires a >= 0.0 && i < |infos| && j < |infos|
    requires w == Weights(InverseConnections, a, infos, connections)
    requires u == Count(connections, BackendKey(infos[i].hostName, infos[i].port)) as real
    requires v == Count(connections, BackendKey(infos[j].hostName, infos[j].port)) as real
    ensures |w| == |infos| && w[i] > 0.0 && w[i] * (1.0 + a * u) == w[j] * (1.0 + a * v)
  {
    Balancing.InverseConnectionsFair(infos, connections, a);
    Balancing.InverseRawAntitone(Balancing.ConnectionCounts(infos, connections), a);
    Balancing.InverseRatios(w, Balancing.ConnectionCounts(infos, connections), a, i, j, u, v);
  }

  /** Inverse load: the same with loads, those below one counting as one. */
  lemma InverseLoadRatio(a: real, infos: seq<BackendInfo>, connections: Connections, w: seq<real>,
                         i: nat, j: nat, u: real, v: real)
    requires a >= 0.0 && i < |infos| && j < |infos|
    requires w == Weights(InverseLoad, a, infos, connections)
    requires u == if infos[i].load < 1.0 then 1.0 else infos[i].load
    requires v == if infos[j].load < 1.0 then 1.0 else infos[j].load
    ensures |w| == |infos| && w[i] > 0.0 && w[i] * (1.0 + a * u) == w[j] * (1.0 + a * v)
  {
    Balancing.InverseLoadFair(infos, a);
    Balancing.InverseRawAntitone(Balancing.ClampedLoads(infos), a);
    Balancing.InverseRatios(w, Balancing.ClampedLoads(infos), a, i, j, u, v);
  }

  /** Least connections: who has more than another has no weight, and the others weigh the same. */
  lemma LeastConnectionsShares(coefficient: real, infos: seq<BackendInfo>, connections: Connections, i: nat, j: nat)
    requires i < |infos| && j < |infos|
    ensures var w := Weights(LeastConnections, coefficient, infos, connections);
      var c, d := Count(connections, BackendKey(infos[i].hostName, infos[i].port)),
                  Count(connections, BackendKey(infos[j].hostName, infos[j].port));
      |w| == |infos| && (c > d ==> w[i] == 0.0) && (c == d ==> w[i] == w[j])
  {
    var x := Balancing.ConnectionCounts(infos, connections);
    assert x[i] > x[j] <==> Count(connections, infos[i].Key()) > Count(connections, infos[j].Key());
    Balancing.LeastShares(x, i);
    Balancing.LeastShares(x, j);
  }

  /** Least connections, exactly: whom nobody undercuts can be selected, and nobody else. */
  lemma LeastSelects(coefficient: real, cookieName: string, infos: seq<BackendInfo>, connections: Connections,
                     request: Request, draws: seq<nat>, i: nat)
    ensures CanSelect(LeastConnections, coefficient, cookieName, infos, connections, request, draws, i) <==>
      && i < |infos| && draws == [i]
      && forall j :: 0 <= j < |infos| ==>
           Count(connections, BackendKey(infos[i].hostName, infos[i].port)) <=
           Count(connections, BackendKey(infos[j].hostName, infos[j].port))
  {
    if i < |infos| {
      var x := Balancing.ConnectionCounts(infos, connections);
      assert forall j :: 0 <= j < |infos| ==>
        x[j] == Count(connections, BackendKey(infos[j].hostName, infos[j].port)) as real;
      Balancing.LeastConnectionsFair(infos, connections);
    }
  }

  /** The inverse strategies and the random one can select everybody. */
  lemma AnybodySelected(mode: ForwardingMode, coefficient: real, cookieName: string, infos: seq<BackendInfo>,
                        connections: Connections, request: Request, draws: seq<nat>, i: nat)
    requires Sound(mode, coefficient) && mode in {Random, InverseConnections, InverseLoad}
    ensures CanSelect(mode, coefficient, cookieName, infos, connections, request, draws, i) <==>
            i < |infos| && draws == [i]
  {
    if i < |infos| {
      match mode
      case Random =>
      case InverseConnections => Balancing.InverseConnectionsFair(infos, connections, coefficient);
      case InverseLoad => Balancing.InverseLoadFair(infos, coefficient);
    }
  }

  /** Double random: of the two drawn the one with fewer connections, the first on a tie. */
  lemma DoubleRandomSelects(coefficient: real, cookieName: string, infos: seq<BackendInfo>, connections: Connections,
                            request: Request, a: nat, b: nat, i: nat)
    requires a < |infos| && b < |infos|
    ensures var c, d := Count(connections, BackendKey(infos[a].hostName, infos[a].port)),
                        Count(connections, BackendKey(infos[b].hostName, infos[b].port));
      CanSelect(ForwardingMode.DoubleRandom, coefficient, cookieName, infos, connections, request, [a, b], i) <==>
      i == if d < c then b else a
  {
  }

  /** Sticky: the first of the greatest hash of key and "name:port" among those within the threshold. */
  lemma StickySelects(coefficient: real, cookieName: string, infos: seq<BackendInfo>, connections: Connections,
                      request: Request, draws: seq<nat>, i: nat)
    requires infos != []
    ensures var key := Cookies.ExtractKey(cookieName, request);
      var limit := Rendezvous.Threshold(coefficient, Rendezvous.MinCount(InfoKeys(infos), connections));
      CanSelect(Sticky, coefficient, cookieName, infos, connections, request, draws, i) <==>
      && draws == [] && i < |infos| && Count(connections, BackendKey(infos[i].hostName, infos[i].port)) <= limit
      && forall j :: 0 <= j < |infos| && Count(connections, BackendKey(infos[j].hostName, infos[j].port)) <= limit ==>
           var best := Fnv.Hashed(key + (infos[i].hostName + ":" + Text.Decimal(infos[i].port)), Fnv.OFFSET);
           var hash := Fnv.Hashed(key + (infos[j].hostName + ":" + Text.Decimal(infos[j].port)), Fnv.OFFSET);
           if j < i then hash < best else hash <= best
  {
    Rendezvous.ChosenMeans(infos, connections, coefficient, Cookies.ExtractKey(cookieName, request), i);
  }

  class BackendForwarder {
    const mode: ForwardingMode
    const coefficient: real
    const cookieName: string
    var infos: seq<BackendInfo>
    var distribution: seq<real>

    /** The cached load weights are always those of the current list. */
    ghost predicate Valid()
      reads this
    {
      && Sound(mode, coefficient)
      && (mode == InverseLoad ==> distribution == Weights(mode, coefficient, infos, map[]))
    }

    constructor (mode: ForwardingMode, coefficient: real, cookieName: string)
      requires Sound(mode, coefficient)
      ensures Valid() && infos == []
      ensures this.mode == mode && this.coefficient == coefficient && this.cookieName == cookieName
    {
      this.mode := mode;
      this.coefficient := coefficient;
      this.cookieName := cookieName;
      infos := [];
      distribution := [];
      new;
      assert Balancing.InverseRaw(Balancing.ClampedLoads([]), coefficient) == [];
    }

    method Redistribute(connections: Connections)
      requires Sound(mode, coefficient)
      modifies this`distribution
      ensures distribution == if Weighted(mode) then Weights(mode, coefficient, infos, connections)
          else old(distribution)
      ensures Valid()
    {
      match mode
      case InverseConnections =>
        Balancing.InverseRawAntitone(Balancing.ConnectionCounts(infos, connections), coefficient);
        distribution := Balancing.InverseConnectionsWeights(infos, connections, coefficient);
      case InverseLoad =>
        Balancing.InverseRawAntitone(Balancing.ClampedLoads(infos), coefficient);
        distribution := Balancing.InverseLoadWeights(infos, coefficient);
      case LeastConnections => distribution := Balancing.LeastConnectionsWeights(infos, connections);
      case _ =>
    }

    method SetBackends(backends: seq<BackendInfo>, connections: Connections)
      requires Valid()
      modifies this
      ensures Valid() && infos == backends
    {
      infos := backends;
      Redistribute(connections);
    }

    method AddBackend(hostName: string, port: int, load: real, connections: Connections)
      requires Valid()
      modifies this
      ensures Valid() && infos == old(infos) + [BackendInfo(hostName, port, load)]
    {
      infos := infos + [BackendInfo(hostName, port, load)];
      Redistribute(connections);
    }

    /** Removes the first entry of that host and port, if there is one. */
    method RemoveBackend(hostName: string, port: int, connections: Connections)
      requires Valid()
      modifies this
      ensures Valid() && infos == RemoveFirst(old(infos), BackendKey(hostName, port))
    {
      ghost var keys, key := InfoKeys(infos), BackendKey(hostName, port);
      var i, done := 0, false;
      while i < |infos| && !done
        invariant 0 <= i <= |keys|
        invariant !done ==> infos == old(infos) && forall j :: 0 <= j < i ==> keys[j] != key
        invariant done ==> infos == RemoveFirst(old(infos), key)
        decreases !done, |keys| - i
      {
        if infos[i].hostName == hostName && infos[i].port == port {
          assert keys[i] == key && key !in keys[..i];
          FirstIndexUnique(keys, key, i);
          infos := infos[..i] + infos[i + 1..];
          done := true;
        } else {
          assert keys[i] != key;
          i := i + 1;
        }
      }
      Redistribute(connections);
    }

    /** Strategies that follow connection counts recompute before every choice. */
    method Rebalance(connections: Connections)
      requires Valid()
      modifies this`distribution
      ensures Valid()
      ensures Weighted(mode) ==> distribution == Weights(mode, coefficient, infos, connections)
      ensures infos != [] && (mode == InverseConnections || mode == LeastConnections) ==>
        Balancing.FairDistribution(distribution, Balancing.ConnectionCounts(infos, connections))
      ensures infos != [] && mode == InverseLoad ==>
        Balancing.FairDistribution(distribution, Balancing.ClampedLoads(infos))
    {
      if infos != [] && Weighted(mode) { FairWeights(mode, coefficient, infos, connections); }
      if mode == InverseConnections || mode == LeastConnections {
        Redistribute(connections);
      }
    }

    /** None where the source throws "No backends available!". */
    method GetBackend(connections: Connections, request: Request) returns (r: Option<nat>, draws: seq<nat>)
      requires Valid()
      modifies this`distribution
      ensures Valid()
      ensures infos != [] ==>
        r.Some? && CanSelect(mode, coefficient, cookieName, infos, connections, request, draws, r.value)
      ensures infos == [] ==> r == if mode in {Random, ForwardingMode.DoubleRandom, Sticky} then None else Some(0)
      ensures infos != [] && mode == LeastConnections ==>
        && r.value < |infos|
        && forall j :: 0 <= j < |infos| ==>
             Count(connections, BackendKey(infos[r.value].hostName, infos[r.value].port)) <=
             Count(connections, BackendKey(infos[j].hostName, infos[j].port))
      ensures infos != [] && (mode == InverseConnections || mode == LeastConnections) ==>
        Balancing.FairDistribution(distribution, Balancing.ConnectionCounts(infos, connections))
      ensures infos != [] && mode == InverseLoad ==>
        Balancing.FairDistribution(distribution, Balancing.ClampedLoads(infos))
    {
      draws := [];
      if mode == Random {
        if infos == [] {
          return None, [];
        }
        var i: nat :| i < |infos|;
        r, draws := Some(i), [i];
      } else if mode == DoubleRandom {
        r, draws := DoubleRandom.GetBackend(infos, connections);
      } else if mode == Sticky {
        r := Rendezvous.GetBackend(infos, coefficient, cookieName, connections, request);
      } else {
        Rebalance(connections);
        if distribution == [] {
          r := Some(0);
        } else {
          ghost var some := SomePositive(mode, coefficient, infos, connections);
          var i: nat :| i < |distribution| && distribution[i] > 0.0;
          r, draws := Some(i), [i];
          if mode == LeastConnections {
            LeastSelects(coefficient, cookieName, infos, connections, request, draws, i);
          }
        }
      }
    }
  }
}

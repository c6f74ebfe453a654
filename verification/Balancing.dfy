/** The weighted strategies: inverse connections, inverse load and least connections. */
module Balancing {
  import opened Entities

  function Sum(s: seq<real>): real {
    if s == [] then 0.0 else Sum(s[..|s| - 1]) + s[|s| - 1]
  }

  lemma {:induction false} SumConcat(a: seq<real>, b: seq<real>)
    ensures Sum(a + b) == Sum(a) + Sum(b)
    ensures |b| == 1 ==> Sum(b) == b[0]
  {
    if b == [] {
      assert a + b == a;
    } else {
      assert (a + b)[..|a + b| - 1] == a + b[..|b| - 1];
      SumConcat(a, b[..|b| - 1]);
    }
  }

  /** The expectation of x under the weights w. */
  function Dot(w: seq<real>, x: seq<real>): real
    requires |w| == |x|
  {
    if w == [] then 0.0 else Dot(w[..|w| - 1], x[..|x| - 1]) + w[|w| - 1] * x[|x| - 1]
  }

  // ----- What each strategy weighs -----

  function ConnectionCounts(infos: seq<BackendInfo>, connections: Connections): (x: seq<real>)
    ensures |x| == |infos| && forall i :: 0 <= i < |x| ==> x[i] >= 0.0
  {
    seq(|infos|, i requires 0 <= i < |infos| => Count(connections, infos[i].Key()) as real)
  }

  function Loads(infos: seq<BackendInfo>): (x: seq<real>)
    ensures |x| == |infos|
  {
    seq(|infos|, i requires 0 <= i < |infos| => infos[i].load)
  }

  /** Loads below one count as one. */
  function ClampedLoads(infos: seq<BackendInfo>): (x: seq<real>)
    ensures |x| == |infos| && forall i :: 0 <= i < |x| ==> x[i] >= 1.0
  {
    seq(|infos|, i requires 0 <= i < |infos| => if infos[i].load < 1.0 then 1.0 else infos[i].load)
  }

  function Denominator(x: real, a: real): real {
    1.0 + a * x
  }

  /** No weight divides by zero. */
  predicate Finite(x: seq<real>, a: real) {
    forall i :: 0 <= i < |x| ==> Denominator(x[i], a) != 0.0
  }

  function Inverse(x: real, a: real): real
    requires Denominator(x, a) != 0.0
  {
    1.0 / Denominator(x, a)
  }

  function InverseRaw(x: seq<real>, a: real): (raw: seq<real>)
    requires Finite(x, a)
    ensures |raw| == |x|
  {
    seq(|x|, i requires 0 <= i < |x| => Inverse(x[i], a))
  }

  /** One for every backend that nobody undercuts, zero for the rest. */
  function LeastRaw(x: seq<real>): (raw: seq<real>)
    ensures |raw| == |x|
  {
    seq(|x|, i requires 0 <= i < |x| => if forall j :: 0 <= j < |x| ==> x[i] <= x[j] then 1.0 else 0.0)
  }

  function Scaled(raw: seq<real>, d: real): (w: seq<real>)
    requires d != 0.0
    ensures |w| == |raw|
  {
    seq(|raw|, i requires 0 <= i < |raw| => raw[i] / d)
  }

  function Normalised(raw: seq<real>): (w: seq<real>)
    ensures |w| == |raw|
  {
    if Sum(raw) == 0.0 then raw else Scaled(raw, Sum(raw))
  }

  // ----- The loops -----

  method Normalise(raw: seq<real>) returns (probVec: seq<real>)
    ensures probVec == Normalised(raw)
  {
    probVec := raw;
    var sum := 0.0;
    for i := 0 to |raw|
      invariant sum == Sum(raw[..i])
    {
      assert raw[..i + 1][..i] == raw[..i];
      sum := sum + raw[i];
    }
    assert raw[..|raw|] == raw;
    if sum != 0.0 {
      for i := 0 to |raw|
        invariant |probVec| == |raw|
        invariant forall j :: 0 <= j < |raw| ==> probVec[j] == if j < i then raw[j] / sum else raw[j]
      {
        probVec := probVec[i := probVec[i] / sum];
      }
    }
  }

  method InverseConnectionsWeights(infos: seq<BackendInfo>, connections: Connections, a: real)
    returns (probVec: seq<real>)
    requires var x := ConnectionCounts(infos, connections);
      Finite(x, a) && (infos != [] ==> Sum(InverseRaw(x, a)) != 0.0)
    ensures probVec == Normalised(InverseRaw(ConnectionCounts(infos, connections), a))
  {
    ghost var goal := InverseRaw(ConnectionCounts(infos, connections), a);
    probVec := [];
    for i := 0 to |infos|
      invariant probVec == goal[..i]
    {
      var count := Count(connections, infos[i].Key());
      assert count as real == ConnectionCounts(infos, connections)[i];
      probVec := probVec + [Inverse(count as real, a)];
    }
    assert goal[..|infos|] == goal;
    probVec := Normalise(probVec);
  }

  method InverseLoadWeights(infos: seq<BackendInfo>, a: real) returns (probVec: seq<real>)
    requires var x := ClampedLoads(infos);
      Finite(x, a) && (infos != [] ==> Sum(InverseRaw(x, a)) != 0.0)
    ensures probVec == Normalised(InverseRaw(ClampedLoads(infos), a))
  {
    ghost var goal := InverseRaw(ClampedLoads(infos), a);
    probVec := [];
    for i := 0 to |infos|
      invariant probVec == goal[..i]
    {
      var load := if infos[i].load < 1.0 then 1.0 else infos[i].load;
      assert load == ClampedLoads(infos)[i];
      probVec := probVec + [Inverse(load, a)];
    }
    assert goal[..|infos|] == goal;
    probVec := Normalise(probVec);
  }

  method LeastConnectionsWeights(infos: seq<BackendInfo>, connections: Connections)
    returns (probVec: seq<real>)
    ensures probVec == Normalised(LeastRaw(ConnectionCounts(infos, connections)))
  {
    ghost var x := ConnectionCounts(infos, connections);
    var minCount: int := -1;
    for i := 0 to |infos|
      invariant if i == 0 then minCount == -1
                else minCount >= 0 && exists j :: 0 <= j < i && x[j] == minCount as real
      invariant forall j :: 0 <= j < i ==> minCount as real <= x[j]
    {
      var count := Count(connections, infos[i].Key());
      assert x[i] == count as real;
      if minCount < 0 {
        minCount := count;
      } else {
        minCount := if count < minCount then count else minCount;
      }
    }
    probVec := [];
    for i := 0 to |infos|
      invariant probVec == LeastRaw(x)[..i]
    {
      var count := Count(connections, infos[i].Key());
      assert x[i] == count as real;
      assert LeastRaw(x)[i] == if count == minCount then 1.0 else 0.0;
      if count == minCount {
        probVec := probVec + [1.0];
      } else {
        probVec := probVec + [0.0];
      }
    }
    assert LeastRaw(x)[..|infos|] == LeastRaw(x);
    probVec := Normalise(probVec);
  }

  // ----- Properties of the weights -----

  /** Whoever has less is weighed at least as much. */
  predicate Antitone(w: seq<real>, x: seq<real>) {
    |w| == |x| && forall i, j :: 0 <= i < |x| && 0 <= j < |x| && x[i] <= x[j] ==> w[i] >= w[j]
  }

  lemma Denominators(x: real, y: real, a: real)
    requires a >= 0.0 && 0.0 <= x <= y
    ensures 1.0 <= Denominator(x, a) <= Denominator(y, a)
  {
    assert a * x >= 0.0;
    assert a * y == a * x + a * (y - x) && a * (y - x) >= 0.0;
  }

  lemma ReciprocalAntitone(u: real, v: real)
    requires 0.0 < u <= v
    ensures 1.0 / u >= 1.0 / v > 0.0
  {
    assert 1.0 / u - 1.0 / v == (v - u) / (u * v);
  }

  /** With a factor that is not negative every weight is positive and antitone. */
  lemma InverseRawAntitone(x: seq<real>, a: real)
    requires a >= 0.0 && forall i :: 0 <= i < |x| ==> x[i] >= 0.0
    ensures Finite(x, a)
    ensures Antitone(InverseRaw(x, a), x)
    ensures forall i :: 0 <= i < |x| ==> InverseRaw(x, a)[i] > 0.0
    ensures x != [] ==> Sum(InverseRaw(x, a)) > 0.0
  {
    forall i | 0 <= i < |x| ensures Denominator(x[i], a) >= 1.0 {
      Denominators(x[i], x[i], a);
    }
    var raw := InverseRaw(x, a);
    forall i, j | 0 <= i < |x| && 0 <= j < |x| && x[i] <= x[j] ensures raw[i] >= raw[j] > 0.0 {
      Denominators(x[i], x[j], a);
      ReciprocalAntitone(Denominator(x[i], a), Denominator(x[j], a));
    }
    assert forall i :: 0 <= i < |x| ==> x[i] <= x[i] && raw[i] > 0.0;
    SumPositive(raw);
    if x != [] { assert raw[0] > 0.0; }
  }

  lemma {:induction false} SumPositive(s: seq<real>)
    requires forall i :: 0 <= i < |s| ==> s[i] >= 0.0
    ensures Sum(s) >= 0.0
    ensures (exists i :: 0 <= i < |s| && s[i] > 0.0) ==> Sum(s) > 0.0
  {
    if s != [] {
      var init := s[..|s| - 1];
      SumPositive(init);
      if i :| 0 <= i < |s| && s[i] > 0.0 {
        if i < |s| - 1 { assert init[i] > 0.0; }
      }
    }
  }

  lemma AddQuotients(a: real, b: real, d: real)
    requires d != 0.0
    ensures a / d + b / d == (a + b) / d
  {
  }

  lemma {:induction false} SumScaled(s: seq<real>, d: real)
    requires d != 0.0
    ensures Sum(Scaled(s, d)) == Sum(s) / d
  {
    if s != [] {
      var n := |s| - 1;
      SumScaled(s[..n], d);
      assert Scaled(s, d)[..n] == Scaled(s[..n], d);
      AddQuotients(Sum(s[..n]), s[n], d);
    }
  }

  lemma MoveQuotient(a: real, b: real, d: real)
    requires d != 0.0
    ensures a / d * b == a * b / d
  {
  }

  lemma {:induction false} DotScaled(w: seq<real>, x: seq<real>, d: real)
    requires d != 0.0 && |w| == |x|
    ensures Dot(Scaled(w, d), x) == Dot(w, x) / d
  {
    if w != [] {
      var n := |w| - 1;
      DotScaled(w[..n], x[..n], d);
      assert Scaled(w, d)[..n] == Scaled(w[..n], d);
      MoveQuotient(w[n], x[n], d);
      AddQuotients(Dot(w[..n], x[..n]), w[n] * x[n], d);
    }
  }

  lemma OppositeSigns(u: real, y: real)
    requires u >= 0.0 && y <= 0.0
    ensures u * y <= 0.0
  {
  }

  lemma AgainstOneMoreStep(d: real, w: real, x: real, n: real, u: real, y: real, p: real, q: real,
                        d1: real, w1: real, x1: real, n1: real)
    requires d + n * (p * q) <= q * w + p * x
    requires (u >= p && y <= q) || (u <= p && y >= q)
    requires d1 == d + u * y && w1 == w + u && x1 == x + y && n1 == n + 1.0
    ensures d1 + n1 * (p * q) <= q * w1 + p * x1
  {
    if y <= q && u >= p { OppositeSigns(u - p, y - q); } else { OppositeSigns(y - q, u - p); }
    assert (u - p) * (y - q) == u * y + p * q - q * u - p * y;
    assert n1 * (p * q) == n * (p * q) + p * q;
    assert q * w1 == q * w + q * u;
    assert p * x1 == p * x + p * y;
  }

  /** The last entry set apart, with names for all the quantities. */
  lemma SetLastApart(w: seq<real>, x: seq<real>, k: nat, d: real, s: real, t: real, p: real, q: real)
    requires |w| == |x| == k + 1
    requires d == Dot(w[..k], x[..k]) && s == Sum(w[..k]) && t == Sum(x[..k]) && p == w[k] && q == x[k]
    ensures Dot(w, x) == d + p * q && Sum(w) == s + p && Sum(x) == t + q
  {
  }

  /** The products of the differences from one more entry (p, q), summed. */
  lemma {:induction false} AgainstOneMore(w: seq<real>, x: seq<real>, p: real, q: real,
                                          n: real, d: real, s: real, t: real)
    requires |w| == |x|
    requires forall i :: 0 <= i < |w| ==> (x[i] <= q ==> w[i] >= p) && (x[i] >= q ==> w[i] <= p)
    requires n == |w| as real && d == Dot(w, x) && s == Sum(w) && t == Sum(x)
    ensures d + n * (p * q) <= q * s + p * t
  {
    if w != [] {
      var k := |w| - 1;
      var k', d', s', t', u, y := k as real, Dot(w[..k], x[..k]), Sum(w[..k]), Sum(x[..k]), w[k], x[k];
      SetLastApart(w, x, k, d', s', t', u, y);
      AgainstOneMore(w[..k], x[..k], p, q, k', d', s', t');
      AgainstOneMoreStep(d', s', t', k', u, y, p, q, d, s, t, n);
    }
  }

  lemma ChebyshevStep(n: real, d: real, w: real, x: real, p: real, q: real,
                      n1: real, d1: real, w1: real, x1: real)
    requires n * d <= w * x
    requires d + n * (p * q) <= q * w + p * x
    requires n1 == n + 1.0 && d1 == d + p * q && w1 == w + p && x1 == x + q
    ensures n1 * d1 <= w1 * x1
  {
    assert n1 * d1 == n * d + d + n * (p * q) + p * q;
    assert w1 * x1 == w * x + q * w + p * x + p * q;
  }

  lemma LastAgainstInit(w: seq<real>, x: seq<real>, k: nat)
    requires Antitone(w, x) && |w| == k + 1
    ensures Antitone(w[..k], x[..k])
    ensures forall i :: 0 <= i < k ==> (w[..k][i] == w[i] && x[..k][i] == x[i])
    ensures forall i :: 0 <= i < k ==> (x[i] <= x[k] ==> w[i] >= w[k]) && (x[i] >= x[k] ==> w[i] <= w[k])
  {
  }

  /** Chebyshev's sum inequality for oppositely ordered sequences. */
  lemma {:induction false} Chebyshev(w: seq<real>, x: seq<real>, n: real, d: real, s: real, t: real)
    requires Antitone(w, x)
    requires n == |w| as real && d == Dot(w, x) && s == Sum(w) && t == Sum(x)
    ensures n * d <= s * t
  {
    if w != [] {
      var k := |w| - 1;
      var k', d', s', t', p, q := k as real, Dot(w[..k], x[..k]), Sum(w[..k]), Sum(x[..k]), w[k], x[k];
      SetLastApart(w, x, k, d', s', t', p, q);
      LastAgainstInit(w, x, k);
      AgainstOneMore(w[..k], x[..k], p, q, k', d', s', t');
      Chebyshev(w[..k], x[..k], k', d', s', t');
      ChebyshevStep(k', d', s', t', p, q, n, d, s, t);
    }
  }

  lemma DivideBound(n: real, d: real, s: real, t: real, e: real)
    requires s > 0.0 && n * d <= s * t && e == d / s
    ensures e * n <= t
  {
    assert d == e * s;
    assert n * d == s * (e * n);
    assert s * (t - e * n) >= 0.0;
  }

  lemma QuotientBound(e: real, n: real, t: real)
    requires n > 0.0 && e * n <= t
    ensures e <= t / n
  {
    var q := t / n;
    assert q * n == t;
    if e > q {
      assert (e - q) * n > 0.0;
    }
  }

  lemma SelfQuotient(d: real)
    requires d != 0.0
    ensures d / d == 1.0
  {
  }

  function Mean(x: seq<real>): real
    requires x != []
  {
    Sum(x) / |x| as real
  }

  /** Drawing by weights that prefer smaller x gives, on average, no more than the plain mean. */
  lemma NoWorseThanUniform(raw: seq<real>, x: seq<real>)
    requires Antitone(raw, x) && Sum(raw) > 0.0 && x != []
    ensures Dot(Normalised(raw), x) <= Mean(x)
  {
    var n, d, s, t := |x| as real, Dot(raw, x), Sum(raw), Sum(x);
    var e := d / s;
    DotScaled(raw, x, s);
    Chebyshev(raw, x, n, d, s, t);
    DivideBound(n, d, s, t, e);
    QuotientBound(e, n, t);
  }

  lemma SumsToOne(raw: seq<real>)
    requires Sum(raw) > 0.0
    ensures Sum(Normalised(raw)) == 1.0
  {
    SumScaled(raw, Sum(raw));
    SelfQuotient(Sum(raw));
  }

  /** Weights that are a probability distribution preferring smaller x. */
  ghost predicate FairDistribution(w: seq<real>, x: seq<real>) {
    Prefers(w, x) && Averages(w, x)
  }

  ghost predicate Prefers(w: seq<real>, x: seq<real>) {
    Antitone(w, x) && forall i :: 0 <= i < |w| ==> w[i] >= 0.0
  }

  /** The weights sum to one, and the expectation is at most the plain mean. */
  ghost predicate Averages(w: seq<real>, x: seq<real>)
    requires |w| == |x|
  {
    x != [] && Sum(w) == 1.0 && Dot(w, x) <= Mean(x)
  }

  lemma DivideMonotone(a: real, b: real, s: real)
    requires s > 0.0 && a >= b
    ensures a / s >= b / s
    ensures a > 0.0 ==> a / s > 0.0
  {
  }

  lemma NormalisedShape(raw: seq<real>, i: nat, j: nat)
    requires i < |raw| && j < |raw| && raw[i] >= 0.0 && Sum(raw) > 0.0
    ensures raw[i] >= raw[j] ==> Normalised(raw)[i] >= Normalised(raw)[j]
    ensures Normalised(raw)[i] >= 0.0 && (Normalised(raw)[i] > 0.0 <==> raw[i] > 0.0)
  {
    if raw[i] >= raw[j] { DivideMonotone(raw[i], raw[j], Sum(raw)); }
    DivideMonotone(raw[i], 0.0, Sum(raw));
  }

  lemma NormalisedAntitone(raw: seq<real>, x: seq<real>)
    requires Antitone(raw, x) && Sum(raw) > 0.0 && forall i :: 0 <= i < |raw| ==> raw[i] >= 0.0
    ensures Antitone(Normalised(raw), x)
  {
    forall i, j | 0 <= i < |x| && 0 <= j < |x| && x[i] <= x[j] ensures Normalised(raw)[i] >= Normalised(raw)[j] {
      NormalisedShape(raw, i, j);
    }
  }

  lemma NormalisedSigns(raw: seq<real>)
    requires Sum(raw) > 0.0 && forall i :: 0 <= i < |raw| ==> raw[i] >= 0.0
    ensures forall i :: 0 <= i < |raw| ==> Normalised(raw)[i] >= 0.0 && (Normalised(raw)[i] > 0.0 <==> raw[i] > 0.0)
  {
    forall i | 0 <= i < |raw| ensures Normalised(raw)[i] >= 0.0 && (Normalised(raw)[i] > 0.0 <==> raw[i] > 0.0) {
      NormalisedShape(raw, i, i);
    }
  }

  lemma NormalisedPrefers(raw: seq<real>, x: seq<real>)
    requires Antitone(raw, x) && Sum(raw) > 0.0 && forall i :: 0 <= i < |raw| ==> raw[i] >= 0.0
    ensures Prefers(Normalised(raw), x)
  {
    NormalisedAntitone(raw, x);
    NormalisedSigns(raw);
  }

  lemma NormalisedAverages(raw: seq<real>, x: seq<real>)
    requires Antitone(raw, x) && Sum(raw) > 0.0
    ensures Averages(Normalised(raw), x)
  {
    NoWorseThanUniform(raw, x);
    SumsToOne(raw);
  }

  lemma FairNormalised(raw: seq<real>, x: seq<real>)
    requires Antitone(raw, x) && Sum(raw) > 0.0
    requires forall i :: 0 <= i < |raw| ==> raw[i] >= 0.0
    ensures FairDistribution(Normalised(raw), x)
  {
    NormalisedPrefers(raw, x);
    NormalisedAverages(raw, x);
  }

  lemma QuotientTimes(d: real, s: real)
    requires d != 0.0 && s != 0.0
    ensures 1.0 / d / s * d == 1.0 / s
  {
    assert 1.0 / d * d == 1.0;
    MoveQuotient(1.0 / d, d, s);
  }

  /** Weights are to one another inversely as one plus the factor times the load. */
  lemma InverseRatio(x: seq<real>, a: real, i: nat)
    requires Finite(x, a) && Sum(InverseRaw(x, a)) != 0.0 && i < |x|
    ensures Normalised(InverseRaw(x, a))[i] * (1.0 + a * x[i]) == 1.0 / Sum(InverseRaw(x, a))
  {
    QuotientTimes(Denominator(x[i], a), Sum(InverseRaw(x, a)));
  }

  /** So two weights are to one another as the denominators the other way round. */
  lemma InverseRatios(w: seq<real>, x: seq<real>, a: real, i: nat, j: nat, u: real, v: real)
    requires Finite(x, a) && Sum(InverseRaw(x, a)) != 0.0 && w == Normalised(InverseRaw(x, a))
    requires i < |x| && j < |x| && u == x[i] && v == x[j]
    ensures w[i] * (1.0 + a * u) == w[j] * (1.0 + a * v)
  {
    InverseRatio(x, a, i);
    InverseRatio(x, a, j);
  }

  /** The least loaded share alike and the others have nothing. */
  lemma LeastShares(x: seq<real>, i: nat)
    requires i < |x|
    ensures Sum(LeastRaw(x)) > 0.0
    ensures Normalised(LeastRaw(x))[i] ==
            if forall j :: 0 <= j < |x| ==> x[i] <= x[j] then 1.0 / Sum(LeastRaw(x)) else 0.0
  {
    var least := LeastAt(x);
    assert LeastRaw(x)[least] > 0.0;
    SumPositive(LeastRaw(x));
  }

  lemma InverseConnectionsFair(infos: seq<BackendInfo>, connections: Connections, a: real)
    requires infos != [] && a >= 0.0
    ensures Finite(ConnectionCounts(infos, connections), a)
    ensures var x := ConnectionCounts(infos, connections); var w := Normalised(InverseRaw(x, a));
            FairDistribution(w, x) && forall i :: 0 <= i < |w| ==> w[i] > 0.0
  {
    var x := ConnectionCounts(infos, connections);
    InverseRawAntitone(x, a);
    NormalisedSigns(InverseRaw(x, a));
    FairNormalised(InverseRaw(x, a), x);
  }

  /** Also for the loads as reported, not only as clamped. */
  lemma InverseLoadFair(infos: seq<BackendInfo>, a: real)
    requires infos != [] && a >= 0.0
    ensures Finite(ClampedLoads(infos), a)
    ensures var w := Normalised(InverseRaw(ClampedLoads(infos), a));
            && FairDistribution(w, ClampedLoads(infos)) && FairDistribution(w, Loads(infos))
            && forall i :: 0 <= i < |w| ==> w[i] > 0.0
  {
    var x, y := ClampedLoads(infos), Loads(infos);
    var raw := InverseRaw(x, a);
    InverseRawAntitone(x, a);
    assert Antitone(raw, y) by {
      assert forall i, j :: 0 <= i < |y| && 0 <= j < |y| && y[i] <= y[j] ==> x[i] <= x[j];
    }
    NormalisedSigns(raw);
    FairNormalised(raw, x);
    FairNormalised(raw, y);
  }

  lemma {:induction false} LeastAt(x: seq<real>) returns (least: nat)
    requires x != []
    ensures least < |x| && forall j :: 0 <= j < |x| ==> x[least] <= x[j]
  {
    var n := |x| - 1;
    least := n;
    if n > 0 {
      var before := LeastAt(x[..n]);
      if x[before] <= x[n] { least := before; }
      assert forall j :: 0 <= j < n ==> x[..n][before] <= x[..n][j];
    }
  }

  /** Only the least loaded backends are ever drawn. */
  lemma LeastConnectionsFair(infos: seq<BackendInfo>, connections: Connections)
    requires infos != []
    ensures var x := ConnectionCounts(infos, connections); var w := Normalised(LeastRaw(x));
            && FairDistribution(w, x)
            && forall i :: 0 <= i < |w| ==> (w[i] > 0.0 <==> forall j :: 0 <= j < |x| ==> x[i] <= x[j])
  {
    var x := ConnectionCounts(infos, connections);
    var raw := LeastRaw(x);
    var least := LeastAt(x);
    assert raw[least] > 0.0;
    forall i, j | 0 <= i < |x| && 0 <= j < |x| && x[i] <= x[j] ensures raw[i] >= raw[j] {
      if raw[j] == 1.0 {
        assert forall k :: 0 <= k < |x| ==> x[i] <= x[k];
      }
    }
    SumPositive(raw);
    NormalisedSigns(raw);
    FairNormalised(raw, x);
  }
}

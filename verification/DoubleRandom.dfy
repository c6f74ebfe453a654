/** The power of two choices, counted over all pairs of draws. */
module DoubleRandom {
  import opened Entities

  function Counts(infos: seq<BackendInfo>, connections: Connections): (c: seq<nat>)
    ensures |c| == |infos|
  {
    seq(|infos|, i requires 0 <= i < |infos| => Count(connections, infos[i].Key()))
  }

  function Selected(c: seq<nat>, a: nat, b: nat): nat
    requires a < |c| && b < |c|
  {
    if c[a] <= c[b] then a else b
  }

  /** Draws two indices and returns them with the one that has fewer connections; on a tie the
      first. Nothing is drawn from an empty list. */
  method GetBackend(infos: seq<BackendInfo>, connections: Connections) returns (r: Option<nat>, draws: seq<nat>)
    ensures infos == [] ==> r == None && draws == []
    ensures infos != [] ==>
      && |draws| == 2 && draws[0] < |infos| && draws[1] < |infos|
      && r == Some(Selected(Counts(infos, connections), draws[0], draws[1]))
      && var a, b := infos[draws[0]], infos[draws[1]];
         var c := Count(connections, BackendKey(a.hostName, a.port));
         var d := Count(connections, BackendKey(b.hostName, b.port));
         r == Some(if d < c then draws[1] else draws[0])
  {
    if infos == [] {
      return None, [];
    }
    var num1: nat :| num1 < |infos|;
    var num2: nat :| num2 < |infos|;
    var count1 := Count(connections, infos[num1].Key());
    var count2 := Count(connections, infos[num2].Key());
    r, draws := Some(if count1 <= count2 then num1 else num2), [num1, num2];
  }

  // ----- Counting draws -----

  function One(b: bool): nat { if b then 1 else 0 }

  /** How many second draws below n make first draw a end in backend i. */
  function RowDraws(c: seq<nat>, a: nat, i: nat, n: nat): nat
    requires a < |c| && n <= |c|
  {
    if n == 0 then 0 else RowDraws(c, a, i, n - 1) + One(Selected(c, a, n - 1) == i)
  }

  /** How many draws (a, b) with a below m end in backend i. */
  function Draws(c: seq<nat>, i: nat, m: nat): nat
    requires m <= |c|
  {
    if m == 0 then 0 else Draws(c, i, m - 1) + RowDraws(c, m - 1, i, |c|)
  }

  function AllDraws(c: seq<nat>, i: nat): nat { Draws(c, i, |c|) }

  /** |{j : c_j >= v}| among the first n. */
  function AtLeast(c: seq<nat>, v: nat, n: nat): nat
    requires n <= |c|
  {
    if n == 0 then 0 else AtLeast(c, v, n - 1) + One(c[n - 1] >= v)
  }

  /** |{j : c_j > v}| among the first n. */
  function More(c: seq<nat>, v: nat, n: nat): nat
    requires n <= |c|
  {
    if n == 0 then 0 else More(c, v, n - 1) + One(c[n - 1] > v)
  }

  lemma {:induction false} RowExact(c: seq<nat>, a: nat, i: nat, n: nat)
    requires a < |c| && i < |c| && n <= |c|
    ensures RowDraws(c, a, i, n) == if a == i then AtLeast(c, c[i], n) else One(i < n && c[a] > c[i])
  {
    if n > 0 { RowExact(c, a, i, n - 1); }
  }

  lemma {:induction false} DrawsExact(c: seq<nat>, i: nat, m: nat)
    requires i < |c| && m <= |c|
    ensures Draws(c, i, m) == More(c, c[i], m) + if i < m then AtLeast(c, c[i], |c|) else 0
  {
    if m > 0 {
      DrawsExact(c, i, m - 1);
      RowExact(c, m - 1, i, |c|);
    }
  }

  /** Backend i is selected by exactly |{j : c_j >= c_i}| + |{j : c_j > c_i}| of the n * n draws. */
  lemma ExactDraws(c: seq<nat>, i: nat)
    requires i < |c|
    ensures AllDraws(c, i) == AtLeast(c, c[i], |c|) + More(c, c[i], |c|)
  {
    DrawsExact(c, i, |c|);
  }

  lemma {:induction false} Monotone(c: seq<nat>, u: nat, v: nat, n: nat)
    requires u <= v && n <= |c|
    ensures AtLeast(c, v, n) <= AtLeast(c, u, n) && More(c, v, n) <= More(c, u, n)
    ensures u < v && (exists j :: 0 <= j < n && c[j] == u) ==> AtLeast(c, v, n) < AtLeast(c, u, n)
  {
    if n > 0 { Monotone(c, u, v, n - 1); }
  }

  /** Fewer connections never mean fewer draws; strictly fewer mean strictly more draws. */
  lemma FewerConnectionsMoreDraws(c: seq<nat>, i: nat, k: nat)
    requires i < |c| && k < |c|
    ensures c[i] < c[k] <==> AllDraws(c, k) < AllDraws(c, i)
  {
    ExactDraws(c, i);
    ExactDraws(c, k);
    if c[i] <= c[k] { Monotone(c, c[i], c[k], |c|); }
    if c[k] <= c[i] { Monotone(c, c[k], c[i], |c|); }
  }

  function RowBelow(c: seq<nat>, a: nat, k: nat, n: nat): nat
    requires a < |c| && n <= |c|
  {
    if n == 0 then 0 else RowBelow(c, a, k, n - 1) + One(Selected(c, a, n - 1) < k)
  }

  function Below(c: seq<nat>, k: nat, m: nat): nat
    requires m <= |c|
  {
    if m == 0 then 0 else Below(c, k, m - 1) + RowBelow(c, m - 1, k, |c|)
  }

  lemma {:induction false} RowNext(c: seq<nat>, a: nat, k: nat, n: nat)
    requires a < |c| && n <= |c|
    ensures RowBelow(c, a, k + 1, n) == RowBelow(c, a, k, n) + RowDraws(c, a, k, n)
    ensures RowBelow(c, a, 0, n) == 0 && RowBelow(c, a, |c|, n) == n
  {
    if n > 0 { RowNext(c, a, k, n - 1); }
  }

  lemma {:induction false} Next(c: seq<nat>, k: nat, m: nat)
    requires m <= |c|
    ensures Below(c, k + 1, m) == Below(c, k, m) + Draws(c, k, m)
    ensures Below(c, 0, m) == 0
  {
    if m > 0 {
      Next(c, k, m - 1);
      RowNext(c, m - 1, k, |c|);
    }
  }

  lemma {:induction false} AllBelow(c: seq<nat>, m: nat)
    requires m <= |c|
    ensures Below(c, |c|, m) == m * |c|
  {
    if m > 0 {
      AllBelow(c, m - 1);
      RowNext(c, m - 1, 0, |c|);
    }
  }

  function DrawsOfFirst(c: seq<nat>, k: nat): nat
  {
    if k == 0 then 0 else DrawsOfFirst(c, k - 1) + AllDraws(c, k - 1)
  }

  lemma {:induction false} DrawsOfFirstBelow(c: seq<nat>, k: nat)
    ensures DrawsOfFirst(c, k) == Below(c, k, |c|)
  {
    Next(c, 0, |c|);
    if k > 0 {
      DrawsOfFirstBelow(c, k - 1);
      Next(c, k - 1, |c|);
    }
  }

  /** Every draw ends in exactly one backend: the counts add up to n * n. */
  lemma DrawsTotal(c: seq<nat>)
    ensures DrawsOfFirst(c, |c|) == |c| * |c|
  {
    DrawsOfFirstBelow(c, |c|);
    AllBelow(c, |c|);
  }

  // ----- The expected number of connections -----

  function Total(c: seq<nat>, n: nat): nat
    requires n <= |c|
  {
    if n == 0 then 0 else Total(c, n - 1) + c[n - 1]
  }

  /** Connections of the selected backend, summed over draws (a, b) with b below n. */
  function RowTotal(c: seq<nat>, a: nat, n: nat): nat
    requires a < |c| && n <= |c|
  {
    if n == 0 then 0 else RowTotal(c, a, n - 1) + c[Selected(c, a, n - 1)]
  }

  function DrawTotal(c: seq<nat>, m: nat): nat
    requires m <= |c|
  {
    if m == 0 then 0 else DrawTotal(c, m - 1) + RowTotal(c, m - 1, |c|)
  }

  lemma {:induction false} RowBound(c: seq<nat>, a: nat, n: nat)
    requires a < |c| && n <= |c|
    ensures RowTotal(c, a, n) <= n * c[a]
  {
    if n > 0 {
      RowBound(c, a, n - 1);
      assert n * c[a] == (n - 1) * c[a] + c[a];
    }
  }

  lemma Distribute(a: nat, b: nat, c: nat)
    ensures a * (b + c) == a * b + a * c
  {
  }

  /** Over all n * n draws the selected connections average at most the plain mean. */
  lemma {:induction false} NoWorseThanUniform(c: seq<nat>, m: nat)
    requires m <= |c|
    ensures DrawTotal(c, m) <= |c| * Total(c, m)
  {
    if m > 0 {
      NoWorseThanUniform(c, m - 1);
      RowBound(c, m - 1, |c|);
      Distribute(|c|, Total(c, m - 1), c[m - 1]);
    }
  }
}

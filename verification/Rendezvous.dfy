/** Rendezvous hashing over the backends that are not hotspots. */
module Rendezvous {
  import opened Entities
  import opened Fnv
  import opened Text
  import opened Cookies
  import opened Lists

  const SLACK: nat := 4

  function MinCount(keys: seq<BackendKey>, connections: Connections): (m: ConnectionCount)
    requires keys != []
    ensures forall i :: 0 <= i < |keys| ==> m <= Count(connections, keys[i])
    ensures exists i :: 0 <= i < |keys| && m == Count(connections, keys[i])
  {
    var c := Count(connections, keys[0]);
    if |keys| == 1 then c
    else
      var rest := MinCount(keys[1..], connections);
      assert forall i :: 0 <= i < |keys[1..]| ==> keys[1..][i] == keys[i + 1];
      if c < rest then c else rest
  }

  function Factor(coefficient: real): real {
    if coefficient > 1.0 then coefficient else 2.0
  }

  function Scaled(coefficient: real, minCount: nat): real {
    Factor(coefficient) * minCount as real
  }

  function Threshold(coefficient: real, minCount: nat): int {
    Scaled(coefficient, minCount).Floor + SLACK
  }

  /** A backend is a hotspot when its connections exceed the threshold set by the least loaded one. */
  predicate Eligible(keys: seq<BackendKey>, connections: Connections, coefficient: real, key: BackendKey)
    requires keys != []
  {
    Count(connections, key) <= Threshold(coefficient, MinCount(keys, connections))
  }

  function Score(backend: BackendKey, clientKey: string): Hash {
    Hashed(Rendered(backend.name, backend.port), Hashed(clientKey, OFFSET))
  }

  /** The score is the FNV-1a hash, from the offset, of the key followed by "name:port". */
  lemma ScoreIsHash(backend: BackendKey, clientKey: string)
    ensures Score(backend, clientKey) ==
            Hashed(clientKey + (backend.name + ":" + Decimal(backend.port)), OFFSET)
  {
    HashedConcat(clientKey, Rendered(backend.name, backend.port), OFFSET);
  }

  /** Every backend tells two clients apart exactly when the hashes of their keys differ, as they
      do when the keys differ in one byte. */
  lemma ClientsApart(backend: BackendKey, k1: string, k2: string)
    ensures Score(backend, k1) == Score(backend, k2) <==> Hashed(k1, OFFSET) == Hashed(k2, OFFSET)
  {
    HashedBijective(Rendered(backend.name, backend.port), Hashed(k1, OFFSET));
    HashedBijective(Rendered(backend.name, backend.port), Hashed(k2, OFFSET));
  }

  lemma NearClientsApart(backend: BackendKey, front: string, x: char, y: char, back: string)
    requires x as int % 256 != y as int % 256
    ensures Score(backend, front + [x] + back) != Score(backend, front + [y] + back)
  {
    ClientsApart(backend, front + [x] + back, front + [y] + back);
    OneByteNeverTies(front, x, y, back, OFFSET);
  }

  /** A factor above one counts, any other stands for two. */
  lemma ThresholdIs(coefficient: real, minCount: nat)
    ensures coefficient > 1.0 ==> Threshold(coefficient, minCount) == (coefficient * minCount as real).Floor + 4
    ensures coefficient <= 1.0 ==> Threshold(coefficient, minCount) == 2 * minCount + 4
  {
    if coefficient <= 1.0 { Twice(minCount); }
  }

  lemma Twice(n: nat)
    ensures (2.0 * n as real).Floor == 2 * n
  {
    assert 2.0 * n as real == (2 * n) as real;
  }

  /** How one client ranks the backends. */
  type Scoring = BackendKey -> nat

  function ScoreFor(clientKey: string): Scoring {
    (backend: BackendKey) => Score(backend, clientKey)
  }

  /** Index i holds the first eligible backend of maximal score. */
  ghost predicate Chosen(keys: seq<BackendKey>, connections: Connections, coefficient: real, score: Scoring, i: nat) {
    && i < |keys|
    && Eligible(keys, connections, coefficient, keys[i])
    && forall j :: 0 <= j < |keys| && Eligible(keys, connections, coefficient, keys[j]) ==>
         && score(keys[j]) <= score(keys[i])
         && (j < i ==> score(keys[j]) < score(keys[i]))
  }

  lemma Stretched(f: real, x: real, y: real)
    requires f >= 1.0 && 0.0 <= x <= y
    ensures x <= f * x <= f * y
  {
    assert (f - 1.0) * x >= 0.0;
    assert f * (y - x) >= 0.0;
    assert f * x == x + (f - 1.0) * x;
    assert f * y == f * x + f * (y - x);
  }

  lemma ScaledMonotone(coefficient: real, a: nat, b: nat)
    requires a <= b
    ensures a as real <= Scaled(coefficient, a) <= Scaled(coefficient, b)
  {
    Stretched(Factor(coefficient), a as real, b as real);
  }

  lemma FloorBetween(n: int, x: real, y: real)
    requires n as real <= x <= y
    ensures n <= x.Floor <= y.Floor
  {
  }

  lemma ThresholdMonotone(coefficient: real, a: nat, b: nat)
    requires a <= b
    ensures Threshold(coefficient, a) <= Threshold(coefficient, b)
    ensures a + SLACK <= Threshold(coefficient, a)
  {
    ScaledMonotone(coefficient, a, b);
    FloorBetween(a, Scaled(coefficient, a), Scaled(coefficient, b));
  }

  /** The connection counts in list order, and the least of them. */
  method CountConnections(infos: seq<BackendInfo>, connections: Connections)
    returns (counts: seq<nat>, minCount: nat)
    requires infos != []
    ensures |counts| == |infos|
    ensures forall j :: 0 <= j < |infos| ==> counts[j] == Count(connections, InfoKeys(infos)[j])
    ensures minCount == MinCount(InfoKeys(infos), connections)
  {
    ghost var keys := InfoKeys(infos);
    counts, minCount := [], INT_MAX;
    for i := 0 to |infos|
      invariant |counts| == i
      invariant forall j :: 0 <= j < i ==> counts[j] == Count(connections, keys[j]) && minCount <= counts[j]
      invariant if i == 0 then minCount == INT_MAX else exists j :: 0 <= j < i && counts[j] == minCount
    {
      var count := Count(connections, infos[i].Key());
      ghost var before := counts;
      counts := counts + [count];
      assert counts[i] == count && forall j :: 0 <= j < i ==> counts[j] == before[j];
      minCount := if count < minCount then count else minCount;
    }
    ghost var at :| 0 <= at < |infos| && counts[at] == minCount;
    assert Count(connections, keys[at]) == minCount;
  }

  /** Among the first n, index i is the first of those not above the threshold with maximal score. */
  ghost predicate FirstBest(counts: seq<nat>, threshold: int, scores: seq<nat>, n: nat, i: nat)
    requires |scores| == |counts| && n <= |counts|
  {
    && i < n && counts[i] <= threshold
    && forall j :: 0 <= j < n && counts[j] <= threshold ==>
         scores[j] <= scores[i] && (j < i ==> scores[j] < scores[i])
  }

  function Scores(keys: seq<BackendKey>, score: Scoring): (scores: seq<nat>)
    ensures |scores| == |keys|
  {
    seq(|keys|, i requires 0 <= i < |keys| => score(keys[i]))
  }

  method ScoreOf(info: BackendInfo, keyHash: Hash, ghost key: string) returns (score: Hash)
    requires keyHash == Hashed(key, OFFSET)
    ensures score == Score(info.Key(), key)
  {
    var id := Rendered(info.hostName, info.port);
    score := Fnv1a(id, keyHash);
  }

  /** How far the scan has come after n backends. */
  ghost predicate Scanned(counts: seq<nat>, threshold: int, scores: seq<nat>, n: nat,
                          bestIndex: nat, bestScore: nat, first: bool)
    requires |scores| == |counts| && n <= |counts|
  {
    if first then forall j :: 0 <= j < n ==> counts[j] > threshold
    else FirstBest(counts, threshold, scores, n, bestIndex) && bestScore == scores[bestIndex]
  }

  lemma ScannedNext(counts: seq<nat>, threshold: int, scores: seq<nat>, n: nat,
                    bestIndex: nat, bestScore: nat, first: bool)
    requires |scores| == |counts| && n < |counts|
    requires Scanned(counts, threshold, scores, n, bestIndex, bestScore, first)
    ensures if counts[n] <= threshold && (first || scores[n] > bestScore) then
              Scanned(counts, threshold, scores, n + 1, n, scores[n], false)
            else
              Scanned(counts, threshold, scores, n + 1, bestIndex, bestScore, first)
  {
  }

  method BestEligible(infos: seq<BackendInfo>, counts: seq<nat>, threshold: int, key: string,
                      ghost scores: seq<nat>)
    returns (bestIndex: nat)
    requires |counts| == |infos| == |scores|
    requires forall j :: 0 <= j < |infos| ==> scores[j] == Score(infos[j].Key(), key)
    requires exists j :: 0 <= j < |counts| && counts[j] <= threshold
    ensures FirstBest(counts, threshold, scores, |counts|, bestIndex)
  {
    var keyHash := Fnv1a(key, OFFSET);
    bestIndex := 0;
    var bestScore: nat, first := 0, true;
    for i := 0 to |infos|
      invariant Scanned(counts, threshold, scores, i, bestIndex, bestScore, first)
    {
      ScannedNext(counts, threshold, scores, i, bestIndex, bestScore, first);
      if counts[i] <= threshold {
        var score := ScoreOf(infos[i], keyHash, key);
        if first || score > bestScore {
          bestScore, bestIndex, first := score, i, false;
        }
      }
    }
  }

  /** What is chosen, in terms of counts and of hashes of key and "name:port": the first of the
      greatest hash among the backends within the threshold. */
  lemma ChosenMeans(infos: seq<BackendInfo>, connections: Connections, coefficient: real, key: string, i: nat)
    requires infos != []
    ensures var limit := Threshold(coefficient, MinCount(InfoKeys(infos), connections));
      Chosen(InfoKeys(infos), connections, coefficient, ScoreFor(key), i) <==>
      && i < |infos| && Count(connections, BackendKey(infos[i].hostName, infos[i].port)) <= limit
      && forall j :: 0 <= j < |infos| && Count(connections, BackendKey(infos[j].hostName, infos[j].port)) <= limit ==>
           var best := Hashed(key + (infos[i].hostName + ":" + Decimal(infos[i].port)), OFFSET);
           var hash := Hashed(key + (infos[j].hostName + ":" + Decimal(infos[j].port)), OFFSET);
           if j < i then hash < best else hash <= best
  {
    var keys := InfoKeys(infos);
    var limit := Threshold(coefficient, MinCount(keys, connections));
    var scores := Scores(keys, ScoreFor(key));
    var counts: seq<nat> := seq(|keys|, j requires 0 <= j < |keys| => Count(connections, keys[j]));
    forall j | 0 <= j < |infos|
      ensures counts[j] == Count(connections, BackendKey(infos[j].hostName, infos[j].port))
      ensures scores[j] == Hashed(key + (infos[j].hostName + ":" + Decimal(infos[j].port)), OFFSET)
    {
      ScoreIsHash(keys[j], key);
    }
    ChosenIsFirstBest(keys, connections, coefficient, ScoreFor(key), counts, i);
    FirstBestMeans(infos, connections, limit, key, counts, scores, i);
  }

  lemma FirstBestMeans(infos: seq<BackendInfo>, connections: Connections, limit: int, key: string,
                       counts: seq<nat>, scores: seq<nat>, i: nat)
    requires |infos| == |counts| == |scores|
    requires forall j :: 0 <= j < |infos| ==>
               counts[j] == Count(connections, BackendKey(infos[j].hostName, infos[j].port))
    requires forall j :: 0 <= j < |infos| ==>
               scores[j] == Hashed(key + (infos[j].hostName + ":" + Decimal(infos[j].port)), OFFSET)
    ensures FirstBest(counts, limit, scores, |infos|, i) <==>
      && i < |infos| && Count(connections, BackendKey(infos[i].hostName, infos[i].port)) <= limit
      && forall j :: 0 <= j < |infos| && Count(connections, BackendKey(infos[j].hostName, infos[j].port)) <= limit ==>
           var best := Hashed(key + (infos[i].hostName + ":" + Decimal(infos[i].port)), OFFSET);
           var hash := Hashed(key + (infos[j].hostName + ":" + Decimal(infos[j].port)), OFFSET);
           if j < i then hash < best else hash <= best
  {
  }

  lemma ChosenIsFirstBest(keys: seq<BackendKey>, connections: Connections, coefficient: real,
                          score: Scoring, counts: seq<nat>, i: nat)
    requires keys != [] && |counts| == |keys|
    requires forall j :: 0 <= j < |keys| ==> counts[j] == Count(connections, keys[j])
    ensures Chosen(keys, connections, coefficient, score, i) <==>
            FirstBest(counts, Threshold(coefficient, MinCount(keys, connections)), Scores(keys, score), |keys|, i)
  {
    var scores := Scores(keys, score);
    assert forall j :: 0 <= j < |keys| ==> scores[j] == score(keys[j]);
    assert forall j :: 0 <= j < |keys| && Eligible(keys, connections, coefficient, keys[j]) ==>
      counts[j] <= Threshold(coefficient, MinCount(keys, connections));
  }

  /** The selection of one backend for one request. */
  method GetBackend(infos: seq<BackendInfo>, coefficient: real, cookieName: string,
                    connections: Connections, request: Request)
    returns (r: Option<nat>)
    ensures infos == [] <==> r == None
    ensures r.Some? ==>
      Chosen(InfoKeys(infos), connections, coefficient, ScoreFor(ExtractKey(cookieName, request)), r.value)
    ensures r.Some? ==>
      var key, i := ExtractKey(cookieName, request), r.value;
      var limit := Threshold(coefficient, MinCount(InfoKeys(infos), connections));
      && i < |infos| && Count(connections, BackendKey(infos[i].hostName, infos[i].port)) <= limit
      && forall j :: 0 <= j < |infos| && Count(connections, BackendKey(infos[j].hostName, infos[j].port)) <= limit ==>
           var best := Hashed(key + (infos[i].hostName + ":" + Decimal(infos[i].port)), OFFSET);
           var hash := Hashed(key + (infos[j].hostName + ":" + Decimal(infos[j].port)), OFFSET);
           if j < i then hash < best else hash <= best
  {
    if infos == [] {
      return None;
    }
    var counts, minCount := CountConnections(infos, connections);
    var threshold := Threshold(coefficient, minCount);
    ThresholdMonotone(coefficient, minCount, minCount);
    ghost var keys := InfoKeys(infos);
    ghost var at :| 0 <= at < |keys| && minCount == Count(connections, keys[at]);
    assert counts[at] == Count(connections, keys[at]) <= threshold;

    var key := FindKey(cookieName, request);
    var bestIndex := BestEligible(infos, counts, threshold, key, Scores(keys, ScoreFor(key)));
    ChosenIsFirstBest(keys, connections, coefficient, ScoreFor(key), counts, bestIndex);
    ChosenMeans(infos, connections, coefficient, key, bestIndex);
    r := Some(bestIndex);
  }

  lemma ChosenUnique(keys: seq<BackendKey>, connections: Connections, coefficient: real, score: Scoring, i: nat, j: nat)
    requires Chosen(keys, connections, coefficient, score, i)
    requires Chosen(keys, connections, coefficient, score, j)
    ensures i == j
  {
  }

  lemma {:induction false} FirstBestExists(counts: seq<nat>, threshold: int, scores: seq<nat>, n: nat)
    returns (best: nat)
    requires |scores| == |counts| && n <= |counts|
    requires exists i :: 0 <= i < n && counts[i] <= threshold
    ensures FirstBest(counts, threshold, scores, n, best)
  {
    var m := n - 1;
    if exists i :: 0 <= i < m && counts[i] <= threshold {
      best := FirstBestExists(counts, threshold, scores, m);
      if counts[m] <= threshold && scores[m] > scores[best] {
        best := m;
      }
    } else {
      best := m;
    }
  }

  /** Hotspot rule: for every non-empty list some backend is selectable, the selection is
      unique, and its load is bounded by the least loaded backend's. */
  lemma HotspotRule(keys: seq<BackendKey>, connections: Connections, coefficient: real, score: Scoring)
    returns (i: nat)
    requires keys != []
    ensures Chosen(keys, connections, coefficient, score, i)
    ensures forall j: nat :: Chosen(keys, connections, coefficient, score, j) ==> j == i
    ensures Count(connections, keys[i]) <= Threshold(coefficient, MinCount(keys, connections))
  {
    var m := MinCount(keys, connections);
    var least :| 0 <= least < |keys| && m == Count(connections, keys[least]);
    ThresholdMonotone(coefficient, m, m);
    var counts: seq<nat> := seq(|keys|, j requires 0 <= j < |keys| => Count(connections, keys[j]));
    assert counts[least] == m;
    i := FirstBestExists(counts, Threshold(coefficient, m), Scores(keys, score), |keys|);
    ChosenIsFirstBest(keys, connections, coefficient, score, counts, i);
    forall j: nat | Chosen(keys, connections, coefficient, score, j) ensures j == i {
      ChosenUnique(keys, connections, coefficient, score, i, j);
    }
  }

  // ----- How selections in two situations relate -----

  /** No two backends tie for this client. */
  ghost predicate DistinctScores(keys: seq<BackendKey>, score: Scoring) {
    forall i, j :: 0 <= i < |keys| && 0 <= j < |keys| && keys[i] != keys[j] ==>
      score(keys[i]) != score(keys[j])
  }

  /** Two backends on one port whose names differ in exactly one byte never tie, for any client. */
  lemma NearNamesakesNeverTie(front: string, x: char, y: char, back: string, port: int, clientKey: string)
    requires Octet(x) != Octet(y)
    ensures Score(BackendKey(front + [x] + back, port), clientKey) != Score(BackendKey(front + [y] + back, port),
        clientKey)
  {
    var rest := back + ":" + Decimal(port);
    assert Rendered(front + [x] + back, port) == front + [x] + rest;
    assert Rendered(front + [y] + back, port) == front + [y] + rest;
    OneByteNeverTies(front, x, y, rest, Hashed(clientKey, OFFSET));
  }

  /** Minimal disruption: between any two situations, a client leaves a backend that is still
      selectable only for one that was not selectable before. */
  lemma MinimalDisruption(
    before: seq<BackendKey>, beforeLoad: Connections, i: nat,
    after: seq<BackendKey>, afterLoad: Connections, j: nat,
    coefficient: real, score: Scoring)
    requires Chosen(before, beforeLoad, coefficient, score, i)
    requires Chosen(after, afterLoad, coefficient, score, j)
    requires DistinctScores(before + after, score)
    requires before[i] in after && Eligible(after, afterLoad, coefficient, before[i])
    ensures after[j] == before[i]
         || after[j] !in before || !Eligible(before, beforeLoad, coefficient, after[j])
  {
    var all := before + after;
    assert all[i] == before[i] && all[|before| + j] == after[j];
  }

  ghost predicate Selectable(keys: seq<BackendKey>, connections: Connections, coefficient: real, key: BackendKey) {
    key in keys && Eligible(keys, connections, coefficient, key)
  }

  /** Stickiness between any two situations, exactly: the client stays with its backend if and
      only if that is still selectable and no backend that was not selectable before is now,
      with a higher score. */
  lemma StaysExactly(
    before: seq<BackendKey>, beforeLoad: Connections, i: nat,
    after: seq<BackendKey>, afterLoad: Connections, j: nat,
    coefficient: real, score: Scoring)
    requires Chosen(before, beforeLoad, coefficient, score, i)
    requires Chosen(after, afterLoad, coefficient, score, j)
    requires DistinctScores(before + after, score)
    ensures after[j] == before[i] <==>
      && Selectable(after, afterLoad, coefficient, before[i])
      && forall k :: Selectable(after, afterLoad, coefficient, k) && !Selectable(before, beforeLoad, coefficient, k) ==>
           score(k) < score(before[i])
  {
    var all := before + after;
    assert all[i] == before[i] && all[|before| + j] == after[j];
    forall k | Selectable(after, afterLoad, coefficient, k)
      ensures score(k) <= score(after[j])
      ensures k != before[i] ==> score(k) != score(before[i])
    {
      var n :| 0 <= n < |after| && after[n] == k;
      assert all[|before| + n] == k;
    }
    assert Selectable(after, afterLoad, coefficient, after[j]);
  }

  lemma MinCountAdded(keys: seq<BackendKey>, more: seq<BackendKey>, connections: Connections)
    requires keys != []
    ensures MinCount(keys + more, connections) <= MinCount(keys, connections)
  {
    var i :| 0 <= i < |keys| && MinCount(keys, connections) == Count(connections, keys[i]);
    assert (keys + more)[i] == keys[i];
  }

  /** Adding a backend, exactly: the client stays where it was if and only if its backend
      has not become a hotspot and the new one is not both selectable and better. If it
      moves while its backend is still selectable, it moves to the new backend. */
  lemma AddingBackend(keys: seq<BackendKey>, added: BackendKey, connections: Connections,
                      coefficient: real, score: Scoring, i: nat, j: nat)
    requires Chosen(keys, connections, coefficient, score, i)
    requires Chosen(keys + [added], connections, coefficient, score, j)
    requires DistinctScores(keys + [added], score)
    ensures var all := keys + [added];
      && (all[j] == keys[i] <==>
           && Eligible(all, connections, coefficient, keys[i])
           && (Eligible(all, connections, coefficient, added) ==> score(added) <= score(keys[i])))
      && (Eligible(all, connections, coefficient, keys[i]) ==> all[j] == keys[i] || all[j] == added)
  {
    var all := keys + [added];
    MinCountAdded(keys, [added], connections);
    ThresholdMonotone(coefficient, MinCount(all, connections), MinCount(keys, connections));
    assert all[i] == keys[i] && all[|keys|] == added;
    if j < |keys| {
      assert all[j] == keys[j];
    }
  }

  lemma SameLoadSameWinner(a: seq<BackendKey>, i: nat, b: seq<BackendKey>, j: nat,
                           connections: Connections, coefficient: real, score: Scoring)
    requires Chosen(a, connections, coefficient, score, i)
    requires Chosen(b, connections, coefficient, score, j)
    requires MinCount(a, connections) == MinCount(b, connections)
    requires a[i] in b && b[j] in a
    requires DistinctScores(a, score)
    ensures a[i] == b[j]
  {
    var i' :| 0 <= i' < |b| && b[i'] == a[i];
    var j' :| 0 <= j' < |a| && a[j'] == b[j];
    assert Eligible(b, connections, coefficient, b[i']);
    assert Eligible(a, connections, coefficient, a[j']);
  }

  lemma MinCountRemoved(keys: seq<BackendKey>, at: nat, rest: seq<BackendKey>, connections: Connections)
    requires at < |keys| && rest == RemoveAt(keys, at) && rest != []
    ensures MinCount(keys, connections) <= MinCount(rest, connections)
  {
    var i :| 0 <= i < |rest| && MinCount(rest, connections) == Count(connections, rest[i]);
    assert rest[i] == keys[if i < at then i else i + 1];
  }

  /** Removing a backend the client was not on, exactly: the client stays if and only if no
      hotspot that scores higher becomes selectable, as none does while the least load stays. */
  lemma RemovingOther(keys: seq<BackendKey>, at: nat, rest: seq<BackendKey>, connections: Connections,
                      coefficient: real, score: Scoring, i: nat, j: nat)
    requires at < |keys| && rest == RemoveAt(keys, at)
    requires Chosen(keys, connections, coefficient, score, i) && keys[at] != keys[i]
    requires Chosen(rest, connections, coefficient, score, j)
    requires DistinctScores(keys, score)
    ensures rest[j] == keys[i] <==>
      forall k :: Selectable(rest, connections, coefficient, k) && !Selectable(keys, connections, coefficient, k) ==>
        score(k) < score(keys[i])
    ensures MinCount(rest, connections) == MinCount(keys, connections) ==> rest[j] == keys[i]
  {
    MembersOfRemoveAt(keys, at, i);
    MinCountRemoved(keys, at, rest, connections);
    ThresholdMonotone(coefficient, MinCount(keys, connections), MinCount(rest, connections));
    var all := keys + rest;
    forall a | 0 <= a < |all| ensures all[a] in keys {
      assert a >= |keys| ==> all[a] == rest[a - |keys|] && all[a] in rest;
    }
    DistinctScoresWithin(keys, all, score);
    StaysExactly(keys, connections, i, rest, connections, j, coefficient, score);
  }

  lemma DistinctScoresWithin(keys: seq<BackendKey>, all: seq<BackendKey>, score: Scoring)
    requires DistinctScores(keys, score) && forall a :: 0 <= a < |all| ==> all[a] in keys
    ensures DistinctScores(all, score)
  {
    forall a, b | 0 <= a < |all| && 0 <= b < |all| && all[a] != all[b]
      ensures score(all[a]) != score(all[b])
    {
      var c :| 0 <= c < |keys| && keys[c] == all[a];
      var d :| 0 <= d < |keys| && keys[d] == all[b];
    }
  }

  lemma SameMinCount(a: seq<BackendKey>, b: seq<BackendKey>, connections: Connections)
    requires a != [] && b != []
    requires forall k :: k in a <==> k in b
    ensures MinCount(a, connections) == MinCount(b, connections)
  {
    var i :| 0 <= i < |a| && MinCount(a, connections) == Count(connections, a[i]);
    var j :| 0 <= j < |b| && MinCount(b, connections) == Count(connections, b[j]);
    assert a[i] in b && b[j] in a;
  }

  /** Order and multiplicity of the list do not matter to where a client goes. */
  lemma OnlyTheSetMatters(a: seq<BackendKey>, i: nat, b: seq<BackendKey>, j: nat,
                          connections: Connections, coefficient: real, score: Scoring)
    requires forall k :: k in a <==> k in b
    requires Chosen(a, connections, coefficient, score, i)
    requires Chosen(b, connections, coefficient, score, j)
    requires DistinctScores(a, score)
    ensures a[i] == b[j]
  {
    SameMinCount(a, b, connections);
    assert a[i] in b && b[j] in a;
    SameLoadSameWinner(a, i, b, j, connections, coefficient, score);
  }
}

/** Erasing by position against erasing the first match. */
module Lists {

  function RemoveAt<T>(s: seq<T>, i: nat): seq<T>
    requires i < |s|
  {
    s[..i] + s[i + 1..]
  }

  /** The position std::find would stop at. */
  function FirstIndex<T(==)>(s: seq<T>, x: T): (i: nat)
    requires x in s
    ensures i < |s| && s[i] == x && forall k :: 0 <= k < i ==> s[k] != x
  {
    if s[0] == x then 0
    else
      var rest := FirstIndex(s[1..], x);
      rest + 1
  }

  lemma FirstIndexUnique<T>(s: seq<T>, x: T, i: nat)
    requires i < |s| && s[i] == x && x !in s[..i]
    ensures FirstIndex(s, x) == i
  {
    assert forall k :: 0 <= k < i ==> s[k] == s[..i][k];
  }

  lemma {:induction false} EqualRun<T>(s: seq<T>, j: nat, i: nat)
    requires j <= i < |s|
    requires forall k :: j <= k < i ==> s[k] == s[k + 1]
    ensures forall k :: j <= k <= i ==> s[k] == s[i]
    decreases i - j
  {
    if j < i {
      EqualRun(s, j + 1, i);
      assert s[j] == s[j + 1];
    }
  }

  lemma SameErasure<T>(s: seq<T>, j: nat, i: nat)
    requires j <= i < |s|
    ensures RemoveAt(s, i) == RemoveAt(s, j) <==> forall k :: j <= k < i ==> s[k] == s[k + 1]
  {
    var a, b := RemoveAt(s, i), RemoveAt(s, j);
    assert forall k :: 0 <= k < |a| ==> a[k] == if k < i then s[k] else s[k + 1];
    assert forall k :: 0 <= k < |b| ==> b[k] == if k < j then s[k] else s[k + 1];
    if a == b {
      forall k | j <= k < i ensures s[k] == s[k + 1] {
        assert a[k] == b[k];
      }
    }
  }

  /** Erasing position i and erasing the first match of s[i] leave the same
      sequence exactly when nothing else stands between the two. */
  lemma EraseAgreement<T>(s: seq<T>, i: nat)
    requires i < |s|
    ensures var j := FirstIndex(s, s[i]);
            RemoveAt(s, i) == RemoveAt(s, j) <==> forall k :: j <= k <= i ==> s[k] == s[i]
  {
    var j := FirstIndex(s, s[i]);
    assert j <= i;
    SameErasure(s, j, i);
    if forall k :: j <= k < i ==> s[k] == s[k + 1] {
      EqualRun(s, j, i);
    }
  }

  lemma Around<T>(front: seq<T>, x: T, back: seq<T>, list: seq<T>)
    requires list == front + ([x] + back)
    ensures |front| < |list| && list[|front|] == x && list[..|front|] == front && list[|front| + 1..] == back
    ensures list == front + [x] + back
  {
  }

  lemma MembersOfRemoveAt<T>(s: seq<T>, at: nat, i: nat)
    requires at < |s| && i < |s| && i != at
    ensures s[i] in RemoveAt(s, at)
    ensures forall x :: x in RemoveAt(s, at) ==> x in s
  {
    assert RemoveAt(s, at)[if i < at then i else i - 1] == s[i];
  }

  lemma MultisetRemoveAt<T>(s: seq<T>, i: nat)
    requires i < |s|
    ensures multiset(RemoveAt(s, i)) == multiset(s) - multiset{s[i]}
  {
    assert s == s[..i] + [s[i]] + s[i + 1..];
  }

  /** Two sequences with the same elements in some order have the same length. */
  lemma SameLength<T>(a: seq<T>, b: seq<T>)
    requires multiset(a) == multiset(b)
    ensures |a| == |b|
  {
    assert |multiset(a)| == |a| && |multiset(b)| == |b|;
  }
}

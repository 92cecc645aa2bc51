// How the crossed and circular strategies divide the private peers among the
// public ones (uno/registry/deployment_strategy/crossed_deployment_strategy.py).
module Partition {

  // Number of private peers given to the i-th of n public peers.
  function Share(m: nat, n: nat, i: nat): (r: nat)
    requires n > 0
  {
    m / n + (if i < m % n then 1 else 0)
  }

  // Position of the i-th public peer's first private peer.
  function Start(m: nat, n: nat, i: nat): (r: nat)
    requires n > 0
  {
    if i == 0 then 0 else Start(m, n, i - 1) + Share(m, n, i - 1)
  }

  method PartitionSizes(m: nat, n: nat) returns (sizes: seq<nat>)
    requires n > 0
    ensures |sizes| == n
    ensures forall i :: 0 <= i < n ==> sizes[i] == Share(m, n, i)
  {
    if m >= n {
      var size, remaining := m / n, m % n;
      sizes := seq(n, i => size);
      var i := 0;
      while i < remaining
        invariant 0 <= i <= remaining
        invariant |sizes| == n
        invariant forall j :: 0 <= j < n ==> sizes[j] == if j < i then size + 1 else size
      {
        sizes := sizes[i := sizes[i] + 1];
        i := i + 1;
      }
    } else {
      FewPrivate(m, n);
      sizes := seq(m, i => 1) + seq(n - m, i => 0);
    }
  }

  lemma FewPrivate(m: nat, n: nat)
    requires m < n
    ensures m / n == 0 && m % n == m
  {
  }

  // Shares differ by at most one.
  lemma SharesAreEven(m: nat, n: nat, i: nat, j: nat)
    requires n > 0
    ensures -1 <= Share(m, n, i) - Share(m, n, j) <= 1
  {
    hide *;
    var q := m / n;
    assert Share(m, n, i) in {q, q + 1} && Share(m, n, j) in {q, q + 1} by {
      ShareValues(m, n, i);
      ShareValues(m, n, j);
    }
  }

  lemma ShareValues(m: nat, n: nat, i: nat)
    requires n > 0
    ensures Share(m, n, i) in {m / n, m / n + 1}
  {
  }

  lemma {:induction false} StartClosed(m: nat, n: nat, i: nat)
    requires n > 0
    ensures Start(m, n, i) == i * (m / n) + (if i < m % n then i else m % n)
  {
    if i > 0 {
      StartClosed(m, n, i - 1);
      var q := m / n;
      assert i * q == (i - 1) * q + q;
    }
  }

  // The shares add up to all private peers.
  lemma StartTotal(m: nat, n: nat)
    requires n > 0
    ensures Start(m, n, n) == m
  {
    StartClosed(m, n, n);
    assert m == n * (m / n) + m % n;
  }

  lemma {:induction false} StartGrows(m: nat, n: nat, i: nat, j: nat)
    requires n > 0 && i <= j
    ensures Start(m, n, i) <= Start(m, n, j)
    decreases j - i
  {
    if i < j {
      StartGrows(m, n, i, j - 1);
    }
  }

  // Every private peer falls into exactly one share.
  lemma {:induction false} OwnerBelow(m: nat, n: nat, k: nat, bound: nat) returns (i: nat)
    requires n > 0 && k < Start(m, n, bound)
    ensures i < bound && Start(m, n, i) <= k < Start(m, n, i + 1)
    ensures forall j :: 0 <= j && Start(m, n, j) <= k < Start(m, n, j + 1) ==> j == i
    decreases bound
  {
    hide Share;
    if k < Start(m, n, bound - 1) {
      i := OwnerBelow(m, n, k, bound - 1);
    } else {
      i := bound - 1;
    }
    forall j | 0 <= j && Start(m, n, j) <= k < Start(m, n, j + 1)
      ensures j == i
    {
      if j < i {
        StartGrows(m, n, j + 1, i);
      } else if i < j {
        StartGrows(m, n, i + 1, j);
      }
    }
  }

  lemma Owner(m: nat, n: nat, k: nat) returns (i: nat)
    requires n > 0 && k < m
    ensures i < n && Start(m, n, i) <= k < Start(m, n, i + 1) <= m
    ensures forall j :: 0 <= j && Start(m, n, j) <= k < Start(m, n, j + 1) ==> j == i
  {
    StartTotal(m, n);
    i := OwnerBelow(m, n, k, n);
    StartGrows(m, n, i + 1, n);
  }
}

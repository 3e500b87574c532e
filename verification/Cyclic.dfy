/** Positions in a ring of slots. */
module Cyclic {
  /** `i` steps from `start`, around the end. */
  function Around(start: nat, i: nat, n: nat): (r: nat)
    requires start < n && i <= n
    ensures r < n
  {
    if start + i < n then start + i else if i == n then start else start + i - n
  }

  /** Steps from `start` to `j`. */
  function Steps(start: nat, j: nat, n: nat): (r: nat)
    requires start < n && j < n
    ensures r < n && Around(start, r, n) == j
  {
    if start <= j then j - start else j + n - start
  }

  lemma AroundIsModulo(start: nat, i: nat, n: nat)
    requires start < n && i < n
    ensures (start + i) % n == Around(start, i, n)
  {
    if start + i >= n {
      assert (start + i) - n == Around(start, i, n);
    }
  }

  lemma DropPeriod(x: nat, n: nat)
    requires n > 0
    ensures (x + n) % n == x % n
  {
    var k: int := (x + n) / n - x / n - 1;
    assert x + n == n * ((x + n) / n) + (x + n) % n;
    assert x == n * (x / n) + x % n;
    assert n * k == x % n - (x + n) % n by {
      assert n * k == n * ((x + n) / n) - n * (x / n) - n;
    }
    MultipleIsFar(n, k);
    assert k == 0;
  }

  lemma MultipleIsFar(n: int, k: int)
    requires n >= 0
    ensures k >= 1 ==> n * k >= n
    ensures k <= -1 ==> n * k <= -n
  {
    if k >= 1 {
      assert n * k == n + n * (k - 1);
    } else if k <= -1 {
      assert n * k == -n + n * (k + 1);
    }
  }
}

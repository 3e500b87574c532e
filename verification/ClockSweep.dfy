/**
 * The clock sweep over usage counts. A count is lowered each time the hand passes,
 * and the first slot found at zero that can be flushed is the victim; five rounds at
 * most. `good` says which slots can.
 */
module ClockSweep {
  import opened Cyclic

  const MAX_USAGE := 5

  /** Usage counts are at most five. */
  predicate Counts(u: seq<nat>) {
    forall s :: 0 <= s < |u| ==> u[s] <= MAX_USAGE
  }

  /** `touch`: one more, up to the maximum. */
  function Touched(c: nat): nat {
    if c < MAX_USAGE then c + 1 else c
  }

  /** `untouch`: one less, down to zero. */
  function Untouched(c: nat): nat {
    if c > 0 then c - 1 else 0
  }

  /** How often a slot `d` steps from the start was passed after `p` rounds and `q` more steps. */
  function Passes(d: nat, p: nat, q: nat): nat {
    if d < q then p + 1 else p
  }

  /** The slot `d` steps after the start. */
  function At(start: nat, d: nat, n: nat): (r: nat)
    requires start < n && d < n
    ensures r < n
  {
    Around(start, d, n)
  }

  /** Every good slot's count has been lowered by exactly its passes, and none was at zero when passed. */
  ghost predicate Swept(u: seq<nat>, now: seq<nat>, good: seq<bool>, start: nat, p: nat, q: nat) {
    && |u| == |now| == |good| && start < |u| && q <= |u|
    && forall d {:trigger At(start, d, |u|)} :: 0 <= d < |u| && good[At(start, d, |u|)] ==>
         u[At(start, d, |u|)] >= Passes(d, p, q) && now[At(start, d, |u|)] == u[At(start, d, |u|)] - Passes(d, p, q)
  }

  /** `s` is the first good slot from `start` with the smallest count of them. */
  ghost predicate IsVictim(u: seq<nat>, good: seq<bool>, start: nat, s: nat)
    requires start < |u| == |good| && s < |u|
  {
    && good[s] && (forall x :: 0 <= x < |u| && good[x] ==> u[s] <= u[x])
    && (forall d {:trigger At(start, d, |u|)} :: 0 <= d < Steps(start, s, |u|) && good[At(start, d, |u|)] ==> u[At(start, d, |u|)] > u[s])
  }

  /** Some good slot's count is below the maximum. */
  ghost predicate Spare(u: seq<nat>, good: seq<bool>)
    requires |u| == |good|
  {
    exists x :: 0 <= x < |u| && good[x] && u[x] < MAX_USAGE
  }

  lemma SweepStart(u: seq<nat>, good: seq<bool>, start: nat)
    requires start < |u| == |good|
    ensures Swept(u, u, good, start, 0, 0)
  {
  }

  /** Distinct offsets are distinct slots, and every slot has an offset. */
  lemma AtInjective(start: nat, n: nat, a: nat, b: nat)
    requires start < n && a < n && b < n && At(start, a, n) == At(start, b, n)
    ensures a == b
  {
  }

  /** Passing one slot: a good one was not at zero and is lowered by one. */
  lemma SweepPass(u: seq<nat>, now: seq<nat>, after: seq<nat>, good: seq<bool>, start: nat, p: nat, q: nat)
    requires Swept(u, now, good, start, p, q) && q < |u| && |after| == |now|
    requires var s := At(start, q, |u|);
             && (forall x :: 0 <= x < |u| && x != s ==> after[x] == now[x])
             && (good[s] ==> now[s] > 0 && after[s] == now[s] - 1)
    ensures Swept(u, after, good, start, p, q + 1)
  {
    var s := At(start, q, |u|);
    forall d | 0 <= d < |u| && good[At(start, d, |u|)]
      ensures u[At(start, d, |u|)] >= Passes(d, p, q + 1) && after[At(start, d, |u|)] == u[At(start, d, |u|)] - Passes(d, p, q + 1)
    {
      if d != q && At(start, d, |u|) == s {
        AtInjective(start, |u|, d, q);
      }
    }
  }

  /** After a full round the next one starts. */
  lemma SweepRound(u: seq<nat>, now: seq<nat>, good: seq<bool>, start: nat, p: nat)
    requires Swept(u, now, good, start, p, |u|)
    ensures Swept(u, now, good, start, p + 1, 0)
  {
    forall d | 0 <= d < |u| && good[At(start, d, |u|)]
      ensures u[At(start, d, |u|)] >= Passes(d, p + 1, 0) && now[At(start, d, |u|)] == u[At(start, d, |u|)] - Passes(d, p + 1, 0)
    {
      assert u[At(start, d, |u|)] >= Passes(d, p, |u|);
    }
  }

  /** The good slot found at zero is the first one with the smallest count, and that count is the round. */
  lemma SweepStop(u: seq<nat>, now: seq<nat>, good: seq<bool>, start: nat, p: nat, q: nat)
    requires Swept(u, now, good, start, p, q) && q < |u| && now[At(start, q, |u|)] == 0 && good[At(start, q, |u|)]
    ensures u[At(start, q, |u|)] == p && IsVictim(u, good, start, At(start, q, |u|))
    ensures Steps(start, At(start, q, |u|), |u|) == q
  {
    var s := At(start, q, |u|);
    AtInjective(start, |u|, Steps(start, s, |u|), q);
    forall x | 0 <= x < |u| && good[x] ensures u[s] <= u[x] {
      var d := Steps(start, x, |u|);
      assert At(start, d, |u|) == x;
    }
  }

  /** Five rounds without a find: every good slot was at the maximum, and now they are at zero. */
  lemma SweepExhausted(u: seq<nat>, now: seq<nat>, good: seq<bool>, start: nat)
    requires Swept(u, now, good, start, MAX_USAGE, 0) && Counts(u)
    ensures forall s :: 0 <= s < |u| && good[s] ==> u[s] == MAX_USAGE && now[s] == 0
  {
    forall s | 0 <= s < |u| && good[s] ensures u[s] == MAX_USAGE && now[s] == 0 {
      var d := Steps(start, s, |u|);
      assert At(start, d, |u|) == s;
    }
  }

  /** A slot is found exactly when some good slot's count is below the maximum. */
  lemma FoundIffBelowMax(u: seq<nat>, good: seq<bool>, start: nat, s: nat)
    requires start < |u| == |good| && s < |u| && IsVictim(u, good, start, s)
    ensures u[s] < MAX_USAGE <==> Spare(u, good)
  {
  }

  /** Step `p * n + q` of the loop is at the slot `q` steps from the start. */
  lemma {:induction false} SlotOfStep(start: nat, p: nat, q: nat, n: nat)
    requires start < n && q < n
    ensures (start + (p * n + q)) % n == At(start, q, n)
    decreases p
  {
    if p == 0 {
      AroundIsModulo(start, q, n);
    } else {
      SlotOfStep(start, p - 1, q, n);
      DropPeriod(start + ((p - 1) * n + q), n);
      assert start + ((p - 1) * n + q) + n == start + (p * n + q);
    }
  }
}

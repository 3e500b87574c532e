/**
 * How many slots are too many for the ring. The test for room and the claim of a position
 * are two steps; with as many slots as entries or more, and at least two, they can be
 * overtaken and a request is lost. With fewer, or with one slot and one entry, never.
 */
module SubmitBound {
  import opened SubmitQueue

  /** What was taken out is a prefix of what was claimed, and every later request waits at its position. */
  ghost predicate Delivers(s: State, size: nat) {
    && |s.entries| == size > 0
    && |s.log| <= |s.claims| && s.log == s.claims[..|s.log|]
    && forall p {:trigger s.claims[p]} :: |s.log| <= p < |s.claims| ==> PosOk(s, p, size)
  }

  ghost predicate Reachable(s: State, m: nat, size: nat) {
    exists acts :: After(acts, m, size) == s
  }

  lemma {:induction false} Start0(m: nat, size: nat)
    ensures Reachable(Start(m, size), m, size)
  {
    assert After([], m, size) == Start(m, size);
  }

  lemma {:induction false} Take(s: State, a: Act, m: nat, size: nat) returns (s1: State)
    requires Reachable(s, m, size) && Shaped(s, m, size) && Enabled(s, a)
    ensures s1 == Next(s, a, m, size) && Reachable(s1, m, size)
  {
    hide Next, Enabled;
    var acts :| After(acts, m, size) == s;
    var more := acts + [a];
    assert more[..|more| - 1] == acts && more[|more| - 1] == a;
    s1 := Next(s, a, m, size);
    assert After(more, m, size) == s1;
  }

  /** Slots below `n` are idle and free. */
  predicate IdleBelow(s: State, n: nat)
    requires n <= |s.pcs|
  {
    forall k :: 0 <= k < n ==> s.pcs[k].Idle? && k in s.free
  }

  /** One idle slot is claimed, filled and published, and sees room. */
  lemma {:induction false} OneReady(s: State, k: nat, m: nat, size: nat) returns (s1: State)
    requires Reachable(s, m, size) && Shaped(s, m, size) && k < m && s.pcs[k].Idle? && k in s.free
    requires !LooksFull(s.head, s.tail, size)
    ensures Reachable(s1, m, size) && Shaped(s1, m, size)
    ensures s1 == s.(free := s.free - {k}, st := s1.st, pcs := s.pcs[k := Ready]) && s1.st == s.st[k := Submitted]
  {
    hide Reachable;
    s1 := Take(s, Claim(k), m, size);
    s1 := Take(s1, Publish(k), m, size);
    s1 := Take(s1, LoadHead(k), m, size);
    s1 := Take(s1, LoadTail(k), m, size);
  }

  /** All slots below `n` see room before any of them takes a position. */
  lemma {:induction false} AllReady(s: State, n: nat, m: nat, size: nat) returns (s1: State)
    requires Reachable(s, m, size) && Shaped(s, m, size) && n <= m && IdleBelow(s, n)
    requires !LooksFull(s.head, s.tail, size)
    ensures Reachable(s1, m, size) && Shaped(s1, m, size)
    ensures s1 == s.(free := s1.free, st := s1.st, pcs := s1.pcs)
    ensures forall k :: 0 <= k < n ==> s1.pcs[k].Ready?
    ensures forall k :: n <= k < m ==> s1.pcs[k] == s.pcs[k] && (k in s1.free <==> k in s.free)
    decreases n
  {
    hide Reachable;
    if n == 0 {
      s1 := s;
    } else {
      s1 := AllReady(s, n - 1, m, size);
      s1 := OneReady(s1, n - 1, m, size);
    }
  }

  function UpTo(n: nat): (r: seq<nat>)
    ensures |r| == n && forall i :: 0 <= i < n ==> r[i] == i
  {
    if n == 0 then [] else UpTo(n - 1) + [n - 1]
  }

  /** Then they take positions in order. */
  lemma {:induction false} AllTake(s: State, n: nat, m: nat, size: nat) returns (s1: State)
    requires Reachable(s, m, size) && Shaped(s, m, size) && n <= m && s.head == |s.claims|
    requires forall k :: 0 <= k < n ==> s.pcs[k].Ready?
    ensures Reachable(s1, m, size) && Shaped(s1, m, size)
    ensures s1 == s.(head := s.head + n, claims := s.claims + UpTo(n), pcs := s1.pcs)
    ensures forall k :: 0 <= k < n ==> s1.pcs[k] == Positioned(s.head + k)
    ensures forall k :: n <= k < m ==> s1.pcs[k] == s.pcs[k]
    decreases n
  {
    hide Reachable;
    if n == 0 {
      s1 := s;
      assert s.claims + [] == s.claims;
    } else {
      var s0 := AllTake(s, n - 1, m, size);
      s1 := Take(s0, TakePosition(n - 1), m, size);
      assert s0.claims + [n - 1] == s.claims + UpTo(n);
    }
  }

  lemma StartIsIdle(m: nat, size: nat, n: nat)
    requires n <= m && size > 0
    ensures Shaped(Start(m, size), m, size) && IdleBelow(Start(m, size), n)
  {
  }

  /** More slots than entries: the last request overwrites the entry of the first, which waits. */
  lemma {:induction false} Overwritten(m: nat, size: nat) returns (s: State)
    requires m > size > 0
    ensures Reachable(s, m, size) && |s.entries| == size && |s.claims| == size + 1 && |s.pcs| == m
    ensures s.log == [] && s.claims[0] == 0 && s.pcs[0] == Queued(0)
    ensures s.claims[size] == size && s.pcs[size] == Queued(size) && s.entries[0] == size + 1
  {
    hide Reachable;
    Start0(m, size);
    StartIsIdle(m, size, size + 1);
    s := AllReady(Start(m, size), size + 1, m, size);
    s := AllTake(s, size + 1, m, size);
    s := Take(s, StoreEntry(0), m, size);
    s := Take(s, StoreEntry(size), m, size);
  }

  /** The first request is with a worker and done, its slot is free again; its entry is not cleared yet. */
  predicate FirstTaken(s: State, m: nat, size: nat) {
    && Shaped(s, m, size) && s.head == 1 && s.tail == 0 && s.claims == [0] && s.log == [0]
    && s.cons == Clearing(1, 0) && IdleBelow(s, m)
  }

  lemma {:induction false} TakeFirst(m: nat, size: nat) returns (s: State)
    requires m > 0 && size > 0
    ensures Reachable(s, m, size) && FirstTaken(s, m, size)
  {
    hide Reachable;
    Start0(m, size);
    StartIsIdle(m, size, m);
    s := OneReady(Start(m, size), 0, m, size);
    s := Take(s, TakePosition(0), m, size);
    s := Take(s, StoreEntry(0), m, size);
    s := Dispatched(s, m, size);
    s := Take(s, Complete(0), m, size);
    s := Take(s, Release(0), m, size);
    s := Take(s, FreeBit(0), m, size);
  }

  /** The worker finds the request of slot 0 and hands it on. */
  lemma {:induction false} Dispatched(s: State, m: nat, size: nat) returns (s1: State)
    requires Reachable(s, m, size) && Shaped(s, m, size) && m > 0
    requires s.cons.Resting? && s.head == 1 && s.tail == 0 && s.entries[0] == 1 && s.st[0].Submitted?
    ensures Reachable(s1, m, size) && Shaped(s1, m, size)
    ensures s1 == s.(cons := Clearing(1, 0), st := s.st[0 := InProgress], running := s.running + {0}, log := s.log + [0])
  {
    hide Reachable;
    s1 := Take(s, Poll, m, size);
    s1 := Take(s1, LoadEntry, m, size);
    s1 := Take(s1, TryStart, m, size);
    s1 := Take(s1, Dispatch(Sent), m, size);
  }

  /** As many slots as entries: the worker clears the entry that a request just wrote a ring later. */
  lemma {:induction false} Erased(m: nat, size: nat) returns (s: State)
    requires m >= size >= 2
    ensures Reachable(s, m, size) && |s.entries| == size && |s.claims| == size + 1 && |s.pcs| == m
    ensures s.log == [0] == s.claims[..1] && s.claims[size] == size - 1 && s.pcs[size - 1] == Queued(size) && s.entries[0] == 0
  {
    hide Reachable;
    s := TakeFirst(m, size);
    s := AllReady(s, size, m, size);
    s := AllTake(s, size, m, size);
    s := Take(s, StoreEntry(size - 1), m, size);
    s := Take(s, ClearEntry(true), m, size);
  }

  /** Too many slots: in some interleaving a request that was published is lost. */
  lemma {:induction false} TooManySlotsLoseARequest(m: nat, size: nat) returns (s: State)
    requires size > 0 && !Fits(m, size)
    ensures Reachable(s, m, size) && !Delivers(s, size)
  {
    hide Reachable;
    if m > size {
      s := Overwritten(m, size);
      assert !PosOk(s, 0, size);
      assert s.claims[0] == 0;
    } else {
      s := Erased(m, size);
      assert !PosOk(s, size, size);
      assert s.claims[size] == size - 1;
    }
  }

  /** The exact bound: every interleaving delivers if and only if `m < size`, or both are one. */
  lemma {:induction false} DeliveryIff(m: nat, size: nat)
    requires size > 0
    ensures (forall acts :: Delivers(After(acts, m, size), size)) <==> Fits(m, size)
  {
    hide After, Delivers;
    if Fits(m, size) {
      forall acts ensures Delivers(After(acts, m, size), size) {
        FittingDelivers(acts, m, size);
      }
    } else {
      var s := TooManySlotsLoseARequest(m, size);
      var acts :| After(acts, m, size) == s;
      assert !Delivers(After(acts, m, size), size);
    }
  }

  lemma {:induction false} FittingDelivers(acts: seq<Act>, m: nat, size: nat)
    requires size > 0 && Fits(m, size)
    ensures Delivers(After(acts, m, size), size)
  {
    hide After;
    DeliveredInClaimOrder(acts, m, size);
    var s := After(acts, m, size);
    forall p | |s.log| <= p < |s.claims| ensures PosOk(s, p, size) {
      var _ := s.claims[p];
    }
  }
}

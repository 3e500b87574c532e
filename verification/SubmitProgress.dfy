/**
 * What the worker and a backend get done: the worker empties a ring in which every claimed
 * position is written, a backend that finds the worker at rest gets a position, and a
 * completed request frees its slot. From any state that keeps the invariant.
 */
module SubmitProgress {
  import opened SubmitQueue

  /** One step, if it is enabled. */
  function Do(s: State, a: Act, m: nat, size: nat): State {
    if Shaped(s, m, size) && Enabled(s, a) then Next(s, a, m, size) else s
  }

  lemma DoKeeps(s: State, a: Act, m: nat, size: nat)
    requires Inv(s, m, size) && Enabled(s, a)
    ensures Do(s, a, m, size) == Next(s, a, m, size) && Inv(Do(s, a, m, size), m, size)
  {
    StepKeeps(s, a, m, size);
  }

  /** The request claimed at position `p` is written. */
  predicate Written(s: State, p: nat) {
    p < |s.claims| && s.claims[p] < |s.pcs| && s.pcs[s.claims[p]] == Queued(p)
  }

  // ── The worker ──

  /** The worker takes the oldest request it has not taken out, exactly when that one is written; otherwise it leaves. */
  lemma TakesOldestIff(s: State, m: nat, size: nat)
    requires Inv(s, m, size) && s.cons.Polling?
    ensures var (h, t, s1) := (s.cons.h, s.cons.t, Do(s, LoadEntry, m, size));
            && (t < h && Written(s, t) ==> s1 == s.(cons := Got(h, t, s.claims[t])))
            && (!(t < h && Written(s, t)) ==> s1 == s.(cons := Leaving(t)))
  {
    hide OthersZero, SlotOk;
    if s.cons.t < s.cons.h {
      assert PosOk(s, s.cons.t, size);
    }
  }

  /** A request the worker holds is started, and what it hands over or refuses is taken out next. */
  lemma TakesOut(s: State, o: Outcome, m: nat, size: nat)
    requires Inv(s, m, size) && s.cons.Got? && o != QueueFull
    ensures var (h, t, k, s1) := (s.cons.h, s.cons.t, s.cons.k, Do(Do(s, TryStart, m, size), Dispatch(o), m, size));
            && k < |s.st| && Inv(s1, m, size)
            && s1 == s.(st := s.st[k := if o.Sent? then InProgress else Completed],
                        running := if o.Sent? then s.running + {k} else s.running,
                        log := s.log + [k], cons := Clearing(h, t))
  {
    hide OthersZero, PosOk, SlotOk, ConsumerOk;
    NeverSkips(s, m, size);
    DoKeeps(s, TryStart, m, size);
    var a := Do(s, TryStart, m, size);
    DoKeeps(a, Dispatch(o), m, size);
    assert s.st[s.cons.k := InProgress][s.cons.k := Completed] == s.st[s.cons.k := Completed];
  }

  /** One round of the polling loop. */
  function Round(s: State, o: Outcome, m: nat, size: nat): State {
    Do(Do(Do(Do(s, LoadEntry, m, size), TryStart, m, size), Dispatch(o), m, size), ClearEntry(false), m, size)
  }

  /** It moves past one request, and no backend's place changes. */
  lemma RoundIs(s: State, o: Outcome, m: nat, size: nat)
    requires Inv(s, m, size) && s.cons.Polling? && s.cons.t < s.cons.h && Written(s, s.cons.t) && o != QueueFull
    ensures var (t, s1) := (s.cons.t, Round(s, o, m, size));
            && Inv(s1, m, size) && s1.cons == Polling(s.cons.h, t + 1) && s1.log == s.log + [s.claims[t]]
            && s1.claims == s.claims && s1.head == s.head && s1.pcs == s.pcs && s1.tail == s.tail
  {
    hide Inv;
    TakesOldestIff(s, m, size);
    DoKeeps(s, LoadEntry, m, size);
    var a := Do(s, LoadEntry, m, size);
    TakesOut(a, o, m, size);
    var b := Do(Do(a, TryStart, m, size), Dispatch(o), m, size);
    DoKeeps(b, ClearEntry(false), m, size);
  }

  function Rounds(s: State, n: nat, m: nat, size: nat): State
    decreases n
  {
    if n == 0 then s else Rounds(Round(s, Sent, m, size), n - 1, m, size)
  }

  lemma {:induction false} RoundsAre(s: State, m: nat, size: nat)
    requires Inv(s, m, size) && s.cons.Polling? && s.cons.t <= s.cons.h == s.head == |s.claims| && |s.log| == s.cons.t
    requires forall p :: s.cons.t <= p < s.head ==> Written(s, p)
    ensures var s1 := Rounds(s, s.head - s.cons.t, m, size);
            && Inv(s1, m, size) && s1.cons == Polling(s.head, s.head) && s1.log == s.log + s.claims[s.cons.t..]
            && s1.claims == s.claims && s1.head == s.head && s1.pcs == s.pcs
    decreases s.head - s.cons.t
  {
    hide Inv, Round;
    var t := s.cons.t;
    if t < s.head {
      assert Written(s, t);
      RoundIs(s, Sent, m, size);
      var a := Round(s, Sent, m, size);
      assert forall p :: t + 1 <= p < a.head ==> Written(s, p) ==> Written(a, p);
      RoundsAre(a, m, size);
      assert s.claims[t..] == [s.claims[t]] + s.claims[t + 1..];
    }
  }

  /** A poll that finds every claimed position written hands all of them over, in claim order, and leaves an empty ring. */
  lemma Drains(s: State, m: nat, size: nat)
    requires Inv(s, m, size) && s.cons.Resting? && forall p :: s.tail <= p < s.head ==> Written(s, p)
    ensures s.tail <= s.head
    ensures var s1 := Do(Do(Rounds(Do(s, Poll, m, size), s.head - s.tail, m, size), LoadEntry, m, size), StoreTail, m, size);
            && s1.log == s.claims == s1.claims && s1.tail == s1.head == s.head && s1.cons == Resting && s1.pcs == s.pcs
            && Inv(s1, m, size)
  {
    hide Inv, Do, Rounds, Written;
    LogIsPrefix(s, m, size);
    PollIs(s, m, size);
    var a := Do(s, Poll, m, size);
    RoundsAre(a, m, size);
    var b := Rounds(a, s.head - s.tail, m, size);
    assert b.log == s.claims by {
      Whole(s.claims, s.tail);
    }
    LeavesEmpty(b, m, size);
  }

  lemma Whole(c: seq<nat>, n: nat)
    requires n <= |c|
    ensures c[..n] + c[n..] == c
  {
  }

  lemma PollIs(s: State, m: nat, size: nat)
    requires Inv(s, m, size) && s.cons.Resting?
    ensures var a := Do(s, Poll, m, size);
            && Inv(a, m, size) && a == s.(cons := Polling(s.head, s.tail))
            && forall p :: Written(s, p) ==> Written(a, p)
  {
    hide Inv;
    DoKeeps(s, Poll, m, size);
  }

  /** Nothing is left: the worker stores its tail and rests. */
  lemma LeavesEmpty(s: State, m: nat, size: nat)
    requires Inv(s, m, size) && s.cons == Polling(s.head, s.head)
    ensures var s1 := Do(Do(s, LoadEntry, m, size), StoreTail, m, size);
            s1 == s.(tail := s.head, cons := Resting) && Inv(s1, m, size)
  {
    hide Inv;
    TakesOldestIff(s, m, size);
    DoKeeps(s, LoadEntry, m, size);
    DoKeeps(Do(s, LoadEntry, m, size), StoreTail, m, size);
  }

  lemma LogIsPrefix(s: State, m: nat, size: nat)
    requires Inv(s, m, size) && s.cons.Resting?
    ensures s.tail <= s.head == |s.claims| && |s.log| == s.tail && s.log == s.claims[..s.tail]
  {
  }

  // ── A backend ──

  /** While the worker rests the ring has room for every published request that looks. */
  lemma FindsRoom(s: State, k: nat, m: nat, size: nat)
    requires Inv(s, m, size) && s.cons.Resting? && k < |s.pcs| && s.pcs[k].Published?
    ensures var s1 := Do(Do(s, LoadHead(k), m, size), LoadTail(k), m, size);
            s1 == s.(pcs := s.pcs[k := Ready])
  {
    SomeRoom(s, k, m, size);
    hide Inv;
    LogIsPrefix(s, m, size);
    ShapeOf(s, m, size);
    assert s.pcs[k := HeadLoaded(s.head)][k := Ready] == s.pcs[k := Ready];
  }

  lemma ShapeOf(s: State, m: nat, size: nat)
    requires Inv(s, m, size)
    ensures Shaped(s, m, size)
  {
  }

  lemma SomeRoom(s: State, k: nat, m: nat, size: nat)
    requires Inv(s, m, size) && s.cons.Resting? && k < m && s.pcs[k].Published?
    ensures s.head - s.tail < size
  {
    hide SlotOk, PosOk, OthersZero;
    var w := Waiting(s, m, size, s.Base());
    SmallSet(w + {k}, m);
    assert |w + {k}| == |w| + 1;
  }

  /** From there to a written entry at the position it got. */
  lemma Submits(s: State, k: nat, m: nat, size: nat)
    requires Inv(s, m, size) && k < |s.pcs| && s.pcs[k].Ready?
    ensures var s1 := Do(Do(s, TakePosition(k), m, size), StoreEntry(k), m, size);
            && Inv(s1, m, size) && Written(s1, s.head) && s1.head == s.head + 1 && s1.claims == s.claims + [k]
            && s1.log == s.log && s1.cons == s.cons
  {
    LengthOfClaims(s, m, size);
    hide Inv;
    DoKeeps(s, TakePosition(k), m, size);
    var a := Do(s, TakePosition(k), m, size);
    DoKeeps(a, StoreEntry(k), m, size);
  }

  lemma LengthOfClaims(s: State, m: nat, size: nat)
    requires Inv(s, m, size)
    ensures |s.claims| == s.head
  {
  }

  /** A request handed over that completes gives its slot back. */
  lemma Finishes(s: State, k: nat, m: nat, size: nat)
    requires Inv(s, m, size) && k in s.running
    ensures var s1 := Do(Do(Do(s, Complete(k), m, size), Release(k), m, size), FreeBit(k), m, size);
            && Inv(s1, m, size) && k < m && k in s1.free && s1.pcs == s.pcs[k := Idle] && s1.st == s.st[k := Free]
            && s1.running == s.running - {k} && s1.log == s.log && s1.claims == s.claims
  {
    RunningIs(s, k, m, size);
    hide Inv;
    DoKeeps(s, Complete(k), m, size);
    var a := Do(s, Complete(k), m, size);
    DoKeeps(a, Release(k), m, size);
    var b := Do(a, Release(k), m, size);
    DoKeeps(b, FreeBit(k), m, size);
    assert s.st[k := Completed][k := Free] == s.st[k := Free];
    assert s.pcs[k := Released][k := Idle] == s.pcs[k := Idle];
  }

  lemma RunningIs(s: State, k: nat, m: nat, size: nat)
    requires Inv(s, m, size) && k in s.running
    ensures Shaped(s, m, size) && k < m && s.pcs[k].Queued?
  {
    assert k < m;
    var _ := s.pcs[k];
    assert SlotOk(s, k);
  }
}

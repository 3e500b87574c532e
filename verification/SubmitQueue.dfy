/**
 * The submission path as a step system: backends claim slots and positions in a ring,
 * one worker polls it, others complete requests. One atomic operation per step.
 */
module SubmitQueue {
  import opened Cyclic

  // ── Entries ──

  const SLOTS_PER_BACKEND := 4
  const WORD := 0x1_0000_0000

  /** `pack`: backend and slot in one word, plus one so that zero means "not written yet". */
  function Pack(backend: nat, slot: nat): nat
    requires slot < SLOTS_PER_BACKEND
  {
    ((backend * SLOTS_PER_BACKEND) % WORD + slot + 1) % WORD
  }

  function Unpack(v: nat): (r: (nat, nat))
    requires v < WORD
  {
    var raw := (v + WORD - 1) % WORD;
    (raw / SLOTS_PER_BACKEND, raw % SLOTS_PER_BACKEND)
  }

  /** Exactly which pairs survive: all backends below 2^30, but the very last pair packs to the sentinel. */
  lemma PackRoundTripIff(backend: nat, slot: nat)
    requires slot < SLOTS_PER_BACKEND
    ensures Pack(backend, slot) != 0 && Unpack(Pack(backend, slot)) == (backend, slot)
            <==> backend < WORD / SLOTS_PER_BACKEND && backend * SLOTS_PER_BACKEND + slot + 1 < WORD
  {
    if backend < WORD / SLOTS_PER_BACKEND {
      assert (backend * SLOTS_PER_BACKEND) % WORD == backend * SLOTS_PER_BACKEND;
    }
  }

  // ── State ──

  /** The shared state byte of a slot. */
  datatype SlotState = Free | Submitted | InProgress | Completed

  /** Where the backend that owns a slot is with it. */
  datatype Pc =
    | Idle
    | Claimed
    | Published
    | HeadLoaded(h: nat)
    | Ready
    | Positioned(pos: nat)
    | Queued(pos: nat)
    | Released

  /** Where the polling worker is; `h` is the head it saw, `t` its own tail. */
  datatype Consumer =
    | Resting
    | Polling(h: nat, t: nat)
    | Got(h: nat, t: nat, k: nat)
    | Started(h: nat, t: nat, k: nat)
    | Clearing(h: nat, t: nat)
    | Leaving(t: nat)

  /**
   * Slots of all pools are numbered together. Head and tail count without wrapping;
   * `claims` lists who claimed each position, `log` what was taken out, in order.
   */
  datatype State = State(
    head: nat, tail: nat, entries: seq<nat>,
    free: set<nat>, st: seq<SlotState>, pcs: seq<Pc>, running: set<nat>,
    cons: Consumer,
    claims: seq<nat>, log: seq<nat>)
  {
    /** The worker's tail, and the first position it has not taken out. */
    function T(): nat { if cons.Resting? then tail else cons.t }

    function Base(): nat { if cons.Clearing? then cons.t + 1 else T() }
  }

  datatype Outcome = Sent | QueueFull | Refused

  datatype Act =
    | Claim(k: nat) | Publish(k: nat) | LoadHead(k: nat) | LoadTail(k: nat) | TakePosition(k: nat) | StoreEntry(k: nat)
    | Complete(k: nat) | Release(k: nat) | FreeBit(k: nat)
    | Poll | LoadEntry | TryStart | Dispatch(o: Outcome) | ClearEntry(stop: bool) | StoreTail

  predicate Enabled(s: State, a: Act) {
    match a
    case Claim(k) => k < |s.pcs| && s.pcs[k].Idle? && k in s.free
    case Publish(k) => k < |s.pcs| && s.pcs[k].Claimed?
    case LoadHead(k) => k < |s.pcs| && s.pcs[k].Published?
    case LoadTail(k) => k < |s.pcs| && s.pcs[k].HeadLoaded?
    case TakePosition(k) => k < |s.pcs| && s.pcs[k].Ready?
    case StoreEntry(k) => k < |s.pcs| && s.pcs[k].Positioned?
    case Complete(k) => k in s.running
    case Release(k) => k < |s.pcs| && k < |s.st| && s.pcs[k].Queued? && s.st[k].Completed?
    case FreeBit(k) => k < |s.pcs| && s.pcs[k].Released?
    case Poll => s.cons.Resting?
    case LoadEntry => s.cons.Polling?
    case TryStart => s.cons.Got?
    case Dispatch(_) => s.cons.Started?
    case ClearEntry(_) => s.cons.Clearing?
    case StoreTail => s.cons.Leaving?
  }

  /** Lengths that the steps need: `m` slots and a ring of `size`. */
  predicate Shaped(s: State, m: nat, size: nat) {
    |s.st| == |s.pcs| == m && |s.entries| == size > 0
  }

  function Moved(s: State, k: nat, pc: Pc): State
    requires k < |s.pcs|
  {
    s.(pcs := s.pcs[k := pc])
  }

  function SetState(s: State, k: nat, x: SlotState): State
    requires k < |s.st|
  {
    s.(st := s.st[k := x])
  }

  /** The wrapped difference is at least the ring size, also when the tail passed the loaded head. */
  predicate LooksFull(h: nat, tail: nat, size: nat) {
    h < tail || h - tail >= size
  }

  function Next(s: State, a: Act, m: nat, size: nat): State
    requires Shaped(s, m, size) && Enabled(s, a)
  {
    match a
    case Claim(k) => Moved(s, k, Claimed).(free := s.free - {k})
    case Publish(k) => SetState(Moved(s, k, Published), k, Submitted)
    case LoadHead(k) => Moved(s, k, HeadLoaded(s.head))
    case LoadTail(k) => Moved(s, k, if LooksFull(s.pcs[k].h, s.tail, size) then Published else Ready)
    case TakePosition(k) => Moved(s, k, Positioned(s.head)).(head := s.head + 1, claims := s.claims + [k])
    case StoreEntry(k) => Moved(s, k, Queued(s.pcs[k].pos)).(entries := s.entries[s.pcs[k].pos % size := k + 1])
    case Complete(k) => (if k < m then SetState(s, k, Completed) else s).(running := s.running - {k})
    case Release(k) => SetState(Moved(s, k, Released), k, Free)
    case FreeBit(k) => Moved(s, k, Idle).(free := s.free + {k})
    case Poll => s.(cons := Polling(s.head, s.tail))
    case LoadEntry =>
      var (h, t) := (s.cons.h, s.cons.t);
      var e := s.entries[t % size];
      s.(cons := if t == h || e == 0 then Leaving(t) else Got(h, t, e - 1))
    case TryStart =>
      var (h, t, k) := (s.cons.h, s.cons.t, s.cons.k);
      if k < m && s.st[k].Submitted? then SetState(s, k, InProgress).(cons := Started(h, t, k))
      else s.(cons := Clearing(h, t))
    case Dispatch(o) =>
      var (h, t, k) := (s.cons.h, s.cons.t, s.cons.k);
      (match o
       case Sent => s.(running := s.running + {k}, log := s.log + [k], cons := Clearing(h, t))
       case QueueFull => (if k < m then SetState(s, k, Submitted) else s).(cons := Leaving(t))
       case Refused => (if k < m then SetState(s, k, Completed) else s).(log := s.log + [k], cons := Clearing(h, t)))
    case ClearEntry(stop) =>
      var (h, t) := (s.cons.h, s.cons.t);
      s.(entries := s.entries[t % size := 0], cons := if stop then Leaving(t + 1) else Polling(h, t + 1))
    case StoreTail => s.(tail := s.cons.t, cons := Resting)
  }

  // ── The invariant ──

  /** A slot's state byte, free bit and position agree with where its backend is. */
  ghost predicate SlotOk(s: State, k: nat)
    requires k < |s.pcs| == |s.st|
  {
    && (k in s.free <==> s.pcs[k].Idle?)
    && (k in s.running ==> s.pcs[k].Queued? && s.pcs[k].pos < s.Base() && s.st[k].InProgress?)
    && match s.pcs[k]
       case Idle => s.st[k].Free?
       case Claimed => s.st[k].Free?
       case Released => s.st[k].Free?
       case Positioned(p) => s.st[k].Submitted? && s.Base() <= p && Claims(s, p, k)
       case Queued(p) => Claims(s, p, k) && QueuedOk(s, p, s.st[k], k in s.running)
       case _ => s.st[k].Submitted?
  }

  predicate Claims(s: State, p: nat, k: nat) {
    p < |s.claims| && s.claims[p] == k
  }

  /** A queued request is waiting, being started, with a worker, or done. */
  predicate QueuedOk(s: State, p: nat, x: SlotState, running: bool) {
    if p < s.Base() then (if running then x.InProgress? else x.Completed?)
    else if s.cons.Started? && p == s.cons.t then x.InProgress? && !running
    else x.Submitted? && !running
  }

  /** A position not yet taken out belongs to a slot that waits there; its entry is written or still zero. */
  ghost predicate PosOk(s: State, p: nat, size: nat)
    requires p < |s.claims| && |s.entries| == size > 0
  {
    var k := s.claims[p];
    && k < |s.pcs|
    && (s.pcs[k] == Positioned(p) || s.pcs[k] == Queued(p))
    && s.entries[p % size] == if s.pcs[k].Positioned? then 0 else k + 1
  }

  /** No position between the worker's tail and the head has entry `i`. */
  ghost predicate Outside(s: State, i: nat, size: nat)
    requires size > 0
  {
    forall p: nat {:trigger p % size} :: s.T() <= p < s.head ==> p % size != i
  }

  /** Every entry outside that window is zero. */
  ghost predicate OthersZero(s: State, size: nat)
    requires |s.entries| == size > 0
  {
    forall i: nat {:trigger s.entries[i]} :: i < size && Outside(s, i, size) ==> s.entries[i] == 0
  }

  ghost predicate ConsumerOk(s: State) {
    && s.tail <= s.T() <= s.Base() <= s.head == |s.claims|
    && |s.log| == s.Base() && s.log == s.claims[..s.Base()]
    && match s.cons
       case Polling(h, t) => t <= h <= s.head
       case Got(h, t, k) => t < h <= s.head && Claims(s, t, k) && k < |s.pcs| && s.pcs[k] == Queued(t)
       case Started(h, t, k) => t < h <= s.head && Claims(s, t, k) && k < |s.pcs| && s.pcs[k] == Queued(t)
       case Clearing(h, t) => t < h <= s.head
       case _ => true
  }

  /** The sizes for which nothing is lost: fewer slots than entries, or one of each. */
  predicate Fits(m: nat, size: nat) {
    m < size || (m == 1 && size == 1)
  }

  /** With one slot and one entry, the slot's own test for room is never out of date. */
  predicate RoomOk(s: State, m: nat, size: nat)
    requires |s.pcs| == m
  {
    m < size || (m == 1 && size == 1
                 && (s.pcs[0].HeadLoaded? ==> s.pcs[0].h == s.head)
                 && (s.pcs[0].Ready? ==> s.tail == s.head))
  }

  ghost predicate Inv(s: State, m: nat, size: nat) {
    && Shaped(s, m, size) && RoomOk(s, m, size)
    && ConsumerOk(s)
    && (forall k :: k in s.running ==> k < m)
    && (forall k {:trigger s.pcs[k]} :: 0 <= k < m ==> SlotOk(s, k))
    && (forall p {:trigger s.claims[p]} :: s.Base() <= p < s.head ==> PosOk(s, p, size))
    && OthersZero(s, size)
    && s.head - s.T() <= size
  }

  // ── Positions and slots ──

  /** Positions less than a ring apart have different entries. */
  lemma EntriesDiffer(p: nat, q: nat, size: nat)
    requires p != q && -(size as int) < p - q < size
    ensures p % size != q % size
  {
    var d: int := p / size - q / size;
    assert p == size * (p / size) + p % size && q == size * (q / size) + q % size;
    assert p - q == size * d + (p % size - q % size) by {
      assert size * d == size * (p / size) - size * (q / size);
    }
    MultipleIsFar(size, d);
  }

  /** The slots that wait at positions from `p` on: one each. */
  lemma Waiting(s: State, m: nat, size: nat, p: nat) returns (w: set<nat>)
    requires Inv(s, m, size) && s.Base() <= p <= s.head
    ensures |w| == s.head - p
    ensures forall k :: k in w ==> k < m && (s.pcs[k].Positioned? || s.pcs[k].Queued?) && s.pcs[k].pos >= p
    decreases s.head - p
  {
    if p == s.head {
      w := {};
    } else {
      var rest := Waiting(s, m, size, p + 1);
      assert PosOk(s, p, size);
      assert s.claims[p] !in rest;
      w := rest + {s.claims[p]};
    }
  }

  lemma SmallSet(w: set<nat>, m: nat)
    requires forall k :: k in w ==> k < m
    ensures |w| <= m
    decreases m
  {
    if m > 0 {
      SmallSet(w - {m - 1}, m - 1);
      assert |w| <= |w - {m - 1}| + 1;
    }
  }

  /** A slot that is ready to take a position has room in the ring. */
  lemma RoomInRing(s: State, m: nat, size: nat, k: nat)
    requires Inv(s, m, size) && k < m && s.pcs[k].Ready?
    ensures s.head - s.Base() < m && s.head - s.T() < size
  {
    var w := Waiting(s, m, size, s.Base());
    SmallSet(w + {k}, m);
    assert |w + {k}| == |w| + 1;
  }

  // ── Steps of one slot ──

  /** Entries outside the window stay zero if only entries inside it are written and it only grows. */
  lemma OthersStayZero(s: State, s1: State, size: nat)
    requires |s.entries| == size > 0 && OthersZero(s, size) && |s1.entries| == size
    requires s1.T() == s.T() && s.head <= s1.head
    requires forall i: nat {:trigger s1.entries[i]} :: i < size && Outside(s1, i, size) ==> s1.entries[i] == s.entries[i]
    ensures OthersZero(s1, size)
  {
    forall i: nat | i < size && Outside(s1, i, size) ensures s1.entries[i] == 0 {
      assert s1.entries[i] == s.entries[i];
      assert Outside(s, i, size);
    }
  }

  /** A slot that holds no waiting position moves; nothing else changes. */
  lemma SlotMoveKeeps(s: State, s1: State, m: nat, size: nat, k: nat)
    requires Inv(s, m, size) && k < m
    requires !s.pcs[k].Positioned? && (s.pcs[k].Queued? ==> s.pcs[k].pos < s.Base())
    requires s1 == s.(free := s1.free, st := s1.st, pcs := s1.pcs, running := s1.running)
    requires |s1.pcs| == m == |s1.st| && s1.pcs == s.pcs[k := s1.pcs[k]] && s1.st == s.st[k := s1.st[k]]
    requires forall j :: j != k ==> (j in s1.free <==> j in s.free) && (j in s1.running <==> j in s.running)
    requires SlotOk(s1, k) && RoomOk(s1, m, size)
    ensures Inv(s1, m, size)
  {
    hide OthersZero;
    forall j | 0 <= j < m ensures SlotOk(s1, j) {
      assert SlotOk(s, j);
    }
    forall p | s1.Base() <= p < s1.head ensures PosOk(s1, p, size) {
      assert PosOk(s, p, size);
    }
    OthersStayZero(s, s1, size);
  }

  lemma BackendKeeps(s: State, a: Act, m: nat, size: nat)
    requires Inv(s, m, size) && Enabled(s, a)
    requires a.Claim? || a.Publish? || a.LoadHead? || a.LoadTail? || a.Release? || a.FreeBit?
    ensures Inv(Next(s, a, m, size), m, size)
  {
    hide OthersZero, PosOk;
    assert SlotOk(s, a.k);
    SlotMoveKeeps(s, Next(s, a, m, size), m, size, a.k);
  }

  lemma CompleteKeeps(s: State, k: nat, m: nat, size: nat)
    requires Inv(s, m, size) && k in s.running
    ensures Inv(Next(s, Complete(k), m, size), m, size)
  {
    hide OthersZero, PosOk;
    assert SlotOk(s, k);
    SlotMoveKeeps(s, Next(s, Complete(k), m, size), m, size, k);
  }

  lemma TakeSlots(s: State, k: nat, m: nat, size: nat)
    requires Inv(s, m, size) && Enabled(s, TakePosition(k))
    ensures forall j :: 0 <= j < m ==> SlotOk(Next(s, TakePosition(k), m, size), j)
  {
    hide OthersZero, PosOk;
    var s1 := Next(s, TakePosition(k), m, size);
    assert SlotOk(s, k);
    forall j | 0 <= j < m ensures SlotOk(s1, j) {
      assert SlotOk(s, j);
    }
  }

  lemma FreshEntryIsZero(s: State, k: nat, m: nat, size: nat)
    requires Inv(s, m, size) && Enabled(s, TakePosition(k))
    ensures s.entries[s.head % size] == 0 && s.head - s.T() < size
  {
    hide SlotOk, PosOk;
    RoomInRing(s, m, size, k);
    var i := s.head % size;
    forall p: nat | s.T() <= p < s.head ensures p % size != i {
      EntriesDiffer(p, s.head, size);
    }
    assert OthersZero(s, size) && Outside(s, i, size);
    assert s.entries[i] == 0;
  }

  /** A new position: its entry is zero, and stays so until the backend writes it. */
  lemma TakePositionKeeps(s: State, k: nat, m: nat, size: nat)
    requires Inv(s, m, size) && Enabled(s, TakePosition(k))
    ensures Inv(Next(s, TakePosition(k), m, size), m, size)
  {
    hide OthersZero, SlotOk;
    var s1 := Next(s, TakePosition(k), m, size);
    TakeSlots(s, k, m, size);
    FreshEntryIsZero(s, k, m, size);
    forall p | s1.Base() <= p < s1.head ensures PosOk(s1, p, size) {
      assert p < s.head ==> PosOk(s, p, size);
    }
    OthersStayZero(s, s1, size);
  }

  /** Writing an entry: it was zero, so no unconsumed entry is overwritten. */
  lemma StoreKeeps(s: State, k: nat, m: nat, size: nat)
    requires Inv(s, m, size) && Enabled(s, StoreEntry(k))
    ensures s.entries[s.pcs[k].pos % size] == 0
    ensures Inv(Next(s, StoreEntry(k), m, size), m, size)
  {
    var s1 := Next(s, StoreEntry(k), m, size);
    var pos := s.pcs[k].pos;
    assert SlotOk(s, k);
    assert PosOk(s, pos, size);
    forall j | 0 <= j < m ensures SlotOk(s1, j) {
      assert SlotOk(s, j);
    }
    forall p | s1.Base() <= p < s1.head ensures PosOk(s1, p, size) {
      assert PosOk(s, p, size);
      if p != pos {
        EntriesDiffer(p, pos, size);
      }
    }
    hide OthersZero;
    assert !Outside(s1, pos % size, size);
    OthersStayZero(s, s1, size);
  }

  // ── Steps of the polling worker ──

  /** Only where the worker stands changed: no slot and no position notices. */
  lemma ConsumerMoveKeeps(s: State, s1: State, m: nat, size: nat)
    requires Inv(s, m, size) && s1 == s.(cons := s1.cons, tail := s1.tail)
    requires s1.T() == s.T() && s1.Base() == s.Base() && !s.cons.Started? && !s1.cons.Started? && ConsumerOk(s1) && RoomOk(s1, m, size)
    ensures Inv(s1, m, size)
  {
    hide OthersZero;
    forall j | 0 <= j < m ensures SlotOk(s1, j) {
      assert SlotOk(s, j);
    }
    forall p | s1.Base() <= p < s1.head ensures PosOk(s1, p, size) {
      assert PosOk(s, p, size);
    }
    OthersStayZero(s, s1, size);
  }

  lemma PollKeeps(s: State, m: nat, size: nat)
    requires Inv(s, m, size) && s.cons.Resting?
    ensures Inv(Next(s, Poll, m, size), m, size)
  {
    hide OthersZero, SlotOk, PosOk;
    ConsumerMoveKeeps(s, Next(s, Poll, m, size), m, size);
  }

  lemma StoreTailKeeps(s: State, m: nat, size: nat)
    requires Inv(s, m, size) && s.cons.Leaving?
    ensures Inv(Next(s, StoreTail, m, size), m, size)
  {
    hide OthersZero, SlotOk, PosOk;
    ConsumerMoveKeeps(s, Next(s, StoreTail, m, size), m, size);
  }

  /** A zero entry stops the poll; a written one is the request claimed at that position. */
  lemma LoadEntryKeeps(s: State, m: nat, size: nat)
    requires Inv(s, m, size) && s.cons.Polling?
    ensures Inv(Next(s, LoadEntry, m, size), m, size)
  {
    hide OthersZero, SlotOk;
    var t := s.cons.t;
    if t < s.cons.h {
      assert PosOk(s, t, size);
    }
    hide PosOk;
    ConsumerMoveKeeps(s, Next(s, LoadEntry, m, size), m, size);
  }

  /** The request at hand is always in the submitted state, so none is skipped. */
  lemma NeverSkips(s: State, m: nat, size: nat)
    requires Inv(s, m, size) && s.cons.Got?
    ensures s.cons.k < m && s.st[s.cons.k].Submitted?
  {
    assert SlotOk(s, s.cons.k);
  }

  /** The worker changes the state of the slot whose request it holds. */
  lemma HeldMoveKeeps(s: State, s1: State, m: nat, size: nat, k: nat)
    requires Inv(s, m, size) && (s.cons.Got? || s.cons.Started?) && k == s.cons.k
    requires s1 == s.(st := s1.st, running := s1.running, cons := s1.cons, log := s1.log)
    requires |s1.st| == m && s1.st == s.st[k := s1.st[k]]
    requires forall j :: j != k ==> (j in s1.running <==> j in s.running)
    requires s1.T() == s.T() && s1.Base() >= s.Base() && s1.Base() <= s.T() + 1
    requires s1.cons.Started? ==> s1.cons.t == s.cons.t
    requires ConsumerOk(s1) && SlotOk(s1, k)
    ensures Inv(s1, m, size)
  {
    hide OthersZero;
    assert SlotOk(s, k);
    forall j | 0 <= j < m ensures SlotOk(s1, j) {
      assert SlotOk(s, j);
    }
    forall p | s1.Base() <= p < s1.head ensures PosOk(s1, p, size) {
      assert PosOk(s, p, size);
    }
    OthersStayZero(s, s1, size);
  }

  lemma TryStartKeeps(s: State, m: nat, size: nat)
    requires Inv(s, m, size) && s.cons.Got?
    ensures Inv(Next(s, TryStart, m, size), m, size) && Next(s, TryStart, m, size).cons.Started?
  {
    hide OthersZero, PosOk;
    NeverSkips(s, m, size);
    assert SlotOk(s, s.cons.k);
    HeldMoveKeeps(s, Next(s, TryStart, m, size), m, size, s.cons.k);
  }

  /** Taking a request out, or putting it back when the dispatcher is full. */
  lemma DispatchKeeps(s: State, o: Outcome, m: nat, size: nat)
    requires Inv(s, m, size) && s.cons.Started?
    ensures Inv(Next(s, Dispatch(o), m, size), m, size)
  {
    hide OthersZero, PosOk;
    var s1 := Next(s, Dispatch(o), m, size);
    assert SlotOk(s, s.cons.k);
    assert s.claims[..s.cons.t + 1] == s.claims[..s.cons.t] + [s.claims[s.cons.t]];
    HeldMoveKeeps(s, s1, m, size, s.cons.k);
  }

  lemma ClearOthers(s: State, s1: State, size: nat)
    requires |s.entries| == size > 0 && OthersZero(s, size) && s1.head == s.head && s1.T() == s.T() + 1
    requires s1.entries == s.entries[s.T() % size := 0]
    ensures OthersZero(s1, size)
  {
    forall i: nat | i < size && Outside(s1, i, size) ensures s1.entries[i] == 0 {
      if i != s.T() % size {
        assert Outside(s, i, size);
        assert s.entries[i] == 0;
      }
    }
  }

  /** Clearing the entry of a request taken out touches no other request's entry. */
  lemma ClearEntryKeeps(s: State, stop: bool, m: nat, size: nat)
    requires Inv(s, m, size) && s.cons.Clearing?
    ensures Inv(Next(s, ClearEntry(stop), m, size), m, size)
  {
    hide OthersZero;
    var s1 := Next(s, ClearEntry(stop), m, size);
    forall j | 0 <= j < m ensures SlotOk(s1, j) {
      assert SlotOk(s, j);
    }
    forall p | s1.Base() <= p < s1.head ensures PosOk(s1, p, size) {
      assert PosOk(s, p, size);
      EntriesDiffer(p, s.cons.t, size);
    }
    ClearOthers(s, s1, size);
  }

  // ── Every step, every run ──

  lemma StepKeeps(s: State, a: Act, m: nat, size: nat)
    requires Inv(s, m, size) && Enabled(s, a)
    ensures Inv(Next(s, a, m, size), m, size)
  {
    hide ConsumerOk, SlotOk, PosOk, OthersZero, Next;
    match a
    case Complete(k) => CompleteKeeps(s, k, m, size);
    case TakePosition(k) => TakePositionKeeps(s, k, m, size);
    case StoreEntry(k) => StoreKeeps(s, k, m, size);
    case Poll => PollKeeps(s, m, size);
    case LoadEntry => LoadEntryKeeps(s, m, size);
    case TryStart => TryStartKeeps(s, m, size);
    case Dispatch(o) => DispatchKeeps(s, o, m, size);
    case ClearEntry(stop) => ClearEntryKeeps(s, stop, m, size);
    case StoreTail => StoreTailKeeps(s, m, size);
    case _ => BackendKeeps(s, a, m, size);
  }

  function AllSlots(m: nat): (r: set<nat>)
    ensures forall k: nat :: k in r <==> k < m
  {
    if m == 0 then {} else AllSlots(m - 1) + {m - 1}
  }

  /** All slots free, the ring empty. */
  function Start(m: nat, size: nat): State {
    State(0, 0, seq(size, _ => 0), AllSlots(m), seq(m, _ => Free), seq(m, _ => Idle), {}, Resting, [], [])
  }

  lemma StartOk(m: nat, size: nat)
    requires Fits(m, size)
    ensures Inv(Start(m, size), m, size)
  {
    var s := Start(m, size);
    forall k | 0 <= k < m ensures SlotOk(s, k) {
      assert k in s.free;
    }
  }

  /** The state after a run; steps that are not enabled do not happen. */
  ghost function After(acts: seq<Act>, m: nat, size: nat): State
    decreases |acts|
  {
    if acts == [] then
      Start(m, size)
    else
      var s := After(acts[..|acts| - 1], m, size);
      if Shaped(s, m, size) && Enabled(s, acts[|acts| - 1]) then Next(s, acts[|acts| - 1], m, size) else s
  }

  lemma {:induction false} RunKeepsInv(acts: seq<Act>, m: nat, size: nat)
    requires Fits(m, size)
    ensures Inv(After(acts, m, size), m, size)
    decreases |acts|
  {
    hide Inv, Enabled, Next, Start;
    if acts == [] {
      StartOk(m, size);
    } else {
      RunKeepsInv(acts[..|acts| - 1], m, size);
      var s := After(acts[..|acts| - 1], m, size);
      if Enabled(s, acts[|acts| - 1]) {
        StepKeeps(s, acts[|acts| - 1], m, size);
      }
    }
  }

  // ── What every interleaving guarantees ──

  /**
   * With fewer slots than ring entries (or one of each), in every interleaving: what was taken out is
   * exactly the first requests claimed, in claim order, each once; every later one
   * still waits, with its entry written or still to come.
   */
  lemma {:induction false} DeliveredInClaimOrder(acts: seq<Act>, m: nat, size: nat)
    requires Fits(m, size)
    ensures var s := After(acts, m, size);
            && |s.log| == s.Base() <= s.head == |s.claims| && s.log == s.claims[..|s.log|]
    ensures var s := After(acts, m, size);
            |s.entries| == size && forall p {:trigger s.claims[p]} :: |s.log| <= p < |s.claims| ==> PosOk(s, p, size)
  {
    hide After, PosOk;
    RunKeepsInv(acts, m, size);
    var s := After(acts, m, size);
    forall p | |s.log| <= p < |s.claims| ensures PosOk(s, p, size) {
      var _ := s.claims[p];
    }
  }

  /** No backend ever overwrites an entry that was not consumed. */
  lemma {:induction false} NeverOverwrites(acts: seq<Act>, m: nat, size: nat, k: nat)
    requires Fits(m, size) && Enabled(After(acts, m, size), StoreEntry(k))
    ensures var s := After(acts, m, size);
            |s.entries| == size && s.entries[s.pcs[k].pos % size] == 0
  {
    hide After;
    RunKeepsInv(acts, m, size);
    StoreKeeps(After(acts, m, size), k, m, size);
  }

  /** The worker never finds a request that is not ready to start. */
  lemma {:induction false} AlwaysStarts(acts: seq<Act>, m: nat, size: nat)
    requires Fits(m, size) && After(acts, m, size).cons.Got?
    ensures var s := After(acts, m, size);
            Shaped(s, m, size) && Next(s, TryStart, m, size).cons.Started?
  {
    hide After;
    RunKeepsInv(acts, m, size);
    TryStartKeeps(After(acts, m, size), m, size);
  }

  /** A full dispatcher loses nothing: the request waits at its position, submitted, its entry in place. */
  lemma {:induction false} FullDispatcherKeepsRequest(acts: seq<Act>, m: nat, size: nat)
    requires Fits(m, size) && After(acts, m, size).cons.Started?
    ensures var s := After(acts, m, size);
            Shaped(s, m, size) && var s1 := Next(s, Dispatch(QueueFull), m, size);
            && s1.log == s.log && s1.Base() == s.cons.t < s1.head == |s1.claims| && s1.claims[s.cons.t] == s.cons.k < m
            && s1.st[s.cons.k].Submitted? && s1.entries[s.cons.t % size] == s.cons.k + 1
  {
    hide After;
    RunKeepsInv(acts, m, size);
    var s := After(acts, m, size);
    assert PosOk(s, s.cons.t, size);
  }

  // ── Wrapping counters ──

  /** 32-bit counters give the same entry, and the same distance while it is below 2^32. */
  lemma WrappingAgrees(head: nat, tail: nat, pos: nat)
    requires tail <= head < tail + WORD
    ensures (head % WORD - tail % WORD + WORD) % WORD == head - tail
    ensures (pos % WORD) % 1024 == pos % 1024
  {
    assert pos == WORD * (pos / WORD) + pos % WORD;
    assert WORD == 1024 * 0x40_0000;
    assert pos == 1024 * (0x40_0000 * (pos / WORD)) + pos % WORD;
  }
}

/**
 * The spinning reader-writer lock as a step system: one atomic operation on the lock
 * word per step, any interleaving, weak exchanges that may fail for no reason.
 */
module RwLock {
  const EXCLUSIVE := -1
  const PENDING := 0x4000_0000

  // The bit operations of the code are this arithmetic on words that are not exclusive.

  lemma TestPendingBit(x: bv32)
    requires x < 0x8000_0000
    ensures x & 0x4000_0000 != 0 <==> x >= 0x4000_0000
  {
  }

  lemma SetPendingBit(x: bv32)
    requires x < 0x4000_0000
    ensures x | 0x4000_0000 == x + 0x4000_0000
  {
  }

  lemma MaskReaders(x: bv32)
    requires x < 0x4000_0000
    ensures x & 0x3FFF_FFFF == x && (x | 0x4000_0000) & 0x3FFF_FFFF == x
  {
  }

  predicate IsPending(w: int) {
    w >= PENDING
  }

  /** The low 30 bits. */
  function Count(w: int): int {
    if w >= PENDING then w - PENDING else w
  }

  /** Where a thread is in `read`, `write` or `try_write`, or which guard it holds. */
  datatype Pc =
    | Idle
    | ReadStart
    | ReadLoaded(s: int)
    | Reading
    | WriteStart
    | WriteFailed
    | WriteLoaded(s: int)
    | TryStart
    | Writing

  datatype State = State(word: int, pcs: map<nat, Pc>)

  /** What happens next; an exchange may fail even if the word is as expected. */
  datatype Act =
    | BeginRead(t: nat) | LoadForRead(t: nat) | ReadExchange(t: nat, spurious: bool)
    | BeginWrite(t: nat) | FirstExchange(t: nat, spurious: bool) | LoadForWrite(t: nat) | WriteExchange(t: nat, spurious: bool)
    | BeginTry(t: nat) | TryExchange(t: nat)
    | DropRead(t: nat) | DropWrite(t: nat)

  function At(s: State, t: nat): Pc {
    if t in s.pcs then s.pcs[t] else Idle
  }

  predicate Enabled(s: State, a: Act, n: nat) {
    && a.t < n
    && match a
       case BeginRead(t) => At(s, t).Idle?
       case LoadForRead(t) => At(s, t).ReadStart?
       case ReadExchange(t, _) => At(s, t).ReadLoaded?
       case BeginWrite(t) => At(s, t).Idle?
       case FirstExchange(t, _) => At(s, t).WriteStart?
       case LoadForWrite(t) => At(s, t).WriteFailed?
       case WriteExchange(t, _) => At(s, t).WriteLoaded?
       case BeginTry(t) => At(s, t).Idle?
       case TryExchange(t) => At(s, t).TryStart?
       case DropRead(t) => At(s, t).Reading?
       case DropWrite(t) => At(s, t).Writing?
  }

  function To(s: State, t: nat, pc: Pc): State {
    s.(pcs := s.pcs[t := pc])
  }

  /** Compare and exchange: `won` if the word was as expected, else `lost`. */
  function Exchange(s: State, t: nat, expected: int, desired: int, spurious: bool, won: Pc, lost: Pc): State {
    if s.word == expected && !spurious then State(desired, s.pcs[t := won]) else To(s, t, lost)
  }

  function Next(s: State, a: Act): State {
    match a
    case BeginRead(t) => To(s, t, ReadStart)
    case LoadForRead(t) => To(s, t, if s.word >= 0 && !IsPending(s.word) then ReadLoaded(s.word) else ReadStart)
    case ReadExchange(t, spurious) =>
      var l := At(s, t);
      if l.ReadLoaded? then Exchange(s, t, l.s, l.s + 1, spurious, Reading, ReadStart) else s
    case BeginWrite(t) => To(s, t, WriteStart)
    case FirstExchange(t, spurious) => Exchange(s, t, 0, EXCLUSIVE, spurious, Writing, WriteFailed)
    case LoadForWrite(t) =>
      var w := s.word;
      if w == EXCLUSIVE then To(s, t, WriteStart)
      else if !IsPending(w) || Count(w) == 0 then To(s, t, WriteLoaded(w))
      else To(s, t, WriteStart)
    case WriteExchange(t, spurious) =>
      var l := At(s, t);
      if !l.WriteLoaded? then s
      else if !IsPending(l.s) then Exchange(s, t, l.s, l.s + PENDING, spurious, WriteStart, WriteStart)
      else Exchange(s, t, PENDING, EXCLUSIVE, spurious, Writing, WriteStart)
    case BeginTry(t) => To(s, t, TryStart)
    case TryExchange(t) => Exchange(s, t, 0, EXCLUSIVE, false, Writing, Idle)
    case DropRead(t) => State(s.word - 1, s.pcs[t := Idle])
    case DropWrite(t) => State(0, s.pcs[t := Idle])
  }

  function Readers(s: State): set<nat> {
    set t | t in s.pcs && s.pcs[t].Reading?
  }

  function Writers(s: State): set<nat> {
    set t | t in s.pcs && s.pcs[t].Writing?
  }

  /** The word encodes who holds the lock: one writer alone, or exactly the readers. */
  ghost predicate Encodes(s: State) {
    if s.word == EXCLUSIVE then
      |Writers(s)| == 1 && Readers(s) == {}
    else
      && 0 <= s.word < 2 * PENDING && Writers(s) == {}
      && Count(s.word) == |Readers(s)|
  }

  /** What a thread may have loaded. */
  ghost predicate LoadsOk(s: State) {
    forall t {:trigger s.pcs[t]} :: t in s.pcs ==>
      && (s.pcs[t].ReadLoaded? ==> 0 <= s.pcs[t].s < PENDING)
      && (s.pcs[t].WriteLoaded? ==> 0 <= s.pcs[t].s <= PENDING)
  }

  ghost predicate Inv(s: State, n: nat) {
    (forall t :: t in s.pcs ==> t < n) && Encodes(s) && LoadsOk(s)
  }

  // ── Counting ──

  /** How one thread's move changes who reads. */
  lemma ReadersMove(s: State, s1: State, t: nat, pc: Pc)
    requires s1.pcs == s.pcs[t := pc]
    ensures Readers(s1) == if pc.Reading? then Readers(s) + {t} else Readers(s) - {t}
    ensures Writers(s1) == if pc.Writing? then Writers(s) + {t} else Writers(s) - {t}
  {
  }

  lemma Below(s: set<nat>, n: nat)
    requires forall x :: x in s ==> x < n
    ensures |s| <= n
    decreases n
  {
    if n > 0 {
      var rest := s - {n - 1};
      Below(rest, n - 1);
      assert s <= rest + {n - 1};
      Subset(s, rest + {n - 1});
    }
  }

  lemma Subset(a: set<nat>, b: set<nat>)
    requires a <= b
    ensures |a| <= |b|
  {
    assert b == a + (b - a);
  }

  /** A thread that is not among them is one too many for `n`. */
  lemma RoomForOne(s: set<nat>, t: nat, n: nat)
    requires (forall x :: x in s ==> x < n) && t < n && t !in s
    ensures |s| < n
  {
    Below(s + {t}, n);
    assert |s + {t}| == |s| + 1;
  }

  // ── Every step ──

  lemma StartOk(n: nat)
    ensures Inv(State(0, map[]), n)
  {
  }

  /** A move that changes neither the word nor who holds the lock. */
  lemma MoveKeeps(s: State, t: nat, pc: Pc, n: nat)
    requires Inv(s, n) && t < n && !At(s, t).Reading? && !At(s, t).Writing? && !pc.Reading? && !pc.Writing?
    requires (pc.ReadLoaded? ==> 0 <= pc.s < PENDING) && (pc.WriteLoaded? ==> 0 <= pc.s <= PENDING)
    ensures Inv(To(s, t, pc), n) && Readers(To(s, t, pc)) == Readers(s) && Writers(To(s, t, pc)) == Writers(s)
  {
    ReadersMove(s, To(s, t, pc), t, pc);
    assert t !in Readers(s) && t !in Writers(s);
  }

  /** A reader enters: the word counts one more. */
  lemma EnterRead(s: State, t: nat, n: nat)
    requires Inv(s, n) && t < n < PENDING && 0 <= s.word < PENDING && !At(s, t).Reading? && !At(s, t).Writing?
    ensures var s1 := State(s.word + 1, s.pcs[t := Reading]); Inv(s1, n) && Readers(s1) == Readers(s) + {t}
  {
    var s1 := State(s.word + 1, s.pcs[t := Reading]);
    ReadersMove(s, s1, t, Reading);
    assert t !in Readers(s) && t !in Writers(s);
    RoomForOne(Readers(s), t, n);
  }

  /** A writer enters: nobody held the lock. */
  lemma EnterWrite(s: State, t: nat, n: nat)
    requires Inv(s, n) && t < n && (s.word == 0 || s.word == PENDING) && !At(s, t).Reading? && !At(s, t).Writing?
    ensures var s1 := State(EXCLUSIVE, s.pcs[t := Writing]); Inv(s1, n) && Readers(s) == {} == Writers(s) && Readers(s1) == {}
  {
    var s1 := State(EXCLUSIVE, s.pcs[t := Writing]);
    ReadersMove(s, s1, t, Writing);
    assert Readers(s) == {};
    assert Writers(s1) == {t};
  }

  lemma SetPending(s: State, t: nat, n: nat)
    requires Inv(s, n) && t < n && 0 <= s.word < PENDING && !At(s, t).Reading? && !At(s, t).Writing?
    ensures var s1 := State(s.word + PENDING, s.pcs[t := WriteStart]); Inv(s1, n) && Readers(s1) == Readers(s)
  {
    var s1 := State(s.word + PENDING, s.pcs[t := WriteStart]);
    ReadersMove(s, s1, t, WriteStart);
    assert t !in Readers(s) && t !in Writers(s);
  }

  lemma LeaveRead(s: State, t: nat, n: nat)
    requires Inv(s, n) && t < n && At(s, t).Reading?
    ensures var s1 := State(s.word - 1, s.pcs[t := Idle]); Inv(s1, n) && Readers(s1) == Readers(s) - {t}
    ensures 1 <= Count(s.word)
  {
    var s1 := State(s.word - 1, s.pcs[t := Idle]);
    ReadersMove(s, s1, t, Idle);
    assert t in Readers(s);
    assert |Readers(s) - {t}| == |Readers(s)| - 1;
  }

  lemma LeaveWrite(s: State, t: nat, n: nat)
    requires Inv(s, n) && t < n && At(s, t).Writing?
    ensures var s1 := State(0, s.pcs[t := Idle]); Inv(s1, n) && Readers(s1) == {} && s.word == EXCLUSIVE
  {
    var s1 := State(0, s.pcs[t := Idle]);
    ReadersMove(s, s1, t, Idle);
    assert t in Writers(s);
    assert |Writers(s) - {t}| == 0;
  }

  /** With fewer than 2^30 threads every step keeps the encoding; while the pending bit is set no reader enters. */
  lemma StepKeeps(s: State, a: Act, n: nat)
    requires Inv(s, n) && Enabled(s, a, n) && n < PENDING
    ensures Inv(Next(s, a), n)
    ensures IsPending(s.word) ==> Readers(Next(s, a)) <= Readers(s)
  {
    hide Encodes, LoadsOk, Readers, Writers;
    var t := a.t;
    Loaded(s, t, n);
    match a
    case BeginRead(_) => MoveKeeps(s, t, ReadStart, n);
    case LoadForRead(_) => MoveKeeps(s, t, if s.word >= 0 && !IsPending(s.word) then ReadLoaded(s.word) else ReadStart, n);
    case ReadExchange(_, spurious) => {
      var l := At(s, t);
      if s.word == l.s && !spurious {
        EnterRead(s, t, n);
      } else {
        MoveKeeps(s, t, ReadStart, n);
      }
    }
    case BeginWrite(_) => MoveKeeps(s, t, WriteStart, n);
    case FirstExchange(_, spurious) => {
      if s.word == 0 && !spurious {
        EnterWrite(s, t, n);
      } else {
        MoveKeeps(s, t, WriteFailed, n);
      }
    }
    case LoadForWrite(_) =>
      MoveKeeps(s, t, if s.word != EXCLUSIVE && (!IsPending(s.word) || Count(s.word) == 0) then WriteLoaded(s.word) else WriteStart, n);
    case WriteExchange(_, spurious) => {
      var l := At(s, t);
      if !IsPending(l.s) && s.word == l.s && !spurious {
        SetPending(s, t, n);
      } else if IsPending(l.s) && s.word == PENDING && !spurious {
        EnterWrite(s, t, n);
      } else {
        MoveKeeps(s, t, WriteStart, n);
      }
    }
    case BeginTry(_) => MoveKeeps(s, t, TryStart, n);
    case TryExchange(_) => {
      if s.word == 0 {
        EnterWrite(s, t, n);
      } else {
        MoveKeeps(s, t, Idle, n);
      }
    }
    case DropRead(_) => LeaveRead(s, t, n);
    case DropWrite(_) => LeaveWrite(s, t, n);
  }

  lemma Loaded(s: State, t: nat, n: nat)
    requires Inv(s, n)
    ensures At(s, t).ReadLoaded? ==> 0 <= At(s, t).s < PENDING
    ensures At(s, t).WriteLoaded? ==> 0 <= At(s, t).s <= PENDING
    ensures s.word == EXCLUSIVE || 0 <= s.word < 2 * PENDING
  {
  }

  // ── Every run ──

  function After(acts: seq<Act>, n: nat): State
    decreases |acts|
  {
    if acts == [] then
      State(0, map[])
    else
      var s := After(acts[..|acts| - 1], n);
      if Enabled(s, acts[|acts| - 1], n) then Next(s, acts[|acts| - 1]) else s
  }

  lemma {:induction false} RunKeepsInv(acts: seq<Act>, n: nat)
    requires n < PENDING
    ensures Inv(After(acts, n), n)
    decreases |acts|
  {
    hide Inv, Enabled, Next;
    if acts == [] {
      StartOk(n);
    } else {
      RunKeepsInv(acts[..|acts| - 1], n);
      var s := After(acts[..|acts| - 1], n);
      if Enabled(s, acts[|acts| - 1], n) {
        StepKeeps(s, acts[|acts| - 1], n);
      }
    }
  }

  /** A writer is alone, and the word says who holds the lock. */
  ghost predicate Excludes(s: State) {
    && |Writers(s)| <= 1 && (Writers(s) != {} ==> Readers(s) == {})
    && (s.word == EXCLUSIVE <==> Writers(s) != {})
    && (s.word != EXCLUSIVE ==> 0 <= s.word && Count(s.word) == |Readers(s)|)
  }

  /** In every interleaving of fewer than 2^30 threads a writer is alone, and the word counts the readers. */
  lemma {:induction false} MutualExclusion(acts: seq<Act>, n: nat)
    requires n < PENDING
    ensures Excludes(After(acts, n))
  {
    hide After;
    RunKeepsInv(acts, n);
    var s := After(acts, n);
    if |Writers(s)| == 1 {
      assert Writers(s) != {};
    }
  }

  /** While a writer is pending the readers only leave, in every interleaving. */
  lemma {:induction false} PendingBlocksReaders(acts: seq<Act>, n: nat, a: Act)
    requires n < PENDING && IsPending(After(acts, n).word) && Enabled(After(acts, n), a, n)
    ensures Readers(Next(After(acts, n), a)) <= Readers(After(acts, n))
  {
    hide After;
    RunKeepsInv(acts, n);
    StepKeeps(After(acts, n), a, n);
  }

  // ── When the lock is granted ──

  /** Nobody holds the lock. */
  ghost predicate Unheld(s: State) {
    Readers(s) == {} && Writers(s) == {}
  }

  /** What the word says about the holders, in every reachable state. */
  lemma {:induction false} WordSays(acts: seq<Act>, n: nat)
    requires n < PENDING
    ensures var s := After(acts, n);
            && (s.word == 0 <==> Unheld(s) && !IsPending(s.word))
            && (s.word == PENDING <==> Unheld(s) && IsPending(s.word))
            && (s.word == EXCLUSIVE <==> Writers(s) != {})
            && (Writers(s) == {} && !IsPending(s.word) ==> s.word == |Readers(s)|)
            && (Writers(s) == {} && IsPending(s.word) ==> s.word == PENDING + |Readers(s)|)
  {
    hide After;
    MutualExclusion(acts, n);
    var s := After(acts, n);
    assert |Readers(s)| == 0 <==> Readers(s) == {};
  }

  /** `try_write` takes the lock if and only if nobody holds it and no writer waits; else it gives up. */
  lemma {:induction false} TryWriteIff(acts: seq<Act>, n: nat, t: nat)
    requires n < PENDING && Enabled(After(acts, n), TryExchange(t), n)
    ensures var (s, s1) := (After(acts, n), Next(After(acts, n), TryExchange(t)));
            && (t in Writers(s1) <==> Unheld(s) && !IsPending(s.word))
            && (t !in Writers(s1) ==> At(s1, t).Idle? && s1.word == s.word)
  {
    hide After;
    WordSays(acts, n);
  }

  /** The first exchange of `write` does the same, unless it fails for no reason; else the thread goes on. */
  lemma {:induction false} FirstExchangeIff(acts: seq<Act>, n: nat, t: nat)
    requires n < PENDING && Enabled(After(acts, n), FirstExchange(t, false), n)
    ensures var (s, s1) := (After(acts, n), Next(After(acts, n), FirstExchange(t, false)));
            && (t in Writers(s1) <==> Unheld(s) && !IsPending(s.word))
            && (t !in Writers(s1) ==> At(s1, t).WriteFailed? && s1.word == s.word)
  {
    hide After;
    WordSays(acts, n);
  }

  /**
   * A waiting writer that looks at the word goes on to an exchange if and only if there is
   * no writer and either nobody is pending yet or the last reader has left.
   */
  lemma {:induction false} LoadForWriteIff(acts: seq<Act>, n: nat, t: nat)
    requires n < PENDING && Enabled(After(acts, n), LoadForWrite(t), n)
    ensures var (s, s1) := (After(acts, n), Next(After(acts, n), LoadForWrite(t)));
            && (At(s1, t) == WriteLoaded(s.word) <==> Writers(s) == {} && (!IsPending(s.word) || Readers(s) == {}))
            && (At(s1, t) != WriteLoaded(s.word) ==> At(s1, t).WriteStart?)
            && s1.word == s.word
  {
    hide After;
    WordSays(acts, n);
    MutualExclusion(acts, n);
  }

  /**
   * Its exchange, when it does not fail for no reason: seen pending, it takes the lock if
   * and only if it is still pending and nobody holds it; seen not pending, it makes itself
   * pending if and only if nothing changed since, and never takes the lock.
   */
  lemma {:induction false} WriteExchangeIff(acts: seq<Act>, n: nat, t: nat)
    requires n < PENDING && Enabled(After(acts, n), WriteExchange(t, false), n)
    ensures var (s, s1) := (After(acts, n), Next(After(acts, n), WriteExchange(t, false)));
            var seen := At(s, t).s;
            if IsPending(seen) then t in Writers(s1) <==> Unheld(s) && IsPending(s.word)
            else t !in Writers(s1) && (IsPending(s1.word) <==> IsPending(s.word) || s.word == seen)
                 && Readers(s1) == Readers(s) && Writers(s1) == Writers(s)
  {
    hide After;
    WordSays(acts, n);
    RunKeepsInv(acts, n);
    Loaded(After(acts, n), t, n);
    var s := After(acts, n);
    ReadersMove(s, Next(s, WriteExchange(t, false)), t, At(Next(s, WriteExchange(t, false)), t));
  }

  /** A reader looks: it goes on if and only if there is no writer and none pending. */
  lemma {:induction false} LoadForReadIff(acts: seq<Act>, n: nat, t: nat)
    requires n < PENDING && Enabled(After(acts, n), LoadForRead(t), n)
    ensures var (s, s1) := (After(acts, n), Next(After(acts, n), LoadForRead(t)));
            && (At(s1, t).ReadLoaded? <==> Writers(s) == {} && !IsPending(s.word))
            && (At(s1, t).ReadLoaded? ==> At(s1, t).s == |Readers(s)|)
            && (!At(s1, t).ReadLoaded? ==> At(s1, t).ReadStart?) && s1.word == s.word
  {
    hide After;
    WordSays(acts, n);
    MutualExclusion(acts, n);
  }

  /** Its exchange takes the lock if and only if there is no writer, none pending, and as many readers as it saw. */
  lemma {:induction false} ReadExchangeIff(acts: seq<Act>, n: nat, t: nat)
    requires n < PENDING && Enabled(After(acts, n), ReadExchange(t, false), n)
    ensures var (s, s1) := (After(acts, n), Next(After(acts, n), ReadExchange(t, false)));
            && (t in Readers(s1) <==> Writers(s) == {} && !IsPending(s.word) && |Readers(s)| == At(s, t).s)
            && (t !in Readers(s1) ==> At(s1, t).ReadStart? && s1.word == s.word)
  {
    hide After;
    WordSays(acts, n);
    RunKeepsInv(acts, n);
    Loaded(After(acts, n), t, n);
    MutualExclusion(acts, n);
  }

  /** A release gives up just the holder's own share; the last writer or reader leaves the lock unheld. */
  lemma {:induction false} ReleaseFrees(acts: seq<Act>, n: nat, a: Act)
    requires n < PENDING && (a.DropRead? || a.DropWrite?) && Enabled(After(acts, n), a, n)
    ensures var (s, s1) := (After(acts, n), Next(After(acts, n), a));
            && Readers(s1) == Readers(s) - {a.t} && Writers(s1) == Writers(s) - {a.t} && At(s1, a.t).Idle?
            && (a.DropRead? ==> (IsPending(s1.word) <==> IsPending(s.word)))
            && (a.DropWrite? ==> Unheld(s1) && !IsPending(s1.word))
  {
    hide After;
    RunKeepsInv(acts, n);
    var s := After(acts, n);
    ReadersMove(s, Next(s, a), a.t, Idle);
    if a.DropRead? {
      LeaveRead(s, a.t, n);
    } else {
      LeaveWrite(s, a.t, n);
      OnlyWriter(s, a.t, n);
    }
  }

  lemma OnlyWriter(s: State, t: nat, n: nat)
    requires Inv(s, n) && t < n && At(s, t).Writing?
    ensures Writers(s) == {t} && Readers(s) == {}
  {
    assert t in Writers(s);
    if exists u :: u in Writers(s) && u != t {
      var u :| u in Writers(s) && u != t;
      Subset({t, u}, Writers(s));
    }
  }
}

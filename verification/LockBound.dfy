/**
 * How many threads are too many for the lock. 2^30 readers run into the pending bit: the
 * word then reads as no readers and a writer waiting, and a writer enters beside them.
 */
module LockBound {
  import opened RwLock

  ghost predicate Reachable(s: State, n: nat) {
    exists acts :: After(acts, n) == s
  }

  lemma {:induction false} Take(s: State, a: Act, n: nat) returns (s1: State)
    requires Reachable(s, n) && Enabled(s, a, n)
    ensures s1 == Next(s, a) && Reachable(s1, n)
  {
    hide Next, Enabled;
    var acts :| After(acts, n) == s;
    var more := acts + [a];
    assert more[..|more| - 1] == acts && more[|more| - 1] == a;
    s1 := Next(s, a);
    assert After(more, n) == s1;
  }

  function FirstThreads(k: nat): (r: set<nat>)
    ensures |r| == k && forall t: nat :: t in r <==> t < k
  {
    if k == 0 then {} else FirstThreads(k - 1) + {k - 1}
  }

  /** Threads below `k` read, and nobody else does anything. */
  function AllRead(k: nat): State {
    State(k, map t | t in FirstThreads(k) :: Reading)
  }

  lemma {:induction false} ReaderEnters(s0: State, r: nat, n: nat) returns (s: State)
    requires Reachable(s0, n) && 0 <= s0.word < PENDING && r !in s0.pcs && r < n
    ensures Reachable(s, n) && s == State(s0.word + 1, s0.pcs[r := Reading])
  {
    hide Reachable;
    s := Take(s0, BeginRead(r), n);
    s := Take(s, LoadForRead(r), n);
    s := Take(s, ReadExchange(r, false), n);
  }

  lemma AllReadNext(k: nat)
    ensures k !in AllRead(k).pcs && AllRead(k + 1).pcs == AllRead(k).pcs[k := Reading]
  {
    assert FirstThreads(k + 1) == FirstThreads(k) + {k};
  }

  /** The first `k` threads enter one after the other, up to the pending bit. */
  lemma {:induction false} ReadersEnter(k: nat, n: nat)
    requires k <= n && k <= PENDING
    ensures Reachable(AllRead(k), n)
    decreases k
  {
    hide Reachable, FirstThreads;
    if k == 0 {
      Empty(n);
    } else {
      ReadersEnter(k - 1, n);
      AllReadNext(k - 1);
      var s := ReaderEnters(AllRead(k - 1), k - 1, n);
    }
  }

  lemma {:induction false} Empty(n: nat)
    ensures Reachable(AllRead(0), n)
  {
    assert AllRead(0).pcs == map[];
    assert After([], n) == AllRead(0);
  }

  lemma ReadersAre(k: nat)
    ensures Readers(AllRead(k)) == FirstThreads(k) && |Readers(AllRead(k))| == k
    ensures k !in AllRead(k).pcs
  {
  }

  /** A word that reads as no readers and a writer waiting admits a writer. */
  lemma {:induction false} WriterEnters(s0: State, w: nat, n: nat) returns (s: State)
    requires Reachable(s0, n) && s0.word == PENDING && w !in s0.pcs && w < n
    ensures Reachable(s, n) && s == State(EXCLUSIVE, s0.pcs[w := Writing])
    ensures Readers(s) == Readers(s0) && w in Writers(s)
  {
    hide Reachable;
    s := Take(s0, BeginWrite(w), n);
    s := Take(s, FirstExchange(w, false), n);
    s := Take(s, LoadForWrite(w), n);
    s := Take(s, WriteExchange(w, false), n);
  }

  /** With more than 2^30 threads a writer is admitted beside 2^30 readers. */
  lemma {:induction false} WriterBesideReaders(k: nat, n: nat) returns (s: State)
    requires k == PENDING < n
    ensures Reachable(s, n) && |Readers(s)| == PENDING && Writers(s) != {}
  {
    hide Reachable, FirstThreads;
    ReadersEnter(k, n);
    ReadersAre(k);
    s := WriterEnters(AllRead(k), k, n);
  }

  /** With 2^30 readers the word reads as none. */
  lemma {:induction false} FullCountBreaks(k: nat, n: nat) returns (s: State)
    requires k == PENDING <= n
    ensures Reachable(s, n) && !Excludes(s)
  {
    hide Reachable, FirstThreads;
    ReadersEnter(k, n);
    ReadersAre(k);
    s := AllRead(k);
  }

  /** The exact bound: every interleaving of `n` threads keeps the lock sound if and only if `n < 2^30`. */
  lemma {:induction false} MutualExclusionIff(n: nat)
    ensures (forall acts :: Excludes(After(acts, n))) <==> n < PENDING
  {
    hide After, Excludes;
    if n < PENDING {
      forall acts ensures Excludes(After(acts, n)) {
        MutualExclusion(acts, n);
      }
    } else {
      var s := FullCountBreaks(PENDING, n);
      var acts :| After(acts, n) == s;
      assert !Excludes(After(acts, n));
    }
  }
}

/** How much of the WAL the archive covers without a gap, up to its newest segment. */
module WalCoverage {
  import opened Types
  import opened WalArchive

  /** Coverage of one segment: the LSNs from `lo` up to `hi`. */
  datatype SegEntry = SegEntry(no: nat, lo: nat, hi: nat, full: bool)

  /** Coverage stays inside its segment, and segments are listed once. */
  ghost predicate WellFormed(es: seq<SegEntry>) {
    && (forall i :: 0 <= i < |es| ==> es[i].no * XLOG_SEG_SIZE <= es[i].lo <= es[i].hi <= (es[i].no + 1) * XLOG_SEG_SIZE)
    && (forall i, j :: 0 <= i < j < |es| ==> es[i].no != es[j].no)
  }

  ghost predicate Covered(es: seq<SegEntry>, lsn: int) {
    exists i :: 0 <= i < |es| && es[i].lo <= lsn < es[i].hi
  }

  ghost predicate Highest(es: seq<SegEntry>, e: SegEntry) {
    e in es && forall i :: 0 <= i < |es| ==> es[i].no <= e.no
  }

  /** The run ends with the highest segment, has no gap, and is as long as that allows. */
  ghost predicate IsRun(es: seq<SegEntry>, lo: nat, hi: nat) {
    && (exists e :: Highest(es, e) && e.hi == hi)
    && lo <= hi
    && (forall x {:trigger Covered(es, x)} :: lo <= x < hi ==> Covered(es, x))
    && !Covered(es, lo - 1)
  }

  /** No entry covers anything above the highest segment's end. */
  lemma NothingAbove(es: seq<SegEntry>, e: SegEntry, x: int)
    requires WellFormed(es) && Highest(es, e) && Covered(es, x)
    ensures x < e.hi
  {
    var i :| 0 <= i < |es| && es[i].lo <= x < es[i].hi;
    var j :| 0 <= j < |es| && es[j] == e;
    if i != j {
      assert es[i].no < e.no;
    }
  }

  /** The three conditions leave one range, whatever the order of the entries. */
  lemma RunIsUnique(es: seq<SegEntry>, lo1: nat, hi1: nat, lo2: nat, hi2: nat)
    requires WellFormed(es) && IsRun(es, lo1, hi1) && IsRun(es, lo2, hi2)
    ensures lo1 == lo2 && hi1 == hi2
  {
    assert lo1 < lo2 <= hi1 ==> Covered(es, lo2 - 1);
    assert lo2 < lo1 <= hi2 ==> Covered(es, lo1 - 1);
  }

  // ── The scan from the highest segment down ──

  ghost predicate Descending(es: seq<SegEntry>) {
    forall i, j :: 0 <= i < j < |es| ==> es[i].no >= es[j].no
  }

  lemma SameEntries(a: seq<SegEntry>, b: seq<SegEntry>, e: SegEntry)
    requires multiset(a) == multiset(b)
    ensures e in a <==> e in b
  {
    assert e in a <==> e in multiset(a);
    assert e in b <==> e in multiset(b);
  }

  lemma CoveredByEntry(es: seq<SegEntry>, x: int)
    ensures Covered(es, x) <==> exists e :: e in es && e.lo <= x < e.hi
  {
  }

  lemma SameCoverage(a: seq<SegEntry>, b: seq<SegEntry>, x: int)
    requires multiset(a) == multiset(b)
    ensures Covered(a, x) <==> Covered(b, x)
  {
    CoveredByEntry(a, x);
    CoveredByEntry(b, x);
    forall e ensures e in a <==> e in b {
      SameEntries(a, b, e);
    }
  }

  lemma SameWellFormed(a: seq<SegEntry>, b: seq<SegEntry>)
    requires multiset(a) == multiset(b) && WellFormed(a)
    ensures WellFormed(b)
  {
    forall i | 0 <= i < |b| ensures b[i] in a {
      SameEntries(a, b, b[i]);
    }
    forall i, j | 0 <= i < j < |b| ensures b[i].no != b[j].no {
      if b[i].no == b[j].no {
        var p :| 0 <= p < |a| && a[p] == b[i];
        var q :| 0 <= q < |a| && a[q] == b[j];
        TwiceIn(b, i, j);
        OnceIn(a, p);
      }
    }
  }

  lemma TwiceIn(b: seq<SegEntry>, i: nat, j: nat)
    requires i < j < |b| && b[i] == b[j]
    ensures multiset(b)[b[i]] >= 2
  {
    assert b == b[..j] + [b[j]] + b[j + 1..];
    assert b[..j][i] == b[i];
    assert b[i] in multiset(b[..j]);
  }

  lemma OnceIn(a: seq<SegEntry>, p: nat)
    requires WellFormed(a) && p < |a|
    ensures multiset(a)[a[p]] == 1
  {
    assert a == a[..p] + [a[p]] + a[p + 1..];
    assert a[p] !in a[..p] && a[p] !in a[p + 1..];
    assert multiset(a) == multiset(a[..p]) + multiset([a[p]]) + multiset(a[p + 1..]);
  }

  lemma InsertKeeps(s: seq<SegEntry>, i: nat, e: SegEntry)
    requires Descending(s) && i <= |s|
    requires forall j :: 0 <= j < i ==> s[j].no >= e.no
    requires i < |s| ==> s[i].no < e.no
    ensures Descending(s[..i] + [e] + s[i..])
  {
    var t := s[..i] + [e] + s[i..];
    forall p, q | 0 <= p < q < |t| ensures t[p].no >= t[q].no {
      InsertedAt(s, i, e, p);
      InsertedAt(s, i, e, q);
      assert i < q - 1 ==> s[i].no >= s[q - 1].no;
    }
  }

  lemma InsertedAt(s: seq<SegEntry>, i: nat, e: SegEntry, j: nat)
    requires i <= |s| && j <= |s|
    ensures (s[..i] + [e] + s[i..])[j] == if j < i then s[j] else if j == i then e else s[j - 1]
  {
  }

  method Insert(s: seq<SegEntry>, e: SegEntry) returns (t: seq<SegEntry>)
    requires Descending(s)
    ensures multiset(t) == multiset(s) + multiset{e} && Descending(t)
  {
    var i := 0;
    while i < |s| && s[i].no >= e.no
      invariant 0 <= i <= |s|
      invariant forall j :: 0 <= j < i ==> s[j].no >= e.no
    {
      i := i + 1;
    }
    InsertKeeps(s, i, e);
    assert s == s[..i] + s[i..];
    t := s[..i] + [e] + s[i..];
  }

  /** The library sort, by segment number downwards. */
  method SortDescending(es: seq<SegEntry>) returns (s: seq<SegEntry>)
    ensures multiset(s) == multiset(es) && Descending(s)
  {
    s := [];
    var n := 0;
    while n < |es|
      invariant 0 <= n <= |es| && Descending(s)
      invariant multiset(s) == multiset(es[..n])
    {
      s := Insert(s, es[n]);
      assert es[..n + 1] == es[..n] + [es[n]];
      n := n + 1;
    }
    assert es[..n] == es;
  }

  /** Where the scan stands: `lo` is the front of entry `idx - 1`, and nothing up to the end is missing. */
  ghost predicate Scanned(s: seq<SegEntry>, idx: nat, lo: nat, hi: nat) {
    && 1 <= idx <= |s| && lo == s[idx - 1].lo <= hi == s[0].hi
    && forall x {:trigger Covered(s, x)} :: lo <= x < hi ==> Covered(s, x)
  }

  /** One more segment joins the run. */
  lemma ScanStep(s: seq<SegEntry>, idx: nat, lo: nat, hi: nat)
    requires WellFormed(s) && Scanned(s, idx, lo, hi) && idx < |s| && s[idx].hi == lo
    ensures Scanned(s, idx + 1, s[idx].lo, hi)
  {
    forall x | s[idx].lo <= x < hi ensures Covered(s, x) {
    }
  }

  /** A byte outside of an entry, but in its segment, has no other entry. */
  lemma OnlyOwnSegment(s: seq<SegEntry>, j: nat, x: int)
    requires WellFormed(s) && j < |s|
    requires s[j].no * XLOG_SEG_SIZE <= x < (s[j].no + 1) * XLOG_SEG_SIZE && !(s[j].lo <= x < s[j].hi)
    ensures !Covered(s, x)
  {
    forall i | 0 <= i < |s| ensures !(s[i].lo <= x < s[i].hi) {
      if i != j {
        assert s[i].no != s[j].no;
      }
    }
  }

  /** Wherever the scan stops, the byte below is not covered. */
  lemma ScanStops(s: seq<SegEntry>, idx: nat)
    requires WellFormed(s) && Descending(s) && 1 <= idx <= |s|
    requires var cur := s[idx - 1];
             cur.no == 0 || cur.lo != cur.no * XLOG_SEG_SIZE || idx == |s|
             || s[idx].no != cur.no - 1 || s[idx].hi != cur.lo
    ensures !Covered(s, s[idx - 1].lo - 1)
  {
    var cur := s[idx - 1];
    if cur.lo != cur.no * XLOG_SEG_SIZE {
      OnlyOwnSegment(s, idx - 1, cur.lo - 1);
    } else if cur.no > 0 && idx < |s| && s[idx].no == cur.no - 1 {
      OnlyOwnSegment(s, idx, cur.lo - 1);
    } else {
      forall i | 0 <= i < |s| ensures !(s[i].lo <= cur.lo - 1 < s[i].hi) {
        if i >= idx {
          assert s[i].no <= s[idx].no && s[idx].no < cur.no;
        }
        if i < idx - 1 {
          assert s[i].no >= cur.no;
        }
      }
    }
  }

  lemma ScanIsRun(es: seq<SegEntry>, s: seq<SegEntry>, idx: nat, lo: nat, hi: nat)
    requires multiset(s) == multiset(es) && WellFormed(s) && Descending(s) && Scanned(s, idx, lo, hi)
    requires !Covered(s, lo - 1)
    ensures IsRun(es, lo, hi)
  {
    SameEntries(s, es, s[0]);
    forall i | 0 <= i < |es| ensures es[i].no <= s[0].no {
      SameEntries(s, es, es[i]);
    }
    assert Highest(es, s[0]);
    forall x ensures Covered(s, x) <==> Covered(es, x) {
      SameCoverage(s, es, x);
    }
  }

  /** Entries come in any order. */
  method WalContiguousRun(es: seq<SegEntry>) returns (r: Option<(nat, nat)>)
    ensures r.None? <==> es == []
    ensures r.Some? && WellFormed(es) ==> IsRun(es, r.value.0, r.value.1)
  {
    var s := SortDescending(es);
    assert |s| == |multiset(s)| && |es| == |multiset(es)|;
    if s == [] {
      return None;
    }
    if WellFormed(es) {
      SameWellFormed(es, s);
    }
    var lo, hi, cur, idx := s[0].lo, s[0].hi, s[0], 1;
    while true
      invariant 1 <= idx <= |s| && cur == s[idx - 1] && lo == cur.lo
      invariant WellFormed(es) ==> Scanned(s, idx, lo, hi)
      decreases |s| - idx
    {
      if cur.no == 0 || cur.lo != cur.no * XLOG_SEG_SIZE || idx == |s| {
        break;
      }
      var next := s[idx];
      if next.no != cur.no - 1 || next.hi != cur.lo {
        break;
      }
      if WellFormed(es) {
        ScanStep(s, idx, lo, hi);
      }
      lo, cur, idx := next.lo, next, idx + 1;
    }
    if WellFormed(es) {
      ScanStops(s, idx);
      ScanIsRun(es, s, idx, lo, hi);
    }
    return Some((lo, hi));
  }

  // ── The entries, from a listing of the archive ──

  datatype Key = Sealed(no: nat) | Chunk(no: nat, off: nat)

  /** `keys` lists the archive, in some order. */
  ghost predicate Listing(a: Archive, keys: seq<Key>) {
    && (forall g: nat {:trigger Sealed(g)} :: g in a.sealed <==> Sealed(g) in keys)
    && (forall g: nat, o: nat {:trigger Chunk(g, o)} :: (g, o) in a.chunks <==> Chunk(g, o) in keys)
  }

  /** What the listing showed of one segment so far. */
  datatype Acc = Acc(isSealed: bool, minOff: Option<nat>, maxOff: Option<nat>)

  ghost predicate AccOk(keys: seq<Key>, g: nat, acc: Acc) {
    && (acc.isSealed <==> Sealed(g) in keys)
    && (acc.minOff.None? <==> acc.maxOff.None?)
    && (acc.minOff.Some? ==> Chunk(g, acc.minOff.value) in keys && Chunk(g, acc.maxOff.value) in keys)
    && (forall o: nat {:trigger Chunk(g, o)} :: Chunk(g, o) in keys ==>
          acc.minOff.Some? && acc.minOff.value <= o <= acc.maxOff.value)
    && (acc.isSealed || acc.minOff.Some?)
  }

  function Note(acc: Acc, k: Key): Acc {
    match k
    case Sealed(_) => acc.(isSealed := true)
    case Chunk(_, o) =>
      acc.(minOff := Some(if acc.minOff.Some? && acc.minOff.value < o then acc.minOff.value else o),
           maxOff := Some(if acc.maxOff.Some? && acc.maxOff.value > o then acc.maxOff.value else o))
  }

  ghost predicate AccsOk(keys: seq<Key>, segs: map<nat, Acc>) {
    && (forall g {:trigger segs[g]} :: g in segs ==> AccOk(keys, g, segs[g]))
    && (forall k {:trigger k in keys} :: k in keys ==> k.no in segs)
  }

  lemma NoteKeeps(keys: seq<Key>, segs: map<nat, Acc>, k: Key)
    requires AccsOk(keys, segs)
    ensures var acc := if k.no in segs then segs[k.no] else Acc(false, None, None);
            AccsOk(keys + [k], segs[k.no := Note(acc, k)])
  {
    var acc := if k.no in segs then segs[k.no] else Acc(false, None, None);
    var segs1 := segs[k.no := Note(acc, k)];
    forall g | g in segs1 ensures AccOk(keys + [k], g, segs1[g]) {
      NoteOne(keys, segs, k, g);
    }
  }

  lemma NoteOne(keys: seq<Key>, segs: map<nat, Acc>, k: Key, g: nat)
    requires AccsOk(keys, segs) && (g == k.no || g in segs)
    ensures var acc := if k.no in segs then segs[k.no] else Acc(false, None, None);
            AccOk(keys + [k], g, if g == k.no then Note(acc, k) else segs[g])
  {
    forall x ensures x in keys + [k] <==> x in keys || x == k {
    }
  }

  method CollectSegments(keys: seq<Key>) returns (segs: map<nat, Acc>)
    ensures AccsOk(keys, segs)
  {
    hide AccsOk;
    segs := map[];
    EmptyAccs();
    var n := 0;
    assert keys[..0] == [];
    while n < |keys|
      invariant 0 <= n <= |keys| && AccsOk(keys[..n], segs)
    {
      var k := keys[n];
      NoteKeeps(keys[..n], segs, k);
      assert keys[..n + 1] == keys[..n] + [k];
      segs := segs[k.no := Note(if k.no in segs then segs[k.no] else Acc(false, None, None), k)];
      n := n + 1;
    }
    assert keys[..n] == keys;
  }

  lemma EmptyAccs()
    ensures AccsOk([], map[])
  {
  }

  /** The whole segment if it is sealed, else from its first chunk to the end of its last one. */
  ghost predicate IsEntry(a: Archive, e: SegEntry) {
    if e.no in a.sealed then e == SegEntry(e.no, e.no * XLOG_SEG_SIZE, (e.no + 1) * XLOG_SEG_SIZE, true)
    else exists m, n :: FirstChunk(a, e.no, m) && LastChunk(a, e.no, n)
                     && e == SegEntry(e.no, e.no * XLOG_SEG_SIZE + m, e.no * XLOG_SEG_SIZE + n + |a.chunks[(e.no, n)]|, false)
  }

  ghost predicate FirstChunk(a: Archive, g: nat, m: nat) {
    (g, m) in a.chunks && forall o: nat {:trigger (g, o) in a.chunks} :: (g, o) in a.chunks ==> m <= o
  }

  ghost predicate LastChunk(a: Archive, g: nat, n: nat) {
    (g, n) in a.chunks && forall o: nat {:trigger (g, o) in a.chunks} :: (g, o) in a.chunks ==> o <= n
  }

  ghost predicate HasSegment(a: Archive, g: nat) {
    g in a.sealed || exists o: nat :: (g, o) in a.chunks
  }

  ghost predicate Distinct(es: seq<SegEntry>) {
    forall i, j :: 0 <= i < j < |es| ==> es[i].no != es[j].no
  }

  /** One entry for each archived segment. */
  ghost predicate EntriesOf(a: Archive, es: seq<SegEntry>) {
    && Distinct(es)
    && (forall i :: 0 <= i < |es| ==> HasSegment(a, es[i].no) && IsEntry(a, es[i]))
    && (forall g: nat {:trigger HasSegment(a, g)} :: HasSegment(a, g) ==> exists i :: 0 <= i < |es| && es[i].no == g)
  }

  /** The entry of one segment; the length of its last chunk is fetched. */
  method EntryOf(a: Archive, ghost keys: seq<Key>, g: nat, acc: Acc) returns (e: SegEntry)
    requires Listing(a, keys) && AccOk(keys, g, acc)
    ensures e.no == g && IsEntry(a, e) && HasSegment(a, g)
  {
    if acc.isSealed {
      return SegEntry(g, g * XLOG_SEG_SIZE, (g + 1) * XLOG_SEG_SIZE, true);
    }
    var m, n := acc.minOff.value, acc.maxOff.value;
    assert Chunk(g, m) in keys && Chunk(g, n) in keys && Sealed(g) !in keys;
    forall o: nat | (g, o) in a.chunks ensures m <= o <= n {
      assert Chunk(g, o) in keys;
    }
    assert FirstChunk(a, g, m) && LastChunk(a, g, n);
    return SegEntry(g, g * XLOG_SEG_SIZE + m, g * XLOG_SEG_SIZE + n + |a.chunks[(g, n)]|, false);
  }

  /** One entry for each segment of `done`. */
  ghost predicate EntriesSoFar(a: Archive, done: set<nat>, es: seq<SegEntry>) {
    && Distinct(es)
    && (forall i :: 0 <= i < |es| ==> es[i].no in done && HasSegment(a, es[i].no) && IsEntry(a, es[i]))
    && (forall g {:trigger g in done} :: g in done ==> exists i :: 0 <= i < |es| && es[i].no == g)
  }

  lemma AddEntry(a: Archive, done: set<nat>, es: seq<SegEntry>, e: SegEntry)
    requires EntriesSoFar(a, done, es) && e.no !in done && HasSegment(a, e.no) && IsEntry(a, e)
    ensures EntriesSoFar(a, done + {e.no}, es + [e])
  {
    hide HasSegment, IsEntry;
    var more := es + [e];
    forall g | g in done + {e.no} ensures exists i :: 0 <= i < |more| && more[i].no == g {
      if g in done {
        var i :| 0 <= i < |es| && es[i].no == g;
        assert more[i].no == g;
      } else {
        assert more[|es|].no == g;
      }
    }
  }

  lemma AllListed(a: Archive, keys: seq<Key>, segs: map<nat, Acc>, es: seq<SegEntry>)
    requires Listing(a, keys) && AccsOk(keys, segs) && EntriesSoFar(a, segs.Keys, es)
    ensures EntriesOf(a, es)
    ensures es == [] <==> keys == []
  {
    hide IsEntry, AccOk;
    forall g: nat | HasSegment(a, g) ensures g in segs {
      HasKey(a, keys, g);
    }
    if keys != [] {
      assert keys[0] in keys;
      assert keys[0].no in segs.Keys;
    }
    if es != [] {
      HasKey(a, keys, es[0].no);
    }
  }

  lemma HasKey(a: Archive, keys: seq<Key>, g: nat)
    requires Listing(a, keys) && HasSegment(a, g)
    ensures exists k :: k in keys && k.no == g
  {
    if g in a.sealed {
      assert Sealed(g) in keys;
    } else {
      var o: nat :| (g, o) in a.chunks;
      assert Chunk(g, o) in keys;
    }
  }

  /** Archived coverage of a timeline; none exactly for an empty archive. */
  method ArchivedWalRun(a: Archive, keys: seq<Key>) returns (r: Option<(nat, nat)>, ghost es: seq<SegEntry>)
    requires Listing(a, keys)
    ensures EntriesOf(a, es)
    ensures r.None? <==> keys == []
    ensures r.Some? && WellFormed(es) ==> IsRun(es, r.value.0, r.value.1)
  {
    var segs := CollectSegments(keys);
    var entries := [];
    var todo := segs.Keys;
    while todo != {}
      invariant todo <= segs.Keys && EntriesSoFar(a, segs.Keys - todo, entries)
      decreases todo
    {
      var g :| g in todo;
      var e := EntryOf(a, keys, g, segs[g]);
      AddEntry(a, segs.Keys - todo, entries, e);
      assert segs.Keys - (todo - {g}) == segs.Keys - todo + {g};
      entries, todo := entries + [e], todo - {g};
    }
    assert segs.Keys - todo == segs.Keys;
    AllListed(a, keys, segs, entries);
    es := entries;
    r := WalContiguousRun(entries);
  }

  // ── The run of an archive that one connection left ──

  /** A stored chunk is a part of the stream inside its segment. */
  lemma ChunkInStream(s: Stream, a: Archive, g: nat, o: nat)
    requires AllTrue(s, a) && (g, o) in a.chunks
    ensures s.start <= g * XLOG_SEG_SIZE + o && g * XLOG_SEG_SIZE + o + |a.chunks[(g, o)]| <= s.End()
    ensures |a.chunks[(g, o)]| > 0 && o + |a.chunks[(g, o)]| <= XLOG_SEG_SIZE
  {
    assert IsAt(s, a.chunks[(g, o)], g * XLOG_SEG_SIZE + o);
  }

  /** Chunks of one segment are disjoint, so the last one ends last. */
  lemma EndsByLast(s: Stream, a: Archive, g: nat, o: nat, n: nat)
    requires AllTrue(s, a) && OnGrid(s, a) && (g, o) in a.chunks && LastChunk(a, g, n)
    ensures o + |a.chunks[(g, o)]| <= n + |a.chunks[(g, n)]|
  {
    ChunkInStream(s, a, g, n);
    var k := (g, o);
    assert |a.chunks[k]| <= CHUNK_BYTES && GridPoint(s, g, o);
    if o < n {
      GridGap(o - FrontOf(s, g), n - FrontOf(s, g));
    }
  }

  lemma GridGap(x: int, y: int)
    requires x % CHUNK_BYTES == 0 && y % CHUNK_BYTES == 0 && x < y
    ensures x + CHUNK_BYTES <= y
  {
  }

  /** An entry is exactly what was received of its segment, and not empty. */
  lemma EntryIsExact(s: Stream, a: Archive, e: SegEntry)
    requires AllTrue(s, a) && ArchivedTo(s, a, s.End()) && OnGrid(s, a) && HasSegment(a, e.no) && IsEntry(a, e)
    ensures e.no * XLOG_SEG_SIZE <= e.lo < e.hi <= (e.no + 1) * XLOG_SEG_SIZE
    ensures forall x :: e.no * XLOG_SEG_SIZE <= x < (e.no + 1) * XLOG_SEG_SIZE ==> (s.Has(x) <==> e.lo <= x < e.hi)
  {
    if e.no in a.sealed {
      assert IsAt(s, a.sealed[e.no], e.no * XLOG_SEG_SIZE);
    } else {
      var m, n :| FirstChunk(a, e.no, m) && LastChunk(a, e.no, n)
        && e == SegEntry(e.no, e.no * XLOG_SEG_SIZE + m, e.no * XLOG_SEG_SIZE + n + |a.chunks[(e.no, n)]|, false);
      ChunksAreExact(s, a, e, m, n);
    }
  }

  lemma ChunksAreExact(s: Stream, a: Archive, e: SegEntry, m: nat, n: nat)
    requires AllTrue(s, a) && ArchivedTo(s, a, s.End()) && OnGrid(s, a) && e.no !in a.sealed
    requires FirstChunk(a, e.no, m) && LastChunk(a, e.no, n)
    requires e.lo == e.no * XLOG_SEG_SIZE + m && e.hi == e.no * XLOG_SEG_SIZE + n + |a.chunks[(e.no, n)]|
    ensures e.no * XLOG_SEG_SIZE <= e.lo < e.hi <= (e.no + 1) * XLOG_SEG_SIZE
    ensures forall x :: e.no * XLOG_SEG_SIZE <= x < (e.no + 1) * XLOG_SEG_SIZE ==> (s.Has(x) <==> e.lo <= x < e.hi)
  {
    ChunkInStream(s, a, e.no, m);
    ChunkInStream(s, a, e.no, n);
    forall x | e.no * XLOG_SEG_SIZE <= x < (e.no + 1) * XLOG_SEG_SIZE && s.Has(x) ensures e.lo <= x < e.hi {
      var i := x - e.no * XLOG_SEG_SIZE;
      assert Archived(a, e.no, i);
      var o: nat :| (e.no, o) in a.chunks && o <= i < o + |a.chunks[(e.no, o)]|;
      EndsByLast(s, a, e.no, o, n);
    }
  }

  lemma EntriesAreWellFormed(s: Stream, a: Archive, es: seq<SegEntry>)
    requires AllTrue(s, a) && ArchivedTo(s, a, s.End()) && OnGrid(s, a) && EntriesOf(a, es)
    ensures WellFormed(es)
  {
    forall i | 0 <= i < |es|
      ensures es[i].no * XLOG_SEG_SIZE <= es[i].lo <= es[i].hi <= (es[i].no + 1) * XLOG_SEG_SIZE
    {
      EntryIsExact(s, a, es[i]);
    }
  }

  lemma ArchivedHasSegment(s: Stream, a: Archive, g: nat, i: nat)
    requires ArchivedTo(s, a, s.End()) && i < XLOG_SEG_SIZE && s.Has(g * XLOG_SEG_SIZE + i)
    ensures HasSegment(a, g)
  {
    assert Archived(a, g, i);
  }

  /** What the entries cover is what was received. */
  lemma CoverageIsReceived(s: Stream, a: Archive, es: seq<SegEntry>, x: int)
    requires AllTrue(s, a) && ArchivedTo(s, a, s.End()) && OnGrid(s, a) && EntriesOf(a, es)
    ensures Covered(es, x) <==> s.Has(x)
  {
    hide AllTrue, ArchivedTo, OnGrid, IsEntry;
    if Covered(es, x) {
      var i :| 0 <= i < |es| && es[i].lo <= x < es[i].hi;
      EntryIsExact(s, a, es[i]);
    }
    if s.Has(x) {
      var g, b := x / XLOG_SEG_SIZE, x % XLOG_SEG_SIZE;
      ArchivedHasSegment(s, a, g, b);
      var i :| 0 <= i < |es| && es[i].no == g;
      EntryIsExact(s, a, es[i]);
    }
  }

  lemma HighestIsExact(s: Stream, a: Archive, es: seq<SegEntry>, e: SegEntry)
    requires AllTrue(s, a) && ArchivedTo(s, a, s.End()) && OnGrid(s, a) && EntriesOf(a, es) && e in es
    ensures e.lo < e.hi && s.Has(e.hi - 1)
  {
    EntryIsExact(s, a, e);
  }

  /** The run of the archive after the final flush is exactly what the connection received. */
  lemma RunIsReceived(s: Stream, a: Archive, es: seq<SegEntry>, lo: nat, hi: nat)
    requires AllTrue(s, a) && ArchivedTo(s, a, s.End()) && OnGrid(s, a) && EntriesOf(a, es) && es != []
    ensures WellFormed(es)
    ensures IsRun(es, lo, hi) ==> lo == s.start && hi == s.End()
  {
    hide EntriesOf, AllTrue, ArchivedTo, OnGrid, WellFormed, Covered;
    EntriesAreWellFormed(s, a, es);
    if IsRun(es, lo, hi) {
      var e :| Highest(es, e) && e.hi == hi;
      HighestIsExact(s, a, es, e);
      forall x ensures Covered(es, x) <==> s.Has(x) {
        CoverageIsReceived(s, a, es, x);
      }
      assert Covered(es, hi - 1);
      assert Covered(es, s.End() - 1);
      NothingAbove(es, e, s.End() - 1);
      assert lo < hi ==> Covered(es, lo);
      assert s.Has(lo - 1) ==> Covered(es, lo - 1);
    }
  }
}

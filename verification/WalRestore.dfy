/** Reassembly of one segment from the archive, and what it gives back after a connection. */
module WalRestore {
  import opened Types
  import opened WalArchive

  datatype Outcome = Restored(bytes: Bytes) | NotFound | Invalid

  /** Restore can use the chunk at `k`: it lies inside the segment. */
  predicate Fits(a: Archive, k: (nat, nat))
    requires k in a.chunks
  {
    k.1 < XLOG_SEG_SIZE && k.1 + |a.chunks[k]| <= XLOG_SEG_SIZE
  }

  predicate Known(a: Archive, g: nat, keys: seq<nat>) {
    forall j :: 0 <= j < |keys| ==> (g, keys[j]) in a.chunks
  }

  /** `keys` lists the chunks of segment `g`, in some order. */
  ghost predicate Lists(a: Archive, g: nat, keys: seq<nat>) {
    && Known(a, g, keys)
    && (forall o: nat {:trigger (g, o) in a.chunks} :: (g, o) in a.chunks ==> o in keys)
  }

  predicate Covers(a: Archive, g: nat, o: nat, i: nat)
    requires (g, o) in a.chunks
  {
    o <= i < o + |a.chunks[(g, o)]|
  }

  /** Byte `i` comes from a chunk that covers it, or is zero if there is none. */
  ghost predicate ByteOk(a: Archive, g: nat, keys: seq<nat>, i: nat, v: U8)
    requires Known(a, g, keys)
  {
    || (exists j :: 0 <= j < |keys| && Covers(a, g, keys[j], i) && v == a.chunks[(g, keys[j])][i - keys[j]])
    || (v == 0 && forall j :: 0 <= j < |keys| ==> !Covers(a, g, keys[j], i))
  }

  ghost predicate Assembled(a: Archive, g: nat, keys: seq<nat>, b: Bytes)
    requires Known(a, g, keys)
  {
    |b| == XLOG_SEG_SIZE && forall i {:trigger b[i]} :: 0 <= i < XLOG_SEG_SIZE ==> ByteOk(a, g, keys, i, b[i])
  }

  lemma PaintByte(a: Archive, g: nat, keys: seq<nat>, n: nat, i: nat, v: U8)
    requires n < |keys| && Known(a, g, keys)
    requires var c := a.chunks[(g, keys[n])];
             if keys[n] <= i < keys[n] + |c| then v == c[i - keys[n]] else ByteOk(a, g, keys[..n], i, v)
    ensures ByteOk(a, g, keys[..n + 1], i, v)
  {
    var more := keys[..n + 1];
    assert more[n] == keys[n];
    assert forall j :: 0 <= j < n ==> more[j] == keys[..n][j];
    if keys[n] <= i < keys[n] + |a.chunks[(g, keys[n])]| {
      assert Covers(a, g, more[n], i);
    }
  }

  /** The sealed object if there is one, else the chunks over zeros, else nothing. */
  ghost predicate Answers(a: Archive, g: nat, keys: seq<nat>, r: Outcome)
    requires Known(a, g, keys)
  {
    if g in a.sealed then r == Restored(a.sealed[g])
    else && (r == NotFound <==> keys == [])
         && (r == Invalid <==> exists j :: 0 <= j < |keys| && !Fits(a, (g, keys[j])))
         && (r.Restored? ==> Assembled(a, g, keys, r.bytes))
  }

  /** `keys` come in whatever order the listing has. */
  method Restore(a: Archive, g: nat, keys: seq<nat>) returns (r: Outcome)
    requires Lists(a, g, keys)
    ensures Answers(a, g, keys, r)
  {
    if g in a.sealed {
      return Restored(a.sealed[g]);
    }
    if keys == [] {
      return NotFound;
    }
    var buf := new U8[XLOG_SEG_SIZE](_ => 0);
    var n := 0;
    while n < |keys|
      invariant 0 <= n <= |keys| && buf.Length == XLOG_SEG_SIZE
      invariant forall j :: 0 <= j < n ==> Fits(a, (g, keys[j]))
      invariant forall i :: 0 <= i < XLOG_SEG_SIZE ==> ByteOk(a, g, keys[..n], i, buf[i])
      modifies buf
    {
      var o := keys[n];
      var data := a.chunks[(g, o)];
      if o >= XLOG_SEG_SIZE || o + |data| > XLOG_SEG_SIZE {
        return Invalid;
      }
      CopyInto(buf, o, data);
      forall i | 0 <= i < XLOG_SEG_SIZE ensures ByteOk(a, g, keys[..n + 1], i, buf[i]) {
        PaintByte(a, g, keys, n, i, buf[i]);
      }
      n := n + 1;
    }
    assert keys[..n] == keys;
    return Restored(buf[..]);
  }

  method CopyInto(buf: array<U8>, o: nat, data: Bytes)
    requires o + |data| <= buf.Length
    modifies buf
    ensures forall i :: 0 <= i < buf.Length ==> buf[i] == if o <= i < o + |data| then data[i - o] else old(buf[i])
  {
    forall i | o <= i < o + |data| {
      buf[i] := data[i - o];
    }
  }

  // ── What restore gives back ──

  /** What the connection delivered of segment `g`, over zeros. */
  ghost predicate IsSegmentOf(s: Stream, g: nat, b: Bytes) {
    |b| == XLOG_SEG_SIZE
    && forall i {:trigger b[i]} :: 0 <= i < XLOG_SEG_SIZE ==>
         b[i] == if s.Has(g * XLOG_SEG_SIZE + i) then s.At(g * XLOG_SEG_SIZE + i) else 0
  }

  ghost predicate Delivered(s: Stream, g: nat) {
    g * XLOG_SEG_SIZE < s.End() && s.start < (g + 1) * XLOG_SEG_SIZE && s.bytes != []
  }

  /** A byte of a stored chunk is the byte of the stream. */
  lemma ChunkByteIsTrue(s: Stream, a: Archive, g: nat, o: nat, i: nat)
    requires AllTrue(s, a) && (g, o) in a.chunks && o <= i < o + |a.chunks[(g, o)]|
    ensures s.Has(g * XLOG_SEG_SIZE + i) && a.chunks[(g, o)][i - o] == s.At(g * XLOG_SEG_SIZE + i)
  {
    var c := a.chunks[(g, o)];
    assert IsAt(s, c, g * XLOG_SEG_SIZE + o);
    assert c[i - o] == s.At(g * XLOG_SEG_SIZE + o + (i - o));
  }

  /** Assembled chunks are the stream below what is archived, and the stream or zero above. */
  lemma ChunksGiveTheStream(s: Stream, a: Archive, g: nat, keys: seq<nat>, b: Bytes, upto: nat, i: nat)
    requires AllTrue(s, a) && ArchivedTo(s, a, upto) && g !in a.sealed
    requires Lists(a, g, keys) && Assembled(a, g, keys, b) && i < XLOG_SEG_SIZE
    ensures s.Has(g * XLOG_SEG_SIZE + i) ==> b[i] == s.At(g * XLOG_SEG_SIZE + i) || (b[i] == 0 && upto <= g * XLOG_SEG_SIZE + i)
    ensures !s.Has(g * XLOG_SEG_SIZE + i) ==> b[i] == 0
  {
    assert ByteOk(a, g, keys, i, b[i]);
    if s.Has(g * XLOG_SEG_SIZE + i) && g * XLOG_SEG_SIZE + i < upto {
      assert Archived(a, g, i);
    }
    if j :| 0 <= j < |keys| && Covers(a, g, keys[j], i) && b[i] == a.chunks[(g, keys[j])][i - keys[j]] {
      ChunkByteIsTrue(s, a, g, keys[j], i);
    }
  }

  lemma SealedGivesTheStream(s: Stream, a: Archive, g: nat)
    requires AllTrue(s, a) && g in a.sealed
    ensures IsSegmentOf(s, g, a.sealed[g])
  {
    var b := a.sealed[g];
    forall i | 0 <= i < XLOG_SEG_SIZE ensures s.Has(g * XLOG_SEG_SIZE + i) && b[i] == s.At(g * XLOG_SEG_SIZE + i) {
      assert IsAt(s, b, g * XLOG_SEG_SIZE);
    }
  }

  /** Chunks are refused never, and missing exactly for segments of which nothing came. */
  lemma ChunksFit(s: Stream, a: Archive, g: nat, keys: seq<nat>)
    requires AllTrue(s, a) && ArchivedTo(s, a, s.End()) && Lists(a, g, keys)
    ensures forall j :: 0 <= j < |keys| ==> Fits(a, (g, keys[j]))
    ensures g !in a.sealed ==> (keys == [] <==> !Delivered(s, g))
  {
    forall j | 0 <= j < |keys| ensures Fits(a, (g, keys[j])) && Delivered(s, g) {
      var o := keys[j];
      assert a.chunks[(g, o)] != [];
      ChunkByteIsTrue(s, a, g, o, o);
    }
    assert keys != [] ==> Fits(a, (g, keys[0])) && Delivered(s, g);
    if g !in a.sealed && Delivered(s, g) {
      var i := if s.start <= g * XLOG_SEG_SIZE then 0 else s.start - g * XLOG_SEG_SIZE;
      assert Archived(a, g, i);
      var o: nat :| (g, o) in a.chunks && o <= i < o + |a.chunks[(g, o)]|;
      assert o in keys;
    }
  }

  /**
   * Restore after the final flush: the stream on every byte received, zeros elsewhere, and
   * not found exactly for a segment of which nothing was received.
   */
  lemma RestoreAfterFlush(s: Stream, a: Archive, g: nat, keys: seq<nat>, r: Outcome)
    requires AllTrue(s, a) && ArchivedTo(s, a, s.End()) && Lists(a, g, keys) && Answers(a, g, keys, r)
    ensures r == NotFound <==> !Delivered(s, g)
    ensures r.Restored? <==> Delivered(s, g)
    ensures r.Restored? ==> IsSegmentOf(s, g, r.bytes)
  {
    ChunksFit(s, a, g, keys);
    if g in a.sealed {
      SealedGivesTheStream(s, a, g);
      SealedIsDelivered(s, a, g);
    } else if r.Restored? {
      forall i | 0 <= i < XLOG_SEG_SIZE
        ensures r.bytes[i] == if s.Has(g * XLOG_SEG_SIZE + i) then s.At(g * XLOG_SEG_SIZE + i) else 0
      {
        ChunksGiveTheStream(s, a, g, keys, r.bytes, s.End(), i);
      }
    }
  }

  /** Before that flush too, restore gives every byte that a status has confirmed. */
  lemma RestoreMeanwhile(s: Stream, a: Archive, g: nat, keys: seq<nat>, r: Outcome, confirmed: nat, i: nat)
    requires AllTrue(s, a) && ArchivedTo(s, a, confirmed) && Lists(a, g, keys) && Answers(a, g, keys, r)
    requires i < XLOG_SEG_SIZE && s.Has(g * XLOG_SEG_SIZE + i) && g * XLOG_SEG_SIZE + i < confirmed
    ensures r.Restored? && |r.bytes| == XLOG_SEG_SIZE && r.bytes[i] == s.At(g * XLOG_SEG_SIZE + i)
  {
    if g in a.sealed {
      SealedGivesTheStream(s, a, g);
    } else {
      assert Archived(a, g, i);
      assert forall j :: 0 <= j < |keys| ==> Fits(a, (g, keys[j]));
      ChunksGiveTheStream(s, a, g, keys, r.bytes, confirmed, i);
    }
  }

  lemma SealedIsDelivered(s: Stream, a: Archive, g: nat)
    requires AllTrue(s, a) && g in a.sealed
    ensures Delivered(s, g)
  {
    assert IsAt(s, a.sealed[g], g * XLOG_SEG_SIZE);
  }
}

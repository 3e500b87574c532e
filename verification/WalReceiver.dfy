/** The receiving end of one replication connection: a stream cut anywhere goes into the archive. */
module WalReceiver {
  import opened Types
  import opened WalArchive

  function Max(a: int, b: int): int { if a < b then b else a }

  /** Every segment between the start of the stream and `upto` has its sealed object. */
  ghost predicate SealedTo(s: Stream, a: Archive, upto: nat) {
    forall g: nat {:trigger g in a.sealed} :: s.start <= g * XLOG_SEG_SIZE && (g + 1) * XLOG_SEG_SIZE <= upto ==> g in a.sealed
  }

  /** A segment is being received; all before it is confirmed. */
  ghost predicate Receiving(s: Stream, a: Archive, seg: SegState, confirmed: nat) {
    && AllTrue(s, a) && SegOk(s, a, seg) && GridOk(s, a, seg)
    && confirmed == Max(s.start, seg.no * XLOG_SEG_SIZE)
    && SealedTo(s, a, confirmed)
  }

  /** No segment is open and all that came is confirmed. */
  ghost predicate Idle(s: Stream, a: Archive, confirmed: nat) {
    Closed(s, a) && OnGrid(s, a) && confirmed == s.End() && SealedTo(s, a, confirmed)
  }

  /** The tail is flushed and the connection is over. */
  ghost predicate Ended(s: Stream, a: Archive, confirmed: nat) {
    AllTrue(s, a) && ArchivedTo(s, a, s.End()) && OnGrid(s, a) && confirmed <= s.End() && SealedTo(s, a, confirmed)
  }

  // ── One step each, on values ──

  lemma ConfirmedIsArchived(s: Stream, a: Archive, seg: SegState, confirmed: nat)
    requires Receiving(s, a, seg, confirmed)
    ensures ArchivedTo(s, a, confirmed) && confirmed <= s.End()
  {
    assert ArchivedTo(s, a, seg.no * XLOG_SEG_SIZE);
  }

  lemma ArchivedBelow(s: Stream, a: Archive, upto: nat, below: nat)
    requires ArchivedTo(s, a, upto) && below <= upto
    ensures ArchivedTo(s, a, below)
  {
  }

  lemma OpenStep(s: Stream, a: Archive, confirmed: nat)
    requires Idle(s, a, confirmed)
    ensures Receiving(s, a, Opened(s.End() / XLOG_SEG_SIZE, s.End() % XLOG_SEG_SIZE), confirmed)
  {
    hide AllTrue, SegOk, ArchivedTo;
    OpenKeeps(s, a);
  }

  lemma AppendStep(s: Stream, a: Archive, seg: SegState, confirmed: nat, piece: Bytes)
    requires Receiving(s, a, seg, confirmed) && |seg.buf| + |piece| <= XLOG_SEG_SIZE
    ensures Receiving(Stream(s.start, s.bytes + piece), a, seg.(buf := seg.buf + piece), confirmed)
  {
    hide AllTrue, SegOk, ArchivedTo;
    AppendKeeps(s, a, seg, piece);
    AllTrueLonger(s, piece, a);
  }

  lemma FireStep(s: Stream, a: Archive, seg: SegState, confirmed: nat)
    requires Receiving(s, a, seg, confirmed) && |seg.buf| - seg.uploaded >= CHUNK_BYTES
    ensures Receiving(s, a,
                      seg.(tasks := seg.tasks + [Task(seg.uploaded, seg.buf[seg.uploaded..seg.uploaded + CHUNK_BYTES])],
                           uploaded := seg.uploaded + CHUNK_BYTES),
                      confirmed)
  {
    hide AllTrue, SegOk, ArchivedTo;
    FireKeeps(s, a, seg);
  }

  lemma CompleteStep(s: Stream, a: Archive, seg: SegState, confirmed: nat, i: nat)
    requires Receiving(s, a, seg, confirmed) && i < |seg.tasks|
    ensures Receiving(s, WithChunk(a, seg.no, seg.tasks[i].offset, seg.tasks[i].bytes),
                      seg.(tasks := Without(seg.tasks, i)), confirmed)
  {
    hide AllTrue, TasksOk, UploadedOk, ArchivedTo, GridOk;
    CompleteGrid(s, a, seg, i);
    CompleteKeeps(s, a, seg, i);
  }

  lemma TailStep(s: Stream, a: Archive, seg: SegState, confirmed: nat)
    requires Receiving(s, a, seg, confirmed) && Settled(seg)
    ensures seg.uploaded <= |seg.buf| && Receiving(s, WithTail(a, seg), seg, confirmed)
    ensures seg.tasks == [] ==> ArchivedTo(s, WithTail(a, seg), s.End())
    ensures seg.tasks == [] ==> Ended(s, WithTail(a, seg), confirmed)
  {
    hide AllTrue, ArchivedTo, TasksOk, UploadedOk;
    TailKeeps(s, a, seg);
    if seg.tasks == [] {
      TailArchivesAll(s, a, seg);
    }
  }

  lemma SealStep(s: Stream, a: Archive, seg: SegState, confirmed: nat)
    requires Receiving(s, a, seg, confirmed) && |seg.buf| == XLOG_SEG_SIZE && ArchivedTo(s, a, s.End())
    ensures Idle(s, if seg.partial then a else WithSealed(a, seg.no, seg.buf), (seg.no + 1) * XLOG_SEG_SIZE)
  {
    hide AllTrue, ArchivedTo, TasksOk, UploadedOk;
    SealCloses(s, a, seg);
    var a1 := if seg.partial then a else WithSealed(a, seg.no, seg.buf);
    forall g: nat | s.start <= g * XLOG_SEG_SIZE && (g + 1) * XLOG_SEG_SIZE <= (seg.no + 1) * XLOG_SEG_SIZE
      ensures g in a1.sealed
    {
      if g < seg.no {
        assert g in a.sealed;
      }
    }
  }

  lemma DropStep(s: Stream, a: Archive, seg: SegState, confirmed: nat, g: nat, doomed: set<nat>)
    requires Receiving(s, a, seg, confirmed) && g in a.sealed
    ensures Receiving(s, Dropped(a, g, doomed), seg, confirmed)
  {
    hide AllTrue, SegOk, ArchivedTo;
    DropKeeps(s, a, seg, g, doomed);
  }

  class Receiver {
    /** The segment being received. */
    var cur: Option<SegState>
    /** Object storage. */
    var archive: Archive
    /** The LSN that the next status reports as flushed. */
    var confirmed: nat
    /** The generation of checkpoints at the last tail flush. */
    var lastFlushed: nat
    /** The flush LSNs of the statuses sent. */
    var statuses: seq<nat>
    var ended: bool
    /** All that was received. */
    ghost var stream: Stream

    ghost predicate Valid()
      reads this
    {
      && (forall i :: 0 <= i < |statuses| ==> statuses[i] <= confirmed)
      && (if ended then cur.None? && Ended(stream, archive, confirmed)
          else if cur.Some? then Receiving(stream, archive, cur.value, confirmed) && Settled(cur.value)
          else Idle(stream, archive, confirmed))
    }

    /** Streaming begins at the slot's position; nothing of this stream is stored yet. */
    constructor (start: nat, generation: nat)
      ensures Valid() && !ended && stream == Stream(start, []) && confirmed == start && statuses == []
    {
      cur, archive, confirmed, lastFlushed := None, Archive(map[], map[]), start, generation;
      statuses, ended, stream := [], false, Stream(start, []);
    }

    /** Whenever a status is sent, every streamed byte below its LSN is in the archive. */
    lemma StatusIsTrue()
      requires Valid()
      ensures ArchivedTo(stream, archive, confirmed) && SealedTo(stream, archive, confirmed)
      ensures forall i :: 0 <= i < |statuses| ==> ArchivedTo(stream, archive, statuses[i])
      ensures AllTrue(stream, archive) && OnGrid(stream, archive)
    {
      hide Closed, SegOk, ArchivedTo, AllTrue, OnGrid;
      if ended {
        ArchivedBelow(stream, archive, stream.End(), confirmed);
      } else if cur.Some? {
        ConfirmedIsArchived(stream, archive, cur.value, confirmed);
      } else {
        ClosedIsArchived(stream, archive);
      }
      forall i | 0 <= i < |statuses| ensures ArchivedTo(stream, archive, statuses[i]) {
        ArchivedBelow(stream, archive, confirmed, statuses[i]);
      }
    }

    method SendStatus()
      requires Valid()
      modifies this`statuses
      ensures Valid() && statuses == old(statuses) + [confirmed]
      ensures ArchivedTo(stream, archive, confirmed)
    {
      StatusIsTrue();
      hide Closed, SegOk, ArchivedTo, AllTrue, SealedTo, OnGrid;
      statuses := statuses + [confirmed];
    }

    /** The keepalive of the primary is answered if it asks for that. */
    method Keepalive(reply: bool)
      requires Valid() && !ended
      modifies this`statuses
      ensures Valid() && statuses == if reply then old(statuses) + [confirmed] else old(statuses)
    {
      if reply {
        SendStatus();
      }
    }

    /** Some of the puts under way complete, in any order. */
    method PutsComplete()
      requires cur.Some? && Receiving(stream, archive, cur.value, confirmed)
      modifies this`cur, this`archive
      ensures cur.Some? && Receiving(stream, archive, cur.value, confirmed)
      ensures cur.value == old(cur.value).(tasks := cur.value.tasks)
    {
      hide Receiving;
      var n: nat := *;
      while n > 0
        invariant cur.Some? && Receiving(stream, archive, cur.value, confirmed)
        invariant cur.value == old(cur.value).(tasks := cur.value.tasks)
      {
        var i: nat := *;
        if i < |cur.value.tasks| {
          CompleteOne(i);
        }
        n := n - 1;
      }
    }

    method CompleteOne(i: nat)
      requires cur.Some? && Receiving(stream, archive, cur.value, confirmed) && i < |cur.value.tasks|
      modifies this`cur, this`archive
      ensures cur == Some(old(cur.value).(tasks := Without(old(cur.value.tasks), i)))
      ensures archive == WithChunk(old(archive), old(cur.value.no), old(cur.value.tasks)[i].offset, old(cur.value.tasks)[i].bytes)
      ensures Receiving(stream, archive, cur.value, confirmed)
    {
      hide Receiving;
      var seg := cur.value;
      CompleteStep(stream, archive, seg, confirmed, i);
      var t := seg.tasks[i];
      archive := WithChunk(archive, seg.no, t.offset, t.bytes);
      cur := Some(seg.(tasks := Without(seg.tasks, i)));
    }

    /** All puts under way are waited for. */
    method JoinPuts()
      requires cur.Some? && Receiving(stream, archive, cur.value, confirmed)
      modifies this`cur, this`archive
      ensures cur.Some? && Receiving(stream, archive, cur.value, confirmed)
      ensures cur.value == old(cur.value).(tasks := []) && archive.sealed == old(archive.sealed)
    {
      hide Receiving;
      while cur.value.tasks != []
        invariant cur.Some? && Receiving(stream, archive, cur.value, confirmed)
        invariant cur.value == old(cur.value).(tasks := cur.value.tasks) && archive.sealed == old(archive.sealed)
        decreases |cur.value.tasks|
      {
        var i: int := *;
        CompleteOne(if 0 <= i < |cur.value.tasks| then i else 0);
      }
    }

    /** Full windows of the buffer are handed to puts, which run on their own. */
    method FirePuts()
      requires cur.Some? && Receiving(stream, archive, cur.value, confirmed)
      modifies this`cur, this`archive
      ensures cur.Some? && Receiving(stream, archive, cur.value, confirmed) && Settled(cur.value)
      ensures cur.value == old(cur.value).(tasks := cur.value.tasks, uploaded := cur.value.uploaded)
    {
      hide Receiving;
      while |cur.value.buf| - cur.value.uploaded >= CHUNK_BYTES
        invariant cur.Some? && Receiving(stream, archive, cur.value, confirmed)
        invariant cur.value == old(cur.value).(tasks := cur.value.tasks, uploaded := cur.value.uploaded)
        decreases |cur.value.buf| - cur.value.uploaded
      {
        var seg := cur.value;
        TailFits(stream, archive, seg, confirmed);
        FireStep(stream, archive, seg, confirmed);
        var t := Task(seg.uploaded, seg.buf[seg.uploaded..seg.uploaded + CHUNK_BYTES]);
        cur := Some(seg.(tasks := seg.tasks + [t], uploaded := seg.uploaded + CHUNK_BYTES));
        PutsComplete();
      }
    }

    /** The tail is stored at its offset; the segment is not changed. */
    method FlushTailNow()
      requires !ended && Valid() && cur.Some?
      modifies this`archive
      ensures Valid() && archive == WithTail(old(archive), cur.value)
      ensures cur.value.tasks == [] ==> ArchivedTo(stream, archive, stream.End())
    {
      hide Receiving;
      var seg := cur.value;
      TailStep(stream, archive, seg, confirmed);
      if |seg.buf| > seg.uploaded {
        archive := WithChunk(archive, seg.no, seg.uploaded, seg.buf[seg.uploaded..]);
      }
    }

    /** A checkpoint since the last look flushes the tail, once. */
    method MaybeFlushOnCheckpoint(generation: nat)
      requires !ended && Valid()
      modifies this`archive, this`lastFlushed
      ensures Valid() && lastFlushed == generation
      ensures archive == if generation != old(lastFlushed) && cur.Some? then WithTail(old(archive), cur.value) else old(archive)
      ensures generation != old(lastFlushed) && (cur.Some? ==> cur.value.tasks == []) ==> ArchivedTo(stream, archive, stream.End())
    {
      hide SegOk, AllTrue, SealedTo, ArchivedTo;
      if cur.None? {
        ClosedIsArchived(stream, archive);
      }
      if generation != lastFlushed && cur.Some? {
        TailFits(stream, archive, cur.value, confirmed);
        FlushTailNow();
      }
      lastFlushed := generation;
    }

    method JoinChunksAndFlushTail()
      requires cur.Some? && Receiving(stream, archive, cur.value, confirmed) && Settled(cur.value)
      modifies this`archive, this`cur
      ensures cur == Some(old(cur.value).(tasks := [])) && archive.sealed == old(archive.sealed)
      ensures Receiving(stream, archive, cur.value, confirmed)
      ensures ArchivedTo(stream, archive, stream.End()) && Ended(stream, archive, confirmed)
    {
      hide Receiving, ArchivedTo, Ended;
      JoinPuts();
      var seg := cur.value;
      TailStep(stream, archive, seg, confirmed);
      if |seg.buf| > seg.uploaded {
        archive := WithChunk(archive, seg.no, seg.uploaded, seg.buf[seg.uploaded..]);
      }
    }

    /** A segment received to its end is closed and all up to its end is confirmed. */
    method SealSegment()
      requires Valid() && !ended && cur.Some? && |cur.value.buf| == XLOG_SEG_SIZE
      modifies this`cur, this`archive, this`confirmed, this`statuses
      ensures Valid() && cur.None?
      ensures confirmed == (old(cur.value.no) + 1) * XLOG_SEG_SIZE == stream.End()
      ensures statuses == old(statuses) + [confirmed]
      ensures old(cur.value.partial) ==> archive.sealed == old(archive.sealed)
      ensures !old(cur.value.partial) ==> archive.sealed == old(archive.sealed)[old(cur.value.no) := old(cur.value.buf)]
    {
      hide Closed, SegOk, ArchivedTo, AllTrue, SealedTo, OnGrid;
      JoinChunksAndFlushTail();
      var seg := cur.value;
      SealStep(stream, archive, seg, confirmed);
      if !seg.partial {
        archive := WithSealed(archive, seg.no, seg.buf + Zeros(XLOG_SEG_SIZE - |seg.buf|));
        assert seg.buf + Zeros(XLOG_SEG_SIZE - |seg.buf|) == seg.buf;
      }
      cur := None;
      confirmed := (seg.no + 1) * XLOG_SEG_SIZE;
      SendStatus();
    }

    /** A piece of one segment arrives; a full segment before it is sealed first. */
    method TakePiece(cursor: nat, piece: Bytes)
      requires Valid() && !ended && cursor == stream.End() && 0 < |piece| <= XLOG_SEG_SIZE - cursor % XLOG_SEG_SIZE
      modifies this`cur, this`archive, this`confirmed, this`statuses, this`stream
      ensures Valid() && !ended && cur.Some?
      ensures stream == Stream(old(stream).start, old(stream).bytes + piece)
      ensures cur.value.no == cursor / XLOG_SEG_SIZE
      ensures old(statuses) <= statuses
    {
      hide Closed, SegOk, ArchivedTo, AllTrue, SealedTo, OnGrid;
      if cur.Some? {
        TailFits(stream, archive, cur.value, confirmed);
        OpenOrFull(cur.value.no, |cur.value.buf|, cursor);
      }
      var no, offset := cursor / XLOG_SEG_SIZE, cursor % XLOG_SEG_SIZE;
      if cur.Some? && cur.value.no != no {
        SealSegment();
      }
      if cur.None? {
        OpenStep(stream, archive, confirmed);
        cur := Some(Opened(no, offset));
      }
      assert cur.value.no == no && |cur.value.buf| == offset;
      hide Receiving;
      AppendStep(stream, archive, cur.value, confirmed, piece);
      stream := Stream(stream.start, stream.bytes + piece);
      cur := Some(cur.value.(buf := cur.value.buf + piece));
      FirePuts();
    }

    /** One message, cut at segment boundaries and stored. */
    method HandleXLogData(lsn: nat, data: Bytes)
      requires Valid() && !ended && lsn == stream.End()
      modifies this`cur, this`archive, this`confirmed, this`statuses, this`stream
      ensures Valid() && !ended && stream == Stream(old(stream).start, old(stream).bytes + data)
      ensures old(statuses) <= statuses
    {
      hide Valid;
      var cursor, off := lsn, 0;
      assert data[..0] == [];
      while off < |data|
        invariant 0 <= off <= |data| && cursor == stream.End()
        invariant Valid() && !ended && old(statuses) <= statuses
        invariant stream == Stream(old(stream).start, old(stream).bytes + data[..off])
      {
        var toBoundary := XLOG_SEG_SIZE - cursor % XLOG_SEG_SIZE;
        var len := if toBoundary < |data| - off then toBoundary else |data| - off;
        TakePiece(cursor, data[off..off + len]);
        assert data[..off + len] == data[..off] + data[off..off + len];
        off, cursor := off + len, cursor + len;
      }
      assert data[..off] == data;
    }

    /** The walsender is done: the tail is stored, and then all that came is archived. */
    method FlushPartialTail()
      requires Valid() && !ended
      modifies this`cur, this`archive, this`ended
      ensures Valid() && ended && ArchivedTo(stream, archive, stream.End())
      ensures AllTrue(stream, archive) && OnGrid(stream, archive)
      ensures archive.sealed == old(archive.sealed)
    {
      hide Closed, SegOk, ArchivedTo, AllTrue, SealedTo, OnGrid;
      if cur.Some? {
        JoinChunksAndFlushTail();
      } else {
        ClosedIsArchived(stream, archive);
      }
      cur, ended := None, true;
    }

    /** Some chunks of a sealed segment are deleted; the sealed object has all of them. */
    method Compact(g: nat, doomed: set<nat>)
      requires Valid() && g in archive.sealed
      modifies this`archive
      ensures Valid() && archive == Dropped(old(archive), g, doomed)
    {
      hide Closed, SegOk, ArchivedTo, AllTrue, SealedTo, OnGrid;
      if ended {
        DropEnded(stream, archive, confirmed, g, doomed);
      } else if cur.Some? {
        DropStep(stream, archive, cur.value, confirmed, g, doomed);
      } else {
        DropIdle(stream, archive, confirmed, g, doomed);
      }
      archive := Dropped(archive, g, doomed);
    }
  }

  lemma DropEnded(s: Stream, a: Archive, confirmed: nat, g: nat, doomed: set<nat>)
    requires Ended(s, a, confirmed) && g in a.sealed
    ensures Ended(s, Dropped(a, g, doomed), confirmed)
  {
    DropKeepsArchived(s, a, g, doomed, s.End());
  }

  lemma DropIdle(s: Stream, a: Archive, confirmed: nat, g: nat, doomed: set<nat>)
    requires Idle(s, a, confirmed) && g in a.sealed
    ensures Idle(s, Dropped(a, g, doomed), confirmed)
  {
    DropKeepsArchived(s, a, g, doomed, s.End());
  }

  /** The next byte goes into the open segment unless that is full. */
  lemma OpenOrFull(no: nat, len: nat, cursor: nat)
    requires len <= XLOG_SEG_SIZE && cursor == no * XLOG_SEG_SIZE + len
    ensures if len == XLOG_SEG_SIZE then cursor / XLOG_SEG_SIZE == no + 1 && cursor % XLOG_SEG_SIZE == 0
            else cursor / XLOG_SEG_SIZE == no && cursor % XLOG_SEG_SIZE == len
  {
  }

  lemma ClosedIsArchived(s: Stream, a: Archive)
    requires Closed(s, a)
    ensures ArchivedTo(s, a, s.End()) && AllTrue(s, a)
  {
  }

  lemma TailFits(s: Stream, a: Archive, seg: SegState, confirmed: nat)
    requires Receiving(s, a, seg, confirmed)
    ensures seg.uploaded <= |seg.buf| <= XLOG_SEG_SIZE && seg.no * XLOG_SEG_SIZE + |seg.buf| == s.End()
    ensures confirmed <= s.End()
  {
  }
}

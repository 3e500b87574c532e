/**
 * The WAL stream on its way into the archive and back: cut at segment and chunk
 * boundaries, uploaded, sealed, and reassembled by restore. One connection.
 */
module WalArchive {
  import opened Types

  const XLOG_SEG_SIZE := 0x100_0000
  const CHUNK_BYTES := 0x4_0000

  /** Archived objects: sealed segments, and chunks by segment and byte offset. */
  datatype Archive = Archive(sealed: map<nat, Bytes>, chunks: map<(nat, nat), Bytes>)

  /** What the connection delivered: the bytes from LSN `start` on. */
  datatype Stream = Stream(start: nat, bytes: Bytes)
  {
    function End(): nat { start + |bytes| }

    predicate Has(lsn: int) { start <= lsn < End() }

    function At(lsn: int): U8
      requires Has(lsn)
    {
      bytes[lsn - start]
    }
  }

  /** `part` is what the stream has at `lsn`. */
  ghost predicate IsAt(s: Stream, part: Bytes, lsn: int) {
    && s.start <= lsn && lsn + |part| <= s.End()
    && forall i :: 0 <= i < |part| ==> part[i] == s.At(lsn + i)
  }

  /** Every archived object is the stream at its place. */
  ghost predicate AllTrue(s: Stream, a: Archive) {
    && (forall g: nat {:trigger a.sealed[g]} :: g in a.sealed ==> |a.sealed[g]| == XLOG_SEG_SIZE && IsAt(s, a.sealed[g], g * XLOG_SEG_SIZE))
    && (forall k: (nat, nat) {:trigger a.chunks[k]} :: k in a.chunks ==>
          k.1 + |a.chunks[k]| <= XLOG_SEG_SIZE && a.chunks[k] != [] && IsAt(s, a.chunks[k], k.0 * XLOG_SEG_SIZE + k.1))
  }

  /** Byte `i` of segment `g` is in the archive. */
  ghost predicate Archived(a: Archive, g: nat, i: nat) {
    g in a.sealed || InChunk(a, g, i)
  }

  ghost predicate InChunk(a: Archive, g: nat, i: nat) {
    exists o: nat {:trigger a.chunks[(g, o)]} :: (g, o) in a.chunks && o <= i < o + |a.chunks[(g, o)]|
  }

  /** Every streamed byte below `upto` is in the archive. */
  ghost predicate ArchivedTo(s: Stream, a: Archive, upto: nat) {
    forall g: nat, i: nat {:trigger Archived(a, g, i)} ::
      i < XLOG_SEG_SIZE && s.start <= g * XLOG_SEG_SIZE + i < upto ==> Archived(a, g, i)
  }

  /** Where the stream begins in segment `g`. */
  function FrontOf(s: Stream, g: nat): int {
    if s.start <= g * XLOG_SEG_SIZE then 0 else s.start - g * XLOG_SEG_SIZE
  }

  predicate GridPoint(s: Stream, g: nat, o: int) {
    (o - FrontOf(s, g)) % CHUNK_BYTES == 0
  }

  /** Chunks lie on a grid that begins at the front, so they never overlap. */
  ghost predicate OnGrid(s: Stream, a: Archive) {
    forall k: (nat, nat) {:trigger a.chunks[k]} :: k in a.chunks ==> |a.chunks[k]| <= CHUNK_BYTES && GridPoint(s, k.0, k.1)
  }

  /** A put that is under way: a chunk of the open segment. */
  datatype Task = Task(offset: nat, bytes: Bytes)

  // ── Facts about streams ──

  lemma IsAtLonger(s: Stream, more: Bytes, part: Bytes, lsn: int)
    requires IsAt(s, part, lsn)
    ensures IsAt(Stream(s.start, s.bytes + more), part, lsn)
  {
  }

  lemma AllTrueLonger(s: Stream, more: Bytes, a: Archive)
    requires AllTrue(s, a)
    ensures AllTrue(Stream(s.start, s.bytes + more), a)
  {
    forall g: nat | g in a.sealed ensures IsAt(Stream(s.start, s.bytes + more), a.sealed[g], g * XLOG_SEG_SIZE) {
      IsAtLonger(s, more, a.sealed[g], g * XLOG_SEG_SIZE);
    }
    forall k: (nat, nat) | k in a.chunks
      ensures IsAt(Stream(s.start, s.bytes + more), a.chunks[k], k.0 * XLOG_SEG_SIZE + k.1)
    {
      IsAtLonger(s, more, a.chunks[k], k.0 * XLOG_SEG_SIZE + k.1);
    }
  }

  /** `k` is stored: the archive with one more chunk, over any older one at the same key. */
  function WithChunk(a: Archive, g: nat, o: nat, b: Bytes): Archive {
    a.(chunks := a.chunks[(g, o) := b])
  }

  lemma PutIsTrue(s: Stream, a: Archive, g: nat, o: nat, b: Bytes)
    requires AllTrue(s, a) && b != [] && o + |b| <= XLOG_SEG_SIZE && IsAt(s, b, g * XLOG_SEG_SIZE + o)
    ensures AllTrue(s, WithChunk(a, g, o, b))
  {
  }

  // ── The open segment ──

  /**
   * The segment being received: its bytes so far, how far chunk puts were started, the
   * puts still under way, and whether its front was never received.
   */
  datatype SegState = SegState(no: nat, buf: Bytes, uploaded: nat, tasks: seq<Task>, partial: bool)

  /** Where the received part of the segment begins. */
  function Front(s: Stream, seg: SegState): int {
    if seg.partial then s.start - seg.no * XLOG_SEG_SIZE else 0
  }

  /** The buffer is the stream from the front of the segment to the end of the stream. */
  ghost predicate BufOk(s: Stream, seg: SegState) {
    && |seg.buf| <= XLOG_SEG_SIZE && seg.no * XLOG_SEG_SIZE + |seg.buf| == s.End()
    && (if seg.partial then seg.no * XLOG_SEG_SIZE < s.start else s.start <= seg.no * XLOG_SEG_SIZE)
    && 0 <= Front(s, seg) <= seg.uploaded <= |seg.buf|
    && IsAt(s, seg.buf[Front(s, seg)..], seg.no * XLOG_SEG_SIZE + Front(s, seg))
  }

  /** Puts under way are true, go to different keys in order, and replace nothing longer. */
  ghost predicate TasksOk(s: Stream, a: Archive, seg: SegState) {
    && (forall t {:trigger t in seg.tasks} :: t in seg.tasks ==>
          && t.bytes != [] && |t.bytes| <= CHUNK_BYTES && t.offset + |t.bytes| <= seg.uploaded && IsAt(s, t.bytes, seg.no * XLOG_SEG_SIZE + t.offset)
          && ((seg.no, t.offset) in a.chunks ==> |a.chunks[(seg.no, t.offset)]| <= |t.bytes|))
    && (forall i, j :: 0 <= i < j < |seg.tasks| ==> seg.tasks[i].offset < seg.tasks[j].offset)
  }

  /** Some put under way covers byte `i`. */
  ghost predicate InTask(seg: SegState, i: nat) {
    exists t {:trigger t in seg.tasks} :: t in seg.tasks && t.offset <= i < t.offset + |t.bytes|
  }

  /** What was uploaded is archived or under way. */
  ghost predicate UploadedOk(s: Stream, a: Archive, seg: SegState) {
    forall i: nat {:trigger InChunk(a, seg.no, i)} {:trigger InTask(seg, i)} ::
      Front(s, seg) <= i < seg.uploaded ==> InChunk(a, seg.no, i) || InTask(seg, i)
  }

  /** No chunk lies beyond the upload mark; one at the mark is a part of the tail. */
  ghost predicate KeysOk(a: Archive, seg: SegState) {
    && (forall g: nat {:trigger a.sealed[g]} :: g in a.sealed ==> g < seg.no)
    && forall k: (nat, nat) {:trigger a.chunks[k]} :: k in a.chunks ==>
         && k.0 <= seg.no && |a.chunks[k]| <= CHUNK_BYTES
         && (k.0 == seg.no ==> k.1 <= seg.uploaded && (k.1 == seg.uploaded ==> k.1 + |a.chunks[k]| <= |seg.buf|))
  }

  /** Everything before the open segment is archived. */
  ghost predicate SegOk(s: Stream, a: Archive, seg: SegState) {
    BufOk(s, seg) && TasksOk(s, a, seg) && UploadedOk(s, a, seg) && KeysOk(a, seg)
    && ArchivedTo(s, a, seg.no * XLOG_SEG_SIZE)
  }

  /** So do the puts under way and the upload mark. */
  ghost predicate GridOk(s: Stream, a: Archive, seg: SegState) {
    && OnGrid(s, a) && GridPoint(s, seg.no, seg.uploaded)
    && forall i :: 0 <= i < |seg.tasks| ==> GridPoint(s, seg.no, seg.tasks[i].offset)
  }

  lemma ArchivedToLonger(s: Stream, more: Bytes, a: Archive, upto: nat)
    requires ArchivedTo(s, a, upto)
    ensures ArchivedTo(Stream(s.start, s.bytes + more), a, upto)
  {
  }

  /** More bytes of the stream arrive in the segment. */
  lemma AppendKeeps(s: Stream, a: Archive, seg: SegState, piece: Bytes)
    requires SegOk(s, a, seg) && |seg.buf| + |piece| <= XLOG_SEG_SIZE
    ensures SegOk(Stream(s.start, s.bytes + piece), a, seg.(buf := seg.buf + piece))
  {
    hide UploadedOk;
    var s1, seg1 := Stream(s.start, s.bytes + piece), seg.(buf := seg.buf + piece);
    ArchivedToLonger(s, piece, a, seg.no * XLOG_SEG_SIZE);
    AppendBuf(s, seg, piece);
    forall t | t in seg1.tasks ensures IsAt(s1, t.bytes, seg1.no * XLOG_SEG_SIZE + t.offset) {
      IsAtLonger(s, piece, t.bytes, seg.no * XLOG_SEG_SIZE + t.offset);
    }
    AppendUploaded(s, a, seg, piece);
  }

  lemma AppendBuf(s: Stream, seg: SegState, piece: Bytes)
    requires BufOk(s, seg) && |seg.buf| + |piece| <= XLOG_SEG_SIZE
    ensures BufOk(Stream(s.start, s.bytes + piece), seg.(buf := seg.buf + piece))
  {
    var s1, seg1 := Stream(s.start, s.bytes + piece), seg.(buf := seg.buf + piece);
    var f := Front(s, seg);
    assert seg1.buf[f..] == seg.buf[f..] + piece;
    var part := seg1.buf[f..];
    forall i | 0 <= i < |part| ensures part[i] == s1.At(seg.no * XLOG_SEG_SIZE + f + i) {
      if i < |seg.buf| - f {
        assert part[i] == seg.buf[f..][i];
      }
    }
  }

  lemma AppendUploaded(s: Stream, a: Archive, seg: SegState, piece: Bytes)
    requires UploadedOk(s, a, seg)
    ensures UploadedOk(Stream(s.start, s.bytes + piece), a, seg.(buf := seg.buf + piece))
  {
    var seg1 := seg.(buf := seg.buf + piece);
    forall i: nat ensures InTask(seg1, i) <==> InTask(seg, i) {
    }
  }

  /** A full window of the buffer is handed to a put. */
  lemma FireKeeps(s: Stream, a: Archive, seg: SegState)
    requires SegOk(s, a, seg) && |seg.buf| - seg.uploaded >= CHUNK_BYTES
    ensures var t := Task(seg.uploaded, seg.buf[seg.uploaded..seg.uploaded + CHUNK_BYTES]);
            SegOk(s, a, seg.(tasks := seg.tasks + [t], uploaded := seg.uploaded + CHUNK_BYTES))
  {
    var t := Task(seg.uploaded, seg.buf[seg.uploaded..seg.uploaded + CHUNK_BYTES]);
    var seg1 := seg.(tasks := seg.tasks + [t], uploaded := seg.uploaded + CHUNK_BYTES);
    FireTasks(s, a, seg);
    FireUploaded(s, a, seg);
    hide UploadedOk, TasksOk;
  }

  /** Part of the buffer is the stream at its place. */
  lemma PartIsAt(s: Stream, seg: SegState, lo: nat, hi: nat)
    requires BufOk(s, seg) && Front(s, seg) <= lo <= hi <= |seg.buf|
    ensures IsAt(s, seg.buf[lo..hi], seg.no * XLOG_SEG_SIZE + lo)
  {
    var f := Front(s, seg);
    forall i | 0 <= i < hi - lo ensures seg.buf[lo..hi][i] == s.At(seg.no * XLOG_SEG_SIZE + lo + i) {
      assert seg.buf[lo..hi][i] == seg.buf[f..][lo - f + i];
    }
  }

  lemma FireTasks(s: Stream, a: Archive, seg: SegState)
    requires BufOk(s, seg) && TasksOk(s, a, seg) && KeysOk(a, seg) && |seg.buf| - seg.uploaded >= CHUNK_BYTES
    ensures var t := Task(seg.uploaded, seg.buf[seg.uploaded..seg.uploaded + CHUNK_BYTES]);
            TasksOk(s, a, seg.(tasks := seg.tasks + [t], uploaded := seg.uploaded + CHUNK_BYTES))
  {
    PartIsAt(s, seg, seg.uploaded, seg.uploaded + CHUNK_BYTES);
    forall i | 0 <= i < |seg.tasks| ensures seg.tasks[i].offset < seg.uploaded {
      assert seg.tasks[i] in seg.tasks;
    }
  }

  lemma FireUploaded(s: Stream, a: Archive, seg: SegState)
    requires UploadedOk(s, a, seg) && |seg.buf| - seg.uploaded >= CHUNK_BYTES
    ensures var t := Task(seg.uploaded, seg.buf[seg.uploaded..seg.uploaded + CHUNK_BYTES]);
            UploadedOk(s, a, seg.(tasks := seg.tasks + [t], uploaded := seg.uploaded + CHUNK_BYTES))
  {
    var t := Task(seg.uploaded, seg.buf[seg.uploaded..seg.uploaded + CHUNK_BYTES]);
    var seg1 := seg.(tasks := seg.tasks + [t], uploaded := seg.uploaded + CHUNK_BYTES);
    forall i: nat | Front(s, seg1) <= i < seg1.uploaded ensures InChunk(a, seg1.no, i) || InTask(seg1, i) {
      if i < seg.uploaded {
        if InTask(seg, i) {
          var u :| u in seg.tasks && u.offset <= i < u.offset + |u.bytes|;
          assert u in seg1.tasks;
        }
      } else {
        assert t in seg1.tasks;
      }
    }
  }

  // ── Puts that complete ──

  function Without(tasks: seq<Task>, i: nat): (r: seq<Task>)
    requires i < |tasks|
  {
    tasks[..i] + tasks[i + 1..]
  }

  lemma WithoutHas(tasks: seq<Task>, i: nat, t: Task)
    requires i < |tasks|
    requires forall p, q :: 0 <= p < q < |tasks| ==> tasks[p].offset < tasks[q].offset
    ensures t in Without(tasks, i) <==> t in tasks && t.offset != tasks[i].offset
  {
    var rest := Without(tasks, i);
    assert tasks == tasks[..i] + [tasks[i]] + tasks[i + 1..];
    if t in rest {
      var j :| 0 <= j < |rest| && rest[j] == t;
      assert rest[j] == if j < i then tasks[j] else tasks[j + 1];
    }
  }

  lemma WithoutAscends(tasks: seq<Task>, i: nat)
    requires i < |tasks|
    requires forall p, q :: 0 <= p < q < |tasks| ==> tasks[p].offset < tasks[q].offset
    ensures var rest := Without(tasks, i);
            forall p, q :: 0 <= p < q < |rest| ==> rest[p].offset < rest[q].offset
  {
    var rest := Without(tasks, i);
    assert forall j :: 0 <= j < |rest| ==> rest[j] == if j < i then tasks[j] else tasks[j + 1];
  }

  lemma CompleteTasks(s: Stream, a: Archive, seg: SegState, i: nat)
    requires TasksOk(s, a, seg) && i < |seg.tasks|
    ensures var t := seg.tasks[i];
            TasksOk(s, WithChunk(a, seg.no, t.offset, t.bytes), seg.(tasks := Without(seg.tasks, i)))
  {
    hide IsAt, Without;
    forall u ensures u in Without(seg.tasks, i) <==> u in seg.tasks && u.offset != seg.tasks[i].offset {
      WithoutHas(seg.tasks, i, u);
    }
    WithoutAscends(seg.tasks, i);
  }

  lemma CompleteUploaded(s: Stream, a: Archive, seg: SegState, i: nat)
    requires TasksOk(s, a, seg) && UploadedOk(s, a, seg) && i < |seg.tasks|
    ensures var t := seg.tasks[i];
            UploadedOk(s, WithChunk(a, seg.no, t.offset, t.bytes), seg.(tasks := Without(seg.tasks, i)))
  {
    hide TasksOk, Without;
    var t := seg.tasks[i];
    var seg1 := seg.(tasks := Without(seg.tasks, i));
    var a1 := WithChunk(a, seg.no, t.offset, t.bytes);
    forall x: nat | Front(s, seg1) <= x < seg1.uploaded ensures InChunk(a1, seg1.no, x) || InTask(seg1, x) {
      CompleteAt(s, a, seg, i, x);
    }
  }

  /** What the completed put covered is in its chunk now; the rest is where it was. */
  lemma CompleteAt(s: Stream, a: Archive, seg: SegState, i: nat, x: nat)
    requires TasksOk(s, a, seg) && i < |seg.tasks| && (InChunk(a, seg.no, x) || InTask(seg, x))
    ensures InChunk(WithChunk(a, seg.no, seg.tasks[i].offset, seg.tasks[i].bytes), seg.no, x)
            || InTask(seg.(tasks := Without(seg.tasks, i)), x)
  {
    hide Without, IsAt;
    var t := seg.tasks[i];
    assert t in seg.tasks;
    ChunkStays(a, seg.no, t.offset, t.bytes, seg.no, x);
    if !InChunk(a, seg.no, x) {
      var u :| u in seg.tasks && u.offset <= x < u.offset + |u.bytes|;
      WithoutHas(seg.tasks, i, u);
      if u.offset == t.offset {
        SameOffsetSameTask(seg.tasks, t, u);
      } else {
        assert u in seg.(tasks := Without(seg.tasks, i)).tasks;
      }
    }
  }

  lemma SameOffsetSameTask(tasks: seq<Task>, t: Task, u: Task)
    requires forall p, q :: 0 <= p < q < |tasks| ==> tasks[p].offset < tasks[q].offset
    requires t in tasks && u in tasks && t.offset == u.offset
    ensures t == u
  {
    var p :| 0 <= p < |tasks| && tasks[p] == t;
    var q :| 0 <= q < |tasks| && tasks[q] == u;
    assert p == q;
  }

  /** A put covers its bytes and loses none, unless it replaces something longer. */
  lemma ChunkStays(a: Archive, g: nat, o: nat, b: Bytes, h: nat, i: nat)
    requires (g, o) in a.chunks ==> |a.chunks[(g, o)]| <= |b|
    ensures InChunk(a, h, i) ==> InChunk(WithChunk(a, g, o, b), h, i)
    ensures h == g && o <= i < o + |b| ==> InChunk(WithChunk(a, g, o, b), h, i)
  {
    var a1 := WithChunk(a, g, o, b);
    if InChunk(a, h, i) {
      var p: nat :| (h, p) in a.chunks && p <= i < p + |a.chunks[(h, p)]|;
      assert (h, p) in a1.chunks && p <= i < p + |a1.chunks[(h, p)]|;
    }
    if h == g && o <= i < o + |b| {
      assert (h, o) in a1.chunks && a1.chunks[(h, o)] == b;
    }
  }

  lemma PutKeepsArchivedTo(s: Stream, a: Archive, g: nat, o: nat, b: Bytes, upto: nat)
    requires ArchivedTo(s, a, upto)
    requires (g, o) in a.chunks ==> |a.chunks[(g, o)]| <= |b|
    ensures ArchivedTo(s, WithChunk(a, g, o, b), upto)
  {
    forall h: nat, i: nat | i < XLOG_SEG_SIZE && s.start <= h * XLOG_SEG_SIZE + i < upto
      ensures Archived(WithChunk(a, g, o, b), h, i)
    {
      assert Archived(a, h, i);
      ChunkStays(a, g, o, b, h, i);
    }
  }

  /** Any put under way may be the next to complete. */
  lemma CompleteKeeps(s: Stream, a: Archive, seg: SegState, i: nat)
    requires AllTrue(s, a) && SegOk(s, a, seg) && i < |seg.tasks|
    ensures var t := seg.tasks[i];
            var a1 := WithChunk(a, seg.no, t.offset, t.bytes);
            AllTrue(s, a1) && SegOk(s, a1, seg.(tasks := Without(seg.tasks, i)))
  {
    hide UploadedOk, ArchivedTo, AllTrue, IsAt;
    var t := seg.tasks[i];
    assert t in seg.tasks;
    CompleteTasks(s, a, seg, i);
    CompleteUploaded(s, a, seg, i);
    PutKeepsArchivedTo(s, a, seg.no, t.offset, t.bytes, seg.no * XLOG_SEG_SIZE);
    PutIsTrue(s, a, seg.no, t.offset, t.bytes);
  }

  lemma CompleteGrid(s: Stream, a: Archive, seg: SegState, i: nat)
    requires TasksOk(s, a, seg) && GridOk(s, a, seg) && i < |seg.tasks|
    ensures var t := seg.tasks[i];
            GridOk(s, WithChunk(a, seg.no, t.offset, t.bytes), seg.(tasks := Without(seg.tasks, i)))
  {
    var rest := Without(seg.tasks, i);
    assert seg.tasks[i] in seg.tasks;
    assert forall j :: 0 <= j < |rest| ==> rest[j] == if j < i then seg.tasks[j] else seg.tasks[j + 1];
  }

  // ── The tail ──

  /** Between messages less than a chunk waits to be handed to a put. */
  predicate Settled(seg: SegState) {
    |seg.buf| - seg.uploaded < CHUNK_BYTES
  }

  /** The tail is stored at the upload mark, which does not move. */
  function WithTail(a: Archive, seg: SegState): Archive
    requires seg.uploaded <= |seg.buf|
  {
    if seg.uploaded < |seg.buf| then WithChunk(a, seg.no, seg.uploaded, seg.buf[seg.uploaded..]) else a
  }

  lemma TailKeeps(s: Stream, a: Archive, seg: SegState)
    requires AllTrue(s, a) && SegOk(s, a, seg) && Settled(seg)
    ensures AllTrue(s, WithTail(a, seg)) && SegOk(s, WithTail(a, seg), seg)
  {
    hide UploadedOk, ArchivedTo, AllTrue, IsAt;
    if seg.uploaded < |seg.buf| {
      var tail := seg.buf[seg.uploaded..];
      assert tail == seg.buf[seg.uploaded..|seg.buf|];
      PartIsAt(s, seg, seg.uploaded, |seg.buf|);
      PutIsTrue(s, a, seg.no, seg.uploaded, tail);
      PutKeepsArchivedTo(s, a, seg.no, seg.uploaded, tail, seg.no * XLOG_SEG_SIZE);
      TailUploaded(s, a, seg);
      TailTasks(s, a, seg);
    }
  }

  lemma TailTasks(s: Stream, a: Archive, seg: SegState)
    requires TasksOk(s, a, seg) && seg.uploaded < |seg.buf|
    ensures TasksOk(s, WithTail(a, seg), seg)
  {
  }

  lemma TailUploaded(s: Stream, a: Archive, seg: SegState)
    requires UploadedOk(s, a, seg) && seg.uploaded < |seg.buf|
    requires (seg.no, seg.uploaded) in a.chunks ==> |a.chunks[(seg.no, seg.uploaded)]| <= |seg.buf| - seg.uploaded
    ensures UploadedOk(s, WithTail(a, seg), seg)
  {
    forall i: nat | Front(s, seg) <= i < seg.uploaded ensures InChunk(WithTail(a, seg), seg.no, i) || InTask(seg, i) {
      ChunkStays(a, seg.no, seg.uploaded, seg.buf[seg.uploaded..], seg.no, i);
    }
  }

  /** After a tail put, every received byte of the segment is stored or under way. */
  lemma TailCovers(s: Stream, a: Archive, seg: SegState, i: nat)
    requires SegOk(s, a, seg) && Front(s, seg) <= i < |seg.buf|
    ensures InChunk(WithTail(a, seg), seg.no, i) || InTask(seg, i)
  {
    if seg.uploaded < |seg.buf| {
      ChunkStays(a, seg.no, seg.uploaded, seg.buf[seg.uploaded..], seg.no, i);
    }
  }

  /** With no put under way, that makes everything received archived. */
  lemma TailArchivesAll(s: Stream, a: Archive, seg: SegState)
    requires SegOk(s, a, seg) && SegOk(s, WithTail(a, seg), seg) && seg.tasks == []
    ensures ArchivedTo(s, WithTail(a, seg), s.End())
  {
    var a1 := WithTail(a, seg);
    forall g: nat, i: nat | i < XLOG_SEG_SIZE && s.start <= g * XLOG_SEG_SIZE + i < s.End()
      ensures Archived(a1, g, i)
    {
      if g * XLOG_SEG_SIZE + i >= seg.no * XLOG_SEG_SIZE {
        assert g == seg.no;
        TailCovers(s, a, seg, i);
      }
    }
  }

  // ── Opening and sealing ──

  /** No segment is open: all is archived, and the stream is at a boundary or has not begun. */
  ghost predicate Closed(s: Stream, a: Archive) {
    && AllTrue(s, a) && ArchivedTo(s, a, s.End())
    && (s.bytes != [] ==> s.End() % XLOG_SEG_SIZE == 0)
    && (forall g: nat {:trigger a.sealed[g]} :: g in a.sealed ==> g < s.End() / XLOG_SEG_SIZE)
    && (forall k: (nat, nat) {:trigger a.chunks[k]} :: k in a.chunks ==> |a.chunks[k]| <= CHUNK_BYTES && k.0 < s.End() / XLOG_SEG_SIZE)
  }

  /** A segment begun at byte `off`: a zero prefix that is never uploaded. */
  function Opened(no: nat, off: nat): SegState {
    SegState(no, Zeros(off), off, [], off > 0)
  }

  lemma OpenKeeps(s: Stream, a: Archive)
    requires Closed(s, a)
    ensures SegOk(s, a, Opened(s.End() / XLOG_SEG_SIZE, s.End() % XLOG_SEG_SIZE))
  {
    var no, off := s.End() / XLOG_SEG_SIZE, s.End() % XLOG_SEG_SIZE;
    var seg := Opened(no, off);
    assert no * XLOG_SEG_SIZE + off == s.End();
    assert seg.buf[off..] == [];
  }

  function WithSealed(a: Archive, g: nat, b: Bytes): Archive {
    a.(sealed := a.sealed[g := b])
  }

  /** A segment received to its end is closed: sealed if its front is known, else by its chunks. */
  lemma SealCloses(s: Stream, a: Archive, seg: SegState)
    requires AllTrue(s, a) && SegOk(s, a, seg) && |seg.buf| == XLOG_SEG_SIZE
    requires ArchivedTo(s, a, s.End())
    ensures Closed(s, if seg.partial then a else WithSealed(a, seg.no, seg.buf))
  {
    hide UploadedOk, TasksOk;
    assert s.End() == (seg.no + 1) * XLOG_SEG_SIZE;
    assert s.End() % XLOG_SEG_SIZE == 0 && s.End() / XLOG_SEG_SIZE == seg.no + 1;
    if !seg.partial {
      SealIsTrue(s, a, seg);
      SealKeepsArchived(s, a, seg.no, seg.buf, s.End());
    }
  }

  lemma SealIsTrue(s: Stream, a: Archive, seg: SegState)
    requires AllTrue(s, a) && BufOk(s, seg) && |seg.buf| == XLOG_SEG_SIZE && !seg.partial
    ensures AllTrue(s, WithSealed(a, seg.no, seg.buf))
  {
    assert seg.buf[0..] == seg.buf;
  }

  lemma SealKeepsArchived(s: Stream, a: Archive, g: nat, b: Bytes, upto: nat)
    requires ArchivedTo(s, a, upto)
    ensures ArchivedTo(s, WithSealed(a, g, b), upto)
  {
    var a1 := WithSealed(a, g, b);
    forall h: nat, i: nat | i < XLOG_SEG_SIZE && s.start <= h * XLOG_SEG_SIZE + i < upto ensures Archived(a1, h, i) {
      assert Archived(a, h, i);
      if InChunk(a, h, i) {
        var p: nat :| (h, p) in a.chunks && p <= i < p + |a.chunks[(h, p)]|;
        assert (h, p) in a1.chunks;
      }
    }
  }

  // ── Chunks of sealed segments go away, some or all, at any later time ──

  function Dropped(a: Archive, g: nat, doomed: set<nat>): Archive {
    a.(chunks := map k | k in a.chunks && !(k.0 == g && k.1 in doomed) :: a.chunks[k])
  }

  lemma DropKeepsArchived(s: Stream, a: Archive, g: nat, doomed: set<nat>, upto: nat)
    requires ArchivedTo(s, a, upto) && g in a.sealed
    ensures ArchivedTo(s, Dropped(a, g, doomed), upto)
  {
    var a1 := Dropped(a, g, doomed);
    forall h: nat, i: nat | i < XLOG_SEG_SIZE && s.start <= h * XLOG_SEG_SIZE + i < upto ensures Archived(a1, h, i) {
      assert Archived(a, h, i);
      if h != g {
        DropKeepsOthers(a, g, doomed, h, i);
      }
    }
  }

  lemma DropKeepsOthers(a: Archive, g: nat, doomed: set<nat>, h: nat, i: nat)
    requires h != g
    ensures InChunk(a, h, i) ==> InChunk(Dropped(a, g, doomed), h, i)
  {
    if InChunk(a, h, i) {
      var p: nat :| (h, p) in a.chunks && p <= i < p + |a.chunks[(h, p)]|;
      assert (h, p) in Dropped(a, g, doomed).chunks;
    }
  }

  lemma DropKeeps(s: Stream, a: Archive, seg: SegState, g: nat, doomed: set<nat>)
    requires AllTrue(s, a) && SegOk(s, a, seg) && g in a.sealed
    ensures AllTrue(s, Dropped(a, g, doomed)) && SegOk(s, Dropped(a, g, doomed), seg)
  {
    var a1 := Dropped(a, g, doomed);
    assert |a.sealed[g]| == XLOG_SEG_SIZE;
    DropKeepsArchived(s, a, g, doomed, seg.no * XLOG_SEG_SIZE);
    assert UploadedOk(s, a1, seg) by {
      forall i: nat | Front(s, seg) <= i < seg.uploaded ensures InChunk(a1, seg.no, i) || InTask(seg, i) {
        DropKeepsOthers(a, g, doomed, seg.no, i);
      }
    }
  }
}

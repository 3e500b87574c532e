/** A whole connection: messages cut anywhere, checkpoints between them, then the final flush. */
module WalRuns {
  import opened Types
  import opened WalArchive
  import opened WalReceiver
  import opened WalRestore
  import opened WalCoverage

  function Concat(messages: seq<Bytes>): Bytes {
    if messages == [] then [] else Concat(messages[..|messages| - 1]) + messages[|messages| - 1]
  }

  lemma ConcatNext(messages: seq<Bytes>, n: nat)
    requires n < |messages|
    ensures Concat(messages[..n + 1]) == Concat(messages[..n]) + messages[n]
  {
    assert messages[..n + 1][..n] == messages[..n];
  }

  /**
   * However the stream is cut, whichever checkpoints are seen and in whatever order the
   * puts complete, the archive left behind is the stream.
   */
  method Connection(start: nat, messages: seq<Bytes>, generations: nat -> nat, replies: nat -> bool)
    returns (archive: Archive, statuses: seq<nat>)
    ensures var s := Stream(start, Concat(messages));
            AllTrue(s, archive) && ArchivedTo(s, archive, s.End()) && OnGrid(s, archive)
    ensures forall i :: 0 <= i < |statuses| ==> statuses[i] <= start + |Concat(messages)|
  {
    var r := new Receiver(start, generations(0));
    var n, lsn := 0, start;
    while n < |messages|
      invariant 0 <= n <= |messages| && fresh(r) && r.Valid() && !r.ended
      invariant lsn == r.stream.End() && r.stream == Stream(start, Concat(messages[..n]))
      modifies r
    {
      r.HandleXLogData(lsn, messages[n]);
      ConcatNext(messages, n);
      r.MaybeFlushOnCheckpoint(generations(n));
      r.Keepalive(replies(n));
      n, lsn := n + 1, lsn + |messages[n]|;
    }
    assert messages[..n] == messages;
    r.FlushPartialTail();
    ghost var s := r.stream;
    StatusesBelow(s, r.archive, r.confirmed);
    archive, statuses := r.archive, r.statuses;
  }

  lemma StatusesBelow(s: Stream, a: Archive, confirmed: nat)
    requires Ended(s, a, confirmed)
    ensures confirmed <= s.End()
  {
  }

  /** Restored segments are then functions of the stream alone, not of the cuts. */
  lemma CutsDoNotMatter(s: Stream, a1: Archive, a2: Archive, g: nat, keys1: seq<nat>, keys2: seq<nat>, r1: Outcome, r2: Outcome)
    requires AllTrue(s, a1) && ArchivedTo(s, a1, s.End()) && Lists(a1, g, keys1) && Answers(a1, g, keys1, r1)
    requires AllTrue(s, a2) && ArchivedTo(s, a2, s.End()) && Lists(a2, g, keys2) && Answers(a2, g, keys2, r2)
    ensures r1 == r2
  {
    RestoreAfterFlush(s, a1, g, keys1, r1);
    RestoreAfterFlush(s, a2, g, keys2, r2);
    if r1.Restored? {
      SameSegment(s, g, r1.bytes, r2.bytes);
    }
  }

  lemma SameSegment(s: Stream, g: nat, b1: Bytes, b2: Bytes)
    requires IsSegmentOf(s, g, b1) && IsSegmentOf(s, g, b2)
    ensures b1 == b2
  {
    assert forall i :: 0 <= i < XLOG_SEG_SIZE ==> b1[i] == b2[i];
  }
}

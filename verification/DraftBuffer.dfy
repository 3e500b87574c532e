/**
 * The draft buffer: sharded chunk tags, fork metadata, and a spill file for what does
 * not fit. Its view is the `Draft` of the store model, step by step.
 */
module DraftBuffer {
  import opened Types
  import opened StoreModel
  import opened ProbeTable
  import opened ChunkZone
  import opened SpillFile

  class DraftBuffer {
    const codec: Codec
    const chunks: ChunkZone
    const forks: Table<RelFork, Meta>
    var spilled: bool
    var spillSeq: nat
    var file: Bytes
    /** The frames in the spill file. */
    ghost var frames: seq<Frame>
    ghost const repr: set<object>

    /** The zones and this object do not overlap. */
    ghost predicate Apart()
      reads this
    {
      && chunks in repr && forks in repr && forks.slots in repr && chunks.repr <= repr && this !in repr
      && chunks !in chunks.repr && forks !in chunks.repr && forks.slots !in chunks.repr
    }

    /** The serializer is sound, and full tables still fit one frame. */
    ghost predicate CodecOk() {
      && codec.Sound()
      && (forall f: Frame {:trigger codec.enc(f)} ::
            |f.chunks| <= |chunks.shards| * chunks.cap && |f.relforks| <= forks.slots.Length ==> codec.Fits(f))
    }

    ghost predicate Valid()
      reads this, repr
    {
      && Apart() && chunks.Valid() && forks.Valid() && CodecOk()
      && IsFileOf(codec, file, frames) && (spilled <==> frames != [])
    }

    ghost function View(): Draft
      reads this, repr
      requires Apart()
    {
      Draft(chunks.tags, forks.contents, spilled, Merged(frames).chunks, Merged(frames).relforks)
    }

    constructor (codec: Codec, hash: ChunkTag -> nat, forkHash: RelFork -> nat,
                 numShards: nat, cap: nat, watermark: nat, forkCap: nat, forkWatermark: nat)
      requires numShards > 0 && cap > 0 && forkCap > 0 && codec.Sound()
      requires forall f: Frame {:trigger codec.enc(f)} ::
                 |f.chunks| <= numShards * cap && |f.relforks| <= forkCap ==> codec.Fits(f)
      ensures Valid() && View() == NO_DRAFT && fresh(repr)
    {
      hide ChunkZone.Valid, Table.Valid, IsFileOf, Merged;
      this.codec := codec;
      var zone := new ChunkZone(numShards, cap, watermark, hash);
      var table := new Table(forkCap, forkWatermark, forkHash);
      chunks, forks := zone, table;
      spilled, spillSeq, file, frames := false, 0, [], [];
      repr := {zone, table, table.slots} + zone.repr;
      new;
      NoFrames(codec, file, frames);
      assert CodecOk() by {
        forall f: Frame | |f.chunks| <= |chunks.shards| * chunks.cap && |f.relforks| <= forks.slots.Length
          ensures codec.Fits(f)
        {
          var _ := codec.enc(f);
        }
      }
    }

    // ── Spilling ──

    /** Empty both zones into one frame, which fits. */
    method DrainZones() returns (frame: Frame)
      requires Valid()
      modifies repr
      ensures Valid() && chunks.tags == {} && forks.contents == map[]
      ensures frame == Frame(old(chunks.tags), old(forks.contents)) && codec.Fits(frame)
    {
      hide ChunkZone.Valid, Table.Valid, IsFileOf, Merged;
      var tags := chunks.Drain();
      var metas := forks.Drain();
      frame := Frame(tags, metas);
    }

    /** Both zones go to the file in one frame, unless both are empty. */
    method SpillLocked()
      requires Valid()
      modifies this, repr
      ensures Valid() && View() == old(View()).Spilled()
    {
      hide ChunkZone.Valid, Table.Valid, IsFileOf, Merged;
      var frame := DrainZones();
      if frame.IsEmpty() {
        return;
      }
      AppendKeeps(codec, file, frames, frame);
      ghost var was := Merged(frames);
      assert was.chunks + frame.chunks == frame.chunks + was.chunks;
      assert was.relforks + frame.relforks == old(View()).Relforks();
      file := AppendSpillFrame(codec, file, frame);
      frames := frames + [frame];
      spilled := true;
      spillSeq := spillSeq + 1;
    }

    /** `try_spill_to_file`: nothing happens while another spill holds the lock. */
    method TrySpill(busy: bool) returns (ran: bool)
      requires Valid()
      modifies this, repr
      ensures Valid() && ran == !busy
      ensures View() == if busy then old(View()) else old(View()).Spilled()
    {
      if !busy {
        SpillLocked();
      }
      ran := !busy;
    }

    // ── Recording ──

    /** `record_chunk`: the tag is recorded; a full or filling shard spills before or after. */
    method RecordChunk(t: ChunkTag, busy: bool)
      requires Valid()
      modifies this, repr
      ensures Valid()
      ensures var d := old(View());
              View() in {d.WithChunk(t), d.WithChunk(t).Spilled(), d.Spilled().WithChunk(t), d.Spilled().WithChunk(t).Spilled()}
    {
      hide ChunkZone.Valid, Table.Valid, IsFileOf, Merged;
      while true
        invariant Valid() && View() in {old(View()), old(View()).Spilled()}
        decreases |chunks.tags|
      {
        var r := chunks.Insert(t);
        match r
        case Added(over) =>
          if over {
            var _ := TrySpill(busy);
          }
          return;
        case Full =>
          SpillLocked();
      }
    }

    /** `record_relfork`: the fork's entry is overwritten; spills as for chunks. */
    method RecordRelfork(rf: RelFork, m: Meta, busy: bool)
      requires Valid()
      modifies this, repr
      ensures Valid()
      ensures var d := old(View());
              View() in {d.WithRelfork(rf, m), d.WithRelfork(rf, m).Spilled(),
                         d.Spilled().WithRelfork(rf, m), d.Spilled().WithRelfork(rf, m).Spilled()}
    {
      hide ChunkZone.Valid, Table.Valid, IsFileOf, Merged;
      while true
        invariant Valid() && View() in {old(View()), old(View()).Spilled()}
        decreases |forks.contents|
      {
        var r := forks.Insert(rf, m);
        match r
        case Added(over) =>
          if over {
            var _ := TrySpill(busy);
          }
          return;
        case Full =>
          SpillLocked();
      }
    }

    // ── Looking up ──

    method ContainsChunk(t: ChunkTag) returns (r: bool)
      requires Valid()
      ensures r == View().MaybeChunk(t)
    {
      r := chunks.Contains(t);
      if !r {
        r := spilled;
      }
    }

    method GetRelfork(rf: RelFork) returns (r: Option<Meta>)
      requires Valid()
      ensures r == View().GetRelfork(rf)
    {
      hide ChunkZone.Valid, Table.Valid, IsFileOf, Merged;
      var slot := forks.Get(rf);
      if slot.Occupied? {
        return Some(slot.value);
      }
      if !spilled {
        return None;
      }
      var merged := ReadSpillFile(codec, file, frames);
      match merged
      case Ok(f) => r := if rf in f.relforks then Some(f.relforks[rf]) else None;
      case _ => r := None;
    }

    // ── Draining ──

    /** `drain`: everything recorded since the last drain, and the buffer is empty. */
    method Drain() returns (r: ReadResult)
      requires Valid()
      modifies this, repr
      ensures Valid() && View() == NO_DRAFT
      ensures r == Ok(Frame(old(View()).Chunks(), old(View()).Relforks()))
    {
      hide ChunkZone.Valid, Table.Valid, IsFileOf;
      SpillLocked();
      r := ReadSpillFile(codec, file, frames);
      file, spilled, frames := [], false, [];
      NoFrames(codec, file, frames);
    }
  }

  lemma {:induction false} NoFrames(c: Codec, file: Bytes, fs: seq<Frame>)
    requires c.Sound() && file == [] && fs == []
    ensures IsFileOf(c, file, fs) && Merged(fs) == NO_FRAME
  {
  }

  lemma {:induction false} AppendKeeps(c: Codec, file: Bytes, fs: seq<Frame>, f: Frame)
    requires IsFileOf(c, file, fs) && c.Fits(f)
    ensures IsFileOf(c, file + FrameBytes(c, f), fs + [f])
    ensures Merged(fs + [f]) == Merged(fs).Merge(f)
  {
    hide FrameBytes, FileOf;
    AppendFrame(c, fs, f);
    MergedSnoc(fs, f);
  }
}

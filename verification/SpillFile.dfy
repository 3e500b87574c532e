/** The draft buffer's overflow file: length-prefixed frames, appended one at a time. */
module SpillFile {
  import opened Types
  import opened ByteCodec

  datatype Frame = Frame(chunks: set<ChunkTag>, relforks: map<RelFork, Meta>)
  {
    predicate IsEmpty() { chunks == {} && relforks == map[] }

    /** `merge_frame`: the later frame wins. */
    function Merge(f: Frame): Frame { Frame(chunks + f.chunks, relforks + f.relforks) }
  }

  const NO_FRAME := Frame({}, map[])

  /** The serializer and its inverse. */
  datatype Codec = Codec(enc: Frame -> Bytes, dec: Bytes -> Option<Frame>)
  {
    ghost predicate Sound() {
      forall f {:trigger enc(f)} :: dec(enc(f)) == Some(f)
    }

    /** A frame whose length fits the 32-bit prefix. */
    predicate Fits(f: Frame) { |enc(f)| < 0x1_0000_0000 }
  }

  /** One frame on disk; a length beyond 32 bits is truncated by the cast. */
  function FrameBytes(c: Codec, f: Frame): Bytes {
    Le32(|c.enc(f)| % 0x1_0000_0000) + c.enc(f)
  }

  function FileOf(c: Codec, fs: seq<Frame>): Bytes {
    if fs == [] then [] else FrameBytes(c, fs[0]) + FileOf(c, fs[1..])
  }

  /** All frames merged in file order. */
  function Merged(fs: seq<Frame>): Frame {
    if fs == [] then NO_FRAME else Merged(fs[..|fs| - 1]).Merge(fs[|fs| - 1])
  }

  lemma {:induction false} MergedSnoc(fs: seq<Frame>, f: Frame)
    ensures Merged(fs + [f]) == Merged(fs).Merge(f)
  {
    var all := fs + [f];
    assert all[..|all| - 1] == fs && all[|all| - 1] == f;
  }

  /** Appending a frame at the end of the file appends it to the list of frames. */
  lemma {:induction false} AppendFrame(c: Codec, fs: seq<Frame>, f: Frame)
    ensures FileOf(c, fs + [f]) == FileOf(c, fs) + FrameBytes(c, f)
    decreases |fs|
  {
    hide FrameBytes;
    var all := fs + [f];
    if fs == [] {
      assert all[1..] == [];
    } else {
      AppendFrame(c, fs[1..], f);
      assert all[0] == fs[0] && all[1..] == fs[1..] + [f];
    }
  }

  /** `append_spill_frame`. */
  method AppendSpillFrame(c: Codec, file: Bytes, f: Frame) returns (r: Bytes)
    ensures r == file + FrameBytes(c, f)
  {
    var bytes := c.enc(f);
    r := file + Le32(|bytes| % 0x1_0000_0000);
    r := r + bytes;
  }

  datatype ReadResult = Ok(frame: Frame) | TruncatedLength | TruncatedBody | BadFrame

  /** The frames of a file that is a list of sound, fitting frames. */
  ghost predicate IsFileOf(c: Codec, file: Bytes, fs: seq<Frame>) {
    c.Sound() && file == FileOf(c, fs) && forall i :: 0 <= i < |fs| ==> c.Fits(fs[i])
  }

  /** `read_spill_file`: all frames that were appended, merged oldest first. */
  method ReadSpillFile(c: Codec, file: Bytes, ghost fs: seq<Frame>) returns (r: ReadResult)
    requires IsFileOf(c, file, fs)
    ensures r == Ok(Merged(fs))
  {
    hide FileOf, Merged, FrameBytes;
    var merged := NO_FRAME;
    var pos := 0;
    ghost var n := 0;
    Start(c, file, fs);
    while pos < |file|
      invariant n <= |fs| && pos <= |file| && file[pos..] == FileOf(c, fs[n..])
      invariant merged == Merged(fs[..n])
    {
      NextFrame(c, file[pos..], fs[n..]);
      if |file| - pos < 4 {
        return TruncatedLength;
      }
      assert file[pos..pos + 4] == file[pos..][..4];
      var len := To32(file[pos..pos + 4]);
      if pos + 4 + len > |file| {
        return TruncatedBody;
      }
      assert file[pos + 4..pos + 4 + len] == file[pos..][4..4 + len];
      var frame := c.dec(file[pos + 4..pos + 4 + len]);
      if frame.None? {
        return BadFrame;
      }
      merged := merged.Merge(frame.value);
      MergedSnoc(fs[..n], fs[n]);
      assert fs[..n + 1] == fs[..n] + [fs[n]] && fs[n..][1..] == fs[n + 1..];
      assert file[pos + 4 + len..] == file[pos..][4 + len..];
      pos := pos + 4 + len;
      n := n + 1;
    }
    AtEnd(c, fs[n..]);
    assert fs[..n] == fs;
    r := Ok(merged);
  }

  lemma {:induction false} Start(c: Codec, file: Bytes, fs: seq<Frame>)
    requires file == FileOf(c, fs)
    ensures file[0..] == FileOf(c, fs[0..]) && Merged(fs[..0]) == NO_FRAME
  {
    assert fs[0..] == fs && file[0..] == file;
  }

  lemma Parts(rest: Bytes, a: Bytes, b: Bytes, c: Bytes)
    requires rest == a + b + c
    ensures rest[..|a|] == a && rest[|a|..|a| + |b|] == b && rest[|a| + |b|..] == c
  {
  }

  lemma {:induction false} NextFrame(c: Codec, rest: Bytes, fs: seq<Frame>)
    requires IsFileOf(c, rest, fs) && rest != []
    ensures fs != [] && |rest| >= 4
    ensures var len := To32(rest[..4]);
            && 4 + len <= |rest| && c.dec(rest[4..4 + len]) == Some(fs[0])
            && rest[4 + len..] == FileOf(c, fs[1..])
  {
    hide To32;
    var bytes := c.enc(fs[0]);
    assert c.Fits(fs[0]);
    assert rest == FrameBytes(c, fs[0]) + FileOf(c, fs[1..]);
    hide FileOf;
    Parts(rest, Le32(|bytes|), bytes, FileOf(c, fs[1..]));
    assert To32(rest[..4]) == |bytes|;
  }

  lemma {:induction false} AtEnd(c: Codec, fs: seq<Frame>)
    requires FileOf(c, fs) == []
    ensures fs == []
  {
  }
}

/** Little-endian integers and fixed-size records, as the on-disk formats use them. */
module ByteCodec {
  import opened Types

  type I64 = x: int | -0x8000_0000_0000_0000 <= x < 0x8000_0000_0000_0000

  /** 256 to the `n`. */
  function Radix(n: nat): (r: nat)
    ensures r > 0
  {
    if n == 0 then 1 else 256 * Radix(n - 1)
  }

  /** `to_le_bytes` for an `n`-byte integer. */
  function Le(x: nat, n: nat): (b: Bytes)
    ensures |b| == n
  {
    if n == 0 then [] else [x % 256] + Le(x / 256, n - 1)
  }

  /** `from_le_bytes`. */
  function FromLe(b: Bytes): nat {
    if b == [] then 0 else b[0] + 256 * FromLe(b[1..])
  }

  lemma {:induction false} LeRoundTrip(x: nat, n: nat)
    requires x < Radix(n)
    ensures FromLe(Le(x, n)) == x
    decreases n
  {
    if n > 0 {
      LeRoundTrip(x / 256, n - 1);
      assert Le(x, n)[1..] == Le(x / 256, n - 1);
    }
  }

  lemma {:induction false} FromLeBound(b: Bytes)
    ensures FromLe(b) < Radix(|b|)
    decreases |b|
  {
    if b != [] {
      FromLeBound(b[1..]);
    }
  }

  /** Every byte pattern is the encoding of what it decodes to. */
  lemma {:induction false} FromLeRoundTrip(b: Bytes)
    ensures Le(FromLe(b), |b|) == b
    decreases |b|
  {
    if b != [] {
      FromLeRoundTrip(b[1..]);
      var x := FromLe(b);
      assert x % 256 == b[0] && x / 256 == FromLe(b[1..]);
    }
  }

  lemma {:induction false} Radixes()
    ensures Radix(4) == 0x1_0000_0000 && Radix(8) == 0x1_0000_0000_0000_0000
  {
    assert Radix(1) == 256;
    assert Radix(2) == 0x1_0000;
    assert Radix(3) == 0x100_0000;
    assert Radix(4) == 0x1_0000_0000;
    assert Radix(5) == 0x100_0000_0000;
    assert Radix(6) == 0x1_0000_0000_0000;
    assert Radix(7) == 0x100_0000_0000_0000;
  }

  /** Two's complement. */
  function Unsigned(x: I32): U32 {
    if x < 0 then x + 0x1_0000_0000 else x
  }

  function Signed(x: U32): I32 {
    if x < 0x8000_0000 then x else x - 0x1_0000_0000
  }

  function Unsigned64(x: I64): U64 {
    if x < 0 then x + 0x1_0000_0000_0000_0000 else x
  }

  function Signed64(x: U64): I64 {
    if x < 0x8000_0000_0000_0000 then x else x - 0x1_0000_0000_0000_0000
  }

  function Le32(x: U32): (b: Bytes)
    ensures |b| == 4 && To32(b) == x
  {
    Radixes();
    LeRoundTrip(x, 4);
    Le(x, 4)
  }

  function To32(b: Bytes): U32
    requires |b| == 4
  {
    Radixes();
    FromLeBound(b);
    FromLe(b)
  }

  function Le64(x: U64): (b: Bytes)
    ensures |b| == 8 && To64(b) == x
  {
    Radixes();
    LeRoundTrip(x, 8);
    Le(x, 8)
  }

  function To64(b: Bytes): U64
    requires |b| == 8
  {
    Radixes();
    FromLeBound(b);
    FromLe(b)
  }

  // ── Records of a fixed size ──

  function Records<T>(xs: seq<T>, enc: T -> Bytes): Bytes {
    if xs == [] then [] else Records(xs[..|xs| - 1], enc) + enc(xs[|xs| - 1])
  }

  ghost predicate FixedSize<T(!new)>(enc: T -> Bytes, size: nat) {
    forall x :: |enc(x)| == size
  }

  lemma {:induction false} RecordsSnoc<T>(xs: seq<T>, x: T, enc: T -> Bytes)
    ensures Records(xs + [x], enc) == Records(xs, enc) + enc(x)
  {
    var all := xs + [x];
    assert all[..|all| - 1] == xs && all[|all| - 1] == x;
  }

  lemma {:induction false} RecordsLength<T(!new)>(xs: seq<T>, enc: T -> Bytes, size: nat)
    requires FixedSize(enc, size)
    ensures |Records(xs, enc)| == |xs| * size
    decreases |xs|
  {
    if xs != [] {
      var n := |xs| - 1;
      RecordsLength(xs[..n], enc, size);
      Times(n, n + 1, size);
    }
  }

  lemma Times(i: nat, n: nat, size: nat)
    requires i < n
    ensures i * size + size <= n * size
    ensures (i + 1) * size == i * size + size
  {
  }

  /** Record `i` sits at byte `i * size`. */
  lemma {:induction false} RecordAt<T(!new)>(xs: seq<T>, enc: T -> Bytes, size: nat, i: nat)
    requires FixedSize(enc, size) && i < |xs|
    ensures i * size + size <= |Records(xs, enc)|
    ensures Records(xs, enc)[i * size..i * size + size] == enc(xs[i])
    decreases |xs|
  {
    var init := xs[..|xs| - 1];
    RecordsLength(xs, enc, size);
    RecordsLength(init, enc, size);
    Times(i, |xs|, size);
    if i < |xs| - 1 {
      RecordAt(init, enc, size, i);
      Times(i, |xs| - 1, size);
      assert Records(xs, enc)[..|init| * size] == Records(init, enc);
    }
  }
}

/** Names of segments in the archive and in PostgreSQL, after the timeline's eight digits. */
module WalNames {
  import opened Types

  const SEGS_PER_LOGID := 0x100

  /** A hexadecimal number, most significant digit first. */
  type Digits = seq<nat>

  /** `n` in base 16, with at least `width` digits. */
  function Hex(n: nat, width: nat): Digits
    decreases n + width
  {
    if n == 0 && width == 0 then []
    else Hex(n / 16, if width == 0 then 0 else width - 1) + [n % 16]
  }

  function Value(d: Digits): nat {
    if d == [] then 0 else Value(d[..|d| - 1]) * 16 + d[|d| - 1]
  }

  function Pow16(k: nat): (p: nat)
    ensures p > 0
  {
    if k == 0 then 1 else 16 * Pow16(k - 1)
  }

  /** The archive: one number of sixteen digits. */
  function ArchiveName(no: U64): Digits {
    Hex(no, 16)
  }

  /** PostgreSQL: two numbers of eight digits. */
  function PostgresName(no: U64): Digits {
    Hex(no / SEGS_PER_LOGID, 8) + Hex(no % SEGS_PER_LOGID, 8)
  }

  lemma {:induction false} HexValue(n: nat, width: nat)
    ensures Value(Hex(n, width)) == n
    decreases n + width
  {
    if n != 0 || width != 0 {
      var w := if width == 0 then 0 else width - 1;
      HexValue(n / 16, w);
      var d := Hex(n, width);
      assert d[..|d| - 1] == Hex(n / 16, w);
    }
  }

  lemma {:induction false} HexLength(n: nat, width: nat)
    requires n < Pow16(width)
    ensures |Hex(n, width)| == width
  {
    if width > 0 {
      HexLength(n / 16, width - 1);
    }
  }

  lemma {:induction false} HexIsLonger(n: nat, width: nat)
    requires n >= Pow16(width)
    ensures |Hex(n, width)| > width
    decreases n + width
  {
    if width > 0 {
      HexIsLonger(n / 16, width - 1);
    }
  }

  lemma {:induction false} ValueOfConcat(a: Digits, b: Digits)
    ensures Value(a + b) == Value(a) * Pow16(|b|) + Value(b)
    decreases |b|
  {
    if b == [] {
      assert a + b == a;
    } else {
      var front := b[..|b| - 1];
      assert (a + b)[..|a + b| - 1] == a + front;
      ValueOfConcat(a, front);
      assert Value(a) * Pow16(|b|) == Value(a) * Pow16(|front|) * 16;
    }
  }

  lemma {:induction false} SmallFits(n: nat)
    requires n < SEGS_PER_LOGID
    ensures n < Pow16(8) && Pow16(8) == 0x1_0000_0000
  {
    assert Pow16(2) == 256;
    assert Pow16(4) == 256 * 256;
    assert Pow16(6) == 256 * 256 * 256;
  }

  /** A segment is archived under the name PostgreSQL asks for exactly below segment 256. */
  lemma NamesAgreeIff(no: U64)
    ensures ArchiveName(no) == PostgresName(no) <==> no < SEGS_PER_LOGID
  {
    var hi, lo := no / SEGS_PER_LOGID, no % SEGS_PER_LOGID;
    SmallFits(lo);
    HexLength(lo, 8);
    HexValue(no, 16);
    HexValue(hi, 8);
    HexValue(lo, 8);
    ValueOfConcat(Hex(hi, 8), Hex(lo, 8));
    assert Value(PostgresName(no)) == hi * 0x1_0000_0000 + lo;
    if no < SEGS_PER_LOGID {
      SmallNames(no);
    }
  }

  lemma SmallNames(no: nat)
    requires no < SEGS_PER_LOGID
    ensures Hex(no, 16) == Hex(0, 8) + Hex(no, 8)
  {
    PadSplits(no, 8, 8);
  }

  /** More width is more leading zeros. */
  lemma {:induction false} PadSplits(n: nat, extra: nat, width: nat)
    requires n < Pow16(width)
    ensures Hex(n, extra + width) == Hex(0, extra) + Hex(n, width)
    decreases width
  {
    if width == 0 {
      assert Hex(n, width) == [];
      assert Hex(0, extra) + [] == Hex(0, extra);
    } else {
      PadSplits(n / 16, extra, width - 1);
      assert Hex(0, extra) + Hex(n, width) == Hex(0, extra) + Hex(n / 16, width - 1) + [n % 16];
    }
  }

  /** The number a segment name of the usual length stands for, as restore's header needs it. */
  function ParsePostgresName(d: Digits): Option<nat> {
    if |d| != 16 then None else Some(Value(d[..8]) * SEGS_PER_LOGID + Value(d[8..]))
  }

  /** PostgreSQL's name can be read back while the high part has eight digits. */
  lemma ParseRoundTripIff(no: U64)
    ensures ParsePostgresName(PostgresName(no)) == Some(no as nat) <==> no < 0x100_0000_0000
    ensures Value(ArchiveName(no)) == no
  {
    var hi, lo := no / SEGS_PER_LOGID, no % SEGS_PER_LOGID;
    SmallFits(lo);
    HexLength(lo, 8);
    HexValue(no, 16);
    HexValue(hi, 8);
    HexValue(lo, 8);
    if hi < 0x1_0000_0000 {
      HexLength(hi, 8);
      assert PostgresName(no)[..8] == Hex(hi, 8) && PostgresName(no)[8..] == Hex(lo, 8);
    } else {
      HexIsLonger(hi, 8);
    }
  }
}

/** The Bloom filter of one active checkpoint: bits set in place, answers read off the bits. */
module ChunkBloom {
  import opened Types

  /** `1u8 << k`. */
  function Mask(k: nat): bv8
    requires k < 8
  {
    match k
    case 0 => 1 case 1 => 2 case 2 => 4 case 3 => 8
    case 4 => 16 case 5 => 32 case 6 => 64 case 7 => 128
  }

  lemma OrSetsOne(x: bv8, k: nat, j: nat)
    requires k < 8 && j < 8
    ensures (x | Mask(k)) & Mask(j) != 0 <==> x & Mask(j) != 0 || j == k
  {
    OrMask(x, Mask(k), Mask(j));
    MasksDiffer(k, j);
  }

  lemma OrMask(x: bv8, a: bv8, b: bv8)
    ensures (x | a) & b != 0 <==> x & b != 0 || a & b != 0
  {
  }

  lemma MasksDiffer(k: nat, j: nat)
    requires k < 8 && j < 8
    ensures Mask(k) & Mask(j) != 0 <==> k == j
  {
  }

  predicate IsSet(bits: seq<bv8>, b: nat)
    requires b / 8 < |bits|
  {
    bits[b / 8] & Mask(b % 8) != 0
  }

  /** The filter's parameters: how many bits, how many probes, and where they go. */
  datatype Shape = Shape(bytes: nat, hashes: nat, probe: (ChunkTag, nat) -> nat)
  {
    function Bit(t: ChunkTag, i: nat): (b: nat)
      requires bytes > 0
      ensures b < bytes * 8
    {
      probe(t, i) % (bytes * 8)
    }

    /** Some probe of some tag of the set falls on bit `b`. */
    ghost predicate Covered(tags: set<ChunkTag>, b: nat)
      requires bytes > 0
    {
      exists t, i: nat {:trigger Bit(t, i)} :: t in tags && i < hashes && Bit(t, i) == b
    }

    /** The filter's answer for a set of inserted tags. */
    ghost predicate Maybe(tags: set<ChunkTag>, t: ChunkTag)
      requires bytes > 0
    {
      forall i: nat {:trigger Bit(t, i)} :: i < hashes ==> Covered(tags, Bit(t, i))
    }
  }

  /** No false negatives, over any set of insertions. */
  lemma NoFalseNegatives(s: Shape, tags: set<ChunkTag>, t: ChunkTag)
    requires s.bytes > 0 && t in tags
    ensures s.Maybe(tags, t)
  {
  }

  class ChunkBloom {
    const shape: Shape
    const bits: array<bv8>
    ghost var tags: set<ChunkTag>

    ghost predicate Valid()
      reads this, bits
    {
      && bits.Length == shape.bytes > 0
      && forall b: nat {:trigger IsSet(bits[..], b)} :: b < shape.bytes * 8 ==> (IsSet(bits[..], b) <==> shape.Covered(tags, b))
    }

    constructor (shape: Shape)
      requires shape.bytes > 0
      ensures Valid() && tags == {} && this.shape == shape && fresh(bits)
    {
      this.shape := shape;
      bits := new bv8[shape.bytes](_ => 0);
      tags := {};
    }

    method Clear()
      requires Valid()
      modifies this, bits
      ensures Valid() && tags == {}
    {
      for i := 0 to bits.Length
        invariant forall j :: 0 <= j < i ==> bits[j] == 0
      {
        bits[i] := 0;
      }
      tags := {};
    }

    /** Set every probe's bit of `t`. */
    method Insert(t: ChunkTag)
      requires Valid()
      modifies this, bits
      ensures Valid() && tags == old(tags) + {t}
    {
      ghost var was := bits[..];
      for i := 0 to shape.hashes
        invariant tags == old(tags)
        invariant forall b: nat {:trigger IsSet(bits[..], b)} :: b < shape.bytes * 8 ==>
                    (IsSet(bits[..], b) <==> IsSet(was, b) || exists j: nat {:trigger shape.Bit(t, j)} :: j < i && shape.Bit(t, j) == b)
      {
        var bit := shape.Bit(t, i);
        ghost var before := bits[..];
        bits[bit / 8] := bits[bit / 8] | Mask(bit % 8);
        SetOne(before, bits[..], bit);
      }
      tags := tags + {t};
      forall b: nat | b < shape.bytes * 8 ensures IsSet(bits[..], b) <==> shape.Covered(tags, b) {
        CoveredMore(shape, old(tags), t, b);
      }
    }

    /** True exactly when every probe's bit of `t` was set by some insertion. */
    method MaybeContains(t: ChunkTag) returns (r: bool)
      requires Valid()
      ensures r <==> shape.Maybe(tags, t)
    {
      for i := 0 to shape.hashes
        invariant forall j: nat :: j < i ==> shape.Covered(tags, shape.Bit(t, j))
      {
        var bit := shape.Bit(t, i);
        assert bits[bit / 8] == bits[..][bit / 8];
        assert IsSet(bits[..], bit) <==> shape.Covered(tags, bit);
        if bits[bit / 8] & Mask(bit % 8) == 0 {
          return false;
        }
      }
      r := true;
    }
  }

  lemma CoveredMore(s: Shape, tags: set<ChunkTag>, t: ChunkTag, b: nat)
    requires s.bytes > 0
    ensures s.Covered(tags + {t}, b) <==>
            s.Covered(tags, b) || exists j: nat {:trigger s.Bit(t, j)} :: j < s.hashes && s.Bit(t, j) == b
  {
  }

  lemma SetOne(before: seq<bv8>, after: seq<bv8>, bit: nat)
    requires bit / 8 < |before| && after == before[bit / 8 := before[bit / 8] | Mask(bit % 8)]
    ensures forall b: nat {:trigger IsSet(after, b)} :: b < |before| * 8 ==> (IsSet(after, b) <==> IsSet(before, b) || b == bit)
  {
    forall b: nat | b < |before| * 8 ensures IsSet(after, b) <==> IsSet(before, b) || b == bit {
      if b / 8 == bit / 8 {
        OrSetsOne(before[b / 8], bit % 8, b % 8);
      }
    }
  }
}

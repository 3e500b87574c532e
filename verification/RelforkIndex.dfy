/** The inline fork index of one active checkpoint: sorted, capped, searched by halves. */
module RelforkIndex {
  import opened Types
  import opened WindowSpec
  import opened SortedLists
  import opened Manifest

  /** The forks of a checkpoint in their order; there is only one such list. */
  ghost function Sorted(m: map<RelFork, Meta>): (s: seq<MetaEntry>)
    ensures Lists(s, m, RfRank)
  {
    SortedExists(m);
    var s: seq<MetaEntry> :| Lists(s, m, RfRank);
    s
  }

  lemma {:induction false} SortedExists(m: map<RelFork, Meta>)
    ensures exists s: seq<MetaEntry> :: Lists(s, m, RfRank)
    decreases |m|
  {
    if m == map[] {
      var none: seq<MetaEntry> := [];
      assert Lists(none, m, RfRank);
    } else {
      var rf := HighestFork(m.Keys);
      var rest := m - {rf};
      SortedExists(rest);
      var s: seq<MetaEntry> :| Lists(s, rest, RfRank);
      assert forall i :: 0 <= i < |s| ==> s[i].0 in rest;
      ListsSnoc(s, rest, RfRank, (rf, m[rf]));
      assert rest[rf := m[rf]] == m;
    }
  }

  lemma {:induction false} HighestFork(s: set<RelFork>) returns (rf: RelFork)
    requires s != {}
    ensures rf in s && forall x :: x in s && x != rf ==> RfRank(x) < RfRank(rf)
    decreases |s|
  {
    var x :| x in s;
    if s == {x} {
      rf := x;
    } else {
      var y := HighestFork(s - {x});
      RfRankIsOrder(x, y);
      rf := if RfRank(x) < RfRank(y) then y else x;
    }
  }

  /** The answer of an index of `cap` entries for a checkpoint that changed the forks of `m`. */
  ghost function Ask(m: map<RelFork, Meta>, cap: nat, rf: RelFork): Answer {
    if rf in m && Has(Kept(m, cap), rf) then Hit(m[rf])
    else if |Sorted(m)| > cap then Inconclusive
    else DefinitiveMiss
  }

  /** The entries that fit. */
  ghost function Kept(m: map<RelFork, Meta>, cap: nat): seq<MetaEntry> {
    Sorted(m)[..Min(|Sorted(m)|, cap)]
  }

  /** A hit is the checkpoint's own value, and a definitive miss is a miss. */
  lemma AnswersAreTrue(m: map<RelFork, Meta>, cap: nat, rf: RelFork)
    ensures match Ask(m, cap, rf)
            case Hit(meta) => rf in m && m[rf] == meta
            case DefinitiveMiss => rf !in m
            case Inconclusive => |Sorted(m)| > cap && !Has(Kept(m, cap), rf)
  {
    if rf in m && |Sorted(m)| <= cap {
      assert Kept(m, cap) == Sorted(m);
    }
  }

  class RelforkIndex {
    const entries: array<MetaEntry>
    var len: nat
    var overflowed: bool
    ghost var forks: map<RelFork, Meta>

    ghost predicate Valid()
      reads this, entries
    {
      && len <= entries.Length && entries[..len] == Kept(forks, entries.Length)
      && (overflowed <==> |Sorted(forks)| > entries.Length)
    }

    constructor (cap: nat)
      ensures Valid() && forks == map[] && entries.Length == cap && fresh(entries)
    {
      entries := new MetaEntry[cap](_ => (RelFork(0, 0, 0, 0), Meta(0, false)));
      len, overflowed, forks := 0, false, map[];
      SortedNone();
    }

    /** `populate`: sort, keep what fits, and note whether anything did not. */
    method Populate(m: map<RelFork, Meta>)
      requires Valid()
      modifies this, entries
      ensures Valid() && forks == m
    {
      hide Lists, Injective, RfRank;
      TagRankIsInjective();
      var buf := SortMeta(m, RfRank);
      ListIsUnique(buf, Sorted(m), m, RfRank);
      overflowed := |buf| > entries.Length;
      var n := Min(|buf|, entries.Length);
      for i := 0 to n
        invariant overflowed == (|buf| > entries.Length)
        invariant entries[..i] == buf[..i]
      {
        entries[i] := buf[i];
      }
      len := n;
      forks := m;
    }

    /** `get`: exactly the answer the capped sorted list allows. */
    method Get(rf: RelFork) returns (r: Answer)
      requires Valid()
      ensures r == Ask(forks, entries.Length, rf)
    {
      hide Narrowed, Lists, RfRank;
      ghost var s := entries[..len];
      KeptLists(forks, entries.Length);
      ghost var m := KeptMap(forks, entries.Length);
      var lo, hi := 0, len;
      NarrowAll(s, RfRank, rf);
      while lo < hi
        invariant Narrowed(s, RfRank, rf, lo, hi) && 0 <= lo <= hi <= len
      {
        var mid := lo + (hi - lo) / 2;
        assert entries[mid] == s[mid];
        Narrow(s, m, RfRank, rf, lo, hi, mid);
        RfRankIsOrder(entries[mid].0, rf);
        if entries[mid].0 == rf {
          EntryOf(s, m, RfRank, mid);
          FoundIsHit(forks, entries.Length, mid);
          return Hit(entries[mid].1);
        } else if RfLess(entries[mid].0, rf) {
          lo := mid + 1;
        } else {
          hi := mid;
        }
      }
      NotThere(s, m, RfRank, rf, lo);
      MissIsNoHit(forks, entries.Length, rf);
      r := if overflowed then Inconclusive else DefinitiveMiss;
    }
  }

  lemma SortedNone()
    ensures Sorted(map[]) == []
  {
    var none: map<RelFork, Meta> := map[];
    var s: seq<MetaEntry> := [];
    ListIsUnique(s, Sorted(none), none, RfRank);
  }

  ghost function KeptMap(m: map<RelFork, Meta>, cap: nat): map<RelFork, Meta> {
    map rf | rf in m && Has(Kept(m, cap), rf) :: m[rf]
  }

  /** The kept entries are themselves a sorted list. */
  lemma KeptLists(m: map<RelFork, Meta>, cap: nat)
    ensures Lists(Kept(m, cap), KeptMap(m, cap), RfRank)
  {
    var k := Kept(m, cap);
    assert forall i :: 0 <= i < |k| ==> k[i] == Sorted(m)[i] && Has(k, k[i].0);
  }

  lemma FoundIsHit(m: map<RelFork, Meta>, cap: nat, i: nat)
    requires i < |Kept(m, cap)|
    ensures Ask(m, cap, Kept(m, cap)[i].0) == Hit(Kept(m, cap)[i].1)
  {
    var e := Kept(m, cap)[i];
    assert e == Sorted(m)[i];
    assert Has(Kept(m, cap), e.0);
  }

  lemma MissIsNoHit(m: map<RelFork, Meta>, cap: nat, rf: RelFork)
    requires rf !in KeptMap(m, cap)
    ensures Ask(m, cap, rf) == if |Sorted(m)| > cap then Inconclusive else DefinitiveMiss
  {
  }
}

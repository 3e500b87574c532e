/**
 * Hash chains threaded through slot arrays, as both caches use them: bucket heads,
 * a `next` link per slot, and a tag per slot. Links are rewritten in place.
 */
module HashChains {
  import opened Types

  const NIL := 0xFFFF_FFFF

  /** The link that should follow position `i - 1` of a chain. */
  function LinkAt(c: seq<nat>, i: nat): nat {
    if i < |c| then c[i] else NIL
  }

  /** Walking from `head` along `next` visits exactly `c` and then ends. */
  ghost predicate Follows(c: seq<nat>, head: nat, next: seq<nat>) {
    && head == LinkAt(c, 0)
    && forall i :: 0 <= i < |c| ==> c[i] < |next| && next[c[i]] == LinkAt(c, i + 1)
  }

  ghost predicate NoRepeat(c: seq<nat>) {
    forall i, j :: 0 <= i < j < |c| ==> c[i] != c[j]
  }

  function Bucket<K>(hash: K -> nat, k: K, n: nat): (b: nat)
    requires n > 0
    ensures b < n
  {
    hash(k) % n
  }

  /** Every chain ends and repeats nothing. */
  ghost predicate AllFollow(next: seq<nat>, heads: seq<nat>, chains: seq<seq<nat>>) {
    && |heads| == |chains|
    && forall b :: 0 <= b < |chains| ==> Follows(chains[b], heads[b], next) && NoRepeat(chains[b])
  }

  /**
   * `where` names the one slot of each linked tag; a slot is on a chain if and only if
   * it is that slot, and then the chain is its tag's own.
   */
  ghost predicate OnOwnChain<K(!new)>(tags: seq<K>, hash: K -> nat, chains: seq<seq<nat>>, where: map<K, nat>)
    requires |chains| > 0
  {
    && (forall b, s {:trigger s in chains[b]} :: 0 <= b < |chains| && s in chains[b] ==>
          s < |tags| && tags[s] in where && where[tags[s]] == s && Bucket(hash, tags[s], |chains|) == b)
    && (forall k {:trigger where[k]} :: k in where ==>
          where[k] < |tags| && tags[where[k]] == k && where[k] in chains[Bucket(hash, k, |chains|)])
  }

  /** The invariant of the chains. */
  ghost predicate ChainsOk<K(!new)>(tags: seq<K>, next: seq<nat>, heads: seq<nat>, hash: K -> nat,
                                    chains: seq<seq<nat>>, where: map<K, nat>)
  {
    && |tags| == |next| <= NIL && |heads| == |chains| > 0
    && AllFollow(next, heads, chains) && OnOwnChain(tags, hash, chains, where)
  }

  /** A slot lies on at most one chain. */
  lemma OneChain<K(!new)>(tags: seq<K>, next: seq<nat>, heads: seq<nat>, hash: K -> nat,
                          chains: seq<seq<nat>>, where: map<K, nat>, b: nat, d: nat, s: nat)
    requires ChainsOk(tags, next, heads, hash, chains, where)
    requires b < |chains| && d < |chains| && b != d && s in chains[b]
    ensures s !in chains[d]
  {
    assert s in chains[b];
  }

  /** Where a linked tag's slot is. */
  lemma WhereFacts<K(!new)>(tags: seq<K>, next: seq<nat>, heads: seq<nat>, hash: K -> nat,
                            chains: seq<seq<nat>>, where: map<K, nat>, k: K)
    requires ChainsOk(tags, next, heads, hash, chains, where)
    ensures k in where ==> where[k] < |tags| && tags[where[k]] == k && where[k] in chains[Bucket(hash, k, |chains|)]
  {
  }

  /** No two linked slots hold the same tag. */
  lemma TagsDiffer<K(!new)>(tags: seq<K>, next: seq<nat>, heads: seq<nat>, hash: K -> nat,
                            chains: seq<seq<nat>>, where: map<K, nat>, b: nat, d: nat, s: nat, t: nat)
    requires ChainsOk(tags, next, heads, hash, chains, where)
    requires b < |chains| && d < |chains| && s in chains[b] && t in chains[d] && tags[s] == tags[t]
    ensures s == t && b == d
  {
    assert s in chains[b] && t in chains[d];
  }

  function Without(c: seq<nat>, i: nat): seq<nat>
    requires i < |c|
  {
    c[..i] + c[i + 1..]
  }

  lemma WithoutHolds(c: seq<nat>, i: nat, s: nat)
    requires i < |c| && NoRepeat(c)
    ensures s in Without(c, i) <==> s in c && s != c[i]
  {
    var w := Without(c, i);
    if s in c && s != c[i] {
      var j :| 0 <= j < |c| && c[j] == s;
      assert w[if j < i then j else j - 1] == s;
    }
    if s in w {
      var j :| 0 <= j < |w| && w[j] == s;
      assert c[if j < i then j else j + 1] == s;
    }
  }

  lemma WithoutLink(c: seq<nat>, i: nat, j: nat)
    requires i < |c|
    ensures LinkAt(Without(c, i), j) == if j < i then LinkAt(c, j) else LinkAt(c, j + 1)
  {
  }

  lemma WithoutNoRepeat(c: seq<nat>, i: nat)
    requires NoRepeat(c) && i < |c|
    ensures NoRepeat(Without(c, i))
  {
  }

  /** Moving the head past its first slot. */
  lemma UnlinkHead(c: seq<nat>, head: nat, next: seq<nat>)
    requires Follows(c, head, next) && c != []
    ensures Follows(Without(c, 0), LinkAt(c, 1), next)
  {
    assert Without(c, 0) == c[1..];
  }

  /** Rewriting the link before position `i` takes that slot out of the chain. */
  lemma UnlinkInner(c: seq<nat>, head: nat, next: seq<nat>, i: nat)
    requires Follows(c, head, next) && NoRepeat(c) && 0 < i < |c|
    ensures Follows(Without(c, i), head, next[c[i - 1] := LinkAt(c, i + 1)])
  {
    hide Without, LinkAt;
    var w := Without(c, i);
    var after := next[c[i - 1] := LinkAt(c, i + 1)];
    WithoutLink(c, i, 0);
    forall j | 0 <= j < |c| - 1 ensures j < |w| && w[j] < |after| && after[w[j]] == LinkAt(w, j + 1) {
      WithoutLink(c, i, j + 1);
      WithoutAt(c, i, j);
    }
    WithoutLength(c, i);
  }

  lemma WithoutAt(c: seq<nat>, i: nat, j: nat)
    requires i < |c| && j < |c| - 1
    ensures |Without(c, i)| == |c| - 1 && Without(c, i)[j] == c[if j < i then j else j + 1]
  {
  }

  lemma WithoutLength(c: seq<nat>, i: nat)
    requires i < |c|
    ensures |Without(c, i)| == |c| - 1
  {
  }

  /** A chain that avoids slot `s` does not notice a new link there. */
  lemma FollowsElsewhere(c: seq<nat>, head: nat, next: seq<nat>, s: nat, x: nat)
    requires Follows(c, head, next) && s < |next| && s !in c
    ensures Follows(c, head, next[s := x])
  {
  }

  lemma PushFollows(c: seq<nat>, head: nat, next: seq<nat>, s: nat)
    requires Follows(c, head, next) && NoRepeat(c) && s < |next| && s !in c
    ensures Follows([s] + c, s, next[s := head]) && NoRepeat([s] + c)
  {
    var p := [s] + c;
    assert forall i :: 0 < i < |p| ==> p[i] == c[i - 1];
  }

  // ── The three updates keep the invariant ──

  ghost predicate OnNoChain(chains: seq<seq<nat>>, s: nat) {
    forall b :: 0 <= b < |chains| ==> s !in chains[b]
  }

  /** A slot is on no chain when its tag's entry is another slot or missing. */
  lemma UnlinkedIsOnNoChain<K(!new)>(tags: seq<K>, next: seq<nat>, heads: seq<nat>, hash: K -> nat,
                                     chains: seq<seq<nat>>, where: map<K, nat>, s: nat)
    requires ChainsOk(tags, next, heads, hash, chains, where) && s < |tags|
    ensures OnNoChain(chains, s) <==> !(tags[s] in where && where[tags[s]] == s)
  {
    if tags[s] in where && where[tags[s]] == s {
      assert s in chains[Bucket(hash, tags[s], |heads|)];
    }
  }

  /** Giving an unlinked slot another tag or link. */
  lemma RetagKeeps<K(!new)>(tags: seq<K>, next: seq<nat>, heads: seq<nat>, hash: K -> nat,
                            chains: seq<seq<nat>>, where: map<K, nat>, s: nat, k: K, x: nat)
    requires ChainsOk(tags, next, heads, hash, chains, where) && s < |tags| && OnNoChain(chains, s)
    ensures ChainsOk(tags[s := k], next[s := x], heads, hash, chains, where)
  {
    forall b | 0 <= b < |chains| ensures Follows(chains[b], heads[b], next[s := x]) {
      FollowsElsewhere(chains[b], heads[b], next, s, x);
    }
    hide Follows, NoRepeat;
    forall q | q in where ensures where[q] != s {
      assert where[q] in chains[Bucket(hash, q, |heads|)];
    }
  }

  /** Pushing an unlinked slot that carries tag `k` on the front of its chain. */
  lemma LinkKeeps<K(!new)>(tags: seq<K>, next: seq<nat>, heads: seq<nat>, hash: K -> nat,
                           chains: seq<seq<nat>>, where: map<K, nat>, s: nat)
    requires ChainsOk(tags, next, heads, hash, chains, where) && s < |tags| && OnNoChain(chains, s) && tags[s] !in where
    ensures var b := Bucket(hash, tags[s], |heads|);
            ChainsOk(tags, next[s := heads[b]], heads[b := s], hash, chains[b := [s] + chains[b]], where[tags[s] := s])
  {
    var b := Bucket(hash, tags[s], |heads|);
    var n1, h1, c1 := next[s := heads[b]], heads[b := s], chains[b := [s] + chains[b]];
    forall d | 0 <= d < |c1| ensures Follows(c1[d], h1[d], n1) && NoRepeat(c1[d]) {
      if d == b {
        PushFollows(chains[b], heads[b], next, s);
      } else {
        FollowsElsewhere(chains[d], heads[d], next, s, heads[b]);
      }
    }
    hide Follows, NoRepeat;
    LinkWhere(tags, hash, chains, where, s);
  }

  lemma LinkWhere<K(!new)>(tags: seq<K>, hash: K -> nat, chains: seq<seq<nat>>, where: map<K, nat>, s: nat)
    requires |chains| > 0 && s < |tags| && OnNoChain(chains, s) && tags[s] !in where
    requires OnOwnChain(tags, hash, chains, where)
    ensures var b := Bucket(hash, tags[s], |chains|);
            OnOwnChain(tags, hash, chains[b := [s] + chains[b]], where[tags[s] := s])
  {
    var b := Bucket(hash, tags[s], |chains|);
    var c1 := chains[b := [s] + chains[b]];
    assert forall x :: x in c1[b] <==> x == s || x in chains[b];
  }

  /** The links after position `i` of chain `b` is taken out: the one before it now skips it. */
  function SkipHeads(heads: seq<nat>, c: seq<nat>, b: nat, i: nat): seq<nat>
    requires b < |heads|
  {
    if i == 0 then heads[b := LinkAt(c, 1)] else heads
  }

  function SkipNext(next: seq<nat>, c: seq<nat>, i: nat): seq<nat>
    requires i < |c| && (i > 0 ==> c[i - 1] < |next|)
  {
    if i == 0 then next else next[c[i - 1] := LinkAt(c, i + 1)]
  }

  lemma UnlinkOwnFollows(next: seq<nat>, head: nat, c: seq<nat>, i: nat)
    requires Follows(c, head, next) && NoRepeat(c) && i < |c|
    ensures Follows(Without(c, i), if i == 0 then LinkAt(c, 1) else head, SkipNext(next, c, i))
    ensures NoRepeat(Without(c, i))
  {
    if i == 0 {
      UnlinkHead(c, head, next);
    } else {
      UnlinkInner(c, head, next, i);
    }
    WithoutNoRepeat(c, i);
  }

  lemma UnlinkAllFollow(next: seq<nat>, heads: seq<nat>, chains: seq<seq<nat>>, b: nat, i: nat)
    requires AllFollow(next, heads, chains) && b < |chains| && i < |chains[b]|
    requires i > 0 ==> chains[b][i - 1] < |next|
    requires i > 0 ==> forall d :: 0 <= d < |chains| && d != b ==> chains[b][i - 1] !in chains[d]
    ensures AllFollow(SkipNext(next, chains[b], i), SkipHeads(heads, chains[b], b, i), chains[b := Without(chains[b], i)])
  {
    hide Without;
    var c := chains[b];
    UnlinkOwnFollows(next, heads[b], c, i);
    hide NoRepeat;
    forall d | 0 <= d < |chains| && d != b ensures Follows(chains[d], heads[d], SkipNext(next, c, i)) {
      if i > 0 {
        FollowsElsewhere(chains[d], heads[d], next, c[i - 1], LinkAt(c, i + 1));
      }
    }
    hide Follows;
  }

  /** Taking the slot at position `i` of chain `b` out of it. */
  lemma UnlinkKeeps<K(!new)>(tags: seq<K>, next: seq<nat>, heads: seq<nat>, hash: K -> nat,
                             chains: seq<seq<nat>>, where: map<K, nat>, b: nat, i: nat)
    requires ChainsOk(tags, next, heads, hash, chains, where) && b < |chains| && i < |chains[b]|
    ensures var c := chains[b];
            && c[i] < |tags| && (i > 0 ==> c[i - 1] < |next|)
            && ChainsOk(tags, SkipNext(next, c, i), SkipHeads(heads, c, b, i), hash, chains[b := Without(c, i)], where - {tags[c[i]]})
  {
    var c := chains[b];
    assert c[i] in chains[b];
    assert i > 0 ==> c[i - 1] in chains[b];
    forall d | 0 <= d < |chains| && d != b && i > 0 ensures c[i - 1] !in chains[d] {
      OneChain(tags, next, heads, hash, chains, where, b, d, c[i - 1]);
    }
    UnlinkAllFollow(next, heads, chains, b, i);
    forall s ensures s in Without(c, i) <==> s in c && s != c[i] {
      OneFollows(next, heads, chains, b);
      WithoutHolds(c, i, s);
    }
    hide AllFollow, Without;
    UnlinkWhere(tags, hash, chains, where, b, i, Without(c, i));
    hide OnOwnChain;
  }

  lemma OneFollows(next: seq<nat>, heads: seq<nat>, chains: seq<seq<nat>>, b: nat)
    requires AllFollow(next, heads, chains) && b < |chains|
    ensures Follows(chains[b], heads[b], next) && NoRepeat(chains[b])
  {
  }

  lemma UnlinkWhere<K(!new)>(tags: seq<K>, hash: K -> nat, chains: seq<seq<nat>>, where: map<K, nat>,
                             b: nat, i: nat, w: seq<nat>)
    requires b < |chains| && i < |chains[b]|
    requires OnOwnChain(tags, hash, chains, where)
    requires forall s :: s in w <==> s in chains[b] && s != chains[b][i]
    ensures chains[b][i] < |tags|
    ensures OnOwnChain(tags, hash, chains[b := w], where - {tags[chains[b][i]]})
  {
    var x := chains[b][i];
    assert x in chains[b];
    var w1 := where - {tags[x]};
    forall k | k in w1 ensures w1[k] in chains[b := w][Bucket(hash, k, |chains|)] {
      assert where[k] in chains[Bucket(hash, k, |chains|)];
      assert tags[where[k]] == k;
    }
  }

  /** What one step of a walk may use. */
  lemma StepFacts<K(!new)>(tags: seq<K>, next: seq<nat>, heads: seq<nat>, hash: K -> nat,
                           chains: seq<seq<nat>>, where: map<K, nat>, b: nat, i: nat)
    requires ChainsOk(tags, next, heads, hash, chains, where) && b < |chains|
    ensures |tags| == |next| <= NIL && |heads| == |chains| && heads[b] == LinkAt(chains[b], 0)
    ensures i < |chains[b]| ==> chains[b][i] in chains[b] && chains[b][i] < |tags| && next[chains[b][i]] == LinkAt(chains[b], i + 1)
    ensures i < |chains[b]| ==> tags[chains[b][i]] in where && where[tags[chains[b][i]]] == chains[b][i]
  {
    OneFollows(next, heads, chains, b);
    assert i < |chains[b]| ==> chains[b][i] in chains[b];
  }

  /** The walk for `k` stands at position `i` of its chain and has not met the tag's slot. */
  ghost predicate Walking<K(!new)>(c: seq<nat>, where: map<K, nat>, k: K, i: nat, cur: nat) {
    && i <= |c| && cur == LinkAt(c, i)
    && (k in where ==> forall j :: 0 <= j < i ==> c[j] != where[k])
  }

  lemma WalkStart<K(!new)>(tags: seq<K>, next: seq<nat>, heads: seq<nat>, hash: K -> nat,
                           chains: seq<seq<nat>>, where: map<K, nat>, k: K)
    requires ChainsOk(tags, next, heads, hash, chains, where)
    ensures var b := Bucket(hash, k, |heads|); Walking(chains[b], where, k, 0, heads[b])
  {
    OneFollows(next, heads, chains, Bucket(hash, k, |heads|));
  }

  /** One step of the walk: the end means the tag is missing, its slot means it was found. */
  lemma WalkStep<K(!new)>(tags: seq<K>, next: seq<nat>, heads: seq<nat>, hash: K -> nat,
                          chains: seq<seq<nat>>, where: map<K, nat>, k: K, i: nat, cur: nat)
    requires ChainsOk(tags, next, heads, hash, chains, where)
    requires Walking(chains[Bucket(hash, k, |heads|)], where, k, i, cur)
    ensures cur == NIL ==> k !in where
    ensures |tags| == |next| && (cur != NIL ==> i < |chains[Bucket(hash, k, |heads|)]| && cur < |tags|)
    ensures cur != NIL && tags[cur] == k ==> k in where && where[k] == cur
    ensures cur != NIL && tags[cur] != k ==> Walking(chains[Bucket(hash, k, |heads|)], where, k, i + 1, next[cur])
  {
    hide AllFollow, OnOwnChain, Bucket;
    var b := Bucket(hash, k, |heads|);
    StepFacts(tags, next, heads, hash, chains, where, b, i);
    WhereFacts(tags, next, heads, hash, chains, where, k);
  }

  lemma LinkedIff<K(!new)>(tags: seq<K>, next: seq<nat>, heads: seq<nat>, hash: K -> nat,
                           chains: seq<seq<nat>>, where: map<K, nat>, s: nat)
    requires ChainsOk(tags, next, heads, hash, chains, where) && s < |tags|
    ensures s in chains[Bucket(hash, tags[s], |chains|)] <==> tags[s] in where && where[tags[s]] == s
  {
    UnlinkedIsOnNoChain(tags, next, heads, hash, chains, where, s);
    WhereFacts(tags, next, heads, hash, chains, where, tags[s]);
  }

  // ── The arrays ──

  class Chains<K(!new, ==)> {
    const hash: K -> nat
    const tags: array<K>
    const next: array<nat>
    const heads: array<nat>
    ghost var chains: seq<seq<nat>>
    /** The slot of each linked tag. */
    ghost var where: map<K, nat>

    ghost predicate Valid()
      reads this, tags, next, heads
    {
      var t: object := tags;
      t != next && t != heads && next != heads && |chains| == heads.Length > 0
      && tags.Length == next.Length && ChainsOk(tags[..], next[..], heads[..], hash, chains, where)
    }

    ghost predicate Linked(s: nat)
      requires s < tags.Length
      reads this, tags
    {
      tags[s] in where && where[tags[s]] == s
    }

    constructor (n: nat, buckets: nat, hash: K -> nat, empty: K)
      requires n <= NIL && buckets > 0
      ensures Valid() && where == map[] && this.hash == hash && tags.Length == n && heads.Length == buckets
      ensures fresh(tags) && fresh(next) && fresh(heads) && tags[..] == seq(n, _ => empty)
    {
      this.hash := hash;
      tags := new K[n](_ => empty);
      next := new nat[n](_ => NIL);
      heads := new nat[buckets](_ => NIL);
      chains, where := seq(buckets, _ => []), map[];
    }

    /** `lookup_and_pin`: finds a tag exactly when it is linked. */
    method Lookup(k: K) returns (r: Option<nat>)
      requires Valid()
      ensures r == if k in where then Some(where[k]) else None
    {
      hide ChainsOk, Walking;
      var cur := heads[Bucket(hash, k, heads.Length)];
      ghost var c := chains[Bucket(hash, k, heads.Length)];
      ghost var i := 0;
      WalkStart(tags[..], next[..], heads[..], hash, chains, where, k);
      while cur != NIL
        invariant Walking(c, where, k, i, cur)
        decreases |c| - i
      {
        WalkStep(tags[..], next[..], heads[..], hash, chains, where, k, i, cur);
        if tags[cur] == k {
          return Some(cur);
        }
        cur := next[cur];
        i := i + 1;
      }
      WalkStep(tags[..], next[..], heads[..], hash, chains, where, k, i, cur);
      r := None;
    }

    /** Take the slot at position `i` of chain `b` out, by rewriting the link before it. */
    method Skip(b: nat, ghost i: nat, prev: nat, s: nat)
      requires Valid() && b < heads.Length && i < |chains[b]| && chains[b][i] == s < tags.Length
      requires prev == if i == 0 then NIL else chains[b][i - 1]
      modifies this, next, heads
      ensures Valid() && where == old(where) - {tags[s]}
    {
      hide ChainsOk, Without;
      ghost var c := chains[b];
      UnlinkKeeps(tags[..], next[..], heads[..], hash, chains, where, b, i);
      StepFacts(tags[..], next[..], heads[..], hash, chains, where, b, i);
      ghost var n1, h1 := SkipNext(next[..], c, i), SkipHeads(heads[..], c, b, i);
      if prev == NIL {
        heads[b] := next[s];
      } else {
        next[prev] := next[s];
      }
      assert next[..] == n1 && heads[..] == h1;
      where := where - {tags[s]};
      chains := chains[b := Without(c, i)];
    }

    /** `unlink_from_chain`: a slot that is on the chain leaves it; otherwise nothing happens. */
    method Unlink(s: nat, b: nat)
      requires Valid() && b < heads.Length && s < tags.Length
      modifies this, next, heads
      ensures Valid()
      ensures where == if s in old(chains)[b] then old(where) - {tags[s]} else old(where)
    {
      hide ChainsOk;
      ghost var c := chains[b];
      StepFacts(tags[..], next[..], heads[..], hash, chains, where, b, 0);
      var head := heads[b];
      if head == NIL {
        return;
      }
      if head == s {
        Skip(b, 0, NIL, s);
        return;
      }
      var prev := head;
      ghost var i := 0;
      while true
        invariant i < |c| && prev == c[i] && prev < next.Length
        invariant forall j :: 0 <= j <= i ==> c[j] != s
        invariant Valid() && chains == old(chains) && where == old(where)
        decreases |c| - i
      {
        StepFacts(tags[..], next[..], heads[..], hash, chains, where, b, i);
        StepFacts(tags[..], next[..], heads[..], hash, chains, where, b, i + 1);
        var after := next[prev];
        if after == NIL {
          return;
        }
        if after == s {
          Skip(b, i + 1, prev, s);
          return;
        }
        prev := after;
        i := i + 1;
      }
    }

    /** A slot leaves its own tag's chain if it is linked. */
    method UnlinkOwn(s: nat)
      requires Valid() && s < tags.Length
      modifies this, next, heads
      ensures Valid() && !Linked(s)
      ensures where == if old(Linked(s)) then old(where) - {tags[s]} else old(where)
    {
      LinkedIff(tags[..], next[..], heads[..], hash, chains, where, s);
      hide ChainsOk;
      Unlink(s, Bucket(hash, tags[s], heads.Length));
    }

    /** Give an unlinked slot a tag and put it at the front of that tag's chain. */
    method Link(s: nat, k: K)
      requires Valid() && s < tags.Length && !Linked(s) && k !in where
      modifies this, tags, next, heads
      ensures Valid() && where == old(where)[k := s] && tags[..] == old(tags[..])[s := k]
    {
      UnlinkedIsOnNoChain(tags[..], next[..], heads[..], hash, chains, where, s);
      hide ChainsOk;
      var b := Bucket(hash, k, heads.Length);
      RetagKeeps(tags[..], next[..], heads[..], hash, chains, where, s, k, heads[b]);
      LinkKeeps(tags[..][s := k], next[..][s := heads[b]], heads[..], hash, chains, where, s);
      ghost var t1, n1, h1 := tags[..][s := k], next[..][s := heads[b]], heads[..][b := s];
      tags[s] := k;
      next[s] := heads[b];
      heads[b] := s;
      assert tags[..] == t1 && next[..] == n1 && heads[..] == h1;
      assert n1 == n1[s := n1[s]];
      where := where[k := s];
      chains := chains[b := [s] + chains[b]];
    }

    /** Reset an unlinked slot. */
    method Clear(s: nat, empty: K)
      requires Valid() && s < tags.Length && !Linked(s)
      modifies tags, next
      ensures Valid() && tags[..] == old(tags[..])[s := empty]
    {
      UnlinkedIsOnNoChain(tags[..], next[..], heads[..], hash, chains, where, s);
      hide ChainsOk;
      RetagKeeps(tags[..], next[..], heads[..], hash, chains, where, s, empty, NIL);
      ghost var t1, n1 := tags[..][s := empty], next[..][s := NIL];
      tags[s] := empty;
      next[s] := NIL;
      assert tags[..] == t1 && next[..] == n1;
    }
  }
}

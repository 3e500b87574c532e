/**
 * What the read path may rely on in the active window: the newest commits, newest
 * first, each answering "maybe" for chunks and a three-way answer for forks.
 */
module WindowSpec {
  import opened Types

  /** Per-checkpoint summary, as a segment file keeps it. */
  datatype Commit = Commit(ckpt: Checkpoint, prev: Checkpoint, redo: Checkpoint,
                           chunks: set<ChunkTag>, relforks: map<RelFork, Meta>)

  datatype Answer = Hit(meta: Meta) | DefinitiveMiss | Inconclusive

  /**
   * `db`: this database's id; `window`: entries in the ring; `maybe`: the Bloom
   * filter's answer for a commit; `ask`: the fork index's answer for a commit.
   */
  datatype Config = Config(db: U64, window: nat,
                           maybe: (Commit, ChunkTag) -> bool,
                           ask: (Commit, RelFork) -> Answer)
  {
    /** Filters have no false negatives, indexes never lie, and the ring has room. */
    ghost predicate Sound() {
      && window > 0
      && (forall k: Commit, t: ChunkTag {:trigger maybe(k, t)} :: t in k.chunks ==> maybe(k, t))
      && (forall k: Commit, rf: RelFork {:trigger ask(k, rf)} ::
            match ask(k, rf)
            case Hit(meta) => rf in k.relforks && k.relforks[rf] == meta
            case DefinitiveMiss => rf !in k.relforks
            case Inconclusive => true)
    }
  }

  /** A push drops the oldest entry of a full window. */
  function Pushed<T>(w: seq<T>, x: T, cap: nat): seq<T> {
    ([x] + w)[..Min(|w| + 1, cap)]
  }

  /** `w` lists the newest `|w|` items of `h`, newest first. */
  ghost predicate ListsNewest<T(!new)>(w: seq<T>, h: seq<T>) {
    && |w| <= |h|
    && forall i :: 0 <= i < |w| ==> w[i] == h[|h| - 1 - i]
  }

  lemma PushListsNewest<T(!new)>(w: seq<T>, h: seq<T>, x: T, cap: nat)
    requires ListsNewest(w, h)
    ensures ListsNewest(Pushed(w, x, cap), h + [x])
    ensures |Pushed(w, x, cap)| == Min(|w| + 1, cap)
  {
    var p := Pushed(w, x, cap);
    var g := h + [x];
    forall i | 0 <= i < |p| ensures p[i] == g[|g| - 1 - i] {
      if i > 0 {
        assert p[i] == w[i - 1];
        assert g[|g| - 1 - i] == h[|h| - 1 - (i - 1)];
      }
    }
  }
}

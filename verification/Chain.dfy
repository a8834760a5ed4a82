/** Blocks, the backends' view of the chain, and the walk towards the genesis block. */
module Chain {
  import opened Options

  const U64_MAX: nat := 0xFFFF_FFFF_FFFF_FFFF

  /** `saturating_add(1)` on a 64-bit number. */
  function Successor(n: nat): nat { if n < U64_MAX then n + 1 else U64_MAX }

  function SaturatingSub(a: nat, b: nat): nat { if a < b then 0 else a - b }

  /** `Ord::max` on options: `None` sorts below every `Some`. */
  function MaxOption(a: Option<nat>, b: Option<nat>): Option<nat> {
    if a.None? then b else if b.None? then a else Some(if a.value < b.value then b.value else a.value)
  }

  type Hash = nat

  /** The hash of `Block::default()`, which is never cached. */
  const ZERO_HASH: Hash := 0

  datatype Block = Block(hash: Hash, parentHash: Hash, number: nat)

  type Blocks = map<Hash, Block>

  /** A hash identifies its block, and a parent is numbered one below its child. */
  ghost predicate Linked(bs: Blocks) { forall h {:trigger LinkedAt(bs, h)} :: LinkedAt(bs, h) }

  ghost predicate LinkedAt(bs: Blocks, h: Hash) {
    h in bs ==>
      && bs[h].hash == h
      && bs[h].number <= U64_MAX
      && (bs[h].parentHash in bs ==> bs[bs[h].parentHash].number + 1 == bs[h].number)
  }

  ghost predicate Within(bs: Blocks, truth: Blocks) {
    forall h | h in bs :: h in truth && bs[h] == truth[h]
  }

  ghost predicate Real(truth: Blocks, b: Block) { b.hash in truth && truth[b.hash] == b }

  /** Enough of `Linked` for the walk from `b` through `bs` to be well founded. */
  ghost predicate Walkable(bs: Blocks, b: Block) {
    && Linked(bs)
    && (b.parentHash in bs ==> bs[b.parentHash].number + 1 == b.number)
  }

  /** `b` followed by all its ancestors that can be looked up in `bs`, nearest first. */
  ghost function Ancestry(bs: Blocks, b: Block): (path: seq<Block>)
    requires Walkable(bs, b)
    ensures |path| >= 1 && path[0] == b
    decreases b.number
  {
    assert LinkedAt(bs, b.parentHash);
    [b] + if b.parentHash in bs then Ancestry(bs, bs[b.parentHash]) else []
  }

  ghost predicate AncestorOrSelf(truth: Blocks, a: Block, b: Block)
    requires Walkable(truth, b)
  {
    a in Ancestry(truth, b)
  }

  lemma {:induction false} RealIsWalkable(truth: Blocks, bs: Blocks, b: Block)
    requires Linked(truth) && Within(bs, truth) && Real(truth, b)
    ensures Walkable(bs, b)
  {
    assert LinkedAt(truth, b.hash);
    forall h ensures LinkedAt(bs, h) {
      assert LinkedAt(truth, h);
    }
  }

  /** The k-th block of a walk is numbered k below its start and is a real block. */
  lemma {:induction false} AncestryNumbers(truth: Blocks, bs: Blocks, b: Block, k: nat)
    requires Linked(truth) && Within(bs, truth) && Real(truth, b)
    requires Walkable(bs, b) && k < |Ancestry(bs, b)|
    ensures Ancestry(bs, b)[k].number + k == b.number
    ensures Real(truth, Ancestry(bs, b)[k])
    decreases b.number
  {
    if k > 0 {
      assert LinkedAt(truth, b.parentHash) && LinkedAt(bs, b.parentHash);
      AncestryNumbers(truth, bs, bs[b.parentHash], k - 1);
    }
  }

  lemma {:induction false} DropFromCons(b: Block, rest: seq<Block>, k: nat)
    requires 0 < k <= |rest|
    ensures ([b] + rest)[k] == rest[k - 1] && ([b] + rest)[k..] == rest[k - 1..]
  {
  }

  /** The walk from the k-th block is the rest of the walk. */
  lemma {:induction false} AncestrySuffix(bs: Blocks, b: Block, k: nat)
    requires Walkable(bs, b) && k < |Ancestry(bs, b)|
    ensures Walkable(bs, Ancestry(bs, b)[k])
    ensures Ancestry(bs, Ancestry(bs, b)[k]) == Ancestry(bs, b)[k..]
    decreases b.number
  {
    if k > 0 {
      assert LinkedAt(bs, b.parentHash);
      var rest := Ancestry(bs, bs[b.parentHash]);
      AncestrySuffix(bs, bs[b.parentHash], k - 1);
      assert Ancestry(bs, b) == [b] + rest;
      DropFromCons(b, rest, k);
    }
  }

  /** Knowing fewer blocks only cuts the walk short. */
  lemma {:induction false} AncestryPrefix(truth: Blocks, bs: Blocks, b: Block)
    requires Linked(truth) && Within(bs, truth) && Walkable(bs, b) && Walkable(truth, b)
    ensures Ancestry(bs, b) <= Ancestry(truth, b)
    decreases b.number
  {
    if b.parentHash in bs {
      assert LinkedAt(truth, b.parentHash) && LinkedAt(bs, b.parentHash);
      AncestryPrefix(truth, bs, bs[b.parentHash]);
    }
  }

  /** Along one walk, every later block is an ancestor of every earlier one. */
  lemma {:induction false} LaterIsAncestor(truth: Blocks, bs: Blocks, b: Block, j: nat, k: nat)
    requires Linked(truth) && Within(bs, truth) && Real(truth, b) && Walkable(bs, b)
    requires j <= k < |Ancestry(bs, b)|
    ensures Walkable(truth, Ancestry(bs, b)[j])
    ensures AncestorOrSelf(truth, Ancestry(bs, b)[k], Ancestry(bs, b)[j])
  {
    RealIsWalkable(truth, truth, b);
    AncestryPrefix(truth, bs, b);
    AncestrySuffix(truth, b, j);
    var path := Ancestry(truth, b);
    assert path[j..][k - j] == path[k];
  }
}

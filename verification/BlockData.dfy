/** Which blocks a server is believed to hold, and how that belief is probed. */
module BlockData {
  import opened Options
  import opened Chain

  /** The depths probed, shallowest first; the last one stands for an archive node. */
  const DEPTHS: seq<nat> := [0, 32, 64, 128, 256, 512, 1024, 90_000, U64_MAX]

  /** A node that keeps the `depth` blocks below its head holds block `n` when its head is `head`. */
  predicate Keeps(depth: nat, head: nat, n: nat) { n <= head && head - n <= depth }

  function HasBlockData(head: Option<nat>, limit: nat, needed: nat): bool {
    head.Some? && needed <= head.value && needed >= SaturatingSub(head.value, limit)
  }

  /** What the node answers to the i-th probe: its head number, if it answers, and whether the old state was found. */
  datatype Probe = Probe(head: Option<nat>, found: bool)

  /** A state is only ever reported as found if the node keeps its block. */
  predicate Truthful(depth: nat, d: nat, p: Probe) {
    p.head.Some? && p.found ==> Keeps(depth, p.head.value, SaturatingSub(p.head.value, d))
  }

  class Web3Rpc {
    const automaticBlockLimit: bool
    var headBlock: Option<nat>
    var blockDataLimit: nat

    constructor (automatic: bool, limit: nat)
      ensures automaticBlockLimit == automatic && headBlock == None && blockDataLimit == limit
    {
      automaticBlockLimit, headBlock, blockDataLimit := automatic, None, limit;
    }

    /** Probes deeper and deeper until a state is missing and stores the deepest depth that was still found. */
    method CheckBlockDataLimit(probes: seq<Probe>) returns (ok: bool, limit: Option<nat>)
      requires |probes| == |DEPTHS|
      modifies this`blockDataLimit
      ensures limit.None? ==> blockDataLimit == old(blockDataLimit)
      ensures limit.Some? ==> ok && automaticBlockLimit && blockDataLimit == limit.value
      ensures ok && automaticBlockLimit ==> limit == Deepest(probes, 0, None)
      ensures ok <==> automaticBlockLimit ==> !HeadMissing(probes, 0)
    {
      limit := None;
      if !automaticBlockLimit {
        return true, None;
      }
      var i := 0;
      while i < |DEPTHS|
        invariant 0 <= i <= |DEPTHS| && blockDataLimit == old(blockDataLimit)
        invariant Deepest(probes, 0, None) == Deepest(probes, i, limit)
        invariant HeadMissing(probes, 0) <==> HeadMissing(probes, i)
      {
        if probes[i].head.None? {
          return false, None;
        }
        if !probes[i].found {
          break;
        }
        limit := Some(DEPTHS[i]);
        i := i + 1;
      }
      if limit.Some? {
        blockDataLimit := limit.value;
      }
      ok := true;
    }

    method IsHeld(needed: nat) returns (b: bool)
      ensures b == HasBlockData(headBlock, blockDataLimit, needed)
    {
      if headBlock.None? {
        return false;
      }
      var head := headBlock.value;
      if needed > head {
        return false;
      }
      b := needed >= SaturatingSub(head, blockDataLimit);
    }
  }

  /** From probe `i` on, the node does not tell its head before the first miss. */
  predicate HeadMissing(probes: seq<Probe>, i: nat)
    requires |probes| == |DEPTHS| && i <= |DEPTHS|
    decreases |DEPTHS| - i
  {
    i < |DEPTHS| && (probes[i].head.None? || (probes[i].found && HeadMissing(probes, i + 1)))
  }

  /** The last depth found before the first miss, from probe `i` on. */
  function Deepest(probes: seq<Probe>, i: nat, limit: Option<nat>): Option<nat>
    requires |probes| == |DEPTHS| && i <= |DEPTHS|
    decreases |DEPTHS| - i
  {
    if i == |DEPTHS| || probes[i].head.None? || !probes[i].found then limit
    else Deepest(probes, i + 1, Some(DEPTHS[i]))
  }

  /** Deepest's result comes from some probe that was found, and so were all shallower ones. */
  lemma {:induction false} DeepestProbe(probes: seq<Probe>, i: nat, limit: Option<nat>) returns (k: nat)
    requires |probes| == |DEPTHS| && i <= |DEPTHS|
    ensures i <= k <= |DEPTHS|
    ensures Deepest(probes, i, limit) == if k == i then limit else Some(DEPTHS[k - 1])
    ensures forall j | i <= j < k :: probes[j].head.Some? && probes[j].found
    ensures k < |DEPTHS| ==> probes[k].head.None? || !probes[k].found
    decreases |DEPTHS| - i
  {
    if i == |DEPTHS| || probes[i].head.None? || !probes[i].found {
      k := i;
    } else {
      k := DeepestProbe(probes, i + 1, Some(DEPTHS[i]));
    }
  }

  ghost predicate Sound(depth: nat, head: nat, limit: nat) {
    forall n: nat | HasBlockData(Some(head), limit, n) :: Keeps(depth, head, n)
  }

  /** A stored limit never promises a missing block at a head exactly when it, or the whole chain, fits the kept
      depth. */
  lemma {:induction false} SoundIff(depth: nat, head: nat, limit: nat)
    ensures Sound(depth, head, limit) <==> limit <= depth || head <= depth
  {
    var oldest := SaturatingSub(head, limit);
    if Sound(depth, head, limit) {
      assert HasBlockData(Some(head), limit, oldest);
      assert Keeps(depth, head, oldest);
    }
  }

  /** The probed limit never overstates what the node keeps at the head it was probed at. */
  lemma {:induction false} ProbedLimitIsSound(depth: nat, probes: seq<Probe>)
    requires |probes| == |DEPTHS| && Deepest(probes, 0, None).Some?
    requires forall i | 0 <= i < |DEPTHS| :: Truthful(depth, DEPTHS[i], probes[i])
    ensures exists i :: 0 <= i < |DEPTHS| && DEPTHS[i] == Deepest(probes, 0, None).value && probes[i].head.Some?
                        && probes[i].found && Sound(depth, probes[i].head.value, DEPTHS[i])
  {
    var k := DeepestProbe(probes, 0, None);
    assert Truthful(depth, DEPTHS[k - 1], probes[k - 1]);
    SoundIff(depth, probes[k - 1].head.value, DEPTHS[k - 1]);
  }

  /** Probes taken at one head of a node that answers exactly. */
  ghost predicate Exact(depth: nat, head: nat, probes: seq<Probe>) {
    && |probes| == |DEPTHS|
    && forall i | 0 <= i < |DEPTHS| ::
         probes[i].head == Some(head) && (probes[i].found <==> Keeps(depth, head, SaturatingSub(head, DEPTHS[i])))
  }

  /** With exact answers the limit stays sound while the chain grows exactly when the chain had already outgrown the
      node's depth; a node on a younger chain is taken for an archive node. */
  lemma {:induction false} SoundForeverIff(depth: nat, head: nat, probes: seq<Probe>)
    requires Exact(depth, head, probes) && depth < U64_MAX && head <= U64_MAX
    ensures Deepest(probes, 0, None).Some?
    ensures (forall later: nat | later >= head :: Sound(depth, later, Deepest(probes, 0, None).value)) <==> head > depth
  {
    var k := DeepestProbe(probes, 0, None);
    assert probes[0].found && k > 0;
    var limit := DEPTHS[k - 1];
    assert probes[k - 1].found;
    forall later: nat | later >= head ensures Sound(depth, later, limit) <==> limit <= depth || later <= depth {
      SoundIff(depth, later, limit);
    }
    if head <= depth {
      assert forall i | 0 <= i < |DEPTHS| :: probes[i].found;
      assert !Sound(depth, depth + 1, limit);
    }
  }

  /** The depths that are probed. */
  predicate IsProbed(d: nat) {
    d == 0 || d == 32 || d == 64 || d == 128 || d == 256 || d == 512 || d == 1024 || d == 90_000
    || d == 18_446_744_073_709_551_615
  }

  lemma {:induction false} DepthsGrow()
    ensures forall i, j | 0 <= i < j < |DEPTHS| :: DEPTHS[i] < DEPTHS[j]
    ensures forall d: nat :: IsProbed(d) <==> d in DEPTHS
    ensures |DEPTHS| == 9
  {
  }

  /** On a chain that has outgrown the node's depth the limit stored is the largest probed depth that the node keeps. */
  lemma {:induction false} ProbedLimitIsLargest(depth: nat, head: nat, probes: seq<Probe>)
    requires Exact(depth, head, probes) && depth < head <= U64_MAX
    ensures var limit := Deepest(probes, 0, None);
      && limit.Some? && IsProbed(limit.value) && limit.value <= depth
      && forall d: nat | IsProbed(d) && d <= depth :: d <= limit.value
  {
    DepthsGrow();
    var k := DeepestProbe(probes, 0, None);
    assert DEPTHS[0] == 0 && probes[0].found && k > 0;
    assert probes[k - 1].found;
    forall d: nat | IsProbed(d) && d <= depth ensures d <= DEPTHS[k - 1] {
      var i :| 0 <= i < |DEPTHS| && DEPTHS[i] == d;
      assert probes[i].found;
    }
  }

  /** A server that has the data of both ends of a range has all of it. */
  lemma {:induction false} RangeIsHeld(depth: nat, head: nat, limit: nat, min: nat, max: nat, n: nat)
    requires Sound(depth, head, limit) && min <= n <= max
    requires HasBlockData(Some(head), limit, min) && HasBlockData(Some(head), limit, max)
    ensures Keeps(depth, head, n)
  {
    assert HasBlockData(Some(head), limit, n);
  }
}

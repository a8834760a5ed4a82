/** The nested groups of tracked heads, and the choice of the lowest tier that finds a consensus. */
module Tiers {
  import opened Options
  import opened Chain
  import opened HeadScan

  const TIERS: nat := 10

  datatype Group = Group(heads: map<Rpc, Block>, highest: Option<Block>)

  function InsertHead(g: Group, r: Rpc, b: Block): Group {
    Group(g.heads[r := b],
          if g.highest.None? || b.number > g.highest.value.number then Some(b) else g.highest)
  }

  function RemoveHead(g: Group, r: Rpc): Group { Group(g.heads - {r}, g.highest) }

  /** Every tracked head is a real block and none is above the group's highest block. */
  ghost predicate GroupValid(truth: Blocks, g: Group) {
    && (forall r | r in g.heads :: Real(truth, g.heads[r]))
    && (g.highest.None? ==> g.heads == map[])
    && (g.highest.Some? ==>
          && Real(truth, g.highest.value)
          && forall r | r in g.heads :: g.heads[r].number <= g.highest.value.number)
  }

  // ----- one group over any history -----

  datatype GroupOp = Insert(rpc: Rpc, block: Block) | Remove(rpc: Rpc)

  ghost function RunOps(ops: seq<GroupOp>): Group {
    if ops == [] then Group(map[], None) else
      var g := RunOps(ops[..|ops| - 1]);
      match ops[|ops| - 1]
      case Insert(r, b) => InsertHead(g, r, b)
      case Remove(r) => RemoveHead(g, r)
  }

  ghost function Inserted(ops: seq<GroupOp>): seq<Block> {
    if ops == [] then [] else
      Inserted(ops[..|ops| - 1]) + if ops[|ops| - 1].Insert? then [ops[|ops| - 1].block] else []
  }

  ghost predicate FirstMaximum(bs: seq<Block>, b: Block) {
    exists i :: 0 <= i < |bs| && bs[i] == b
                && (forall j | 0 <= j < i :: bs[j].number < b.number)
                && (forall j | i <= j < |bs| :: bs[j].number <= b.number)
  }

  lemma {:induction false} FirstMaximumNext(bs: seq<Block>, b: Block, x: Block)
    requires FirstMaximum(bs, b)
    ensures FirstMaximum(bs + [x], if x.number > b.number then x else b)
  {
    var all := bs + [x];
    var i :| 0 <= i < |bs| && bs[i] == b
             && (forall j | 0 <= j < i :: bs[j].number < b.number)
             && (forall j | i <= j < |bs| :: bs[j].number <= b.number);
    assert all[i] == b && all[|bs|] == x;
    assert forall j | 0 <= j < |bs| :: all[j] == bs[j];
  }

  /** Removals never lower it: `highest` is the first inserted block of the greatest height, and it bounds every
      head. */
  lemma {:induction false} HighestIsFirstMaximum(ops: seq<GroupOp>)
    ensures var g := RunOps(ops);
      && (g.highest.None? <==> Inserted(ops) == [])
      && (g.highest.Some? ==> FirstMaximum(Inserted(ops), g.highest.value))
      && (forall r | r in g.heads :: g.highest.Some? && g.heads[r].number <= g.highest.value.number)
  {
    if ops != [] {
      var before, op := ops[..|ops| - 1], ops[|ops| - 1];
      HighestIsFirstMaximum(before);
      var bs, g := Inserted(before), RunOps(before);
      if op.Insert? {
        assert Inserted(ops) == bs + [op.block];
        if g.highest.None? {
          assert (bs + [op.block])[0] == op.block;
        } else {
          FirstMaximumNext(bs, g.highest.value, op.block);
        }
      } else {
        assert Inserted(ops) == bs;
      }
    }
  }

  // ----- the ten groups -----

  function InsertAll(ts: seq<Group>, r: Rpc, b: Block): seq<Group> {
    seq(|ts|, i requires 0 <= i < |ts| => if i < r.tier then ts[i] else InsertHead(ts[i], r, b))
  }

  function RemoveAll(ts: seq<Group>, r: Rpc): seq<Group> {
    seq(|ts|, i requires 0 <= i < |ts| => if i < r.tier then ts[i] else RemoveHead(ts[i], r))
  }

  function UpTo(heads: map<Rpc, Block>, tier: nat): map<Rpc, Block> {
    map r | r in heads && r.tier <= tier :: heads[r]
  }

  ghost predicate HighestAtMost(a: Group, b: Group) {
    a.highest.Some? ==> b.highest.Some? && a.highest.value.number <= b.highest.value.number
  }

  /** Tier i tracks exactly the servers of tier at most i, with the heads the last tier has for them. */
  ghost predicate Coherent(ts: seq<Group>) {
    && |ts| == TIERS
    && (forall i | 0 <= i < TIERS :: ts[i].heads == UpTo(ts[TIERS - 1].heads, i))
    && (forall i, j | 0 <= i <= j < TIERS :: HighestAtMost(ts[i], ts[j]))
  }

  ghost predicate TiersValid(truth: Blocks, ts: seq<Group>) {
    Coherent(ts) && forall i | 0 <= i < TIERS :: GroupValid(truth, ts[i])
  }

  function NoTiers(): seq<Group> { seq(TIERS, i => Group(map[], None)) }

  /** A server reports a head of some age, or that it has none. */
  datatype Report = Report(rpc: Rpc, block: Option<Block>, age: nat) {
    predicate Kept(maxAge: Option<nat>) { block.Some? && (maxAge.None? || age <= maxAge.value) }
  }

  function AllHeads(ts: seq<Group>): map<Rpc, Block>
    requires |ts| == TIERS
  {
    ts[TIERS - 1].heads
  }

  function Update(ts: seq<Group>, maxAge: Option<nat>, ev: Report): seq<Group> {
    if ev.Kept(maxAge) then InsertAll(ts, ev.rpc, ev.block.value) else RemoveAll(ts, ev.rpc)
  }

  /** What `update_rpc` answers: did the server's head hash change? A server beyond the last tier always counts as
      new. */
  predicate Changed(ts: seq<Group>, maxAge: Option<nat>, ev: Report)
    requires |ts| == TIERS
  {
    var tracked := ev.rpc.tier < TIERS && ev.rpc in AllHeads(ts);
    if ev.Kept(maxAge) then !tracked || AllHeads(ts)[ev.rpc].hash != ev.block.value.hash else tracked
  }

  lemma {:induction false} UpToInsert(heads: map<Rpc, Block>, r: Rpc, b: Block, i: nat)
    ensures UpTo(heads[r := b], i) == if r.tier <= i then UpTo(heads, i)[r := b] else UpTo(heads, i)
  {
  }

  lemma {:induction false} UpToRemove(heads: map<Rpc, Block>, r: Rpc, i: nat)
    ensures UpTo(heads - {r}, i) == if r.tier <= i then UpTo(heads, i) - {r} else UpTo(heads, i)
  {
  }

  lemma {:induction false} GroupInsertValid(truth: Blocks, g: Group, r: Rpc, b: Block)
    requires GroupValid(truth, g) && Real(truth, b)
    ensures GroupValid(truth, InsertHead(g, r, b))
    ensures r in g.heads && g.heads[r] == b ==> InsertHead(g, r, b) == g
  {
    if r in g.heads && g.heads[r] == b {
      assert g.heads[r := b] == g.heads;
    }
  }

  lemma {:induction false} GroupRemoveValid(truth: Blocks, g: Group, r: Rpc)
    requires GroupValid(truth, g)
    ensures GroupValid(truth, RemoveHead(g, r))
    ensures r !in g.heads ==> RemoveHead(g, r) == g
  {
    if r !in g.heads {
      assert g.heads - {r} == g.heads;
    }
  }

  lemma {:induction false} HighestOrderKept(a: Group, b: Group, r: Rpc, x: Block)
    requires HighestAtMost(a, b)
    ensures HighestAtMost(InsertHead(a, r, x), InsertHead(b, r, x)) && HighestAtMost(a, InsertHead(b, r, x))
  {
  }

  lemma {:induction false} InsertValid(truth: Blocks, ts: seq<Group>, r: Rpc, b: Block)
    requires TiersValid(truth, ts) && Real(truth, b)
    ensures TiersValid(truth, InsertAll(ts, r, b))
  {
    var us := InsertAll(ts, r, b);
    forall i | 0 <= i < TIERS ensures us[i].heads == UpTo(us[TIERS - 1].heads, i) && GroupValid(truth, us[i]) {
      assert ts[i].heads == UpTo(ts[TIERS - 1].heads, i) && GroupValid(truth, ts[i]);
      UpToInsert(ts[TIERS - 1].heads, r, b, i);
      GroupInsertValid(truth, ts[i], r, b);
    }
    forall i, j | 0 <= i <= j < TIERS ensures HighestAtMost(us[i], us[j]) {
      HighestOrderKept(ts[i], ts[j], r, b);
    }
  }

  lemma {:induction false} RemoveValid(truth: Blocks, ts: seq<Group>, r: Rpc)
    requires TiersValid(truth, ts)
    ensures TiersValid(truth, RemoveAll(ts, r))
  {
    var us := RemoveAll(ts, r);
    forall i | 0 <= i < TIERS ensures us[i].heads == UpTo(us[TIERS - 1].heads, i) && GroupValid(truth, us[i]) {
      assert ts[i].heads == UpTo(ts[TIERS - 1].heads, i) && GroupValid(truth, ts[i]);
      UpToRemove(ts[TIERS - 1].heads, r, i);
      GroupRemoveValid(truth, ts[i], r);
    }
    forall i, j | 0 <= i <= j < TIERS ensures HighestAtMost(us[i], us[j]) {
      assert HighestAtMost(ts[i], ts[j]);
    }
  }

  lemma {:induction false} UpdateValid(truth: Blocks, ts: seq<Group>, maxAge: Option<nat>, ev: Report)
    requires TiersValid(truth, ts) && (ev.block.Some? ==> Real(truth, ev.block.value))
    ensures TiersValid(truth, Update(ts, maxAge, ev))
  {
    if ev.Kept(maxAge) {
      InsertValid(truth, ts, ev.rpc, ev.block.value);
    } else {
      RemoveValid(truth, ts, ev.rpc);
    }
  }

  /** A server of the ten tiers is tracked after its report exactly when it reports a block that is not too old, and
      then with that block; the report changes no other server. */
  lemma {:induction false} ReportTracks(truth: Blocks, ts: seq<Group>, maxAge: Option<nat>, ev: Report, r: Rpc,
                                        b: Block)
    requires TiersValid(truth, ts)
    ensures var heads := AllHeads(Update(ts, maxAge, ev));
      (r in heads && heads[r] == b) <==>
        if r == ev.rpc then r.tier < 10 && ev.block == Some(b) && (maxAge.Some? ==> ev.age <= maxAge.value)
        else r in AllHeads(ts) && AllHeads(ts)[r] == b
  {
    assert AllHeads(ts) == UpTo(AllHeads(ts), TIERS - 1);
  }

  /** `update_rpc` answers true exactly when the tracked heads changed, except that a server of tier ten or more, which
      no group ever tracks, answers true for every head it reports. */
  lemma {:induction false} ChangedIffHeadsChanged(truth: Blocks, ts: seq<Group>, maxAge: Option<nat>, ev: Report)
    requires TiersValid(truth, ts) && (ev.block.Some? ==> Real(truth, ev.block.value))
    ensures Changed(ts, maxAge, ev) <==>
            (AllHeads(Update(ts, maxAge, ev)) != AllHeads(ts) || (ev.Kept(maxAge) && ev.rpc.tier >= TIERS))
    ensures !Changed(ts, maxAge, ev) ==> Update(ts, maxAge, ev) == ts
  {
    var us, r := Update(ts, maxAge, ev), ev.rpc;
    if r.tier >= TIERS {
      assert us == ts;
    } else if ev.Kept(maxAge) {
      var b := ev.block.value;
      if r in AllHeads(ts) && AllHeads(ts)[r].hash == b.hash {
        forall i | 0 <= i < TIERS ensures us[i] == ts[i] {
          SameHeadAgain(truth, ts, i, r, b);
        }
        assert us == ts;
      } else {
        assert r in AllHeads(us) && AllHeads(us)[r] == b;
      }
    } else if r in AllHeads(ts) {
      assert r !in AllHeads(us);
    } else {
      forall i | 0 <= i < TIERS ensures us[i] == ts[i] {
        assert ts[i].heads == UpTo(AllHeads(ts), i) && GroupValid(truth, ts[i]);
        GroupRemoveValid(truth, ts[i], r);
      }
      assert us == ts;
    }
  }

  lemma {:induction false} SameHeadAgain(truth: Blocks, ts: seq<Group>, i: nat, r: Rpc, b: Block)
    requires TiersValid(truth, ts) && i < TIERS && Real(truth, b)
    requires r in AllHeads(ts) && AllHeads(ts)[r].hash == b.hash
    ensures r.tier <= i ==> InsertHead(ts[i], r, b) == ts[i]
  {
    assert GroupValid(truth, ts[TIERS - 1]) && GroupValid(truth, ts[i]);
    assert ts[i].heads == UpTo(AllHeads(ts), i);
    GroupInsertValid(truth, ts[i], r, b);
  }

  // ----- choosing a tier -----

  /** Everything outside the groups that the search depends on. `view` holds the blocks that can be looked up. */
  datatype Env = Env(
    registered: set<Rpc>, synced: bool, quorum: Quorum, maxBlockLag: Option<nat>, headNum: Option<nat>, view: Blocks)

  ghost predicate EnvValid(truth: Blocks, env: Env) { Linked(truth) && Within(env.view, truth) }

  ghost predicate Searchable(env: Env, g: Group) { g.highest.Some? ==> Walkable(env.view, g.highest.value) }

  ghost function ScanOf(env: Env, g: Group, minBlockNum: Option<nat>): Scan
    requires g.highest.Some? && Searchable(env, g)
  {
    Scan(g.heads, env.registered, env.synced, env.quorum, Ancestry(env.view, g.highest.value),
         Window(g.highest.value.number, minBlockNum))
  }

  ghost function GroupConsensus(env: Env, g: Group, minBlockNum: Option<nat>, tier: nat): ScanResult
    requires Searchable(env, g)
  {
    if g.highest.None? then NotFound(NoBlocksKnown)
    else if |g.heads| < env.quorum.minHeadRpcs then NotFound(NotEnoughConnected)
    else ScanOf(env, g, minBlockNum).Outcome(tier)
  }

  /** A tier finds nothing, said over its votes: it knows no block, tracks too few servers, or its search fails. */
  ghost predicate TierFails(env: Env, g: Group, m: Option<nat>)
    requires Searchable(env, g)
  {
    g.highest.None? || |g.heads| < env.quorum.minHeadRpcs || ScanOf(env, g, m).Fails()
  }

  lemma {:induction false} TierFailsIff(env: Env, g: Group, m: Option<nat>, tier: nat)
    requires Searchable(env, g)
    ensures GroupConsensus(env, g, m, tier).NotFound? <==> TierFails(env, g, m)
  {
    if g.highest.Some? {
      ScanOf(env, g, m).FailsIff(tier);
    }
  }

  /** The floor: not too far behind the highest block, and not behind the head published last. */
  function MinBlockNum(env: Env, highest: nat): Option<nat> {
    MaxOption(if env.maxBlockLag.None? then None else Some(SaturatingSub(highest, env.maxBlockLag.value)),
              env.headNum)
  }

  /** A number is not below the floor exactly when it is within the configured lag of the highest block and not below
      the head published last. */
  lemma {:induction false} FloorIff(env: Env, highest: nat, n: nat)
    ensures var m := MinBlockNum(env, highest);
      && (m.None? <==> env.maxBlockLag.None? && env.headNum.None?)
      && ((m.Some? ==> n >= m.value) <==>
            && (env.maxBlockLag.Some? ==> n + env.maxBlockLag.value >= highest)
            && (env.headNum.Some? ==> n >= env.headNum.value))
  {
  }

  ghost predicate AllSearchable(env: Env, ts: seq<Group>) { forall g | g in ts :: Searchable(env, g) }

  /** What each tier finds on its own. */
  ghost function TierResults(env: Env, ts: seq<Group>, m: Option<nat>): seq<ScanResult>
    requires AllSearchable(env, ts)
  {
    seq(|ts|, i requires 0 <= i < |ts| => GroupConsensus(env, ts[i], m, i))
  }

  ghost function FirstFound(rs: seq<ScanResult>, i: nat): ScanResult
    requires i <= |rs|
    decreases |rs| - i
  {
    if i == |rs| then NotFound(NoTierSucceeded) else if rs[i].Found? then rs[i] else FirstFound(rs, i + 1)
  }

  lemma {:induction false} FirstFoundAt(rs: seq<ScanResult>, i: nat) returns (t: nat)
    requires i <= |rs|
    ensures i <= t <= |rs| && forall j | i <= j < t :: rs[j].NotFound?
    ensures t < |rs| ==> rs[t].Found? && FirstFound(rs, i) == rs[t]
    ensures t == |rs| ==> FirstFound(rs, i) == NotFound(NoTierSucceeded)
    decreases |rs| - i
  {
    if i == |rs| || rs[i].Found? {
      t := i;
    } else {
      t := FirstFoundAt(rs, i + 1);
    }
  }

  lemma {:induction false} OutcomeTier(s: Scan, tier: nat)
    requires |s.path| >= 1 && s.Outcome(tier).Found?
    ensures s.Outcome(tier).consensus.tier == tier
  {
  }

  lemma {:induction false} FoundOnTier(env: Env, g: Group, m: Option<nat>, tier: nat)
    requires Searchable(env, g) && GroupConsensus(env, g, m, tier).Found?
    ensures g.highest.Some? && GroupConsensus(env, g, m, tier) == ScanOf(env, g, m).Outcome(tier)
    ensures GroupConsensus(env, g, m, tier).consensus.tier == tier
  {
    OutcomeTier(ScanOf(env, g, m), tier);
  }

  /** The chosen consensus is the one its own tier finds, and every lower tier finds none. */
  lemma {:induction false} BestIsLowest(env: Env, ts: seq<Group>, m: Option<nat>, c: ConsensusRpcs)
    requires AllSearchable(env, ts) && FirstFound(TierResults(env, ts, m), 0) == Found(c)
    ensures c.tier < |ts| && ts[c.tier].highest.Some?
    ensures ScanOf(env, ts[c.tier], m).Outcome(c.tier) == GroupConsensus(env, ts[c.tier], m, c.tier) == Found(c)
    ensures forall j | 0 <= j < c.tier :: GroupConsensus(env, ts[j], m, j).NotFound?
  {
    var rs := TierResults(env, ts, m);
    var t := FirstFoundAt(rs, 0);
    FoundOnTier(env, ts[t], m, t);
    forall j | 0 <= j < t ensures GroupConsensus(env, ts[j], m, j).NotFound? {
      assert rs[j].NotFound?;
    }
  }

  ghost function Best(env: Env, ts: seq<Group>): ScanResult
    requires AllSearchable(env, ts) && |ts| == TIERS
  {
    var top := ts[TIERS - 1].highest;
    if top.None? then NotFound(NoBlocksKnown)
    else FirstFound(TierResults(env, ts, MinBlockNum(env, top.value.number)), 0)
  }

  lemma {:induction false} ValidIsSearchable(truth: Blocks, env: Env, ts: seq<Group>)
    requires EnvValid(truth, env) && TiersValid(truth, ts)
    ensures AllSearchable(env, ts)
  {
    forall g | g in ts && g.highest.Some? ensures Walkable(env.view, g.highest.value) {
      var i :| 0 <= i < |ts| && ts[i] == g;
      assert GroupValid(truth, ts[i]);
      RealIsWalkable(truth, env.view, g.highest.value);
    }
  }
}

/** Publishing the consensus, one report at a time, and what holds over every run of reports. */
module HeadTracker {
  import opened Options
  import opened Chain
  import opened HeadScan
  import opened Tiers

  datatype Config = Config(quorum: Quorum, maxBlockLag: Option<nat>, maxBlockAge: Option<nat>)

  /** The shared state: tracked heads, block caches, the published consensus and the watched head block. */
  datatype Node = Node(
    tiers: seq<Group>, byHash: Blocks, byNumber: map<nat, Hash>,
    consensus: Option<ConsensusRpcs>, head: Option<Block>)

  function NewNode(): Node { Node(NoTiers(), map[], map[], None, None) }

  /** One report, with the servers registered and the blocks the backends would serve while it is processed. */
  datatype Event = Event(report: Report, registered: set<Rpc>, net: Blocks)

  function CacheBlock(byHash: Blocks, b: Block): Blocks {
    if b.hash == ZERO_HASH || b.hash in byHash then byHash else byHash[b.hash := b]
  }

  function CacheReport(byHash: Blocks, report: Report): Blocks {
    if report.block.Some? then CacheBlock(byHash, report.block.value) else byHash
  }

  function CacheNumber(byNumber: map<nat, Hash>, b: Block): map<nat, Hash> {
    if b.hash == ZERO_HASH then byNumber else byNumber[b.number := b.hash]
  }

  predicate Synced(consensus: Option<ConsensusRpcs>) { consensus.Some? && consensus.value.rpcs != {} }

  function HeadNum(head: Option<Block>): Option<nat> { if head.None? then None else Some(head.value.number) }

  function EnvOf(cfg: Config, s: Node, ev: Event): Env {
    Env(ev.registered, Synced(s.consensus), cfg.quorum, cfg.maxBlockLag, HeadNum(s.head), ev.net + s.byHash)
  }

  /** A failed search withdraws the consensus but leaves the watched head; a found one is published, and the head is
      sent unless it is the block published before. */
  function Publish(s: Node, res: ScanResult): Node {
    match res
    case NotFound(_) => s.(consensus := None)
    case Found(c) =>
      if s.consensus.Some? && s.consensus.value.headBlock.number == c.headBlock.number
         && s.consensus.value.headBlock.hash == c.headBlock.hash
      then s.(consensus := Some(c))
      else s.(consensus := Some(c), head := Some(c.headBlock), byNumber := CacheNumber(s.byNumber, c.headBlock))
  }

  /** The state once the report is cached and tracked. */
  function Tracked(cfg: Config, s: Node, ev: Event): Node {
    s.(tiers := Update(s.tiers, cfg.maxBlockAge, ev.report), byHash := CacheReport(s.byHash, ev.report))
  }

  /** No block without a hash was added. */
  ghost predicate NoNewZero(before: Blocks, after: Blocks) { ZERO_HASH in after ==> ZERO_HASH in before }

  /** Processing one report. The search may add blocks it fetched to the cache, nothing else is left open. */
  ghost predicate Next(cfg: Config, s: Node, ev: Event, s': Node)
    requires |s.tiers| == TIERS
  {
    var t := Tracked(cfg, s, ev);
    if !Changed(s.tiers, cfg.maxBlockAge, ev.report) then s' == t
    else
      && Within(t.byHash, s'.byHash) && Within(s'.byHash, ev.net + t.byHash) && NoNewZero(t.byHash, s'.byHash)
      && AllSearchable(EnvOf(cfg, t, ev), t.tiers)
      && s' == Publish(t, Best(EnvOf(cfg, t, ev), t.tiers)).(byHash := s'.byHash)
  }

  ghost predicate EventValid(truth: Blocks, ev: Event) {
    Within(ev.net, truth) && (ev.report.block.Some? ==> Real(truth, ev.report.block.value))
  }

  ghost predicate CachedOrZero(byHash: Blocks, b: Block) { b.hash == ZERO_HASH || b.hash in byHash }

  /** Consistency of the caches, the groups and the watched head. */
  ghost predicate NodeValid(truth: Blocks, s: Node) {
    && Linked(truth) && Within(s.byHash, truth) && ZERO_HASH !in s.byHash && TiersValid(truth, s.tiers)
    && (forall i | 0 <= i < TIERS :: s.tiers[i].highest.Some? ==> CachedOrZero(s.byHash, s.tiers[i].highest.value))
    && (s.head.Some? ==> Real(truth, s.head.value))
    && (s.consensus.Some? ==>
          && s.head == Some(s.consensus.value.headBlock)
          && (s.head.value.hash == ZERO_HASH
              || (s.head.value.number in s.byNumber && s.byNumber[s.head.value.number] == s.head.value.hash)))
  }

  /** Servers of tier at most `tier`, a backup among them, whose heads all descend from `b` meet the thresholds. */
  ghost predicate BackedBy(truth: Blocks, q: Quorum, heads: map<Rpc, Block>, tier: nat, b: Block, voters: set<Rpc>) {
    && SumSoftLimit(voters) >= q.minSumSoftLimit && |voters| >= q.minHeadRpcs && (exists r :: r in voters && r.backup)
    && forall r | r in voters ::
         r in heads && r.tier <= tier && Walkable(truth, heads[r]) && AncestorOrSelf(truth, b, heads[r])
  }

  /** What a published consensus promises about the heads tracked now. */
  ghost predicate Agreed(truth: Blocks, q: Quorum, heads: map<Rpc, Block>, c: ConsensusRpcs) {
    && (forall r | r in c.rpcs ::
          && r in heads && r.tier <= c.tier < TIERS && !r.backup
          && Walkable(truth, heads[r]) && AncestorOrSelf(truth, c.headBlock, heads[r]))
    && (!c.backupsNeeded ==>
          SumSoftLimit(c.rpcs) >= q.minSumSoftLimit && |c.rpcs| >= q.minHeadRpcs)
    && (c.backupsNeeded && q.Positive() ==> c.backupsVoted.Some?)
    && (c.backupsVoted.Some? ==> exists voters :: BackedBy(truth, q, heads, c.tier, c.backupsVoted.value, voters))
  }

  ghost predicate PublishedSound(truth: Blocks, cfg: Config, s: Node)
    requires |s.tiers| == TIERS
  {
    s.consensus.Some? ==> Agreed(truth, cfg.quorum, AllHeads(s.tiers), s.consensus.value)
  }

  // ----- one step -----

  /** Where the elected head and the counted servers sit on the walk, and what the vote was. */
  lemma {:induction false} OutcomeShape(s: Scan, tier: nat) returns (k: nat, n: nat, v: nat)
    requires |s.path| >= 1 && s.Outcome(tier).Found?
    ensures k < |s.path| && n <= k + 1
    ensures var c := s.Outcome(tier).consensus;
      && c.tier == tier && c.headBlock == s.path[k] && c.rpcs == s.Primaries(n)
      && (!c.backupsNeeded ==> s.Enough(c.rpcs)) && (c.backupsNeeded && s.quorum.Positive() ==> c.backupsVoted.Some?)
      && (c.backupsVoted.Some? ==> v < |s.path| && c.backupsVoted.value == s.path[v] && s.BackupQuorum(v))
  {
    var stop := s.FirstStop(0);
    v := s.FirstBackup(0, stop);
    if stop < s.Depth() {
      k, n := stop, stop + 1;
    } else if s.BackupVote(stop).Some? {
      k, n := if s.window < |s.path| then s.window else |s.path| - 1, s.Depth();
    } else {
      k, n := 0, 0;
      assert s.Primaries(0) == {};
    }
  }

  /** A block of the walk is an ancestor of the head of every server counted up to it. */
  lemma {:induction false} VoterAgrees(truth: Blocks, view: Blocks, highest: Block, s: Scan, k: nat, n: nat, r: Rpc)
    requires Linked(truth) && Within(view, truth) && Real(truth, highest) && Walkable(view, highest)
    requires s.path == Ancestry(view, highest) && k < |s.path| && n <= k + 1 && r in s.Voters(n)
    requires Real(truth, s.heads[r])
    ensures Walkable(truth, s.heads[r]) && AncestorOrSelf(truth, s.path[k], s.heads[r])
  {
    var j :| 0 <= j < n && s.heads[r].hash == s.path[j].hash;
    AncestryNumbers(truth, view, highest, j);
    assert s.heads[r] == s.path[j];
    LaterIsAncestor(truth, view, highest, j, k);
  }

  lemma {:induction false} VotersBack(truth: Blocks, env: Env, g: Group, m: Option<nat>, tier: nat, s: Scan, v: nat)
    requires EnvValid(truth, env) && GroupValid(truth, g) && Searchable(env, g) && g.highest.Some?
    requires forall r | r in g.heads :: r.tier <= tier
    requires s == ScanOf(env, g, m) && v < |s.path| && s.BackupQuorum(v)
    ensures BackedBy(truth, env.quorum, g.heads, tier, s.path[v], s.Voters(v + 1))
  {
    var voters := s.Voters(v + 1);
    forall r | r in voters ensures Walkable(truth, g.heads[r]) && AncestorOrSelf(truth, s.path[v], g.heads[r]) {
      VoterAgrees(truth, env.view, g.highest.value, s, v, v + 1, r);
    }
    var r :| r in voters && r !in s.Primaries(v + 1);
  }

  lemma {:induction false} GroupConsensusAgreed(truth: Blocks, env: Env, g: Group, m: Option<nat>, tier: nat,
                                                c: ConsensusRpcs)
    requires EnvValid(truth, env) && GroupValid(truth, g) && Searchable(env, g) && tier < TIERS
    requires forall r | r in g.heads :: r.tier <= tier
    requires g.highest.Some? && ScanOf(env, g, m).Outcome(tier) == Found(c)
    ensures c.tier == tier && Real(truth, c.headBlock) && Agreed(truth, env.quorum, g.heads, c)
    ensures c.headBlock == g.highest.value || c.headBlock.hash in env.view
  {
    var s := ScanOf(env, g, m);
    var k, n, v := OutcomeShape(s, tier);
    AncestryNumbers(truth, env.view, g.highest.value, k);
    if k > 0 { AncestryKnown(env.view, g.highest.value, k); }
    forall r | r in c.rpcs ensures Walkable(truth, g.heads[r]) && AncestorOrSelf(truth, c.headBlock, g.heads[r]) {
      VoterAgrees(truth, env.view, g.highest.value, s, k, n, r);
    }
    if c.backupsVoted.Some? {
      VotersBack(truth, env, g, m, tier, s, v);
    }
  }

  lemma {:induction false} AncestryKnown(bs: Blocks, b: Block, k: nat)
    requires Walkable(bs, b) && 0 < k < |Ancestry(bs, b)|
    ensures Ancestry(bs, b)[k].hash in bs
    decreases b.number
  {
    assert LinkedAt(bs, b.parentHash);
    if k > 1 {
      AncestryKnown(bs, bs[b.parentHash], k - 1);
    }
  }

  lemma {:induction false} UpToAgreed(truth: Blocks, q: Quorum, ts: seq<Group>, i: nat, c: ConsensusRpcs)
    requires Coherent(ts) && i < TIERS && Agreed(truth, q, ts[i].heads, c)
    ensures Agreed(truth, q, AllHeads(ts), c)
  {
    assert ts[i].heads == UpTo(AllHeads(ts), i);
    if c.backupsVoted.Some? {
      var voters :| BackedBy(truth, q, ts[i].heads, c.tier, c.backupsVoted.value, voters);
      assert BackedBy(truth, q, AllHeads(ts), c.tier, c.backupsVoted.value, voters);
    }
  }

  lemma {:induction false} BestAgreed(truth: Blocks, env: Env, ts: seq<Group>)
    requires EnvValid(truth, env) && TiersValid(truth, ts) && AllSearchable(env, ts) && Best(env, ts).Found?
    ensures var c := Best(env, ts).consensus;
      && c.tier < TIERS && ts[c.tier].highest.Some?
      && Real(truth, c.headBlock) && Agreed(truth, env.quorum, AllHeads(ts), c)
      && (c.headBlock == ts[c.tier].highest.value || c.headBlock.hash in env.view)
  {
    var m := MinBlockNum(env, ts[TIERS - 1].highest.value.number);
    BestIsLowest(env, ts, m, Best(env, ts).consensus);
    var i := Best(env, ts).consensus.tier;
    assert ts[i].heads == UpTo(AllHeads(ts), i) && GroupValid(truth, ts[i]);
    GroupConsensusAgreed(truth, env, ts[i], m, i, Best(env, ts).consensus);
    UpToAgreed(truth, env.quorum, ts, i, Best(env, ts).consensus);
  }

  /** The elected head is a real block that is cached or can be looked up. */
  lemma {:induction false} BestHeadKnown(truth: Blocks, env: Env, ts: seq<Group>, res: ScanResult)
    requires EnvValid(truth, env) && TiersValid(truth, ts) && AllSearchable(env, ts)
    requires res == Best(env, ts) && res.Found?
    ensures Real(truth, res.consensus.headBlock)
    ensures res.consensus.headBlock.hash in env.view
            || exists i :: 0 <= i < TIERS && ts[i].highest == Some(res.consensus.headBlock)
  {
    BestAgreed(truth, env, ts);
  }

  lemma {:induction false} TrackedValid(truth: Blocks, cfg: Config, s: Node, ev: Event)
    requires NodeValid(truth, s) && EventValid(truth, ev)
    ensures NodeValid(truth, Tracked(cfg, s, ev))
    ensures EnvValid(truth, EnvOf(cfg, Tracked(cfg, s, ev), ev))
    ensures AllSearchable(EnvOf(cfg, Tracked(cfg, s, ev), ev), Tracked(cfg, s, ev).tiers)
  {
    var t := Tracked(cfg, s, ev);
    UpdateValid(truth, s.tiers, cfg.maxBlockAge, ev.report);
    forall i | 0 <= i < TIERS && t.tiers[i].highest.Some?
      ensures CachedOrZero(t.byHash, t.tiers[i].highest.value)
    {
      assert s.tiers[i].highest.Some? ==> CachedOrZero(s.byHash, s.tiers[i].highest.value);
    }
    ValidIsSearchable(truth, EnvOf(cfg, t, ev), t.tiers);
  }

  lemma {:induction false} PublishedValid(truth: Blocks, t: Node, res: ScanResult, byHash: Blocks)
    requires NodeValid(truth, t) && Within(t.byHash, byHash) && Within(byHash, truth) && NoNewZero(t.byHash, byHash)
    requires res.Found? ==> Real(truth, res.consensus.headBlock)
    ensures NodeValid(truth, Publish(t, res).(byHash := byHash))
  {
    var s' := Publish(t, res).(byHash := byHash);
    forall i | 0 <= i < TIERS && s'.tiers[i].highest.Some?
      ensures CachedOrZero(s'.byHash, s'.tiers[i].highest.value)
    {
      assert CachedOrZero(t.byHash, t.tiers[i].highest.value);
    }
  }

  lemma {:induction false} NextValid(truth: Blocks, cfg: Config, s: Node, ev: Event, s': Node)
    requires NodeValid(truth, s) && EventValid(truth, ev) && Next(cfg, s, ev, s')
    ensures NodeValid(truth, s')
  {
    var t := Tracked(cfg, s, ev);
    TrackedValid(truth, cfg, s, ev);
    if Changed(s.tiers, cfg.maxBlockAge, ev.report) {
      var res := Best(EnvOf(cfg, t, ev), t.tiers);
      if res.Found? {
        BestHeadKnown(truth, EnvOf(cfg, t, ev), t.tiers, res);
      }
      PublishedValid(truth, t, res, s'.byHash);
    }
  }

  lemma {:induction false} NextByPublishing(truth: Blocks, cfg: Config, s: Node, ev: Event, t: Node, res: ScanResult,
                                            s': Node)
    requires NodeValid(truth, s) && EventValid(truth, ev)
    requires t == Tracked(cfg, s, ev) && Changed(s.tiers, cfg.maxBlockAge, ev.report)
    requires Within(t.byHash, s'.byHash) && Within(s'.byHash, ev.net + t.byHash) && NoNewZero(t.byHash, s'.byHash)
    requires AllSearchable(EnvOf(cfg, t, ev), t.tiers) && res == Best(EnvOf(cfg, t, ev), t.tiers)
    requires s' == Publish(t, res).(byHash := s'.byHash)
    ensures Next(cfg, s, ev, s') && NodeValid(truth, s')
  {
    NextValid(truth, cfg, s, ev, s');
  }

  /** Every step keeps the caches and groups consistent, and what it leaves published agrees with the heads it leaves
      tracked. */
  lemma {:induction false} NextSound(truth: Blocks, cfg: Config, s: Node, ev: Event, s': Node)
    requires NodeValid(truth, s) && EventValid(truth, ev) && PublishedSound(truth, cfg, s) && Next(cfg, s, ev, s')
    ensures NodeValid(truth, s') && PublishedSound(truth, cfg, s')
  {
    var t := Tracked(cfg, s, ev);
    TrackedValid(truth, cfg, s, ev);
    NextValid(truth, cfg, s, ev, s');
    if !Changed(s.tiers, cfg.maxBlockAge, ev.report) {
      ChangedIffHeadsChanged(truth, s.tiers, cfg.maxBlockAge, ev.report);
    } else if Best(EnvOf(cfg, t, ev), t.tiers).Found? {
      BestAgreed(truth, EnvOf(cfg, t, ev), t.tiers);
    }
  }

  // ----- whole runs -----

  /** The states `ss` are visited one after the other while the events `evs` are processed. */
  ghost predicate Steps<S(!new), E(!new)>(step: (S, E, S) -> bool, ss: seq<S>, evs: seq<E>) {
    && |ss| == |evs| + 1
    && var n := |evs|;
       n == 0 || (step(ss[n - 1], evs[n - 1], ss[n]) && Steps(step, ss[..n], evs[..n - 1]))
  }

  lemma {:induction false} StepsAt<S(!new), E(!new)>(step: (S, E, S) -> bool, ss: seq<S>, evs: seq<E>, i: nat)
    requires Steps(step, ss, evs) && i < |evs|
    ensures step(ss[i], evs[i], ss[i + 1])
    decreases |evs|
  {
    var n := |evs|;
    if i < n - 1 {
      StepsAt(step, ss[..n], evs[..n - 1], i);
    }
  }

  lemma {:induction false} StepsExtend<S(!new), E(!new)>(step: (S, E, S) -> bool, ss: seq<S>, evs: seq<E>, e: E, s: S)
    requires Steps(step, ss, evs) && step(ss[|evs|], e, s)
    ensures Steps(step, ss + [s], evs + [e])
  {
    assert (ss + [s])[..|evs| + 1] == ss && (evs + [e])[..|evs|] == evs;
  }

  /** One valid report. */
  ghost function Processes(truth: Blocks, cfg: Config): (Node, Event, Node) -> bool {
    (s: Node, ev: Event, s': Node) => EventValid(truth, ev) && |s.tiers| == TIERS && Next(cfg, s, ev, s')
  }

  /** States `ss` visited from a fresh start while the reports `evs` are processed. */
  ghost predicate Run(truth: Blocks, cfg: Config, ss: seq<Node>, evs: seq<Event>) {
    Linked(truth) && Steps(Processes(truth, cfg), ss, evs) && ss[0] == NewNode()
  }

  lemma {:induction false} RunStepAt(truth: Blocks, cfg: Config, ss: seq<Node>, evs: seq<Event>, i: nat)
    requires Run(truth, cfg, ss, evs) && i < |evs|
    ensures EventValid(truth, evs[i]) && |ss[i].tiers| == TIERS && Next(cfg, ss[i], evs[i], ss[i + 1])
  {
    StepsAt(Processes(truth, cfg), ss, evs, i);
  }

  lemma {:induction false} NewNodeValid(truth: Blocks)
    requires Linked(truth)
    ensures NodeValid(truth, NewNode())
  {
    forall i | 0 <= i < TIERS ensures NoTiers()[i].heads == UpTo(NoTiers()[TIERS - 1].heads, i) {}
  }

  lemma {:induction false} RunExtends(truth: Blocks, cfg: Config, ss: seq<Node>, evs: seq<Event>, ev: Event, s': Node)
    requires Run(truth, cfg, ss, evs) && EventValid(truth, ev)
    requires |ss[|evs|].tiers| == TIERS && Next(cfg, ss[|evs|], ev, s')
    ensures Run(truth, cfg, ss + [s'], evs + [ev])
  {
    StepsExtend(Processes(truth, cfg), ss, evs, ev, s');
  }

  /** In every state of every run what is published agrees with the heads tracked in that state. */
  lemma {:induction false} RunIsSound(truth: Blocks, cfg: Config, ss: seq<Node>, evs: seq<Event>, i: nat)
    requires Run(truth, cfg, ss, evs) && i < |ss|
    ensures NodeValid(truth, ss[i]) && PublishedSound(truth, cfg, ss[i])
  {
    if i == 0 {
      NewNodeValid(truth);
    } else {
      RunIsSound(truth, cfg, ss, evs, i - 1);
      RunStepAt(truth, cfg, ss, evs, i - 1);
      NextSound(truth, cfg, ss[i - 1], evs[i - 1], ss[i]);
    }
  }

  /** This step published a head that needed the backups' votes. */
  ghost predicate NeededBackups(cfg: Config, s: Node, ev: Event, s': Node) {
    && |s.tiers| == TIERS && Changed(s.tiers, cfg.maxBlockAge, ev.report)
    && s'.consensus.Some? && s'.consensus.value.backupsNeeded
  }

  /** The highest block ever tracked does not go down. */
  ghost function Top(s: Node): nat
    requires |s.tiers| == TIERS
  {
    var h := s.tiers[TIERS - 1].highest;
    if h.None? then 0 else h.value.number
  }

  lemma {:induction false} TopGrows(s: Node, cfg: Config, ev: Event)
    requires |s.tiers| == TIERS
    ensures Top(s) <= Top(Tracked(cfg, s, ev))
  {
    var t := Tracked(cfg, s, ev);
    assert HighestAtMost(s.tiers[TIERS - 1], t.tiers[TIERS - 1]);
  }

  /** The floor a result keeps: at most one block below it, and only if backups voted. */
  ghost predicate KeepsFloor(m: Option<nat>, res: ScanResult) {
    res.Found? && m.Some? ==>
      res.consensus.headBlock.number + (if res.consensus.backupsNeeded then 1 else 0) >= m.value
  }

  /** Publishing what was found moves the head back by at most one block below the floor. */
  lemma {:induction false} PublishFloor(cfg: Config, t: Node, env: Env, res: ScanResult)
    requires |t.tiers| == TIERS && env.headNum == HeadNum(t.head) && env.maxBlockLag == cfg.maxBlockLag
    requires t.consensus.Some? ==> t.head == Some(t.consensus.value.headBlock)
    requires KeepsFloor(MinBlockNum(env, Top(t)), res)
    ensures var s' := Publish(t, res);
      var slack := if s'.consensus.Some? && s'.consensus.value.backupsNeeded then 1 else 0;
      && (t.head.Some? ==> s'.head.Some? && s'.head.value.number + slack >= t.head.value.number)
      && (s'.consensus.Some? && cfg.maxBlockLag.Some? ==>
            s'.consensus.value.headBlock.number + slack + cfg.maxBlockLag.value >= Top(t))
  {
  }

  /** A step moves the watched head back by at most one block, and only when backups voted; what it publishes stays
      within the configured lag of the highest block, again up to one block if backups voted. */
  lemma {:induction false} NextFloor(truth: Blocks, cfg: Config, s: Node, ev: Event, s': Node)
    requires NodeValid(truth, s) && EventValid(truth, ev) && Next(cfg, s, ev, s') && cfg.quorum.Positive()
    ensures |s'.tiers| == TIERS && Top(s) <= Top(s')
    ensures s.head.Some? ==> s'.head.Some?
    ensures var slack := if NeededBackups(cfg, s, ev, s') then 1 else 0;
      && (s.head.Some? ==> s'.head.value.number + slack >= s.head.value.number)
      && (Changed(s.tiers, cfg.maxBlockAge, ev.report) && s'.consensus.Some? && cfg.maxBlockLag.Some? ==>
            s'.consensus.value.headBlock.number + slack + cfg.maxBlockLag.value >= Top(s'))
  {
    var t := Tracked(cfg, s, ev);
    TrackedValid(truth, cfg, s, ev);
    TopGrows(s, cfg, ev);
    if Changed(s.tiers, cfg.maxBlockAge, ev.report) {
      var env := EnvOf(cfg, t, ev);
      var res := Best(env, t.tiers);
      BestFloor(truth, env, t.tiers, res);
      PublishFloor(cfg, t, env, res);
      SameTop(Publish(t, res), t, s');
    }
  }

  lemma {:induction false} SameTop(p: Node, t: Node, s': Node)
    requires |t.tiers| == TIERS && p.tiers == t.tiers && s' == p.(byHash := s'.byHash)
    ensures |s'.tiers| == TIERS && Top(s') == Top(t) && s'.head == p.head && s'.consensus == p.consensus
  {
  }

  lemma {:induction false} BestFloor(truth: Blocks, env: Env, ts: seq<Group>, res: ScanResult)
    requires EnvValid(truth, env) && TiersValid(truth, ts) && AllSearchable(env, ts)
    requires res == Best(env, ts) && env.quorum.Positive()
    ensures var top := ts[TIERS - 1].highest;
      KeepsFloor(MinBlockNum(env, if top.None? then 0 else top.value.number), res)
  {
    if res.Found? {
      var c, m := res.consensus, MinBlockNum(env, ts[TIERS - 1].highest.value.number);
      BestIsLowest(env, ts, m, c);
      assert GroupValid(truth, ts[c.tier]);
      TierFloor(truth, env, ts[c.tier], m, c.tier);
    }
  }

  lemma {:induction false} TierFloor(truth: Blocks, env: Env, g: Group, m: Option<nat>, tier: nat)
    requires EnvValid(truth, env) && GroupValid(truth, g) && Searchable(env, g) && g.highest.Some?
    requires env.quorum.Positive()
    ensures KeepsFloor(m, ScanOf(env, g, m).Outcome(tier))
  {
    var s := ScanOf(env, g, m);
    forall k | 0 <= k < |s.path| ensures s.path[k].number + k == s.path[0].number {
      AncestryNumbers(truth, env.view, g.highest.value, k);
    }
    if m.Some? { FloorHolds(s, m.value, tier); }
  }

  // ----- exactly when the watched head falls -----

  /** Tier `i` is the first one to find a head, and it finds one below the floor. */
  ghost predicate TierBreaks(env: Env, ts: seq<Group>, m: Option<nat>, i: nat)
    requires AllSearchable(env, ts)
  {
    && i < |ts| && ts[i].highest.Some? && |ts[i].heads| >= env.quorum.minHeadRpcs
    && BreaksFloor(ScanOf(env, ts[i], m))
    && forall j | 0 <= j < i :: TierFails(env, ts[j], m)
  }

  lemma {:induction false} TierBreaksIff(truth: Blocks, env: Env, g: Group, m: nat, tier: nat)
    requires EnvValid(truth, env) && GroupValid(truth, g) && Searchable(env, g) && g.highest.Some?
    requires env.quorum.Positive()
    ensures var res := ScanOf(env, g, Some(m)).Outcome(tier);
      && (res.Found? && res.consensus.headBlock.number < m <==> BreaksFloor(ScanOf(env, g, Some(m))))
      && (BreaksFloor(ScanOf(env, g, Some(m))) ==> res.consensus.headBlock.number + 1 == m)
  {
    var s := ScanOf(env, g, Some(m));
    forall k | 0 <= k < |s.path| ensures s.path[k].number + k == s.path[0].number {
      AncestryNumbers(truth, env.view, g.highest.value, k);
    }
    FloorBrokenIff(s, m, tier);
  }

  lemma {:induction false} FirstFoundIs(env: Env, ts: seq<Group>, m: Option<nat>, i: nat)
    requires AllSearchable(env, ts) && i < |ts| && GroupConsensus(env, ts[i], m, i).Found?
    requires forall j | 0 <= j < i :: GroupConsensus(env, ts[j], m, j).NotFound?
    ensures FirstFound(TierResults(env, ts, m), 0) == GroupConsensus(env, ts[i], m, i)
  {
    var rs := TierResults(env, ts, m);
    var t := FirstFoundAt(rs, 0);
    assert rs[i].Found? && forall j | 0 <= j < i :: rs[j].NotFound?;
  }

  lemma {:induction false} BestBreaksIff(truth: Blocks, env: Env, ts: seq<Group>, m: nat)
    requires EnvValid(truth, env) && TiersValid(truth, ts) && AllSearchable(env, ts) && env.quorum.Positive()
    ensures var res := FirstFound(TierResults(env, ts, Some(m)), 0);
      && (res.Found? && res.consensus.headBlock.number < m <==> exists i: nat :: TierBreaks(env, ts, Some(m), i))
      && (res.Found? && res.consensus.headBlock.number < m ==> res.consensus.headBlock.number + 1 == m)
  {
    var res := FirstFound(TierResults(env, ts, Some(m)), 0);
    if res.Found? && res.consensus.headBlock.number < m {
      var i := res.consensus.tier;
      BestIsLowest(env, ts, Some(m), res.consensus);
      assert GroupValid(truth, ts[i]);
      TierBreaksIff(truth, env, ts[i], m, i);
      forall j | 0 <= j < i ensures TierFails(env, ts[j], Some(m)) {
        TierFailsIff(env, ts[j], Some(m), j);
      }
      assert TierBreaks(env, ts, Some(m), i);
    }
    if i: nat :| TierBreaks(env, ts, Some(m), i) {
      assert GroupValid(truth, ts[i]);
      TierBreaksIff(truth, env, ts[i], m, i);
      forall j | 0 <= j < i ensures GroupConsensus(env, ts[j], Some(m), j).NotFound? {
        TierFailsIff(env, ts[j], Some(m), j);
      }
      FirstFoundIs(env, ts, Some(m), i);
    }
  }

  /** Known before a report is processed: the watched head will fall. The report changes a head, the watched head and
      not the configured lag is the floor, and the first tier to find a head finds it below that floor. */
  ghost predicate FallsAt(cfg: Config, s: Node, ev: Event) {
    && |s.tiers| == TIERS && s.head.Some? && Changed(s.tiers, cfg.maxBlockAge, ev.report)
    && var t := Tracked(cfg, s, ev);
       var env := EnvOf(cfg, t, ev);
       && AllSearchable(env, t.tiers) && t.tiers[TIERS - 1].highest.Some?
       && MinBlockNum(env, Top(t)) == HeadNum(s.head)
       && exists i: nat :: TierBreaks(env, t.tiers, HeadNum(s.head), i)
  }

  lemma {:induction false} PublishFalls(t: Node, res: ScanResult)
    requires t.head.Some? && (t.consensus.Some? ==> t.head == Some(t.consensus.value.headBlock))
    ensures Publish(t, res).head.Some?
    ensures Publish(t, res).head.value.number < t.head.value.number
            <==> res.Found? && res.consensus.headBlock.number < t.head.value.number
    ensures res.Found? ==> Publish(t, res).head.value.number == res.consensus.headBlock.number
  {
  }

  lemma {:induction false} SearchFallsIff(truth: Blocks, cfg: Config, t: Node, env: Env, res: ScanResult)
    requires NodeValid(truth, t) && EnvValid(truth, env) && AllSearchable(env, t.tiers) && env.quorum.Positive()
    requires t.head.Some? && env.headNum == HeadNum(t.head) && res == Best(env, t.tiers)
    ensures var falls := res.Found? && res.consensus.headBlock.number < t.head.value.number;
      && (falls <==> t.tiers[TIERS - 1].highest.Some? && MinBlockNum(env, Top(t)) == HeadNum(t.head)
                     && exists i: nat :: TierBreaks(env, t.tiers, HeadNum(t.head), i))
      && (falls ==> res.consensus.headBlock.number + 1 == t.head.value.number)
  {
    if t.tiers[TIERS - 1].highest.Some? {
      var m := MinBlockNum(env, Top(t));
      BestBreaksIff(truth, env, t.tiers, m.value);
    }
  }

  /** A step makes the watched head fall exactly when that condition holds before it, and then by one block. */
  lemma {:induction false} NextFallsIff(truth: Blocks, cfg: Config, s: Node, ev: Event, s': Node)
    requires NodeValid(truth, s) && EventValid(truth, ev) && Next(cfg, s, ev, s') && cfg.quorum.Positive()
    requires s.head.Some?
    ensures s'.head.Some? && (s'.head.value.number < s.head.value.number <==> FallsAt(cfg, s, ev))
    ensures FallsAt(cfg, s, ev) ==> s'.head.value.number + 1 == s.head.value.number && NeededBackups(cfg, s, ev, s')
  {
    var t := Tracked(cfg, s, ev);
    TrackedValid(truth, cfg, s, ev);
    if Changed(s.tiers, cfg.maxBlockAge, ev.report) {
      var env := EnvOf(cfg, t, ev);
      var res := Best(env, t.tiers);
      SearchFallsIff(truth, cfg, t, env, res);
      PublishFalls(t, res);
      NextFloor(truth, cfg, s, ev, s');
    }
  }

  /** How many of the steps `i..j` meet that condition. */
  ghost function Falls(cfg: Config, ss: seq<Node>, evs: seq<Event>, i: nat, j: nat): nat
    requires |ss| == |evs| + 1 && i <= j < |ss|
  {
    if i == j then 0
    else Falls(cfg, ss, evs, i, j - 1) + if FallsAt(cfg, ss[j - 1], evs[j - 1]) then 1 else 0
  }

  /** How many of the steps `i..j` published a head that needed the backups' votes. */
  ghost function BackupSteps(cfg: Config, ss: seq<Node>, evs: seq<Event>, i: nat, j: nat): nat
    requires |ss| == |evs| + 1 && i <= j < |ss|
  {
    if i == j then 0
    else BackupSteps(cfg, ss, evs, i, j - 1)
         + if NeededBackups(cfg, ss[j - 1], evs[j - 1], ss[j]) then 1 else 0
  }

  /** In every run a step makes the watched head fall exactly when `FallsAt` holds before it, and then by one block. */
  lemma {:induction false} HeadFallsIff(truth: Blocks, cfg: Config, ss: seq<Node>, evs: seq<Event>, i: nat)
    requires Run(truth, cfg, ss, evs) && i < |evs| && cfg.quorum.Positive() && ss[i].head.Some?
    ensures ss[i + 1].head.Some?
    ensures ss[i + 1].head.value.number < ss[i].head.value.number <==> FallsAt(cfg, ss[i], evs[i])
    ensures FallsAt(cfg, ss[i], evs[i]) ==>
              ss[i + 1].head.value.number + 1 == ss[i].head.value.number && NeededBackups(cfg, ss[i], evs[i], ss[i + 1])
  {
    RunIsSound(truth, cfg, ss, evs, i);
    RunStepAt(truth, cfg, ss, evs, i);
    NextFallsIff(truth, cfg, ss[i], evs[i], ss[i + 1]);
  }

  /** Over any stretch of any run the watched head falls back by at most one block per step that meets the condition,
      each of which is a backup-voted publication; so as long as primaries vote it never goes backwards. */
  lemma {:induction false} HeadNeverFallsBack(truth: Blocks, cfg: Config, ss: seq<Node>, evs: seq<Event>, i: nat,
                                              j: nat)
    requires Run(truth, cfg, ss, evs) && i <= j < |ss| && cfg.quorum.Positive()
    ensures ss[i].head.Some? ==>
      && ss[j].head.Some? && ss[j].head.value.number + Falls(cfg, ss, evs, i, j) >= ss[i].head.value.number
      && Falls(cfg, ss, evs, i, j) <= BackupSteps(cfg, ss, evs, i, j)
    decreases j
  {
    if i < j && ss[i].head.Some? {
      HeadNeverFallsBack(truth, cfg, ss, evs, i, j - 1);
      HeadFallsIff(truth, cfg, ss, evs, j - 1);
    }
  }

  /** Whatever a step of any run publishes is within the configured lag of the highest block ever tracked, or one block
      beyond it if backups voted. */
  lemma {:induction false} PublishedWithinLag(truth: Blocks, cfg: Config, ss: seq<Node>, evs: seq<Event>, i: nat)
    requires Run(truth, cfg, ss, evs) && i < |evs| && cfg.quorum.Positive() && cfg.maxBlockLag.Some?
    requires |ss[i].tiers| == TIERS && Changed(ss[i].tiers, cfg.maxBlockAge, evs[i].report)
    requires ss[i + 1].consensus.Some?
    ensures |ss[i + 1].tiers| == TIERS
    ensures ss[i + 1].consensus.value.headBlock.number + cfg.maxBlockLag.value
            + (if ss[i + 1].consensus.value.backupsNeeded then 1 else 0) >= Top(ss[i + 1])
  {
    RunIsSound(truth, cfg, ss, evs, i);
    RunStepAt(truth, cfg, ss, evs, i);
    NextFloor(truth, cfg, ss[i], evs[i], ss[i + 1]);
  }
}

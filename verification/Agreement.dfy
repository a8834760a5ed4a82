/** Over every run: which heads are tracked and vote, and when their agreement is published. */
module Agreement {
  import opened Options
  import opened Chain
  import opened HeadScan
  import opened Tiers
  import opened HeadTracker

  // ----- which heads are tracked -----

  /** Report `j` is the last one of server `r` before `i`. */
  ghost predicate LastReportBy(evs: seq<Event>, i: nat, r: Rpc, j: nat) {
    j < i <= |evs| && evs[j].report.rpc == r && forall k | j < k < i :: evs[k].report.rpc != r
  }

  /** That report was of block `b`, not older than allowed. */
  ghost predicate ReportedInTime(cfg: Config, evs: seq<Event>, i: nat, r: Rpc, b: Block, j: nat) {
    && LastReportBy(evs, i, r, j) && evs[j].report.block == Some(b)
    && (cfg.maxBlockAge.Some? ==> evs[j].report.age <= cfg.maxBlockAge.value)
  }

  lemma {:induction false} StepTracks(truth: Blocks, cfg: Config, s: Node, ev: Event, s': Node, r: Rpc, b: Block)
    requires NodeValid(truth, s) && Next(cfg, s, ev, s')
    ensures |s'.tiers| == TIERS
    ensures (r in AllHeads(s'.tiers) && AllHeads(s'.tiers)[r] == b) <==>
              if r == ev.report.rpc
              then r.tier < 10 && ev.report.block == Some(b)
                   && (cfg.maxBlockAge.Some? ==> ev.report.age <= cfg.maxBlockAge.value)
              else r in AllHeads(s.tiers) && AllHeads(s.tiers)[r] == b
  {
    ReportTracks(truth, s.tiers, cfg.maxBlockAge, ev.report, r, b);
    assert s'.tiers == Tracked(cfg, s, ev).tiers;
  }

  lemma {:induction false} LastReportNext(cfg: Config, evs: seq<Event>, i: nat, next: nat, r: Rpc, b: Block)
    requires i < |evs| && next == i + 1
    ensures (exists j :: ReportedInTime(cfg, evs, next, r, b, j)) <==>
              if r == evs[i].report.rpc then ReportedInTime(cfg, evs, next, r, b, i)
              else exists j :: ReportedInTime(cfg, evs, i, r, b, j)
  {
    if r != evs[i].report.rpc {
      if j :| ReportedInTime(cfg, evs, i, r, b, j) {
        assert ReportedInTime(cfg, evs, next, r, b, j);
      }
      if j :| ReportedInTime(cfg, evs, next, r, b, j) {
        assert ReportedInTime(cfg, evs, i, r, b, j);
      }
    }
  }

  /** In every state of every run a server is tracked, with block `b`, exactly when it is of the ten tiers and its last
      report was of that block and not too old. */
  lemma {:induction false} TrackedIffLastReport(truth: Blocks, cfg: Config, ss: seq<Node>, evs: seq<Event>, i: nat,
                                                r: Rpc, b: Block)
    requires Run(truth, cfg, ss, evs) && i < |ss|
    ensures |ss[i].tiers| == TIERS
    ensures (r in AllHeads(ss[i].tiers) && AllHeads(ss[i].tiers)[r] == b) <==>
              r.tier < 10 && exists j :: ReportedInTime(cfg, evs, i, r, b, j)
  {
    if i > 0 {
      TrackedIffLastReport(truth, cfg, ss, evs, i - 1, r, b);
      RunIsSound(truth, cfg, ss, evs, i - 1);
      RunStepAt(truth, cfg, ss, evs, i - 1);
      StepTracks(truth, cfg, ss[i - 1], evs[i - 1], ss[i], r, b);
      LastReportNext(cfg, evs, i - 1, i, r, b);
    }
  }

  /** In every state of every run, the last report of every published server was not too old, and of a block that
      descends from the published head. */
  lemma {:induction false} PublishedInTime(truth: Blocks, cfg: Config, ss: seq<Node>, evs: seq<Event>, i: nat, r: Rpc)
    returns (j: nat, b: Block)
    requires Run(truth, cfg, ss, evs) && i < |ss| && ss[i].consensus.Some? && r in ss[i].consensus.value.rpcs
    ensures ReportedInTime(cfg, evs, i, r, b, j)
    ensures Walkable(truth, b) && AncestorOrSelf(truth, ss[i].consensus.value.headBlock, b)
  {
    RunIsSound(truth, cfg, ss, evs, i);
    b := AllHeads(ss[i].tiers)[r];
    TrackedIffLastReport(truth, cfg, ss, evs, i, r, b);
    j :| ReportedInTime(cfg, evs, i, r, b, j);
  }

  // ----- agreement leads to a consensus -----

  /** The servers `voters`, all on the k-th block of the walk or on a later one, meet the thresholds. */
  ghost predicate Agree(q: Quorum, heads: map<Rpc, Block>, path: seq<Block>, k: nat, voters: set<Rpc>) {
    && k < |path| && SumSoftLimit(voters) >= q.minSumSoftLimit && |voters| >= q.minHeadRpcs
    && forall r | r in voters :: r in heads && exists j :: 0 <= j <= k && heads[r] == path[j]
  }

  /** The k-th block of the walk may be elected: within the lag, and not below the watched head; without either bound,
      ten blocks are looked at. */
  ghost predicate InReach(cfg: Config, head: Option<Block>, top: nat, path: seq<Block>, k: nat)
    requires k < |path|
  {
    && (cfg.maxBlockLag.Some? ==> path[k].number + cfg.maxBlockLag.value >= top)
    && (head.Some? ==> path[k].number >= head.value.number)
    && (cfg.maxBlockLag.None? && head.None? ==> k < 10)
  }

  lemma {:induction false} AgreeVotes(s: Scan, k: nat, voters: set<Rpc>)
    requires Agree(s.quorum, s.heads, s.path, k, voters) && s.heads.Keys <= s.registered
    ensures s.Enough(s.Voters(k + 1)) && |s.heads| >= s.quorum.minHeadRpcs
    ensures s.PrimaryQuorum(k) || s.BackupQuorum(k)
    ensures (forall r | r in voters :: !r.backup) ==> s.PrimaryQuorum(k)
  {
    forall r | r in voters ensures r in s.Voters(k + 1) {
      var j :| 0 <= j <= k && s.heads[r] == s.path[j];
      assert s.HeadIn(r, k + 1);
    }
    Monotone(voters, s.Voters(k + 1));
    Monotone(voters, s.heads.Keys);
    assert |s.heads| == |s.heads.Keys|;
    if forall r | r in voters :: !r.backup {
      assert voters <= s.Primaries(k + 1);
      Monotone(voters, s.Primaries(k + 1));
    }
  }

  lemma {:induction false} ReachIsWindow(env: Env, highest: nat, top: nat, number: nat, k: nat)
    requires number + k == highest < U64_MAX
    requires env.maxBlockLag.Some? ==> number + env.maxBlockLag.value >= top
    requires env.headNum.Some? ==> number >= env.headNum.value
    requires env.maxBlockLag.None? && env.headNum.None? ==> k < 10
    ensures k < Window(highest, MinBlockNum(env, top))
  {
    FloorIff(env, top, number);
  }

  lemma {:induction false} AgreementIsFoundByScan(s: Scan, tier: nat, k: nat, voters: set<Rpc>)
    requires Agree(s.quorum, s.heads, s.path, k, voters) && s.heads.Keys <= s.registered && k < s.window
    requires Descending(s.path)
    ensures s.Outcome(tier).Found? && |s.heads| >= s.quorum.minHeadRpcs
    ensures (forall r | r in voters :: !r.backup) ==>
              var c := s.Outcome(tier).consensus;
              !c.backupsNeeded && c.headBlock.number >= s.path[k].number
  {
    AgreeVotes(s, k, voters);
    s.FailsIff(tier);
    assert k < s.Depth() && !s.NoQuorum();
    if forall r | r in voters :: !r.backup {
      s.AgreementIsFound(tier, k);
      var j: nat :| j <= k && s.Nearest(j) && s.Outcome(tier)
        == Found(ConsensusRpcs(tier, s.path[j], s.Primaries(j + 1), s.BackupVote(j), false));
      assert s.path[j].number + j == s.path[k].number + k;
    }
  }

  lemma {:induction false} AgreementFindsTier(truth: Blocks, cfg: Config, t: Node, env: Env, i: nat, k: nat,
                                              voters: set<Rpc>, s: Scan, m: Option<nat>)
    requires NodeValid(truth, t) && EnvValid(truth, env) && AllSearchable(env, t.tiers) && i < TIERS
    requires env.maxBlockLag == cfg.maxBlockLag && env.headNum == HeadNum(t.head) && m == MinBlockNum(env, Top(t))
    requires AllHeads(t.tiers).Keys <= env.registered
    requires t.tiers[i].highest.Some? && t.tiers[i].highest.value.number < U64_MAX
    requires s == ScanOf(env, t.tiers[i], m) && Agree(env.quorum, t.tiers[i].heads, s.path, k, voters)
    requires InReach(cfg, t.head, Top(t), s.path, k)
    ensures GroupConsensus(env, t.tiers[i], m, i).Found?
    ensures (forall r | r in voters :: !r.backup) ==>
              var c := GroupConsensus(env, t.tiers[i], m, i).consensus;
              !c.backupsNeeded && c.headBlock.number >= s.path[k].number
  {
    var g := t.tiers[i];
    assert g.heads == UpTo(AllHeads(t.tiers), i) && GroupValid(truth, g) && Searchable(env, g);
    forall j | 0 <= j < |s.path| ensures s.path[j].number + j == s.path[0].number {
      AncestryNumbers(truth, env.view, g.highest.value, j);
    }
    ReachIsWindow(env, g.highest.value.number, Top(t), s.path[k].number, k);
    AgreementIsFoundByScan(s, i, k, voters);
  }

  lemma {:induction false} FoundByTier(env: Env, ts: seq<Group>, i: nat, m: Option<nat>)
    requires |ts| == TIERS && AllSearchable(env, ts) && i < TIERS && GroupConsensus(env, ts[i], m, i).Found?
    ensures var res := FirstFound(TierResults(env, ts, m), 0);
      && res.Found? && res.consensus.tier <= i
      && (res.consensus.tier == i ==> res == GroupConsensus(env, ts[i], m, i))
  {
    var rs := TierResults(env, ts, m);
    assert rs[i].Found?;
    var t := FirstFoundAt(rs, 0);
    FoundOnTier(env, ts[t], m, t);
  }

  /** With all tracked servers registered: if after a changed report servers of some tier agree on a block in reach, a
      consensus of that tier or a lower one is published. If that tier's own is and none of them is a backup, primaries
      elect that block or a later one. */
  lemma {:induction false} AgreementIsPublished(truth: Blocks, cfg: Config, s: Node, ev: Event, s': Node, t: Node,
                                                i: nat, path: seq<Block>, k: nat, voters: set<Rpc>)
    requires NodeValid(truth, s) && EventValid(truth, ev) && Next(cfg, s, ev, s')
    requires Changed(s.tiers, cfg.maxBlockAge, ev.report) && t == Tracked(cfg, s, ev)
    requires AllHeads(t.tiers).Keys <= ev.registered
    requires i < TIERS && t.tiers[i].highest.Some? && t.tiers[i].highest.value.number < U64_MAX
    requires Walkable(ev.net + t.byHash, t.tiers[i].highest.value)
    requires path == Ancestry(ev.net + t.byHash, t.tiers[i].highest.value)
    requires Agree(cfg.quorum, t.tiers[i].heads, path, k, voters) && InReach(cfg, s.head, Top(t), path, k)
    ensures s'.consensus.Some? && s'.consensus.value.tier <= i
    ensures s'.consensus.value.tier == i && (forall r | r in voters :: !r.backup) ==>
              !s'.consensus.value.backupsNeeded && s'.consensus.value.headBlock.number >= path[k].number
  {
    TrackedValid(truth, cfg, s, ev);
    var env := EnvOf(cfg, t, ev);
    var m := MinBlockNum(env, Top(t));
    AgreementFindsTier(truth, cfg, t, env, i, k, voters, ScanOf(env, t.tiers[i], m), m);
    FoundByTier(env, t.tiers, i, m);
    assert HighestAtMost(t.tiers[i], t.tiers[TIERS - 1]);
    assert Best(env, t.tiers) == FirstFound(TierResults(env, t.tiers, m), 0);
  }

  /** The same at every step of every run. */
  lemma {:induction false} RunPublishesAgreement(truth: Blocks, cfg: Config, ss: seq<Node>, evs: seq<Event>, n: nat,
                                                 t: Node, i: nat, path: seq<Block>, k: nat, voters: set<Rpc>)
    requires Run(truth, cfg, ss, evs) && n < |evs| && |ss[n].tiers| == TIERS
    requires Changed(ss[n].tiers, cfg.maxBlockAge, evs[n].report) && t == Tracked(cfg, ss[n], evs[n])
    requires AllHeads(t.tiers).Keys <= evs[n].registered
    requires i < TIERS && t.tiers[i].highest.Some? && t.tiers[i].highest.value.number < U64_MAX
    requires Walkable(evs[n].net + t.byHash, t.tiers[i].highest.value)
    requires path == Ancestry(evs[n].net + t.byHash, t.tiers[i].highest.value)
    requires Agree(cfg.quorum, t.tiers[i].heads, path, k, voters) && InReach(cfg, ss[n].head, Top(t), path, k)
    ensures ss[n + 1].consensus.Some? && ss[n + 1].consensus.value.tier <= i
    ensures ss[n + 1].consensus.value.tier == i && (forall r | r in voters :: !r.backup) ==>
              !ss[n + 1].consensus.value.backupsNeeded
              && ss[n + 1].consensus.value.headBlock.number >= path[k].number
  {
    RunIsSound(truth, cfg, ss, evs, n);
    RunStepAt(truth, cfg, ss, evs, n);
    AgreementIsPublished(truth, cfg, ss[n], evs[n], ss[n + 1], t, i, path, k, voters);
  }

  // ----- without a floor -----

  lemma {:induction false} ScanStaysInWindow(s: Scan, tier: nat)
    requires |s.path| >= 1 && Descending(s.path) && s.quorum.Positive() && s.Outcome(tier).Found?
    ensures var c := s.Outcome(tier).consensus;
      c.headBlock.number + s.window > s.path[0].number - if c.backupsNeeded then 1 else 0
  {
    var k := s.FirstStop(0);
    if k < s.Depth() {
      assert s.path[k].number + k == s.path[0].number;
    } else {
      var h := if s.window < |s.path| then s.window else |s.path| - 1;
      assert s.path[h].number + h == s.path[0].number;
    }
  }

  /** As long as nothing was published and no lag is configured, a published head is one of the ten blocks from its
      tier's highest block on, or the eleventh if backups were needed. */
  lemma {:induction false} FirstHeadWithinTen(truth: Blocks, cfg: Config, s: Node, ev: Event, s': Node, t: Node,
                                              c: ConsensusRpcs)
    requires NodeValid(truth, s) && EventValid(truth, ev) && Next(cfg, s, ev, s') && cfg.quorum.Positive()
    requires Changed(s.tiers, cfg.maxBlockAge, ev.report) && t == Tracked(cfg, s, ev)
    requires s.head.None? && cfg.maxBlockLag.None? && s'.consensus == Some(c)
    ensures c.tier < TIERS && t.tiers[c.tier].highest.Some?
    ensures c.headBlock.number + 9 + (if c.backupsNeeded then 1 else 0) >= t.tiers[c.tier].highest.value.number
  {
    TrackedValid(truth, cfg, s, ev);
    var env := EnvOf(cfg, t, ev);
    assert Best(env, t.tiers) == Found(c);
    BestIsLowest(env, t.tiers, None, c);
    var g := t.tiers[c.tier];
    assert GroupValid(truth, g) && Searchable(env, g);
    var scan := ScanOf(env, g, None);
    forall j | 0 <= j < |scan.path| ensures scan.path[j].number + j == scan.path[0].number {
      AncestryNumbers(truth, env.view, g.highest.value, j);
    }
    ScanStaysInWindow(scan, c.tier);
  }

  // ----- the heaviest chain -----

  /** The hash of the watched head that was last seen at height `n`, if it had one. */
  ghost function LastAt(ss: seq<Node>, i: nat, n: nat): Option<Hash>
    requires i < |ss|
  {
    var head := ss[i].head;
    if head.Some? && head.value.number == n && head.value.hash != ZERO_HASH then Some(head.value.hash)
    else if i == 0 then None else LastAt(ss, i - 1, n)
  }

  lemma {:induction false} StepNumbers(cfg: Config, s: Node, ev: Event, s': Node)
    requires |s.tiers| == TIERS && Next(cfg, s, ev, s')
    ensures || (s'.head == s.head && s'.byNumber == s.byNumber)
            || (s'.head.Some? && s'.byNumber == CacheNumber(s.byNumber, s'.head.value))
  {
  }

  /** In every state of every run, each height is mapped to the head that was last published at that height, and to
      nothing if none was. */
  lemma {:induction false} NumbersArePublished(truth: Blocks, cfg: Config, ss: seq<Node>, evs: seq<Event>, i: nat,
                                               n: nat)
    requires Run(truth, cfg, ss, evs) && i < |ss|
    ensures LastAt(ss, i, n) == if n in ss[i].byNumber then Some(ss[i].byNumber[n]) else None
  {
    if i > 0 {
      NumbersArePublished(truth, cfg, ss, evs, i - 1, n);
      RunStepAt(truth, cfg, ss, evs, i - 1);
      StepNumbers(cfg, ss[i - 1], evs[i - 1], ss[i]);
    }
  }
}

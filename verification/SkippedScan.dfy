/** Over every run: exactly when skipping the search because no head changed loses nothing. */
module SkippedScan {
  import opened Options
  import opened Chain
  import opened HeadScan
  import opened Tiers
  import opened HeadTracker
  import opened Rescan

  /** Processing this report searches for a consensus. */
  ghost predicate Searches(cfg: Config, s: Node, ev: Event) {
    |s.tiers| == TIERS && Changed(s.tiers, cfg.maxBlockAge, ev.report)
  }

  /** What the search sees that processing this report runs. */
  ghost function SearchEnv(cfg: Config, s: Node, ev: Event): Env { EnvOf(cfg, Tracked(cfg, s, ev), ev) }

  /** Report `j` searched, and no report after it up to `i` did. */
  ghost predicate LastSearch(cfg: Config, ss: seq<Node>, evs: seq<Event>, j: nat, i: nat)
    requires |ss| == |evs| + 1
  {
    j <= i < |evs| && Searches(cfg, ss[j], evs[j]) && forall k | j < k <= i :: !Searches(cfg, ss[k], evs[k])
  }

  /** Known before the search: it would find again what is published. */
  ghost predicate Lasting(env: Env, s: Node)
    requires |s.tiers| == TIERS && AllSearchable(env, s.tiers)
  {
    match s.consensus
    case None => true
    case Some(c) => if c.backupsNeeded then Repeatable(env, s.tiers, c) else Reelectable(env, s.tiers, c)
  }

  /** Searching now finds what is published, or nothing if nothing is. */
  ghost predicate Settled(env: Env, s: Node)
    requires |s.tiers| == TIERS && AllSearchable(env, s.tiers)
  {
    if s.consensus.None? then Best(env, s.tiers).NotFound? else Best(env, s.tiers) == Found(s.consensus.value)
  }

  /** What a search found, or that it found nothing, is found again exactly when it is `Lasting`. */
  lemma {:induction false} FoundAgainIff(truth: Blocks, a: Env, b: Env, s: Node, res: ScanResult)
    requires SearchSetting(truth, a, b, s.tiers) && After(a, s.consensus, b, s.tiers) && res == Best(a, s.tiers)
    requires s.consensus == if res.Found? then Some(res.consensus) else None
    ensures Settled(b, s) <==> Lasting(b, s)
  {
    if s.consensus.None? {
      RescanFindsNothing(truth, a, b, s.tiers);
    } else if s.consensus.value.backupsNeeded {
      BackupRescanIff(truth, a, b, s.tiers, s.consensus.value);
    } else {
      RescanIff(truth, a, b, s.tiers, s.consensus.value);
    }
  }

  /** The parts of the state that a search reads or publishes. */
  ghost predicate SameHeads(s: Node, t: Node) { s.tiers == t.tiers && s.consensus == t.consensus && s.head == t.head }

  lemma {:induction false} QuietStep(truth: Blocks, cfg: Config, s: Node, ev: Event, s': Node)
    requires NodeValid(truth, s) && EventValid(truth, ev) && Next(cfg, s, ev, s') && !Searches(cfg, s, ev)
    ensures SameHeads(s, s')
  {
    ChangedIffHeadsChanged(truth, s.tiers, cfg.maxBlockAge, ev.report);
  }

  /** Without a search nothing of that changes. */
  lemma {:induction false} QuietStays(truth: Blocks, cfg: Config, ss: seq<Node>, evs: seq<Event>, j: nat, i: nat)
    requires Run(truth, cfg, ss, evs) && j <= i <= |evs|
    requires forall k | j <= k < i :: !Searches(cfg, ss[k], evs[k])
    ensures SameHeads(ss[j], ss[i])
    decreases i
  {
    if j < i {
      QuietStays(truth, cfg, ss, evs, j, i - 1);
      RunIsSound(truth, cfg, ss, evs, i - 1);
      RunStepAt(truth, cfg, ss, evs, i - 1);
      QuietStep(truth, cfg, ss[i - 1], evs[i - 1], ss[i]);
    }
  }

  /** What a search leaves behind. */
  lemma {:induction false} SearchLeaves(cfg: Config, s: Node, ev: Event, t: Node, s': Node, a: Env, res: ScanResult)
    requires |s.tiers| == TIERS && Next(cfg, s, ev, s') && Searches(cfg, s, ev)
    requires t == Tracked(cfg, s, ev) && a == EnvOf(cfg, t, ev)
    requires AllSearchable(a, t.tiers) && res == Best(a, t.tiers)
    ensures s'.tiers == t.tiers
    ensures s'.consensus == if res.Found? then Some(res.consensus) else None
    ensures s'.consensus.None? ==> a.headNum == HeadNum(s'.head)
  {
    assert s' == Publish(t, res).(byHash := s'.byHash);
  }

  /** A state `s` with the heads and publication that the search of one step left. */
  lemma {:induction false} SettledAfter(truth: Blocks, cfg: Config, s0: Node, ev: Event, s1: Node, s: Node, a: Env,
                                        now: Env)
    requires NodeValid(truth, s0) && EventValid(truth, ev) && Next(cfg, s0, ev, s1) && Searches(cfg, s0, ev)
    requires NodeValid(truth, s) && SameHeads(s1, s) && a == SearchEnv(cfg, s0, ev) && cfg.quorum.Positive()
    requires EnvValid(truth, now) && SameSetting(a, now, s.tiers)
    requires now.synced == Synced(s.consensus) && now.headNum == HeadNum(s.head)
    ensures AllSearchable(now, s.tiers) && (Settled(now, s) <==> Lasting(now, s))
  {
    var t := Tracked(cfg, s0, ev);
    TrackedValid(truth, cfg, s0, ev);
    var res := Best(a, t.tiers);
    SearchLeaves(cfg, s0, ev, t, s1, a, res);
    ValidIsSearchable(truth, now, s.tiers);
    FoundAgainIff(truth, a, now, s, res);
  }

  /** In every state of every run, as long as the setting of the last search lasts, a new search would find what is
      published, or nothing where nothing is, exactly when that is `Lasting`. */
  lemma {:induction false} RunSettled(truth: Blocks, cfg: Config, ss: seq<Node>, evs: seq<Event>, j: nat, i: nat,
                                      now: Env)
    requires Run(truth, cfg, ss, evs) && LastSearch(cfg, ss, evs, j, i) && cfg.quorum.Positive()
    requires |ss[i + 1].tiers| == TIERS && EnvValid(truth, now)
    requires SameSetting(SearchEnv(cfg, ss[j], evs[j]), now, ss[i + 1].tiers)
    requires now.synced == Synced(ss[i + 1].consensus) && now.headNum == HeadNum(ss[i + 1].head)
    ensures AllSearchable(now, ss[i + 1].tiers)
    ensures Settled(now, ss[i + 1]) <==> Lasting(now, ss[i + 1])
  {
    var s0, s1, s, ev := ss[j], ss[j + 1], ss[i + 1], evs[j];
    SinceLastSearch(truth, cfg, ss, evs, j, i, s0, ev, s1, s);
    SettledAfter(truth, cfg, s0, ev, s1, s, SearchEnv(cfg, s0, ev), now);
  }

  lemma {:induction false} SinceLastSearch(truth: Blocks, cfg: Config, ss: seq<Node>, evs: seq<Event>, j: nat, i: nat,
                                           s0: Node, ev: Event, s1: Node, s: Node)
    requires Run(truth, cfg, ss, evs) && LastSearch(cfg, ss, evs, j, i)
    requires s0 == ss[j] && ev == evs[j] && s1 == ss[j + 1] && s == ss[i + 1]
    ensures NodeValid(truth, s0) && EventValid(truth, ev) && Next(cfg, s0, ev, s1)
    ensures NodeValid(truth, s) && SameHeads(s1, s)
  {
    var next, end := j + 1, i + 1;
    RunIsSound(truth, cfg, ss, evs, end);
    RunIsSound(truth, cfg, ss, evs, j);
    RunStepAt(truth, cfg, ss, evs, j);
    QuietStays(truth, cfg, ss, evs, next, end);
  }

  lemma {:induction false} PublishedAgain(env: Env, s: Node)
    requires |s.tiers| == TIERS && AllSearchable(env, s.tiers)
    requires s.consensus.Some? ==> s.head == Some(s.consensus.value.headBlock)
    ensures Publish(s, Best(env, s.tiers)) == s <==> Settled(env, s)
  {
  }

  /** Searching now and publishing the answer would change nothing. */
  ghost predicate NothingMissed(env: Env, s: Node) {
    && |s.tiers| == TIERS && AllSearchable(env, s.tiers)
    && Publish(s, Best(env, s.tiers)) == s
  }

  /** In every run, when a report changes nothing while the setting of the last search lasts, running the search anyway
      and publishing its answer would leave exactly the state that the early return leaves if and only if what is
      published is `Lasting`. */
  lemma {:induction false} SkippingIff(truth: Blocks, cfg: Config, ss: seq<Node>, evs: seq<Event>, j: nat, i: nat)
    requires Run(truth, cfg, ss, evs) && LastSearch(cfg, ss, evs, j, i) && j < i && cfg.quorum.Positive()
    requires |ss[i + 1].tiers| == TIERS
    requires SameSetting(SearchEnv(cfg, ss[j], evs[j]), EnvOf(cfg, ss[i + 1], evs[i]), ss[i + 1].tiers)
    ensures AllSearchable(EnvOf(cfg, ss[i + 1], evs[i]), ss[i + 1].tiers)
    ensures NothingMissed(EnvOf(cfg, ss[i + 1], evs[i]), ss[i + 1])
            <==> Lasting(EnvOf(cfg, ss[i + 1], evs[i]), ss[i + 1])
  {
    var now := EnvOf(cfg, ss[i + 1], evs[i]);
    RunIsSound(truth, cfg, ss, evs, i + 1);
    RunStepAt(truth, cfg, ss, evs, i);
    RunSettled(truth, cfg, ss, evs, j, i, now);
    PublishedAgain(now, ss[i + 1]);
  }

  /** Before the first search nothing is tracked, so nothing can be missed, whatever the setting. */
  lemma {:induction false} SkippingBeforeAnySearch(truth: Blocks, cfg: Config, ss: seq<Node>, evs: seq<Event>, i: nat,
                                                   env: Env)
    requires Run(truth, cfg, ss, evs) && i < |evs|
    requires forall k | 0 <= k <= i :: !Searches(cfg, ss[k], evs[k])
    ensures NothingMissed(env, ss[i + 1])
  {
    QuietStays(truth, cfg, ss, evs, 0, i + 1);
  }
}

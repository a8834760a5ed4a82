/** What a search right after a search finds: exactly when the same consensus again. */
module Rescan {
  import opened Options
  import opened Chain
  import opened HeadScan
  import opened Tiers

  // ----- two walks over the same votes -----

  /** The same walk over the same votes, possibly with another window and another sync flag. */
  ghost predicate SameVotes(s: Scan, t: Scan) {
    && s.heads == t.heads && s.quorum == t.quorum && s.path == t.path
    && forall r | r in s.heads :: r in s.registered <==> r in t.registered
  }

  lemma {:induction false} VotesAgree(s: Scan, t: Scan, n: nat)
    requires SameVotes(s, t) && n <= |s.path|
    ensures s.Voters(n) == t.Voters(n) && s.Primaries(n) == t.Primaries(n)
  {
    assert forall r | r in s.heads :: s.HeadIn(r, n) <==> t.HeadIn(r, n);
  }

  lemma {:induction false} QuorumAgrees(s: Scan, t: Scan, k: nat)
    requires SameVotes(s, t) && k < |s.path|
    ensures (s.PrimaryQuorum(k) <==> t.PrimaryQuorum(k)) && (s.BackupQuorum(k) <==> t.BackupQuorum(k))
  {
    VotesAgree(s, t, k + 1);
  }

  lemma {:induction false} QuorumsAgree(s: Scan, t: Scan)
    requires SameVotes(s, t)
    ensures forall k | 0 <= k < |s.path| ::
              (s.PrimaryQuorum(k) <==> t.PrimaryQuorum(k)) && (s.BackupQuorum(k) <==> t.BackupQuorum(k))
  {
    forall k | 0 <= k < |s.path|
      ensures (s.PrimaryQuorum(k) <==> t.PrimaryQuorum(k)) && (s.BackupQuorum(k) <==> t.BackupQuorum(k))
    {
      QuorumAgrees(s, t, k);
    }
  }

  lemma {:induction false} FirstBackupsAgree(s: Scan, t: Scan, from: nat, n: nat)
    requires SameVotes(s, t) && from <= n <= |s.path|
    ensures s.FirstBackup(from, n) == t.FirstBackup(from, n)
    decreases n - from
  {
    if from < n {
      QuorumAgrees(s, t, from);
      FirstBackupsAgree(s, t, from + 1, n);
    }
  }

  lemma {:induction false} BackupVotesAgree(s: Scan, t: Scan, n: nat)
    requires SameVotes(s, t) && n <= |s.path|
    ensures s.BackupVote(n) == t.BackupVote(n)
  {
    FirstBackupsAgree(s, t, 0, n);
  }

  /** No unknown server can make the search give up. */
  ghost predicate NoGiveUp(s: Scan) { s.synced || s.heads.Keys <= s.registered }

  /** A search that found nothing for want of a quorum finds nothing in a smaller window either. */
  lemma {:induction false} ShrinkingKeepsFailure(s: Scan, t: Scan)
    requires SameVotes(s, t) && |s.path| >= 1 && NoGiveUp(s) && s.quorum.Positive()
    requires t.window <= s.window && s.Fails()
    ensures t.Fails()
  {
    QuorumsAgree(s, t);
    assert s.NoQuorum();
  }

  /** A search that found nothing finds nothing again once nothing is published. */
  lemma {:induction false} FailsUnsynced(s: Scan, t: Scan)
    requires SameVotes(s, t) && |s.path| >= 1 && s.window == t.window && !t.synced && s.Fails()
    ensures t.Fails()
  {
    QuorumsAgree(s, t);
    if k: nat :| s.GivesUpFirst(k) {
      var r :| r in s.heads && r !in s.registered && s.heads[r].hash == s.path[k].hash;
      assert t.GivesUpFirst(k);
    }
  }

  /** An elected head is elected again exactly when the new window still reaches it. */
  lemma {:induction false} ReachedAgain(s: Scan, t: Scan, tier: nat, k: nat)
    requires SameVotes(s, t) && |s.path| >= 1
    requires s.Nearest(k) && s.Clear(k + 1) && t.Clear(k + 1)
    ensures s.Outcome(tier) == t.Outcome(tier) <==> k < t.window
  {
    s.PrimaryElection(tier);
    t.PrimaryElection(tier);
    QuorumsAgree(s, t);
    if k < t.window {
      assert t.Nearest(k);
      VotesAgree(s, t, k + 1);
      BackupVotesAgree(s, t, k);
    } else {
      forall j: nat ensures !t.Nearest(j) {}
    }
  }

  /** The depth of the head that an exhausted walk ends on. */
  ghost function EndOfWalk(s: Scan): nat
    requires |s.path| >= 1
  {
    if s.window < |s.path| then s.window else |s.path| - 1
  }

  lemma {:induction false} BackupShape(s: Scan, c: ConsensusRpcs)
    requires |s.path| >= 1 && s.quorum.Positive() && s.Outcome(c.tier) == Found(c) && c.backupsNeeded
    ensures s.FirstStop(0) == s.Depth() && s.FirstBackup(0, s.Depth()) < s.Depth()
    ensures c == ConsensusRpcs(c.tier, s.path[EndOfWalk(s)], s.Primaries(s.Depth()), s.BackupVote(s.Depth()), true)
  {
  }

  lemma {:induction false} BackupClear(s: Scan, c: ConsensusRpcs)
    requires |s.path| >= 1 && s.quorum.Positive() && s.Outcome(c.tier) == Found(c) && c.backupsNeeded
    ensures s.Depth() > 0 && !s.PrimaryQuorum(s.Depth() - 1) && s.Clear(s.Depth())
  {
    BackupShape(s, c);
    forall j | 0 <= j < s.Depth() ensures !s.GivesUp(j) && !s.PrimaryQuorum(j) { assert !s.Stops(j); }
  }

  /** A walk that ends on the head of `c`, having counted the same primaries and the same backup vote. */
  ghost predicate EndsOn(t: Scan, c: ConsensusRpcs, h: nat)
    requires |t.path| >= 1
  {
    && t.Clear(t.Depth()) && EndOfWalk(t) == h
    && c.rpcs == t.Primaries(t.Depth()) && c.backupsVoted == t.BackupVote(t.Depth())
  }

  lemma {:induction false} BackupsStay(s: Scan, t: Scan, c: ConsensusRpcs)
    requires SameVotes(s, t) && |s.path| >= 1 && s.quorum.Positive() && Descending(s.path)
    requires s.Outcome(c.tier) == Found(c) == t.Outcome(c.tier) && c.backupsNeeded
    ensures EndsOn(t, c, EndOfWalk(s))
  {
    BackupShape(s, c);
    BackupShape(t, c);
    BackupClear(t, c);
    var h, k := EndOfWalk(s), EndOfWalk(t);
    assert t.path[k].number + k == s.path[h].number + h;
  }

  /** No primary quorum in the window, and a backup vote: the backups decide. */
  lemma {:induction false} BackupsDecide(t: Scan, c: ConsensusRpcs)
    requires |t.path| >= 1 && t.BackupVote(t.Depth()).Some? && t.Clear(t.Depth()) && c.backupsNeeded
    requires t.Depth() > 0 && !t.PrimaryQuorum(t.Depth() - 1)
    requires c.headBlock == t.path[EndOfWalk(t)]
    requires c.rpcs == t.Primaries(t.Depth()) && c.backupsVoted == t.BackupVote(t.Depth())
    ensures t.Outcome(c.tier) == Found(c)
  {
    forall k | 0 <= k < t.Depth() ensures !t.Stops(k) {
      if t.PrimaryQuorum(k) {
        t.QuorumGrows(k, t.Depth() - 1);
      }
    }
    t.StopsFirstAt(t.Depth());
  }

  /** Backups elect the same head again exactly when the new walk ends on it with the same votes. */
  lemma {:induction false} BackupsAgain(s: Scan, t: Scan, c: ConsensusRpcs)
    requires SameVotes(s, t) && |s.path| >= 1 && s.quorum.Positive() && Descending(s.path)
    requires s.Outcome(c.tier) == Found(c) && c.backupsNeeded
    ensures t.Outcome(c.tier) == Found(c) <==> EndsOn(t, c, EndOfWalk(s))
  {
    if t.Outcome(c.tier) == Found(c) {
      BackupsStay(s, t, c);
    } else if EndsOn(t, c, EndOfWalk(s)) {
      BackupShape(s, c);
      BackupClear(s, c);
      assert t.Depth() > 0 by { assert t.BackupVote(t.Depth()).Some?; }
      assert !s.Enough(c.rpcs) && !t.Enough(c.rpcs);
      BackupsDecide(t, c);
    }
  }

  lemma {:induction false} SameFirstBackup(s: Scan, m: nat, n: nat)
    requires m <= n <= |s.path| && s.FirstBackup(0, m) < m
    ensures s.FirstBackup(0, n) == s.FirstBackup(0, m) && s.BackupVote(n) == s.BackupVote(m)
  {
    var j, k := s.FirstBackup(0, m), s.FirstBackup(0, n);
    assert s.BackupQuorum(j) && (k < n ==> s.BackupQuorum(k));
  }

  /** The same window: the walk ends as before unless it now gives up. */
  lemma {:induction false} EndsOnSameWindow(s: Scan, t: Scan, c: ConsensusRpcs)
    requires SameVotes(s, t) && |s.path| >= 1 && s.quorum.Positive() && s.window == t.window
    requires s.Outcome(c.tier) == Found(c) && c.backupsNeeded
    ensures EndsOn(t, c, EndOfWalk(s)) <==> t.Clear(t.Depth())
  {
    BackupShape(s, c);
    VotesAgree(s, t, s.Depth());
    BackupVotesAgree(s, t, s.Depth());
  }

  /** A window that reaches just the head: the walk must end there, and count no further primary. */
  lemma {:induction false} EndsOnNextWindow(s: Scan, t: Scan, c: ConsensusRpcs)
    requires SameVotes(s, t) && |s.path| >= 1 && s.quorum.Positive() && t.window == EndOfWalk(s) + 1
    requires s.Outcome(c.tier) == Found(c) && c.backupsNeeded
    ensures EndsOn(t, c, EndOfWalk(s)) <==>
              t.Clear(t.Depth()) && |t.path| == EndOfWalk(s) + 1 && c.rpcs == t.Primaries(|t.path|)
  {
    BackupShape(s, c);
    if |t.path| == EndOfWalk(s) + 1 {
      SameFirstBackup(s, s.Depth(), t.Depth());
      BackupVotesAgree(s, t, t.Depth());
    }
  }

  // ----- two searches in the same setting -----

  /** The same blocks can be walked to from `b`. */
  ghost predicate SameWalk(v: Blocks, w: Blocks, b: Block) {
    Walkable(v, b) && Walkable(w, b) && Ancestry(v, b) == Ancestry(w, b)
  }

  /** All that a search can see besides what is published: thresholds, lag, which of the tracked servers are registered,
      and the blocks reachable from each tier's highest block. */
  ghost predicate SameSetting(a: Env, b: Env, ts: seq<Group>)
    requires |ts| == TIERS
  {
    && a.quorum == b.quorum && a.maxBlockLag == b.maxBlockLag
    && (forall r | r in AllHeads(ts) :: r in a.registered <==> r in b.registered)
    && (forall i | 0 <= i < TIERS :: ts[i].highest.Some? ==> SameWalk(a.view, b.view, ts[i].highest.value))
  }

  /** The setting once `c` is published, or withdrawn. */
  ghost predicate After(a: Env, c: Option<ConsensusRpcs>, b: Env, ts: seq<Group>)
    requires |ts| == TIERS
  {
    && SameSetting(a, b, ts)
    && b.synced == (c.Some? && c.value.rpcs != {})
    && b.headNum == if c.Some? then Some(c.value.headBlock.number) else a.headNum
  }

  ghost predicate SearchSetting(truth: Blocks, a: Env, b: Env, ts: seq<Group>) {
    && EnvValid(truth, a) && EnvValid(truth, b) && TiersValid(truth, ts) && a.quorum.Positive()
    && AllSearchable(a, ts) && AllSearchable(b, ts)
  }

  lemma {:induction false} TierVotes(a: Env, b: Env, ts: seq<Group>, i: nat, m: Option<nat>, n: Option<nat>)
    requires Coherent(ts) && i < TIERS && ts[i].highest.Some? && SameSetting(a, b, ts)
    requires AllSearchable(a, ts) && AllSearchable(b, ts)
    ensures SameVotes(ScanOf(a, ts[i], m), ScanOf(b, ts[i], n))
  {
    assert ts[i].heads == UpTo(AllHeads(ts), i);
    assert SameWalk(a.view, b.view, ts[i].highest.value);
  }

  lemma {:induction false} SettlesOnResult(rs: seq<ScanResult>, c: ConsensusRpcs)
    requires forall i | 0 <= i < |rs| :: rs[i].Found? ==> rs[i].consensus.tier == i
    ensures FirstFound(rs, 0) == Found(c) <==>
              c.tier < |rs| && rs[c.tier] == Found(c) && forall i | 0 <= i < c.tier :: rs[i].NotFound?
  {
    var t := FirstFoundAt(rs, 0);
    if c.tier < |rs| && rs[c.tier] == Found(c) && forall i | 0 <= i < c.tier :: rs[i].NotFound? {
      assert t == c.tier;
    }
  }

  /** A search settles on `c` exactly when its tier finds it and all lower tiers fail. */
  lemma {:induction false} SettlesOn(env: Env, ts: seq<Group>, n: Option<nat>, c: ConsensusRpcs)
    requires AllSearchable(env, ts)
    ensures FirstFound(TierResults(env, ts, n), 0) == Found(c) <==>
              && c.tier < |ts| && GroupConsensus(env, ts[c.tier], n, c.tier) == Found(c)
              && forall i | 0 <= i < c.tier :: TierFails(env, ts[i], n)
  {
    var rs := TierResults(env, ts, n);
    forall i | 0 <= i < |rs|
      ensures (rs[i].NotFound? <==> TierFails(env, ts[i], n)) && (rs[i].Found? ==> rs[i].consensus.tier == i)
    {
      TierFailsIff(env, ts[i], n, i);
      if rs[i].Found? {
        FoundOnTier(env, ts[i], n, i);
      }
    }
    SettlesOnResult(rs, c);
  }

  lemma {:induction false} BestAbove(env: Env, ts: seq<Group>, m: Option<nat>)
    requires |ts| == TIERS && AllSearchable(env, ts) && ts[TIERS - 1].highest.Some?
    requires m == MinBlockNum(env, ts[TIERS - 1].highest.value.number)
    ensures Best(env, ts) == FirstFound(TierResults(env, ts, m), 0)
  {
  }

  /** What the winning tier's search was like. */
  lemma {:induction false} WinnerWalk(truth: Blocks, env: Env, ts: seq<Group>, c: ConsensusRpcs, m: Option<nat>,
                                      s: Scan)
    requires EnvValid(truth, env) && TiersValid(truth, ts) && AllSearchable(env, ts) && env.quorum.Positive()
    requires c.tier < TIERS && GroupConsensus(env, ts[c.tier], m, c.tier) == Found(c)
    requires ts[c.tier].highest.Some? ==> s == ScanOf(env, ts[c.tier], m)
    ensures ts[c.tier].highest.Some? && |ts[c.tier].heads| >= env.quorum.minHeadRpcs
    ensures |s.path| >= 1 && s.path[0] == ts[c.tier].highest.value && Descending(s.path)
    ensures s.Outcome(c.tier) == Found(c)
    ensures m.Some? ==> c.headBlock.number + (if c.backupsNeeded then 1 else 0) >= m.value
  {
    FoundOnTier(env, ts[c.tier], m, c.tier);
    var g := ts[c.tier];
    assert GroupValid(truth, g);
    forall k | 0 <= k < |s.path| ensures s.path[k].number + k == s.path[0].number {
      AncestryNumbers(truth, env.view, g.highest.value, k);
    }
    if m.Some? {
      FloorHolds(s, m.value, c.tier);
    }
  }

  /** Both searches, tier by tier. */
  lemma {:induction false} BothSearches(truth: Blocks, a: Env, b: Env, ts: seq<Group>, c: ConsensusRpcs, top: nat,
                                        m: Option<nat>, n: Option<nat>)
    requires SearchSetting(truth, a, b, ts) && After(a, Some(c), b, ts) && Best(a, ts) == Found(c)
    requires ts[TIERS - 1].highest.Some? ==> top == ts[TIERS - 1].highest.value.number
    requires m == MinBlockNum(a, top) && n == MinBlockNum(b, top)
    ensures ts[TIERS - 1].highest.Some?
    ensures c.tier < TIERS && GroupConsensus(a, ts[c.tier], m, c.tier) == Found(c)
    ensures forall i | 0 <= i < c.tier :: TierFails(a, ts[i], m)
    ensures Best(b, ts) == Found(c) <==>
              && GroupConsensus(b, ts[c.tier], n, c.tier) == Found(c)
              && forall i | 0 <= i < c.tier :: TierFails(b, ts[i], n)
  {
    BestAbove(a, ts, m);
    BestAbove(b, ts, n);
    SettlesOn(a, ts, m, c);
    SettlesOn(b, ts, n, c);
  }

  // ----- primary-voted -----

  /** The window still reaches the head of `c`, and no lower tier finds anything. */
  ghost predicate Reelectable(env: Env, ts: seq<Group>, c: ConsensusRpcs)
    requires |ts| == TIERS && AllSearchable(env, ts)
  {
    && c.tier < TIERS && ts[c.tier].highest.Some? && ts[c.tier].highest.value.number < U64_MAX
    && forall i | 0 <= i < c.tier :: TierFails(env, ts[i], Some(c.headBlock.number))
  }

  lemma {:induction false} NearestOf(s: Scan, c: ConsensusRpcs) returns (k: nat)
    requires |s.path| >= 1 && s.Outcome(c.tier) == Found(c) && !c.backupsNeeded && s.quorum.Positive()
    ensures s.Nearest(k) && s.Clear(k + 1) && c.headBlock == s.path[k] && c.rpcs != {}
  {
    s.PrimaryElection(c.tier);
    k :| s.Nearest(k) && s.Clear(k + 1);
    assert s.Enough(c.rpcs);
  }

  /** Once a head above the floor is published it is the floor. */
  lemma {:induction false} FloorMoves(a: Env, b: Env, ts: seq<Group>, c: ConsensusRpcs, top: nat)
    requires |ts| == TIERS && After(a, Some(c), b, ts)
    requires MinBlockNum(a, top).Some? ==> c.headBlock.number >= MinBlockNum(a, top).value
    ensures MinBlockNum(b, top) == Some(c.headBlock.number)
  {
  }

  lemma {:induction false} WinnerAgain(truth: Blocks, a: Env, b: Env, ts: seq<Group>, c: ConsensusRpcs,
                                       m: Option<nat>, n: Option<nat>)
    requires SearchSetting(truth, a, b, ts) && After(a, Some(c), b, ts)
    requires c.tier < TIERS && GroupConsensus(a, ts[c.tier], m, c.tier) == Found(c) && !c.backupsNeeded
    requires n == Some(c.headBlock.number)
    ensures ts[c.tier].highest.Some?
    ensures GroupConsensus(b, ts[c.tier], n, c.tier) == Found(c) <==> ts[c.tier].highest.value.number < U64_MAX
  {
    var g := ts[c.tier];
    FoundOnTier(a, g, m, c.tier);
    var s, t := ScanOf(a, g, m), ScanOf(b, g, n);
    WinnerWalk(truth, a, ts, c, m, s);
    var k := NearestOf(s, c);
    TierVotes(a, b, ts, c.tier, m, n);
    assert s.path[k].number + k == s.path[0].number;
    ReachedAgain(s, t, c.tier, k);
    assert GroupValid(truth, g);
  }

  /** Right after a primary-voted head is published, searching again elects exactly the same consensus (tier, head,
      servers, backup vote), although the window has shrunk to the new head, exactly when it is `Reelectable`. */
  lemma {:induction false} RescanIff(truth: Blocks, a: Env, b: Env, ts: seq<Group>, c: ConsensusRpcs)
    requires SearchSetting(truth, a, b, ts) && After(a, Some(c), b, ts)
    requires Best(a, ts) == Found(c) && !c.backupsNeeded
    ensures Best(b, ts) == Found(c) <==> Reelectable(b, ts, c)
  {
    var top := if ts[TIERS - 1].highest.None? then 0 else ts[TIERS - 1].highest.value.number;
    var m, n := MinBlockNum(a, top), MinBlockNum(b, top);
    BothSearches(truth, a, b, ts, c, top, m, n);
    FoundOnTier(a, ts[c.tier], m, c.tier);
    WinnerWalk(truth, a, ts, c, m, ScanOf(a, ts[c.tier], m));
    FloorMoves(a, b, ts, c, top);
    WinnerAgain(truth, a, b, ts, c, m, n);
  }

  /** Where a tier did not give up, it still finds nothing: nested groups keep its window from growing. */
  lemma {:induction false} LowerTierFailsAgain(truth: Blocks, a: Env, b: Env, ts: seq<Group>, i: nat, j: nat,
                                               m: Option<nat>, n: nat)
    requires SearchSetting(truth, a, b, ts) && SameSetting(a, b, ts)
    requires a.synced || AllHeads(ts).Keys <= a.registered
    requires i < j < TIERS && ts[j].highest.Some? && TierFails(a, ts[i], m)
    requires if m.Some? then m.value <= n else ts[j].highest.value.number < n + 10
    ensures TierFails(b, ts[i], Some(n))
  {
    assert HighestAtMost(ts[i], ts[j]);
    if ts[i].highest.Some? && |ts[i].heads| >= a.quorum.minHeadRpcs {
      assert ts[i].heads == UpTo(AllHeads(ts), i);
      TierVotes(a, b, ts, i, m, Some(n));
      ShrinkingKeepsFailure(ScanOf(a, ts[i], m), ScanOf(b, ts[i], Some(n)));
    }
  }

  /** Unless nothing was published before and a tracked server is unknown, no lower tier gave up, and the same consensus
      is elected again as long as the tier's highest block does not carry the largest 64-bit number, where
      `saturating_add` cuts the window one block short of the head. */
  lemma {:induction false} RescanElectsTheSame(truth: Blocks, a: Env, b: Env, ts: seq<Group>, c: ConsensusRpcs)
    requires SearchSetting(truth, a, b, ts) && After(a, Some(c), b, ts)
    requires Best(a, ts) == Found(c) && !c.backupsNeeded
    requires a.synced || AllHeads(ts).Keys <= a.registered
    ensures c.tier < TIERS && ts[c.tier].highest.Some?
    ensures Best(b, ts) == Found(c) <==> ts[c.tier].highest.value.number < U64_MAX
  {
    RescanIff(truth, a, b, ts, c);
    var top := if ts[TIERS - 1].highest.None? then 0 else ts[TIERS - 1].highest.value.number;
    var m := MinBlockNum(a, top);
    BothSearches(truth, a, b, ts, c, top, m, MinBlockNum(b, top));
    FoundOnTier(a, ts[c.tier], m, c.tier);
    var s := ScanOf(a, ts[c.tier], m);
    WinnerWalk(truth, a, ts, c, m, s);
    var k := NearestOf(s, c);
    assert s.path[k].number + k == s.path[0].number;
    forall i | 0 <= i < c.tier ensures TierFails(b, ts[i], Some(c.headBlock.number)) {
      LowerTierFailsAgain(truth, a, b, ts, i, c.tier, m, c.headBlock.number);
    }
  }

  // ----- backup-voted -----

  /** A walk goes on from its k-th block exactly if the parent can be looked up. */
  lemma {:induction false} WalkEnds(bs: Blocks, b: Block, k: nat)
    requires Walkable(bs, b) && k < |Ancestry(bs, b)|
    ensures |Ancestry(bs, b)| == k + 1 <==> Ancestry(bs, b)[k].parentHash !in bs
  {
    AncestrySuffix(bs, b, k);
    assert |Ancestry(bs, b)[k..]| == |Ancestry(bs, b)| - k;
  }

  /** The walk of the tier that found `c` ends on its head again: the configured lag keeps the search above that head,
      or the walk cannot go past it and all primaries on the walk are published. With the largest 64-bit number as
      highest the window stops short of the head, where the same primaries and vote must have been counted. */
  ghost predicate EndsAgain(env: Env, g: Group, c: ConsensusRpcs, m: nat)
    requires g.highest.Some? && Searchable(env, g)
  {
    var t := ScanOf(env, g, Some(m));
    && t.Clear(t.Depth())
    && (|| m > c.headBlock.number
        || (g.highest.value.number < U64_MAX && c.headBlock.parentHash !in env.view
            && c.rpcs == t.Primaries(|t.path|))
        || (g.highest.value.number == U64_MAX
            && c.rpcs == t.Primaries(t.Depth()) && c.backupsVoted == t.BackupVote(t.Depth())))
  }

  /** A backup-voted consensus would be found again: no unknown server is met, its walk ends on its head again, and no
      lower tier finds anything. */
  ghost predicate Repeatable(env: Env, ts: seq<Group>, c: ConsensusRpcs)
    requires |ts| == TIERS && AllSearchable(env, ts)
  {
    && c.tier < TIERS && ts[c.tier].highest.Some? && ts[TIERS - 1].highest.Some?
    && var m := MinBlockNum(env, ts[TIERS - 1].highest.value.number);
       && m.Some? && EndsAgain(env, ts[c.tier], c, m.value)
       && forall i | 0 <= i < c.tier :: TierFails(env, ts[i], m)
  }

  lemma {:induction false} EndsAgainIff(env: Env, g: Group, c: ConsensusRpcs, m: Option<nat>, n: nat, s: Scan, t: Scan)
    requires g.highest.Some? && Searchable(env, g) && t == ScanOf(env, g, Some(n)) && SameVotes(s, t)
    requires |s.path| >= 1 && s.path[0] == g.highest.value && Descending(s.path) && s.quorum.Positive()
    requires s.window == Window(g.highest.value.number, m) && g.highest.value.number <= U64_MAX
    requires s.Outcome(c.tier) == Found(c) && c.backupsNeeded
    requires n == c.headBlock.number || (n > c.headBlock.number && m == Some(n))
    ensures EndsOn(t, c, EndOfWalk(s)) <==> EndsAgain(env, g, c, n)
  {
    BackupShape(s, c);
    var h := EndOfWalk(s);
    assert s.path[h].number + h == s.path[0].number;
    if n > c.headBlock.number {
      EndsOnSameWindow(s, t, c);
    } else if g.highest.value.number < U64_MAX {
      assert t.window == h + 1;
      EndsOnNextWindow(s, t, c);
      WalkEnds(env.view, g.highest.value, h);
    } else {
      assert t.window == h;
    }
  }

  lemma {:induction false} WinnerByBackups(truth: Blocks, a: Env, b: Env, ts: seq<Group>, c: ConsensusRpcs,
                                           m: Option<nat>, n: nat)
    requires SearchSetting(truth, a, b, ts) && After(a, Some(c), b, ts)
    requires c.tier < TIERS && GroupConsensus(a, ts[c.tier], m, c.tier) == Found(c) && c.backupsNeeded
    requires n == c.headBlock.number || (n > c.headBlock.number && m == Some(n))
    ensures ts[c.tier].highest.Some?
    ensures GroupConsensus(b, ts[c.tier], Some(n), c.tier) == Found(c) <==> EndsAgain(b, ts[c.tier], c, n)
  {
    var g := ts[c.tier];
    FoundOnTier(a, g, m, c.tier);
    var s, t := ScanOf(a, g, m), ScanOf(b, g, Some(n));
    WinnerWalk(truth, a, ts, c, m, s);
    TierVotes(a, b, ts, c.tier, m, Some(n));
    assert GroupValid(truth, g);
    HighestInRange(truth, g);
    BackupsAgain(s, t, c);
    EndsAgainIff(b, g, c, m, n, s, t);
  }

  lemma {:induction false} HighestInRange(truth: Blocks, g: Group)
    requires Linked(truth) && GroupValid(truth, g) && g.highest.Some?
    ensures g.highest.value.number <= U64_MAX
  {
    assert LinkedAt(truth, g.highest.value.hash);
  }

  /** Once `c` is published the floor is its head, or one above it where the configured lag asked for that before. */
  lemma {:induction false} FloorAfter(a: Env, b: Env, ts: seq<Group>, c: ConsensusRpcs, top: nat)
    requires |ts| == TIERS && After(a, Some(c), b, ts)
    requires MinBlockNum(a, top).Some? ==> c.headBlock.number + 1 >= MinBlockNum(a, top).value
    ensures var n := MinBlockNum(b, top);
      n.Some? && (n.value == c.headBlock.number || (n.value > c.headBlock.number && MinBlockNum(a, top) == n))
  {
  }

  /** Right after a backup-voted head is published, searching again finds the same consensus exactly when it is
      `Repeatable`; otherwise the published head itself opens the window one block further. */
  lemma {:induction false} BackupRescanIff(truth: Blocks, a: Env, b: Env, ts: seq<Group>, c: ConsensusRpcs)
    requires SearchSetting(truth, a, b, ts) && After(a, Some(c), b, ts)
    requires Best(a, ts) == Found(c) && c.backupsNeeded
    ensures Best(b, ts) == Found(c) <==> Repeatable(b, ts, c)
  {
    var top := if ts[TIERS - 1].highest.None? then 0 else ts[TIERS - 1].highest.value.number;
    var m, n := MinBlockNum(a, top), MinBlockNum(b, top);
    BothSearches(truth, a, b, ts, c, top, m, n);
    FoundOnTier(a, ts[c.tier], m, c.tier);
    WinnerWalk(truth, a, ts, c, m, ScanOf(a, ts[c.tier], m));
    FloorAfter(a, b, ts, c, top);
    WinnerByBackups(truth, a, b, ts, c, m, n.value);
  }

  // ----- nothing found -----

  /** A search that found nothing finds nothing again. */
  lemma {:induction false} RescanFindsNothing(truth: Blocks, a: Env, b: Env, ts: seq<Group>)
    requires SearchSetting(truth, a, b, ts) && After(a, None, b, ts) && Best(a, ts).NotFound?
    ensures Best(b, ts).NotFound?
  {
    if ts[TIERS - 1].highest.Some? && Best(b, ts).Found? {
      var m, c := MinBlockNum(a, ts[TIERS - 1].highest.value.number), Best(b, ts).consensus;
      assert m == MinBlockNum(b, ts[TIERS - 1].highest.value.number);
      SettlesOn(b, ts, m, c);
      var t := FirstFoundAt(TierResults(a, ts, m), 0);
      assert TierResults(a, ts, m)[c.tier].NotFound?;
      StillFails(a, b, ts, c.tier, m);
    }
  }

  lemma {:induction false} StillFails(a: Env, b: Env, ts: seq<Group>, i: nat, m: Option<nat>)
    requires Coherent(ts) && i < TIERS && SameSetting(a, b, ts) && !b.synced
    requires AllSearchable(a, ts) && AllSearchable(b, ts) && GroupConsensus(a, ts[i], m, i).NotFound?
    ensures GroupConsensus(b, ts[i], m, i).NotFound?
  {
    TierFailsIff(a, ts[i], m, i);
    TierFailsIff(b, ts[i], m, i);
    if ts[i].highest.Some? && |ts[i].heads| >= a.quorum.minHeadRpcs {
      TierVotes(a, b, ts, i, m, m);
      FailsUnsynced(ScanOf(a, ts[i], m), ScanOf(b, ts[i], m));
    }
  }
}

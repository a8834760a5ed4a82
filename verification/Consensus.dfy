/** The code that tracks heads, walks the chain and publishes the consensus, proved against the specifications. */
module Consensus {
  import opened Options
  import opened Chain
  import opened HeadScan
  import opened Tiers
  import opened HeadTracker

  /** The shared collection of servers: registry, block caches and the two watch channels. */
  class Web3Rpcs {
    ghost const truth: Blocks
    const cfg: Config
    var byName: set<Rpc>
    var blocksByHash: Blocks
    var blocksByNumber: map<nat, Hash>
    var consensus: Option<ConsensusRpcs>
    var head: Option<Block>

    constructor (cfg: Config, byName: set<Rpc>, ghost truth: Blocks)
      ensures this.cfg == cfg && this.byName == byName && this.truth == truth
      ensures blocksByHash == map[] && blocksByNumber == map[] && consensus == None && head == None
    {
      this.cfg, this.byName, this.truth := cfg, byName, truth;
      blocksByHash, blocksByNumber, consensus, head := map[], map[], None, None;
    }

    ghost predicate Serves(net: Blocks)
      reads this
    {
      Linked(truth) && Within(net, truth) && Within(blocksByHash, truth)
    }

    /** The blocks that can be looked up. */
    ghost function View(net: Blocks): Blocks
      reads this
    {
      net + blocksByHash
    }

    /** Only blocks that could be looked up anyway were added to the cache `before`. */
    ghost predicate Fetched(net: Blocks, view: Blocks, before: Blocks)
      reads this
    {
      Serves(net) && View(net) == view && Within(before, blocksByHash) && NoNewZero(before, blocksByHash)
    }

    ghost function EnvFor(net: Blocks): Env
      reads this
    {
      Env(byName, Synced(consensus), cfg.quorum, cfg.maxBlockLag, HeadNum(head), View(net))
    }

    /** Caches a block by hash, and by number if it is on the heaviest chain; answers the block cached first. */
    method TryCacheBlock(block: Block, heaviestChain: bool) returns (cached: Block)
      requires Within(blocksByHash, truth) && Real(truth, block)
      modifies this`blocksByHash, this`blocksByNumber
      ensures cached == block
      ensures blocksByHash == CacheBlock(old(blocksByHash), block) && Within(blocksByHash, truth)
      ensures blocksByNumber == if heaviestChain then CacheNumber(old(blocksByNumber), block) else old(blocksByNumber)
    {
      if block.hash == ZERO_HASH {
        return block;
      }
      if heaviestChain {
        blocksByNumber := blocksByNumber[block.number := block.hash];
      }
      if block.hash in blocksByHash {
        cached := blocksByHash[block.hash];
      } else {
        blocksByHash := blocksByHash[block.hash := block];
        cached := block;
      }
    }

    /** Looks a block up in the cache, then at the backends. */
    method BlockByHash(hash: Hash, net: Blocks) returns (found: Option<Block>)
      requires Serves(net)
      modifies this`blocksByHash
      ensures found == if hash in View(net) then Some(View(net)[hash]) else None
      ensures Fetched(net, old(View(net)), old(blocksByHash))
    {
      if hash in blocksByHash {
        return Some(blocksByHash[hash]);
      }
      if hash !in net {
        return None;
      }
      var block := net[hash];
      assert LinkedAt(truth, hash);
      if block.hash != ZERO_HASH && block.hash !in blocksByHash {
        blocksByHash := blocksByHash[block.hash := block];
      }
      found := Some(block);
    }
  }

  /** What the walk has counted so far. */
  datatype Tally = Tally(
    primaries: set<Rpc>, voters: set<Rpc>, primarySum: nat, voterSum: nat, backupsVoted: Option<Block>)

  datatype Verdict = GiveUp | Elect | GoOn

  /** How one turn of the walk ends: with an error, with a decision for the block at hand, or at its parent. */
  datatype Turn = Fails(error: ScanError) | Ends(elected: bool) | Onward(parent: Block)

  /** The check after the walk: enough primaries, or the backups' vote. */
  predicate Sufficient(quorum: Quorum, t: Tally) {
    (|t.primaries| >= quorum.minHeadRpcs && t.primarySum >= quorum.minSumSoftLimit) || t.backupsVoted.Some?
  }

  /** The tally after the first `n` blocks of the walk. */
  ghost predicate Counted(s: Scan, n: nat, t: Tally)
    requires n <= |s.path|
  {
    && t.primaries == s.Primaries(n) && t.backupsVoted == s.BackupVote(n) && t.voters == s.Voters(s.VotersUpTo(n))
    && t.primarySum == SumSoftLimit(t.primaries) && t.voterSum == SumSoftLimit(t.voters)
  }

  /** What counting one more block makes of a tally. */
  lemma {:induction false} CountedVotes(s: Scan, n: nat, t: Tally)
    requires n < |s.path| && Counted(s, n, t)
    ensures t.primaries + t.voters <= s.registered
    ensures forall r | r in t.voters && !r.backup :: r in t.primaries
    ensures t.backupsVoted.None? ==> t.primaries <= t.voters
    ensures t.primaries + NonBackups(OnHash(s.heads, s.path[n].hash) * s.registered) == s.Primaries(n + 1)
    ensures t.backupsVoted.None? <==> s.FirstBackup(0, n) == n
    ensures t.backupsVoted.None? ==> t.voters + OnHash(s.heads, s.path[n].hash) * s.registered == s.Voters(n + 1)
  {
    s.VotesAt(n);
    s.VotersGrow(s.VotersUpTo(n), n);
  }

  /** How the counted votes compare with the quorum. */
  lemma {:induction false} VotesDecide(s: Scan, n: nat, t: Tally, next: Tally)
    requires n < |s.path| && Counted(s, n, t)
    requires next.primaries == t.primaries + NonBackups(OnHash(s.heads, s.path[n].hash) * s.registered)
    requires t.backupsVoted.None? ==> next.voters == t.voters + OnHash(s.heads, s.path[n].hash) * s.registered
    requires next.primarySum == SumSoftLimit(next.primaries) && next.voterSum == SumSoftLimit(next.voters)
    ensures next.primaries == s.Primaries(n + 1) && (t.backupsVoted.None? ==> next.voters == s.Voters(n + 1))
    ensures s.PrimaryQuorum(n) <==>
              next.primarySum >= s.quorum.minSumSoftLimit && |next.primaries| >= s.quorum.minHeadRpcs
    ensures t.backupsVoted.None? ==>
              (s.BackupQuorum(n) <==>
                 next.voters != next.primaries
                 && next.voterSum >= s.quorum.minSumSoftLimit && |next.voters| >= s.quorum.minHeadRpcs)
  {
    CountedVotes(s, n, t);
    PrimaryQuorumIff(s, n, next.primaries, next.primarySum);
    if t.backupsVoted.None? {
      BackupQuorumIff(s, n, next.primaries, next.voters, next.voterSum);
    }
  }

  lemma {:induction false} PrimaryQuorumIff(s: Scan, n: nat, primaries: set<Rpc>, sum: nat)
    requires n < |s.path| && primaries == s.Primaries(n + 1) && sum == SumSoftLimit(primaries)
    ensures s.PrimaryQuorum(n) <==> sum >= s.quorum.minSumSoftLimit && |primaries| >= s.quorum.minHeadRpcs
  {
  }

  lemma {:induction false} BackupQuorumIff(s: Scan, n: nat, primaries: set<Rpc>, voters: set<Rpc>, sum: nat)
    requires n < |s.path| && primaries == s.Primaries(n + 1) && voters == s.Voters(n + 1)
    requires sum == SumSoftLimit(voters)
    ensures s.BackupQuorum(n) <==>
              voters != primaries && sum >= s.quorum.minSumSoftLimit && |voters| >= s.quorum.minHeadRpcs
  {
  }

  /** One more block counted, and the backups' vote taken unless they had settled before. */
  lemma {:induction false} CountedNext(s: Scan, n: nat, t: Tally, next: Tally)
    requires n < |s.path| && Counted(s, n, t)
    requires next.primaries == s.Primaries(n + 1)
    requires next.primarySum == SumSoftLimit(next.primaries) && next.voterSum == SumSoftLimit(next.voters)
    requires t.backupsVoted.Some? ==> next.voters == t.voters && next.backupsVoted == t.backupsVoted
    requires t.backupsVoted.None? ==> next.voters == s.Voters(n + 1)
    requires t.backupsVoted.None? ==> next.backupsVoted == if s.BackupQuorum(n) then Some(s.path[n]) else None
    ensures Counted(s, n + 1, next)
  {
    s.BackupVoteAt(n);
  }

  ghost predicate NoStopBefore(s: Scan, n: nat)
    requires n <= |s.path|
  {
    forall j | 0 <= j < n :: !s.Stops(j)
  }

  /** The walk stands at the i-th block with the votes of all earlier ones counted and no reason to stop met. */
  ghost predicate WalkedTo(s: Scan, view: Blocks, i: nat, block: Block, t: Tally) {
    && i < |s.path| && block == s.path[i]
    && Walkable(view, block) && Ancestry(view, block) == s.path[i..]
    && NoStopBefore(s, i) && Counted(s, i, t)
  }

  lemma {:induction false} WalkBegins(s: Scan, view: Blocks, highest: Block)
    requires Walkable(view, highest) && s.path == Ancestry(view, highest)
    ensures WalkedTo(s, view, 0, highest, Tally({}, {}, 0, 0, None))
  {
    CountedAtStart(s);
  }

  /** The i-th block's votes are counted too: either the walk can go on to the parent or this was its last block. */
  ghost predicate WalkedOver(s: Scan, view: Blocks, i: nat, block: Block, t: Tally) {
    if block.parentHash in view then WalkedTo(s, view, i + 1, view[block.parentHash], t)
    else |s.path| == i + 1 && block == s.path[i] && NoStopBefore(s, i + 1) && Counted(s, i + 1, t)
  }

  lemma {:induction false} WalkOn(s: Scan, view: Blocks, i: nat, block: Block, t: Tally, next: Tally)
    requires WalkedTo(s, view, i, block, t) && NoStopBefore(s, i + 1) && Counted(s, i + 1, next)
    ensures WalkedOver(s, view, i, block, next)
  {
    assert s.path[i..][0] == block;
    assert LinkedAt(view, block.parentHash);
    if block.parentHash in view {
      assert s.path[i..][1..] == s.path[i + 1..];
    } else {
      assert |s.path[i..]| == 1;
    }
  }

  lemma {:induction false} NoStopNext(s: Scan, n: nat)
    requires n < |s.path| && NoStopBefore(s, n) && !s.GivesUp(n) && !s.PrimaryQuorum(n)
    ensures NoStopBefore(s, n + 1)
  {
  }

  lemma {:induction false} GaveUp(s: Scan, tier: nat, n: nat)
    requires n < s.Depth() && NoStopBefore(s, n) && s.GivesUp(n)
    ensures s.Outcome(tier) == NotFound(NotSynced)
  {
    s.StopsFirstAt(n);
  }

  lemma {:induction false} Elected(s: Scan, tier: nat, n: nat)
    requires n < s.Depth() && NoStopBefore(s, n) && !s.GivesUp(n) && s.PrimaryQuorum(n)
    ensures s.Outcome(tier) == Found(ConsensusRpcs(tier, s.path[n], s.Primaries(n + 1), s.BackupVote(n), false))
  {
    s.StopsFirstAt(n);
  }

  /** What is left to report when the parent of the last block cannot be fetched. */
  lemma {:induction false} OutOfParents(s: Scan, tier: nat, t: Tally)
    requires 1 <= |s.path| <= s.window && NoStopBefore(s, |s.path|) && Counted(s, |s.path|, t)
    ensures s.Outcome(tier) == if t.backupsVoted.None? then NotFound(RanOutOfParents)
                               else Found(ConsensusRpcs(tier, s.path[|s.path| - 1], t.primaries, t.backupsVoted, true))
  {
    s.StopsFirstAt(|s.path|);
  }

  /** What is left to report when the window is used up. */
  lemma {:induction false} WindowUsedUp(s: Scan, tier: nat, t: Tally)
    requires s.window < |s.path| && NoStopBefore(s, s.window) && Counted(s, s.window, t)
    ensures s.Outcome(tier) ==
            if !Sufficient(s.quorum, t) then NotFound(NotEnoughResources)
            else Found(ConsensusRpcs(tier, s.path[s.window], t.primaries, t.backupsVoted, true))
  {
    s.StopsFirstAt(s.window);
    if s.window == 0 {
      assert s.Primaries(0) == {};
    } else {
      assert !s.Stops(s.window - 1);
    }
  }

  lemma {:induction false} NoParent(s: Scan, view: Blocks, i: nat, block: Block, t: Tally, tier: nat)
    requires i < s.window && WalkedOver(s, view, i, block, t) && block.parentHash !in view
    ensures s.Outcome(tier) == if t.backupsVoted.None? then NotFound(RanOutOfParents)
                               else Found(ConsensusRpcs(tier, block, t.primaries, t.backupsVoted, true))
  {
    OutOfParents(s, tier, t);
  }

  lemma {:induction false} ToParent(s: Scan, view: Blocks, i: nat, j: nat, block: Block, t: Tally)
    requires WalkedOver(s, view, i, block, t) && block.parentHash in view && j == i + 1
    ensures WalkedTo(s, view, j, view[block.parentHash], t)
  {
  }

  lemma {:induction false} CountedAtStart(s: Scan)
    ensures Counted(s, 0, Tally({}, {}, 0, 0, None))
  {
    assert s.Voters(0) == {} && s.Primaries(0) == {};
  }

  /** The heads of one tier's servers and the highest block any of them ever reported. */
  class ConnectionsGroup {
    var rpcToBlock: map<Rpc, Block>
    var highestBlock: Option<Block>

    constructor ()
      ensures Abs() == Group(map[], None)
    {
      rpcToBlock, highestBlock := map[], None;
    }

    ghost function Abs(): Group
      reads this
    {
      Group(rpcToBlock, highestBlock)
    }

    /** Untracks a server. The rescan looks for heads above the removed highest block, so where that block bounds every
        tracked head, as it does in every valid group, it is never lowered. */
    method Remove(rpc: Rpc) returns (removed: Option<Block>)
      modifies this
      ensures rpcToBlock == old(rpcToBlock) - {rpc}
      ensures (highestBlock.Some? <==> old(highestBlock).Some?)
      ensures (highestBlock.Some? ==> highestBlock.value.number >= old(highestBlock).value.number)
      ensures (highestBlock.Some? && forall r | r in old(rpcToBlock) ::
                 old(rpcToBlock)[r].number <= old(highestBlock).value.number) ==> highestBlock == old(highestBlock)
      ensures removed == if rpc in old(rpcToBlock) then Some(old(rpcToBlock)[rpc]) else None
    {
      if rpc !in rpcToBlock {
        assert rpcToBlock - {rpc} == rpcToBlock;
        return None;
      }
      var block := rpcToBlock[rpc];
      rpcToBlock := rpcToBlock - {rpc};
      if highestBlock.Some? && block.hash == highestBlock.value.hash {
        var todo := rpcToBlock.Keys;
        while todo != {}
          invariant todo <= rpcToBlock.Keys && rpcToBlock == old(rpcToBlock) - {rpc}
          invariant highestBlock.Some? && highestBlock.value.number >= old(highestBlock).value.number
          invariant (forall r | r in old(rpcToBlock) ::
                       old(rpcToBlock)[r].number <= old(highestBlock).value.number)
                    ==> highestBlock == old(highestBlock)
        {
          var r :| r in todo;
          todo := todo - {r};
          assert r in old(rpcToBlock) && rpcToBlock[r] == old(rpcToBlock)[r];
          if rpcToBlock[r].number > highestBlock.value.number {
            highestBlock := Some(rpcToBlock[r]);
          }
        }
      }
      removed := Some(block);
    }

    /** Tracks a server's head. A reorg to the same height leaves the highest block alone. */
    method Insert(rpc: Rpc, block: Block) returns (previous: Option<Block>)
      modifies this
      ensures Abs() == InsertHead(old(Abs()), rpc, block)
      ensures previous == if rpc in old(rpcToBlock) then Some(old(rpcToBlock)[rpc]) else None
    {
      if highestBlock.None? || block.number > highestBlock.value.number {
        highestBlock := Some(block);
      }
      previous := if rpc in rpcToBlock then Some(rpcToBlock[rpc]) else None;
      rpcToBlock := rpcToBlock[rpc := block];
    }

    /** One depth of the walk: adds the servers whose head is `hash`, in whatever order the map yields them. */
    method CountVotes(hash: Hash, registered: set<Rpc>, synced: bool, backupsVoted: bool,
                      primaries0: set<Rpc>, voters0: set<Rpc>, primarySum0: nat, voterSum0: nat)
      returns (ok: bool, primaries: set<Rpc>, voters: set<Rpc>, primarySum: nat, voterSum: nat)
      requires primarySum0 == SumSoftLimit(primaries0) && voterSum0 == SumSoftLimit(voters0)
      requires forall r | r in voters0 && !r.backup :: r in primaries0
      requires !backupsVoted ==> primaries0 <= voters0
      requires primaries0 + voters0 <= registered
      ensures ok <==> synced || OnHash(rpcToBlock, hash) <= registered
      ensures ok ==> primaries == primaries0 + NonBackups(OnHash(rpcToBlock, hash) * registered)
      ensures ok ==> voters == if backupsVoted then voters0 else voters0 + OnHash(rpcToBlock, hash) * registered
      ensures ok ==> primarySum == SumSoftLimit(primaries) && voterSum == SumSoftLimit(voters)
    {
      primaries, voters, primarySum, voterSum := primaries0, voters0, primarySum0, voterSum0;
      var todo := rpcToBlock.Keys;
      ghost var done := {};
      while todo != {}
        invariant todo + done == rpcToBlock.Keys && todo !! done
        invariant synced || OnHash(rpcToBlock, hash) * done <= registered
        invariant primarySum == SumSoftLimit(primaries) && voterSum == SumSoftLimit(voters)
        invariant primaries == primaries0 + NonBackups(OnHash(rpcToBlock, hash) * registered * done)
        invariant voters == if backupsVoted then voters0 else voters0 + OnHash(rpcToBlock, hash) * registered * done
        decreases todo
      {
        var rpc :| rpc in todo;
        todo, done := todo - {rpc}, done + {rpc};
        if rpcToBlock[rpc].hash == hash && rpc !in voters && rpc !in primaries {
          if rpc in registered {
            if !backupsVoted {
              SumSoftLimitAdd(voters, rpc);
              voters, voterSum := voters + {rpc}, voterSum + rpc.softLimit;
            }
            if !rpc.backup {
              SumSoftLimitAdd(primaries, rpc);
              primaries, primarySum := primaries + {rpc}, primarySum + rpc.softLimit;
            }
          } else if !synced {
            assert rpc in OnHash(rpcToBlock, hash);
            return false, primaries, voters, primarySum, voterSum;
          }
        }
      }
      ok := true;
      assert done == rpcToBlock.Keys;
      assert OnHash(rpcToBlock, hash) * registered * done == OnHash(rpcToBlock, hash) * registered;
    }

    /** One depth of the walk: counts the votes and compares them with the quorum. */
    method VoteOn(block: Block, registered: set<Rpc>, synced: bool, quorum: Quorum, tally: Tally,
                  ghost s: Scan, ghost i: nat)
      returns (verdict: Verdict, next: Tally)
      requires i < |s.path| && block == s.path[i] && Counted(s, i, tally) && NoStopBefore(s, i)
      requires s.heads == rpcToBlock && s.registered == registered && s.synced == synced && s.quorum == quorum
      ensures verdict.GiveUp? <==> s.GivesUp(i)
      ensures verdict.Elect? <==> !s.GivesUp(i) && s.PrimaryQuorum(i)
      ensures verdict.Elect? ==> next.primaries == s.Primaries(i + 1) && next.backupsVoted == s.BackupVote(i)
      ensures verdict.Elect? ==>
                next.primarySum >= quorum.minSumSoftLimit && |next.primaries| >= quorum.minHeadRpcs
      ensures verdict.GoOn? ==> NoStopBefore(s, i + 1) && Counted(s, i + 1, next)
    {
      CountedVotes(s, i, tally);
      var ok, primaries, voters, primarySum, voterSum := CountVotes(
        block.hash, registered, synced, tally.backupsVoted.Some?,
        tally.primaries, tally.voters, tally.primarySum, tally.voterSum);
      next := Tally(primaries, voters, primarySum, voterSum, tally.backupsVoted);
      s.GivesUpIff(i);
      if !ok {
        assert s.GivesUp(i);
        return GiveUp, next;
      }
      VotesDecide(s, i, tally, next);
      if primarySum >= quorum.minSumSoftLimit && |primaries| >= quorum.minHeadRpcs {
        return Elect, next;
      }
      if tally.backupsVoted.None? && voters != primaries
         && voterSum >= quorum.minSumSoftLimit && |voters| >= quorum.minHeadRpcs {
        next := next.(backupsVoted := Some(block));
      }
      CountedNext(s, i, tally, next);
      NoStopNext(s, i);
      verdict := GoOn;
    }

    /** The same, reporting what the whole search answers if this depth decides it. */
    method DecideOn(block: Block, registered: set<Rpc>, synced: bool, quorum: Quorum, tally: Tally, ghost s: Scan,
                    ghost view: Blocks, ghost i: nat, ghost tier: nat)
      returns (verdict: Verdict, next: Tally)
      requires WalkedTo(s, view, i, block, tally) && i < s.window
      requires s.heads == rpcToBlock && s.registered == registered && s.synced == synced && s.quorum == quorum
      ensures verdict.GiveUp? ==> s.Outcome(tier) == NotFound(NotSynced)
      ensures verdict.Elect? ==>
                s.Outcome(tier) == Found(ConsensusRpcs(tier, block, next.primaries, next.backupsVoted, false))
                && next.primarySum >= quorum.minSumSoftLimit && |next.primaries| >= quorum.minHeadRpcs
      ensures verdict.GoOn? ==> WalkedOver(s, view, i, block, next)
    {
      verdict, next := VoteOn(block, registered, synced, quorum, tally, s, i);
      match verdict {
        case GiveUp => GaveUp(s, tier, i);
        case Elect => Elected(s, tier, i);
        case GoOn => WalkOn(s, view, i, block, tally, next);
      }
    }

    /** The walk: from the highest block through its parents until enough primaries agree, the window is used up, or a
        parent cannot be fetched. */
    method ConsensusHeadConnections(web3Rpcs: Web3Rpcs, net: Blocks, minBlockNum: Option<nat>, tier: nat)
      returns (res: ScanResult)
      requires web3Rpcs.Serves(net) && GroupValid(web3Rpcs.truth, Abs())
      modifies web3Rpcs`blocksByHash
      ensures web3Rpcs.Fetched(net, old(web3Rpcs.View(net)), old(web3Rpcs.blocksByHash))
      ensures Searchable(old(web3Rpcs.EnvFor(net)), Abs())
      ensures res == GroupConsensus(old(web3Rpcs.EnvFor(net)), Abs(), minBlockNum, tier)
    {
      if highestBlock.None? {
        return NotFound(NoBlocksKnown);
      }
      ghost var view := web3Rpcs.View(net);
      RealIsWalkable(web3Rpcs.truth, view, highestBlock.value);
      if |rpcToBlock| < web3Rpcs.cfg.quorum.minHeadRpcs {
        return NotFound(NotEnoughConnected);
      }
      ghost var s := ScanOf(web3Rpcs.EnvFor(net), Abs(), minBlockNum);
      res := Walk(web3Rpcs, net, highestBlock.value, Window(highestBlock.value.number, minBlockNum), tier, s);
    }

    /** One turn of the walk: votes on a block, then fetches its parent. */
    method WalkOne(web3Rpcs: Web3Rpcs, net: Blocks, block: Block, tally: Tally, ghost s: Scan, ghost view: Blocks,
                   ghost i: nat, ghost j: nat, ghost tier: nat)
      returns (turn: Turn, next: Tally)
      requires web3Rpcs.Serves(net) && web3Rpcs.View(net) == view && j == i + 1
      requires WalkedTo(s, view, i, block, tally) && i < s.window
      requires s.heads == rpcToBlock && s.registered == web3Rpcs.byName && s.synced == Synced(web3Rpcs.consensus)
      requires s.quorum == web3Rpcs.cfg.quorum
      modifies web3Rpcs`blocksByHash
      ensures web3Rpcs.Fetched(net, view, old(web3Rpcs.blocksByHash))
      ensures turn.Fails? ==> s.Outcome(tier) == NotFound(turn.error)
      ensures turn.Ends? ==>
                s.Outcome(tier) == Found(ConsensusRpcs(tier, block, next.primaries, next.backupsVoted, !turn.elected))
                && Sufficient(web3Rpcs.cfg.quorum, next)
      ensures turn.Onward? ==> WalkedTo(s, view, j, turn.parent, next)
    {
      var verdict;
      verdict, next := DecideOn(
        block, web3Rpcs.byName, Synced(web3Rpcs.consensus), web3Rpcs.cfg.quorum, tally, s, view, i, tier);
      if verdict.GiveUp? {
        return Fails(NotSynced), next;
      }
      if verdict.Elect? {
        return Ends(true), next;
      }
      var parent := web3Rpcs.BlockByHash(block.parentHash, net);
      if parent.None? {
        NoParent(s, view, i, block, next, tier);
        return if next.backupsVoted.Some? then Ends(false) else Fails(RanOutOfParents), next;
      }
      ToParent(s, view, i, j, block, next);
      turn := Onward(parent.value);
    }

    method Walk(web3Rpcs: Web3Rpcs, net: Blocks, highest: Block, window: nat, tier: nat, ghost s: Scan)
      returns (res: ScanResult)
      requires web3Rpcs.Serves(net) && Walkable(web3Rpcs.View(net), highest)
      requires s == Scan(rpcToBlock, web3Rpcs.byName, Synced(web3Rpcs.consensus), web3Rpcs.cfg.quorum,
                         Ancestry(web3Rpcs.View(net), highest), window)
      modifies web3Rpcs`blocksByHash
      ensures web3Rpcs.Fetched(net, old(web3Rpcs.View(net)), old(web3Rpcs.blocksByHash))
      ensures res == s.Outcome(tier)
    {
      ghost var view := web3Rpcs.View(net);
      var maybeHead := highest;
      var primaryVoted := false;
      var tally := Tally({}, {}, 0, 0, None);
      var i: nat := 0;
      WalkBegins(s, view, highest);
      while i < window
        invariant i <= window && !primaryVoted && WalkedTo(s, view, i, maybeHead, tally)
        invariant web3Rpcs.Fetched(net, view, old(web3Rpcs.blocksByHash))
      {
        var turn, next := WalkOne(web3Rpcs, net, maybeHead, tally, s, view, i, i + 1, tier);
        if turn.Fails? {
          return NotFound(turn.error);
        }
        tally := next;
        if turn.Ends? {
          primaryVoted := turn.elected;
          break;
        }
        maybeHead, i := turn.parent, i + 1;
      }
      if i == window {
        WindowUsedUp(s, tier, tally);
      }
      if !Sufficient(web3Rpcs.cfg.quorum, tally) {
        return NotFound(NotEnoughResources);
      }
      res := Found(ConsensusRpcs(tier, maybeHead, tally.primaries, tally.backupsVoted, !primaryVoted));
    }
  }

  /** The head the groups from `i` on have for a server, if they could hold it. */
  ghost function LastHead(ts: seq<Group>, rpc: Rpc, i: nat): Option<Block>
    requires |ts| == TIERS
  {
    if i < TIERS && rpc.tier < TIERS && rpc in AllHeads(ts) then Some(AllHeads(ts)[rpc]) else None
  }

  /** Tracks every server's head in the groups of its own tier and of all higher-numbered tiers. */
  class ConsensusFinder {
    const tiers: seq<ConnectionsGroup>

    ghost predicate TenGroups() {
      |tiers| == TIERS && forall i, j | 0 <= i < j < TIERS :: tiers[i] != tiers[j]
    }

    ghost function Abs(): seq<Group>
      reads tiers
    {
      seq(|tiers|, i requires 0 <= i < |tiers| reads tiers => tiers[i].Abs())
    }

    constructor ()
      ensures TenGroups() && Abs() == NoTiers()
      ensures fresh(tiers)
    {
      var groups: seq<ConnectionsGroup> := [];
      while |groups| < TIERS
        invariant |groups| <= TIERS
        invariant forall i | 0 <= i < |groups| :: fresh(groups[i]) && groups[i].Abs() == Group(map[], None)
        invariant forall i, j | 0 <= i < j < |groups| :: groups[i] != groups[j]
      {
        var group := new ConnectionsGroup();
        groups := groups + [group];
      }
      tiers := groups;
    }

    /** Untracks a server in one group. */
    method RemoveFrom(i: nat, rpc: Rpc, ghost truth: Blocks) returns (removed: Option<Block>)
      requires TenGroups() && i < TIERS && GroupValid(truth, Abs()[i])
      modifies tiers[i]
      ensures Abs() == old(Abs())[i := RemoveHead(old(Abs())[i], rpc)]
      ensures removed == if rpc in old(Abs())[i].heads then Some(old(Abs())[i].heads[rpc]) else None
    {
      ghost var was := Abs()[i];
      removed := tiers[i].Remove(rpc);
      assert tiers[i].Abs() == RemoveHead(was, rpc);
    }

    /** Tracks a server's head in one group. */
    method InsertInto(i: nat, rpc: Rpc, block: Block) returns (previous: Option<Block>)
      requires TenGroups() && i < TIERS
      modifies tiers[i]
      ensures Abs() == old(Abs())[i := InsertHead(old(Abs())[i], rpc, block)]
      ensures previous == if rpc in old(Abs())[i].heads then Some(old(Abs())[i].heads[rpc]) else None
    {
      ghost var was := Abs()[i];
      previous := tiers[i].Insert(rpc, block);
      assert tiers[i].Abs() == InsertHead(was, rpc, block);
    }

    /** Untracks a server in every group that could hold it. */
    method Remove(rpc: Rpc, ghost truth: Blocks) returns (removed: Option<Block>)
      requires TenGroups() && TiersValid(truth, Abs())
      modifies tiers
      ensures Abs() == RemoveAll(old(Abs()), rpc)
      ensures removed == LastHead(old(Abs()), rpc, 0)
    {
      ghost var was := Abs();
      removed := None;
      var i := TIERS;
      while i > 0 && i - 1 >= rpc.tier
        invariant 0 <= i <= TIERS && (rpc.tier < TIERS ==> rpc.tier <= i) && (rpc.tier >= TIERS ==> i == TIERS)
        invariant Abs() == seq(TIERS, j requires 0 <= j < TIERS => if j < i then was[j] else RemoveHead(was[j], rpc))
        invariant removed == LastHead(was, rpc, i)
      {
        i := i - 1;
        assert GroupValid(truth, was[i]) && was[i].heads == UpTo(AllHeads(was), i);
        var x := RemoveFrom(i, rpc, truth);
        if removed.None? && x.Some? {
          removed := x;
        }
      }
    }

    /** Tracks a server's new head in every group that covers its tier; answers the head it had before. */
    method Insert(rpc: Rpc, block: Block, ghost truth: Blocks) returns (previous: Option<Block>)
      requires TenGroups() && TiersValid(truth, Abs())
      modifies tiers
      ensures Abs() == InsertAll(old(Abs()), rpc, block)
      ensures previous == LastHead(old(Abs()), rpc, 0)
    {
      ghost var was := Abs();
      previous := None;
      var i := TIERS;
      while i > 0 && i - 1 >= rpc.tier
        invariant 0 <= i <= TIERS && (rpc.tier < TIERS ==> rpc.tier <= i) && (rpc.tier >= TIERS ==> i == TIERS)
        invariant Abs() == seq(TIERS, j requires 0 <= j < TIERS =>
                                 if j < i then was[j] else InsertHead(was[j], rpc, block))
        invariant previous == LastHead(was, rpc, i)
      {
        i := i - 1;
        assert was[i].heads == UpTo(AllHeads(was), i);
        var x := InsertInto(i, rpc, block);
        if previous.None? && x.Some? {
          previous := x;
        }
      }
    }

    /** Caches and tracks a report; answers whether anything changed. */
    method UpdateRpc(report: Report, web3Rpcs: Web3Rpcs) returns (changed: bool)
      requires TenGroups() && TiersValid(web3Rpcs.truth, Abs()) && Within(web3Rpcs.blocksByHash, web3Rpcs.truth)
      requires report.block.Some? ==> Real(web3Rpcs.truth, report.block.value)
      modifies tiers, web3Rpcs`blocksByHash, web3Rpcs`blocksByNumber
      ensures Abs() == Update(old(Abs()), web3Rpcs.cfg.maxBlockAge, report)
      ensures changed == Changed(old(Abs()), web3Rpcs.cfg.maxBlockAge, report)
      ensures web3Rpcs.blocksByHash == CacheReport(old(web3Rpcs.blocksByHash), report)
      ensures web3Rpcs.blocksByNumber == old(web3Rpcs.blocksByNumber)
    {
      if report.block.None? {
        var removed := Remove(report.rpc, web3Rpcs.truth);
        return removed.Some?;
      }
      var block := web3Rpcs.TryCacheBlock(report.block.value, false);
      var maxAge := web3Rpcs.cfg.maxBlockAge;
      if maxAge.Some? && report.age > maxAge.value {
        var removed := Remove(report.rpc, web3Rpcs.truth);
        return removed.Some?;
      }
      var previous := Insert(report.rpc, block, web3Rpcs.truth);
      changed := previous.None? || previous.value.hash != block.hash;
    }

    /** Tries the tiers in order and answers the first consensus found. */
    method FirstTierFound(web3Rpcs: Web3Rpcs, net: Blocks, minBlockNum: Option<nat>) returns (res: ScanResult)
      requires |tiers| == TIERS && web3Rpcs.Serves(net)
      requires forall g | g in Abs() :: GroupValid(web3Rpcs.truth, g)
      requires AllSearchable(web3Rpcs.EnvFor(net), Abs())
      modifies web3Rpcs`blocksByHash
      ensures web3Rpcs.Fetched(net, old(web3Rpcs.View(net)), old(web3Rpcs.blocksByHash))
      ensures res == FirstFound(TierResults(web3Rpcs.EnvFor(net), Abs(), minBlockNum), 0)
    {
      ghost var env, ts := web3Rpcs.EnvFor(net), Abs();
      ghost var rs := TierResults(env, ts, minBlockNum);
      var i := 0;
      while i < TIERS
        invariant 0 <= i <= TIERS && web3Rpcs.EnvFor(net) == env
        invariant web3Rpcs.Fetched(net, env.view, old(web3Rpcs.blocksByHash))
        invariant Abs() == ts && FirstFound(rs, 0) == FirstFound(rs, i)
      {
        assert ts[i] == tiers[i].Abs();
        res := tiers[i].ConsensusHeadConnections(web3Rpcs, net, minBlockNum, i);
        assert res == rs[i];
        if res.Found? {
          return;
        }
        i := i + 1;
      }
      res := NotFound(NoTierSucceeded);
    }

    /** Searches for a head that is neither too far behind the highest block nor behind the one published last. */
    method BestConsensusConnections(web3Rpcs: Web3Rpcs, net: Blocks) returns (res: ScanResult)
      requires TenGroups() && TiersValid(web3Rpcs.truth, Abs()) && web3Rpcs.Serves(net)
      modifies web3Rpcs`blocksByHash
      ensures web3Rpcs.Fetched(net, old(web3Rpcs.View(net)), old(web3Rpcs.blocksByHash))
      ensures AllSearchable(web3Rpcs.EnvFor(net), Abs())
      ensures res == Best(web3Rpcs.EnvFor(net), Abs())
    {
      ValidIsSearchable(web3Rpcs.truth, web3Rpcs.EnvFor(net), Abs());
      var top := tiers[TIERS - 1].highestBlock;
      if top.None? {
        return NotFound(NoBlocksKnown);
      }
      var lag := web3Rpcs.cfg.maxBlockLag;
      var minBlockNum := MaxOption(
        if lag.None? then None else Some(SaturatingSub(top.value.number, lag.value)), HeadNum(web3Rpcs.head));
      res := FirstTierFound(web3Rpcs, net, minBlockNum);
    }
  }

  ghost function NodeOf(web3Rpcs: Web3Rpcs, finder: ConsensusFinder): Node
    reads web3Rpcs, finder.tiers
  {
    Node(finder.Abs(), web3Rpcs.blocksByHash, web3Rpcs.blocksByNumber, web3Rpcs.consensus, web3Rpcs.head)
  }

  /** A search that found nothing withdraws the consensus; a found one replaces it and, unless the head block is the
      one published before, the head is cached as the heaviest chain's and sent. */
  method PublishResult(web3Rpcs: Web3Rpcs, res: ScanResult)
    requires Within(web3Rpcs.blocksByHash, web3Rpcs.truth)
    requires res.Found? ==> Real(web3Rpcs.truth, res.consensus.headBlock)
    modifies web3Rpcs`blocksByHash, web3Rpcs`blocksByNumber, web3Rpcs`consensus, web3Rpcs`head
    ensures var was := old(Node([], web3Rpcs.blocksByHash, web3Rpcs.blocksByNumber, web3Rpcs.consensus, web3Rpcs.head));
      Node([], was.byHash, web3Rpcs.blocksByNumber, web3Rpcs.consensus, web3Rpcs.head) == Publish(was, res)
    ensures web3Rpcs.blocksByHash == old(web3Rpcs.blocksByHash)
            || (res.Found? && web3Rpcs.blocksByHash == CacheBlock(old(web3Rpcs.blocksByHash), res.consensus.headBlock))
  {
    if res.NotFound? {
      web3Rpcs.consensus := None;
      return;
    }
    var previous := web3Rpcs.consensus;
    var headBlock := res.consensus.headBlock;
    web3Rpcs.consensus := Some(res.consensus);
    if previous.None? || headBlock.number != previous.value.headBlock.number
       || headBlock.hash != previous.value.headBlock.hash {
      var cached := web3Rpcs.TryCacheBlock(headBlock, true);
      web3Rpcs.head := Some(cached);
    }
  }

  /** Caching a block that can be looked up adds nothing to what can be looked up. */
  lemma {:induction false} CachedStaysWithin(net: Blocks, before: Blocks, after: Blocks, b: Block, truth: Blocks)
    requires Linked(truth) && Within(net, truth) && Within(before, truth) && Within(after, truth) && Real(truth, b)
    requires net + after == net + before && Within(before, after)
    requires CachedOrZero(before, b) || b.hash in net + before
    ensures Within(before, CacheBlock(after, b)) && Within(CacheBlock(after, b), net + before)
  {
    FetchedStaysWithin(net, before, after);
  }

  lemma {:induction false} FetchedStaysWithin(net: Blocks, before: Blocks, after: Blocks)
    requires net + after == net + before
    ensures Within(after, net + before)
  {
    forall h | h in after ensures h in net + before && after[h] == (net + before)[h] {
      assert h in net + after;
    }
  }

  /** Searches for a consensus and publishes what it finds. */
  method SearchAndPublish(web3Rpcs: Web3Rpcs, finder: ConsensusFinder, net: Blocks)
    returns (found: bool, ghost res: ScanResult)
    requires finder.TenGroups() && NodeValid(web3Rpcs.truth, NodeOf(web3Rpcs, finder))
    requires Within(net, web3Rpcs.truth) && AllSearchable(web3Rpcs.EnvFor(net), finder.Abs())
    modifies web3Rpcs`blocksByHash, web3Rpcs`blocksByNumber, web3Rpcs`consensus, web3Rpcs`head
    ensures res == old(Best(web3Rpcs.EnvFor(net), finder.Abs())) && found == res.Found?
    ensures NodeOf(web3Rpcs, finder) == Publish(old(NodeOf(web3Rpcs, finder)), res).(byHash := web3Rpcs.blocksByHash)
    ensures Within(old(web3Rpcs.blocksByHash), web3Rpcs.blocksByHash)
    ensures Within(web3Rpcs.blocksByHash, old(web3Rpcs.View(net)))
    ensures NoNewZero(old(web3Rpcs.blocksByHash), web3Rpcs.blocksByHash)
  {
    ghost var truth, t, env := web3Rpcs.truth, NodeOf(web3Rpcs, finder), web3Rpcs.EnvFor(net);
    var result := finder.BestConsensusConnections(web3Rpcs, net);
    res := result;
    assert web3Rpcs.EnvFor(net) == env;
    PublishableHead(truth, env, t, net, web3Rpcs.blocksByHash, res);
    PublishResult(web3Rpcs, result);
    found := result.Found?;
  }

  /** What a search leaves in the cache, with or without the elected head, can all be looked up. */
  lemma {:induction false} PublishableHead(truth: Blocks, env: Env, t: Node, net: Blocks, fetched: Blocks,
                                           res: ScanResult)
    requires NodeValid(truth, t) && EnvValid(truth, env) && AllSearchable(env, t.tiers) && res == Best(env, t.tiers)
    requires Within(net, truth) && Within(fetched, truth) && Within(t.byHash, fetched)
    requires env.view == net + t.byHash == net + fetched
    ensures Within(fetched, env.view)
    ensures res.Found? ==> Real(truth, res.consensus.headBlock)
    ensures res.Found? ==> Within(t.byHash, CacheBlock(fetched, res.consensus.headBlock))
    ensures res.Found? ==> Within(CacheBlock(fetched, res.consensus.headBlock), env.view)
  {
    FetchedStaysWithin(net, t.byHash, fetched);
    if res.Found? {
      BestHeadKnown(truth, env, t.tiers, res);
      CachedStaysWithin(net, t.byHash, fetched, res.consensus.headBlock, truth);
    }
  }

  /** Caches and tracks a report. */
  method TrackReport(web3Rpcs: Web3Rpcs, finder: ConsensusFinder, report: Report, net: Blocks, ghost ev: Event)
    returns (changed: bool)
    requires finder.TenGroups() && NodeValid(web3Rpcs.truth, NodeOf(web3Rpcs, finder))
    requires ev == Event(report, web3Rpcs.byName, net) && EventValid(web3Rpcs.truth, ev)
    modifies web3Rpcs`blocksByHash, web3Rpcs`blocksByNumber, finder.tiers
    ensures changed == Changed(old(finder.Abs()), web3Rpcs.cfg.maxBlockAge, report)
    ensures NodeOf(web3Rpcs, finder) == Tracked(web3Rpcs.cfg, old(NodeOf(web3Rpcs, finder)), ev)
    ensures NodeValid(web3Rpcs.truth, NodeOf(web3Rpcs, finder))
    ensures web3Rpcs.EnvFor(net) == EnvOf(web3Rpcs.cfg, NodeOf(web3Rpcs, finder), ev)
    ensures AllSearchable(web3Rpcs.EnvFor(net), finder.Abs())
  {
    TrackedValid(web3Rpcs.truth, web3Rpcs.cfg, NodeOf(web3Rpcs, finder), ev);
    changed := finder.UpdateRpc(report, web3Rpcs);
  }

  /** One report from one server: track it, and if its head changed search for a consensus and publish it. */
  method ProcessBlockFromRpc(web3Rpcs: Web3Rpcs, finder: ConsensusFinder, report: Report, net: Blocks)
    returns (ok: bool)
    requires finder.TenGroups() && NodeValid(web3Rpcs.truth, NodeOf(web3Rpcs, finder))
    requires EventValid(web3Rpcs.truth, Event(report, web3Rpcs.byName, net))
    modifies web3Rpcs`blocksByHash, web3Rpcs`blocksByNumber, web3Rpcs`consensus, web3Rpcs`head, finder.tiers
    ensures Next(web3Rpcs.cfg, old(NodeOf(web3Rpcs, finder)), Event(report, web3Rpcs.byName, net),
                 NodeOf(web3Rpcs, finder))
    ensures NodeValid(web3Rpcs.truth, NodeOf(web3Rpcs, finder))
    ensures ok <==> !Changed(old(finder.Abs()), web3Rpcs.cfg.maxBlockAge, report) || web3Rpcs.consensus.Some?
  {
    ghost var s, ev := NodeOf(web3Rpcs, finder), Event(report, web3Rpcs.byName, net);
    var changed := TrackReport(web3Rpcs, finder, report, net, ev);
    if !changed {
      return true;
    }
    ghost var t, res := NodeOf(web3Rpcs, finder), NotFound(NoTierSucceeded);
    ok, res := SearchAndPublish(web3Rpcs, finder, net);
    NextByPublishing(web3Rpcs.truth, web3Rpcs.cfg, s, ev, t, res, NodeOf(web3Rpcs, finder));
  }

  /** One turn of the loop below. */
  method ProcessNext(web3Rpcs: Web3Rpcs, finder: ConsensusFinder, report: Report, net: Blocks,
                     ghost ss: seq<Node>, ghost evs: seq<Event>)
    requires finder.TenGroups() && Run(web3Rpcs.truth, web3Rpcs.cfg, ss, evs) && ss[|evs|] == NodeOf(web3Rpcs, finder)
    requires EventValid(web3Rpcs.truth, Event(report, web3Rpcs.byName, net))
    modifies web3Rpcs`blocksByHash, web3Rpcs`blocksByNumber, web3Rpcs`consensus, web3Rpcs`head, finder.tiers
    ensures Run(web3Rpcs.truth, web3Rpcs.cfg, ss + [NodeOf(web3Rpcs, finder)],
                evs + [Event(report, web3Rpcs.byName, net)])
  {
    RunIsSound(web3Rpcs.truth, web3Rpcs.cfg, ss, evs, |evs|);
    var _ := ProcessBlockFromRpc(web3Rpcs, finder, report, net);
    RunExtends(web3Rpcs.truth, web3Rpcs.cfg, ss, evs, Event(report, web3Rpcs.byName, net), NodeOf(web3Rpcs, finder));
  }

  /** The loop over the channel of reports, from a fresh start; `nets` says what the backends serve during each report
      and `registries` which servers other tasks have registered by then. The states it passes through form a run, so
      everything proved about runs holds of the code. */
  method ProcessIncomingBlocks(web3Rpcs: Web3Rpcs, finder: ConsensusFinder, reports: seq<Report>, nets: seq<Blocks>,
                               registries: seq<set<Rpc>>)
    returns (ghost ss: seq<Node>, ghost evs: seq<Event>)
    requires finder.TenGroups() && NodeOf(web3Rpcs, finder) == NewNode() && Linked(web3Rpcs.truth)
    requires |reports| == |nets| == |registries|
    requires forall i | 0 <= i < |reports| :: EventValid(web3Rpcs.truth, Event(reports[i], registries[i], nets[i]))
    modifies web3Rpcs, finder.tiers
    ensures |evs| == |reports| && forall i | 0 <= i < |evs| :: evs[i] == Event(reports[i], registries[i], nets[i])
    ensures Run(web3Rpcs.truth, web3Rpcs.cfg, ss, evs) && ss[|evs|] == NodeOf(web3Rpcs, finder)
  {
    ss, evs := [NewNode()], [];
    var i := 0;
    while i < |reports|
      invariant 0 <= i <= |reports| && |evs| == i
      invariant forall j | 0 <= j < i :: evs[j] == Event(reports[j], registries[j], nets[j])
      invariant Run(web3Rpcs.truth, web3Rpcs.cfg, ss, evs) && ss[i] == NodeOf(web3Rpcs, finder)
    {
      web3Rpcs.byName := registries[i];
      ProcessNext(web3Rpcs, finder, reports[i], nets[i], ss, evs);
      ss, evs := ss + [NodeOf(web3Rpcs, finder)], evs + [Event(reports[i], registries[i], nets[i])];
      i := i + 1;
    }
  }
}

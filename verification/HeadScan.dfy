/** What one tier's search for a consensus head decides, stated over the whole walk at once. */
module HeadScan {
  import opened Options
  import opened Chain

  /** A backend server. Identity, tier, backup flag and soft limit never change. */
  datatype Rpc = Rpc(name: string, tier: nat, backup: bool, softLimit: nat)

  datatype Quorum = Quorum(minHeadRpcs: nat, minSumSoftLimit: nat) {
    ghost predicate Positive() { minHeadRpcs > 0 || minSumSoftLimit > 0 }
  }

  datatype ConsensusRpcs = ConsensusRpcs(
    tier: nat, headBlock: Block, rpcs: set<Rpc>, backupsVoted: Option<Block>, backupsNeeded: bool)

  datatype ScanError =
    | NoBlocksKnown | NotEnoughConnected | NotSynced | RanOutOfParents | NotEnoughResources | NoTierSucceeded

  datatype ScanResult = Found(consensus: ConsensusRpcs) | NotFound(error: ScanError)

  ghost function SumSoftLimit(rpcs: set<Rpc>): nat {
    if rpcs == {} then 0 else
      var r :| r in rpcs;
      r.softLimit + SumSoftLimit(rpcs - {r})
  }

  lemma {:induction false} SumSoftLimitAdd(rpcs: set<Rpc>, r: Rpc)
    requires r !in rpcs
    ensures SumSoftLimit(rpcs + {r}) == SumSoftLimit(rpcs) + r.softLimit
  {
    var all := rpcs + {r};
    var x :| x in all && SumSoftLimit(all) == x.softLimit + SumSoftLimit(all - {x});
    if x == r {
      assert all - {x} == rpcs;
    } else {
      assert all - {x} == (rpcs - {x}) + {r};
      SumSoftLimitAdd(rpcs - {x}, r);
      SumSoftLimitAdd(rpcs - {x}, x);
      assert (rpcs - {x}) + {x} == rpcs;
    }
  }

  lemma {:induction false} Monotone(small: set<Rpc>, large: set<Rpc>)
    requires small <= large
    ensures SumSoftLimit(small) <= SumSoftLimit(large)
    ensures |small| <= |large|
    decreases |large - small|
  {
    if r :| r in large && r !in small {
      assert large - (small + {r}) == large - small - {r};
      Monotone(small + {r}, large);
      SumSoftLimitAdd(small, r);
    } else {
      assert small == large;
    }
  }

  ghost function NonBackups(rpcs: set<Rpc>): set<Rpc> { set r | r in rpcs && !r.backup }

  ghost function OnHash(heads: map<Rpc, Block>, hash: Hash): set<Rpc> {
    set r | r in heads && heads[r].hash == hash
  }

  /** How many blocks the walk may look at, counted from the tier's highest block. */
  function Window(highest: nat, minBlockNum: Option<nat>): nat {
    match minBlockNum
    case None => 10
    case Some(m) => SaturatingSub(Successor(highest), m)
  }

  /** Everything one walk depends on: `path` is the highest block and the ancestors that can be looked up. */
  datatype Scan = Scan(
    heads: map<Rpc, Block>, registered: set<Rpc>, synced: bool, quorum: Quorum, path: seq<Block>, window: nat)
  {
    ghost function Depth(): nat { if window < |path| then window else |path| }

    ghost predicate HeadIn(r: Rpc, n: nat)
      requires r in heads && n <= |path|
    {
      exists j :: 0 <= j < n && heads[r].hash == path[j].hash
    }

    /** Registered servers whose head is one of the first `n` blocks of the walk. */
    ghost function Voters(n: nat): set<Rpc>
      requires n <= |path|
    {
      set r | r in heads && r in registered && HeadIn(r, n)
    }

    ghost function Primaries(n: nat): set<Rpc>
      requires n <= |path|
    {
      NonBackups(Voters(n))
    }

    ghost predicate Enough(rpcs: set<Rpc>) {
      SumSoftLimit(rpcs) >= quorum.minSumSoftLimit && |rpcs| >= quorum.minHeadRpcs
    }

    /** The primaries agree on the k-th block or a later one. */
    ghost predicate PrimaryQuorum(k: nat)
      requires k < |path|
    {
      Enough(Primaries(k + 1))
    }

    /** Only with the backups' help do enough servers agree on the k-th block or a later one. */
    ghost predicate BackupQuorum(k: nat)
      requires k < |path|
    {
      Voters(k + 1) != Primaries(k + 1) && Enough(Voters(k + 1))
    }

    /** A server on the k-th block is unknown while nothing is published yet: the search gives up. */
    ghost predicate GivesUp(k: nat)
      requires k < |path|
    {
      !synced && exists r :: r in heads && r !in registered && heads[r].hash == path[k].hash
    }

    ghost predicate Stops(k: nat)
      requires k < |path|
    {
      GivesUp(k) || PrimaryQuorum(k)
    }

    /** The nearest depth at or after `from` at which the search stops, or `Depth()`. */
    ghost function FirstStop(from: nat): (k: nat)
      requires from <= Depth()
      ensures from <= k <= Depth()
      ensures forall j | from <= j < k :: !Stops(j)
      ensures k < Depth() ==> Stops(k)
      decreases Depth() - from
    {
      if from == Depth() || Stops(from) then from else FirstStop(from + 1)
    }

    /** The nearest depth among `from..n` at which a backup quorum agrees, or `n`. */
    ghost function FirstBackup(from: nat, n: nat): (k: nat)
      requires from <= n <= |path|
      ensures from <= k <= n
      ensures forall j | from <= j < k :: !BackupQuorum(j)
      ensures k < n ==> BackupQuorum(k)
      decreases n - from
    {
      if from == n || BackupQuorum(from) then from else FirstBackup(from + 1, n)
    }

    /** The block the backups would have settled for before depth `n`. */
    ghost function BackupVote(n: nat): Option<Block>
      requires n <= |path|
    {
      var k := FirstBackup(0, n);
      if k < n then Some(path[k]) else None
    }

    ghost function Outcome(tier: nat): ScanResult
      requires |path| >= 1
    {
      var k := FirstStop(0);
      var vote := BackupVote(k);
      if k < Depth() then
        if GivesUp(k) then NotFound(NotSynced)
        else Found(ConsensusRpcs(tier, path[k], Primaries(k + 1), vote, false))
      else if vote.Some? then
        var head := if window < |path| then path[window] else path[|path| - 1];
        Found(ConsensusRpcs(tier, head, Primaries(Depth()), vote, true))
      else if window == 0 && !quorum.Positive() then
        Found(ConsensusRpcs(tier, path[0], {}, None, true))
      else
        NotFound(if |path| <= window then RanOutOfParents else NotEnoughResources)
    }

    lemma {:induction false} VotersGrow(m: nat, n: nat)
      requires m <= n <= |path|
      ensures Voters(m) <= Voters(n)
      ensures Primaries(m) <= Primaries(n)
    {
      forall r | r in Voters(m) ensures r in Voters(n) {
        var j :| 0 <= j < m && heads[r].hash == path[j].hash;
        assert 0 <= j < n;
      }
    }

    /** Going one block further back never loses a quorum. */
    lemma {:induction false} QuorumGrows(j: nat, k: nat)
      requires j <= k < |path| && PrimaryQuorum(j)
      ensures PrimaryQuorum(k)
    {
      VotersGrow(j + 1, k + 1);
      Monotone(Primaries(j + 1), Primaries(k + 1));
    }

    /** The backups' votes are counted up to and including the depth they settle at. */
    ghost function VotersUpTo(n: nat): (m: nat)
      requires n <= |path|
      ensures m <= n
    {
      if FirstBackup(0, n) < n then FirstBackup(0, n) + 1 else n
    }

    lemma {:induction false} BackupVoteAt(n: nat)
      requires n < |path|
      ensures FirstBackup(0, n + 1) == if FirstBackup(0, n) < n || BackupQuorum(n) then FirstBackup(0, n) else n + 1
    {
      var k, l := FirstBackup(0, n), FirstBackup(0, n + 1);
      assert l <= n ==> BackupQuorum(l);
      assert k < n ==> BackupQuorum(k);
    }

    /** One more block adds the registered servers whose head it is. */
    lemma {:induction false} VotesAt(n: nat)
      requires n < |path|
      ensures Voters(n + 1) == Voters(n) + OnHash(heads, path[n].hash) * registered
      ensures Primaries(n + 1) == Primaries(n) + NonBackups(OnHash(heads, path[n].hash) * registered)
    {
      VotersGrow(n, n + 1);
      var onBlock := OnHash(heads, path[n].hash);
      assert forall r | r in Voters(n + 1) :: r in Voters(n) || r in onBlock;
      assert forall r | r in onBlock * registered :: HeadIn(r, n + 1);
    }

    lemma {:induction false} StopsFirstAt(k: nat)
      requires k <= Depth() && forall j | 0 <= j < k :: !Stops(j)
      requires k == Depth() || Stops(k)
      ensures FirstStop(0) == k
    {
    }

    lemma {:induction false} GivesUpIff(n: nat)
      requires n < |path|
      ensures GivesUp(n) <==> !(synced || OnHash(heads, path[n].hash) <= registered)
    {
    }

    /** No unknown server makes the search give up in the first `n` blocks. */
    ghost predicate Clear(n: nat)
      requires n <= |path|
    {
      forall j | 0 <= j < n :: !GivesUp(j)
    }

    /** `k` is the nearest block within the window that a primary quorum agrees on. */
    ghost predicate Nearest(k: nat) {
      k < Depth() && PrimaryQuorum(k) && forall j | 0 <= j < k :: !PrimaryQuorum(j)
    }

    lemma {:induction false} StopIsNearest(k: nat)
      requires k < Depth()
      ensures FirstStop(0) == k && !GivesUp(k) <==> Nearest(k) && Clear(k + 1)
    {
      var f := FirstStop(0);
      if Nearest(k) && Clear(k + 1) {
        assert Stops(k);
      } else if f == k && !GivesUp(k) {
        forall j | 0 <= j < k ensures !PrimaryQuorum(j) && !GivesUp(j) { assert !Stops(j); }
      }
    }

    /** The primaries elect a head exactly when a nearest agreed block exists and no unknown server is met before it;
        the elected head is that block and the servers are all the primaries on it or on a later block. */
    lemma {:induction false} PrimaryElection(tier: nat)
      requires |path| >= 1
      ensures (Outcome(tier).Found? && !Outcome(tier).consensus.backupsNeeded)
              <==> exists k: nat :: Nearest(k) && Clear(k + 1)
      ensures forall k: nat | Nearest(k) && Clear(k + 1) ::
                Outcome(tier) == Found(ConsensusRpcs(tier, path[k], Primaries(k + 1), BackupVote(k), false))
    {
      forall k: nat | k < Depth() ensures FirstStop(0) == k && !GivesUp(k) <==> Nearest(k) && Clear(k + 1) {
        StopIsNearest(k);
      }
    }

    /** With every tracked server registered, an agreed block anywhere in the window is enough to elect a head. */
    lemma {:induction false} AgreementIsFound(tier: nat, k: nat)
      requires k < Depth() && PrimaryQuorum(k)
      requires heads.Keys <= registered
      ensures exists j: nat :: j <= k && Nearest(j) && Outcome(tier)
                == Found(ConsensusRpcs(tier, path[j], Primaries(j + 1), BackupVote(j), false))
    {
      var j := FirstStop(0);
      assert Stops(k);
      assert !GivesUp(j) && Clear(j + 1);
      StopIsNearest(j);
    }

    /** Neither the primaries alone nor all servers together agree anywhere in the window. */
    ghost predicate NoQuorum() { forall k | 0 <= k < Depth() :: !PrimaryQuorum(k) && !BackupQuorum(k) }

    /** The search gives up at the k-th block: an unknown server is met there before any primary quorum. */
    ghost predicate GivesUpFirst(k: nat) {
      k < Depth() && GivesUp(k) && forall j | 0 <= j < k :: !PrimaryQuorum(j)
    }

    /** An unknown server is met too early, or nobody agrees; an empty window needs a positive threshold for that. */
    ghost predicate Fails() {
      (exists k: nat :: GivesUpFirst(k)) || (NoQuorum() && (window > 0 || quorum.Positive()))
    }

    /** A search finds nothing exactly when its votes fail. */
    lemma {:induction false} FailsIff(tier: nat)
      requires |path| >= 1
      ensures Outcome(tier).NotFound? <==> Fails()
    {
      var f := FirstStop(0);
      forall j | 0 <= j < f ensures !GivesUp(j) && !PrimaryQuorum(j) { assert !Stops(j); }
      if f < Depth() {
        assert Stops(f);
        if GivesUp(f) {
          assert GivesUpFirst(f);
        }
      } else {
        var b := FirstBackup(0, f);
        assert b < f ==> BackupQuorum(b);
      }
    }

    /** With every tracked server registered, primaries elect a head exactly when all of them in the window together are
        enough. */
    lemma {:induction false} PrimariesDecide(tier: nat)
      requires |path| >= 1 && heads.Keys <= registered
      ensures (Outcome(tier).Found? && !Outcome(tier).consensus.backupsNeeded)
              <==> Depth() > 0 && PrimaryQuorum(Depth() - 1)
    {
      if Depth() > 0 && PrimaryQuorum(Depth() - 1) {
        AgreementIsFound(tier, Depth() - 1);
      } else if FirstStop(0) < Depth() {
        QuorumGrows(FirstStop(0), Depth() - 1);
      }
    }
  }

  /** Backups decide exactly when no primary quorum stops the search but a backup quorum exists in the window. If the
      walk could go on, the elected head is then the block just past the window, older than the one they voted for. */
  lemma {:induction false} BackupElection(s: Scan, tier: nat)
    requires |s.path| >= 1 && s.quorum.Positive()
    ensures (s.Outcome(tier).Found? && s.Outcome(tier).consensus.backupsNeeded)
            <==> (forall k | 0 <= k < s.Depth() :: !s.Stops(k)) && (exists k :: 0 <= k < s.Depth() && s.BackupQuorum(k))
    ensures s.Outcome(tier).Found? && s.Outcome(tier).consensus.backupsNeeded && s.window < |s.path| ==>
              s.Outcome(tier).consensus.headBlock == s.path[s.window]
    ensures s.Outcome(tier).Found? && s.Outcome(tier).consensus.backupsNeeded && s.window < |s.path| ==>
              Descending(s.path) ==>
                s.Outcome(tier).consensus.headBlock.number < s.Outcome(tier).consensus.backupsVoted.value.number
  {
    var stop := s.FirstStop(0);
    assert stop < s.Depth() ==> s.Stops(stop);
    var vote := s.FirstBackup(0, s.Depth());
    assert vote < s.Depth() ==> s.BackupQuorum(vote);
    if stop == s.Depth() && vote < stop && Descending(s.path) && s.window < |s.path| {
      assert s.path[vote].number + vote == s.path[s.window].number + s.window;
    }
  }

  /** The walked blocks are numbered downwards one by one. */
  ghost predicate Descending(path: seq<Block>) {
    forall k | 0 <= k < |path| :: path[k].number + k == path[0].number
  }

  ghost predicate AboveFloor(s: Scan, minBlockNum: nat, r: ScanResult) {
    r.Found? ==>
      && r.consensus.headBlock.number + 1 >= minBlockNum
      && (!r.consensus.backupsNeeded ==> r.consensus.headBlock.number >= minBlockNum)
  }

  ghost predicate FloorScan(s: Scan, minBlockNum: nat) {
    |s.path| >= 1 && Descending(s.path) && s.window == Window(s.path[0].number, Some(minBlockNum))
  }

  /** A primary election never goes below the requested floor, an election with backups at most one block below it. */
  lemma {:induction false} FloorHolds(s: Scan, minBlockNum: nat, tier: nat)
    requires FloorScan(s, minBlockNum) && s.quorum.Positive()
    ensures AboveFloor(s, minBlockNum, s.Outcome(tier))
  {
    var k := s.FirstStop(0);
    assert s.path[0].number + 1 >= |s.path| by { assert s.path[|s.path| - 1].number >= 0; }
    if k < s.Depth() {
      assert s.path[k].number + k == s.path[0].number;
    } else if s.window < |s.path| {
      assert s.path[s.window].number + s.window == s.path[0].number;
    }
  }

  /** The search looks through its whole window, only the backups make a quorum there, and one more parent can be
      fetched. */
  ghost predicate BreaksFloor(s: Scan) {
    && s.window < |s.path| && s.path[0].number < U64_MAX
    && (forall k | 0 <= k < s.window :: !s.Stops(k))
    && (exists k :: 0 <= k < s.window && s.BackupQuorum(k))
  }

  /** Exactly when an elected head is below the floor; it is then one block below. */
  lemma {:induction false} FloorBrokenIff(s: Scan, minBlockNum: nat, tier: nat)
    requires FloorScan(s, minBlockNum) && s.quorum.Positive()
    ensures s.Outcome(tier).Found? && s.Outcome(tier).consensus.headBlock.number < minBlockNum <==> BreaksFloor(s)
    ensures BreaksFloor(s) ==> s.Outcome(tier).consensus.headBlock.number + 1 == minBlockNum
                               && s.Outcome(tier).consensus.backupsNeeded
  {
    BackupElection(s, tier);
    FloorHolds(s, minBlockNum, tier);
    if s.window < |s.path| {
      assert s.path[s.window].number + s.window == s.path[0].number;
      assert s.Depth() == s.window;
    } else {
      assert s.path[|s.path| - 1].number + |s.path| - 1 == s.path[0].number;
    }
  }

  /** With both thresholds at zero the floor is lost, so a positive threshold is exactly what the floor needs. */
  lemma {:induction false} FloorNeedsPositiveQuorum(q: Quorum)
    ensures (forall s: Scan, m: nat, tier: nat | s.quorum == q && FloorScan(s, m) :: AboveFloor(s, m, s.Outcome(tier)))
            <==> q.Positive()
  {
    if q.Positive() {
      forall s: Scan, m: nat, tier: nat | s.quorum == q && FloorScan(s, m)
        ensures AboveFloor(s, m, s.Outcome(tier))
      {
        FloorHolds(s, m, tier);
      }
    } else {
      var s := Scan(map[], {}, false, q, [Block(1, 0, 0)], 0);
      assert FloorScan(s, 5) && s.FirstStop(0) == 0 && s.BackupVote(0) == None;
      assert !AboveFloor(s, 5, s.Outcome(0));
    }
  }
}

/** Runs in which the watched head falls again and again, although no tracked server is on an older block. */
module FallingHead {
  import opened Options
  import opened Chain
  import opened HeadScan
  import opened Tiers
  import opened HeadTracker

  const P: Rpc := Rpc("p", 0, false, 1)
  const Q: Rpc := Rpc("q", 0, false, 1)
  const K: Rpc := Rpc("k", 0, true, 1)

  /** Two servers make a quorum; no lag and no age is configured. */
  const TWO: Config := Config(Quorum(2, 0), None, None)

  // ----- a chain without forks -----

  function Hashed(h: Hash): Block { Block(h, if h == 0 then 0 else h - 1, if h == 0 then 0 else h - 1) }

  function BlockAt(k: nat): Block { Hashed(k + 1) }

  /** The blocks 0 to n; the parent of block 0 cannot be looked up. */
  ghost function Line(n: nat): Blocks { map h | 1 <= h <= n + 1 :: Hashed(h) }

  lemma {:induction false} LineLinked(n: nat)
    requires n < U64_MAX
    ensures Linked(Line(n)) && Real(Line(n), BlockAt(n)) && Walkable(Line(n), BlockAt(n))
  {
  }

  lemma {:induction false} LineWalk(n: nat, k: nat)
    requires k <= n && Linked(Line(n)) && Walkable(Line(n), BlockAt(k))
    ensures |Ancestry(Line(n), BlockAt(k))| == k + 1
    ensures forall j | 0 <= j <= k :: Ancestry(Line(n), BlockAt(k))[j] == BlockAt(k - j)
  {
    if k == 0 {
      assert 0 !in Line(n);
    } else {
      assert Line(n)[k] == BlockAt(k - 1);
      LineWalk(n, k - 1);
    }
  }

  // ----- one search -----

  /** All ten groups when all servers are of tier 0 and on block `n`. */
  function Flat(on: set<Rpc>, n: nat): seq<Group> {
    seq(TIERS, i => Group(map r | r in on :: BlockAt(n), Some(BlockAt(n))))
  }

  ghost function Floor(n: nat, floor: Option<nat>, synced: bool): Env {
    Env({P, Q, K}, synced, TWO.quorum, None, floor, Line(n))
  }

  ghost predicate IsSearch(n: nat, on: set<Rpc>, floor: Option<nat>, synced: bool, s: Scan) {
    && n < U64_MAX && Linked(Line(n)) && Walkable(Line(n), BlockAt(n))
    && s == ScanOf(Floor(n, floor, synced), Flat(on, n)[0], floor)
  }

  lemma {:induction false} SearchShape(n: nat, on: set<Rpc>, floor: Option<nat>, synced: bool, s: Scan)
    requires IsSearch(n, on, floor, synced, s)
    ensures |s.path| == n + 1 && s.window == Window(n, floor) && s.heads.Keys == on && s.registered == {P, Q, K}
    ensures forall j | 0 <= j <= n :: s.path[j] == BlockAt(n - j)
    ensures forall r | r in on :: s.heads[r] == BlockAt(n)
    ensures s.quorum == Quorum(2, 0)
  {
    LineWalk(n, n);
  }

  lemma {:induction false} AllVote(n: nat, on: set<Rpc>, floor: Option<nat>, synced: bool, s: Scan, k: nat)
    requires IsSearch(n, on, floor, synced, s) && on <= {P, Q, K} && 0 < k <= |s.path|
    ensures s.Voters(k) == on && s.Primaries(k) == on - {K}
  {
    SearchShape(n, on, floor, synced, s);
    forall r | r in on ensures s.HeadIn(r, k) {
      assert s.heads[r].hash == s.path[0].hash;
    }
    assert s.Voters(k) == on;
    assert s.Primaries(k) == on - {K};
  }

  /** One primary and one backup elect the block below the floor, whatever the floor is. */
  lemma {:induction false} BackupsElect(n: nat, m: nat, synced: bool, s: Scan)
    requires IsSearch(n, {P, K}, Some(m), synced, s) && 0 < m <= n
    ensures var res := s.Outcome(0);
      res.Found? && res.consensus.backupsNeeded && res.consensus.headBlock == BlockAt(m - 1)
  {
    SearchShape(n, {P, K}, Some(m), synced, s);
    forall k | 0 <= k < s.Depth() ensures !s.Stops(k) && s.BackupQuorum(k) {
      AllVote(n, {P, K}, Some(m), synced, s, k + 1);
      assert {P, K} - {K} == {P} && |{P, K}| == 2 && |{P}| == 1;
    }
    assert s.BackupQuorum(0);
    BackupElection(s, 0);
    assert s.path[s.window] == BlockAt(n - s.window);
  }

  /** Two primaries elect the block they are on. */
  lemma {:induction false} PrimariesElect(n: nat, on: set<Rpc>, floor: Option<nat>, synced: bool, s: Scan)
    requires IsSearch(n, on, floor, synced, s) && {P, Q} <= on <= {P, Q, K} && (floor.Some? ==> floor.value <= n)
    ensures var res := s.Outcome(0);
      res.Found? && !res.consensus.backupsNeeded && res.consensus.headBlock == BlockAt(n)
  {
    SearchShape(n, on, floor, synced, s);
    AllVote(n, on, floor, synced, s, 1);
    assert on - {K} == {P, Q} && |{P, Q}| == 2;
    assert s.PrimaryQuorum(0) && s.Nearest(0) && s.Clear(1);
    s.PrimaryElection(0);
  }

  /** What a search over these groups finds is what tier 0 finds. */
  lemma {:induction false} BestOfFlat(n: nat, on: set<Rpc>, floor: Option<nat>, synced: bool) returns (s: Scan)
    requires n < U64_MAX && |on| >= 2
    ensures IsSearch(n, on, floor, synced, s) && AllSearchable(Floor(n, floor, synced), Flat(on, n))
    ensures s.Outcome(0).Found? ==> Best(Floor(n, floor, synced), Flat(on, n)) == s.Outcome(0)
  {
    LineLinked(n);
    var env, ts := Floor(n, floor, synced), Flat(on, n);
    s := ScanOf(env, ts[0], floor);
    SearchShape(n, on, floor, synced, s);
    if s.Outcome(0).Found? {
      assert MinBlockNum(env, n) == floor && |ts[0].heads| == |ts[0].heads.Keys| == |on|;
      FirstFoundIs(env, ts, floor, 0);
    }
  }

  /** A single server is never enough. */
  lemma {:induction false} OneIsNotEnough(n: nat, r: Rpc, floor: Option<nat>, synced: bool)
    requires n < U64_MAX
    ensures var env, ts := Floor(n, floor, synced), Flat({r}, n);
      AllSearchable(env, ts) && Best(env, ts).NotFound?
  {
    LineLinked(n);
    var env, ts := Floor(n, floor, synced), Flat({r}, n);
    var rs := TierResults(env, ts, MinBlockNum(env, n));
    var t := FirstFoundAt(rs, 0);
    forall i | 0 <= i < TIERS ensures rs[i].NotFound? {
      assert ts[i].heads.Keys == {r} && |ts[i].heads| == |ts[i].heads.Keys|;
    }
  }

  // ----- one report -----

  ghost function Says(n: nat, r: Rpc, present: bool): Event {
    Event(Report(r, if present then Some(BlockAt(n)) else None, 0), {P, Q, K}, Line(n))
  }

  ghost predicate Known(r: Rpc) { r in {P, Q, K} }

  /** The servers `on` are tracked and block `h` is watched, if any. */
  ghost predicate StateAt(n: nat, s: Node, isNew: bool, on: set<Rpc>, h: Option<nat>) {
    && s.tiers == (if isNew then NoTiers() else Flat(on, n)) && (isNew ==> on == {})
    && s.byHash == (if isNew then map[] else map[n + 1 := BlockAt(n)])
    && s.head == (if h.None? then None else Some(BlockAt(h.value)))
  }

  /** A run on a line of blocks that ends in such a state. */
  ghost predicate EndsWith(n: nat, ss: seq<Node>, evs: seq<Event>, on: set<Rpc>, h: Option<nat>) {
    && n < U64_MAX && Run(Line(n), TWO, ss, evs)
    && StateAt(n, ss[|evs|], evs == [], on, h)
  }

  lemma {:induction false} FlatInsert(on: set<Rpc>, n: nat, r: Rpc)
    requires r.tier == 0
    ensures InsertAll(Flat(on, n), r, BlockAt(n)) == Flat(on + {r}, n)
    ensures InsertAll(NoTiers(), r, BlockAt(n)) == Flat({r}, n)
  {
    var a, b := InsertAll(Flat(on, n), r, BlockAt(n)), Flat(on + {r}, n);
    forall i | 0 <= i < TIERS ensures a[i] == b[i] {
      assert a[i].heads == b[i].heads;
    }
    var c, d := InsertAll(NoTiers(), r, BlockAt(n)), Flat({r}, n);
    forall i | 0 <= i < TIERS ensures c[i] == d[i] {
      assert c[i].heads == d[i].heads;
    }
  }

  lemma {:induction false} FlatRemove(on: set<Rpc>, n: nat, r: Rpc)
    requires r.tier == 0
    ensures RemoveAll(Flat(on, n), r) == Flat(on - {r}, n)
  {
    var a, b := RemoveAll(Flat(on, n), r), Flat(on - {r}, n);
    forall i | 0 <= i < TIERS ensures a[i] == b[i] {
      assert a[i].heads == b[i].heads;
    }
  }

  lemma {:induction false} SaysIsValid(n: nat, r: Rpc, present: bool)
    requires n < U64_MAX && Known(r)
    ensures EventValid(Line(n), Says(n, r, present))
  {
    LineLinked(n);
  }

  /** What tracking the report makes of such a state. */
  lemma {:induction false} TrackedFlat(n: nat, s: Node, isNew: bool, on: set<Rpc>, h: Option<nat>, r: Rpc,
                                       present: bool, on': set<Rpc>, t: Node)
    requires StateAt(n, s, isNew, on, h) && Known(r) && (isNew ==> present)
    requires on' == (if present then on + {r} else on - {r}) && t == Tracked(TWO, s, Says(n, r, present))
    ensures StateAt(n, t, false, on', h) && t.consensus == s.consensus
    ensures EnvOf(TWO, t, Says(n, r, present)) == Floor(n, h, Synced(t.consensus))
  {
    FlatInsert(on, n, r);
    FlatRemove(on, n, r);
    assert Line(n) + map[n + 1 := BlockAt(n)] == Line(n);
  }

  lemma {:induction false} ChangedFlat(n: nat, s: Node, isNew: bool, on: set<Rpc>, h: Option<nat>, r: Rpc,
                                       present: bool)
    requires StateAt(n, s, isNew, on, h) && Known(r)
    ensures |s.tiers| == TIERS && (Changed(s.tiers, None, Says(n, r, present).report) <==> (r in on) != present)
  {
  }

  /** Processing one report that changes the tracked servers: what the search finds is published. */
  lemma {:induction false} ProcessAt(n: nat, s: Node, isNew: bool, on: set<Rpc>, h: Option<nat>, r: Rpc,
                                     present: bool, on': set<Rpc>) returns (s': Node, synced: bool, res: ScanResult)
    requires n < U64_MAX && NodeValid(Line(n), s) && EventValid(Line(n), Says(n, r, present))
    requires StateAt(n, s, isNew, on, h) && Known(r) && (r in on) != present
    requires on' == if present then on + {r} else on - {r}
    ensures Next(TWO, s, Says(n, r, present), s')
    ensures AllSearchable(Floor(n, h, synced), Flat(on', n)) && res == Best(Floor(n, h, synced), Flat(on', n))
    ensures s'.tiers == Flat(on', n) && s'.byHash == map[n + 1 := BlockAt(n)]
    ensures s'.consensus == (if res.Found? then Some(res.consensus) else None)
    ensures s'.head == (if res.Found? then Some(res.consensus.headBlock) else s.head)
  {
    var ev := Says(n, r, present);
    var t := Tracked(TWO, s, ev);
    synced := Synced(t.consensus);
    var env, ts := Floor(n, h, synced), Flat(on', n);
    SearchAt(n, s, isNew, on, h, r, present, on', t, env);
    res := Best(env, ts);
    s' := Publish(t, res);
    PublishIsNext(Line(n), s, ev, t, env, ts, res);
  }

  /** The search that follows is one over the same servers with the watched head as floor. */
  lemma {:induction false} SearchAt(n: nat, s: Node, isNew: bool, on: set<Rpc>, h: Option<nat>, r: Rpc, present: bool,
                                    on': set<Rpc>, t: Node, env: Env)
    requires n < U64_MAX && NodeValid(Line(n), s) && EventValid(Line(n), Says(n, r, present))
    requires StateAt(n, s, isNew, on, h) && Known(r) && (r in on) != present
    requires on' == if present then on + {r} else on - {r}
    requires t == Tracked(TWO, s, Says(n, r, present)) && env == Floor(n, h, Synced(t.consensus))
    ensures NodeValid(Line(n), t) && EnvValid(Line(n), env) && env == EnvOf(TWO, t, Says(n, r, present))
    ensures t.tiers == Flat(on', n) && AllSearchable(env, t.tiers) && t.byHash == map[n + 1 := BlockAt(n)]
    ensures t.head == s.head && t.consensus == s.consensus
    ensures Changed(s.tiers, TWO.maxBlockAge, Says(n, r, present).report)
  {
    TrackedValid(Line(n), TWO, s, Says(n, r, present));
    TrackedFlat(n, s, isNew, on, h, r, present, on', t);
    ChangedFlat(n, s, isNew, on, h, r, present);
  }

  lemma {:induction false} PublishIsNext(truth: Blocks, s: Node, ev: Event, t: Node, env: Env, ts: seq<Group>,
                                         res: ScanResult)
    requires NodeValid(truth, s) && t == Tracked(TWO, s, ev) && Changed(s.tiers, TWO.maxBlockAge, ev.report)
    requires NodeValid(truth, t) && EnvValid(truth, env) && env == EnvOf(TWO, t, ev) && ts == t.tiers
    requires AllSearchable(env, ts) && res == Best(env, ts)
    ensures Next(TWO, s, ev, Publish(t, res))
    ensures Publish(t, res).tiers == ts && Publish(t, res).byHash == t.byHash
    ensures Publish(t, res).consensus == if res.Found? then Some(res.consensus) else None
    ensures Publish(t, res).head == if res.Found? then Some(res.consensus.headBlock) else t.head
  {
    assert Publish(t, res).byHash == t.byHash;
    if res.Found? {
      BestHeadKnown(truth, env, ts, res);
      assert t.consensus.Some? ==> Real(truth, t.consensus.value.headBlock);
    }
  }

  // ----- the run -----

  /** With the servers `on` tracked and `h` the floor, a search finds block `x`, or nothing. */
  ghost predicate Finds(n: nat, on: set<Rpc>, h: Option<nat>, x: Option<nat>) {
    FindsIf(n, on, h, x, true) && FindsIf(n, on, h, x, false)
  }

  ghost predicate FindsIf(n: nat, on: set<Rpc>, h: Option<nat>, x: Option<nat>, synced: bool) {
    var env, ts := Floor(n, h, synced), Flat(on, n);
    && AllSearchable(env, ts)
    && (if x.None? then Best(env, ts).NotFound?
        else Best(env, ts).Found? && Best(env, ts).consensus.headBlock == BlockAt(x.value))
  }

  lemma {:induction false} PrimariesFind(n: nat, on: set<Rpc>, h: Option<nat>)
    requires n < U64_MAX && {P, Q} <= on <= {P, Q, K} && (h.Some? ==> h.value <= n) && |on| >= 2
    ensures Finds(n, on, h, Some(n))
  {
    var scan := BestOfFlat(n, on, h, true);
    PrimariesElect(n, on, h, true, scan);
    scan := BestOfFlat(n, on, h, false);
    PrimariesElect(n, on, h, false, scan);
  }

  lemma {:induction false} BackupsFindIf(n: nat, m: nat, h: nat, synced: bool)
    requires h + 1 == m <= n < U64_MAX
    ensures FindsIf(n, {P, K}, Some(m), Some(h), synced)
  {
    assert |{P, K}| == 2;
    var scan := BestOfFlat(n, {P, K}, Some(m), synced);
    BackupsElect(n, m, synced, scan);
  }

  lemma {:induction false} BackupsFind(n: nat, m: nat, h: nat)
    requires h + 1 == m <= n < U64_MAX
    ensures Finds(n, {P, K}, Some(m), Some(h))
  {
    BackupsFindIf(n, m, h, true);
    BackupsFindIf(n, m, h, false);
  }

  lemma {:induction false} OneFindsNothing(n: nat, h: Option<nat>)
    requires n < U64_MAX
    ensures Finds(n, {P}, h, None)
  {
    OneIsNotEnough(n, P, h, true);
    OneIsNotEnough(n, P, h, false);
  }

  lemma {:induction false} CountsOfPrefix(ss: seq<Node>, evs: seq<Event>, s': Node, ev: Event, j: nat)
    requires |ss| == |evs| + 1 && 3 <= j < |ss|
    ensures Falls(TWO, ss + [s'], evs + [ev], 3, j) == Falls(TWO, ss, evs, 3, j)
    ensures BackupSteps(TWO, ss + [s'], evs + [ev], 3, j) == BackupSteps(TWO, ss, evs, 3, j)
  {
    if j > 3 {
      CountsOfPrefix(ss, evs, s', ev, j - 1);
    }
  }

  /** From its fourth state on the run has fallen `d` times, each time by a publication that needed backups. */
  ghost predicate Fallen(n: nat, ss: seq<Node>, evs: seq<Event>, d: nat) {
    && |ss| == |evs| + 1 && |evs| >= 3 && ss[3].head == Some(BlockAt(n))
    && Falls(TWO, ss, evs, 3, |evs|) == d == BackupSteps(TWO, ss, evs, 3, |evs|)
  }

  /** One more step; `s` is the state before it. */
  lemma {:induction false} FallenNext(n: nat, ss: seq<Node>, evs: seq<Event>, s: Node, ev: Event, s': Node, d: nat)
    requires Fallen(n, ss, evs, d) && s == ss[|evs|]
    requires FallsAt(TWO, s, ev) <==> NeededBackups(TWO, s, ev, s')
    ensures Fallen(n, ss + [s'], evs + [ev], if FallsAt(TWO, s, ev) then d + 1 else d)
  {
    CountsOfPrefix(ss, evs, s', ev, |evs|);
    assert (ss + [s'])[|evs|] == s && (ss + [s'])[|evs| + 1] == s' && (evs + [ev])[|evs|] == ev;
  }

  lemma {:induction false} FallsWithFound(n: nat, ss: seq<Node>, evs: seq<Event>, s: Node, ev: Event, s': Node)
    requires Run(Line(n), TWO, ss + [s'], evs + [ev]) && |ss| == |evs| + 1 && s == ss[|evs|] && s.head.Some?
    requires s'.consensus.Some? ==> s'.head.Some? && s'.head.value.number < s.head.value.number
    requires s'.consensus.None? ==> s'.head == s.head
    ensures FallsAt(TWO, s, ev) <==> NeededBackups(TWO, s, ev, s')
    ensures FallsAt(TWO, s, ev) <==> s'.consensus.Some?
  {
    assert (ss + [s'])[|evs|] == s && (ss + [s'])[|evs| + 1] == s' && (evs + [ev])[|evs|] == ev;
    HeadFallsIff(Line(n), TWO, ss + [s'], evs + [ev], |evs|);
  }

  /** Processing a report after which a search finds `x`. */
  lemma {:induction false} AdvanceState(n: nat, s: Node, isNew: bool, on: set<Rpc>, h: Option<nat>, r: Rpc,
                                        present: bool, on': set<Rpc>, x: Option<nat>, h': Option<nat>)
    returns (s': Node)
    requires n < U64_MAX && NodeValid(Line(n), s) && EventValid(Line(n), Says(n, r, present))
    requires StateAt(n, s, isNew, on, h) && Known(r) && (r in on) != present
    requires on' == (if present then on + {r} else on - {r}) && Finds(n, on', h, x)
    requires h' == if x.Some? then x else h
    ensures Next(TWO, s, Says(n, r, present), s') && StateAt(n, s', false, on', h')
    ensures s'.consensus.Some? <==> x.Some?
  {
    var synced, res;
    s', synced, res := ProcessAt(n, s, isNew, on, h, r, present, on');
    assert FindsIf(n, on', h, x, synced);
  }

  /** One more report in a run. */
  lemma {:induction false} Advance(n: nat, ss: seq<Node>, evs: seq<Event>, on: set<Rpc>, h: Option<nat>, r: Rpc,
                                   present: bool, on': set<Rpc>, x: Option<nat>, h': Option<nat>)
    returns (ss': seq<Node>, evs': seq<Event>, s': Node)
    requires EndsWith(n, ss, evs, on, h) && Known(r) && (r in on) != present
    requires on' == (if present then on + {r} else on - {r}) && Finds(n, on', h, x)
    requires h' == if x.Some? then x else h
    ensures ss' == ss + [s'] && evs' == evs + [Says(n, r, present)]
    ensures EndsWith(n, ss', evs', on', h')
    ensures s'.consensus.Some? <==> x.Some?
  {
    var ev := Says(n, r, present);
    RunIsSound(Line(n), TWO, ss, evs, |evs|);
    SaysIsValid(n, r, present);
    s' := AdvanceState(n, ss[|evs|], evs == [], on, h, r, present, on', x, h');
    RunExtends(Line(n), TWO, ss, evs, ev, s');
    ss', evs' := ss + [s'], evs + [ev];
    assert ss'[|evs'|] == s';
  }

  /** The same in a run that has fallen `d` times: it falls once more if a search finds the block below the floor. */
  lemma {:induction false} AdvanceFallen(n: nat, ss: seq<Node>, evs: seq<Event>, on: set<Rpc>, h: nat, r: Rpc,
                                         present: bool, on': set<Rpc>, x: Option<nat>, h': nat, d: nat, d': nat)
    returns (ss': seq<Node>, evs': seq<Event>)
    requires EndsWith(n, ss, evs, on, Some(h)) && Known(r) && (r in on) != present && Fallen(n, ss, evs, d)
    requires on' == (if present then on + {r} else on - {r}) && Finds(n, on', Some(h), x)
    requires if x.Some? then x == Some(h') && h' < h && d' == d + 1 else h' == h && d' == d
    ensures EndsWith(n, ss', evs', on', Some(h')) && Fallen(n, ss', evs', d')
  {
    var s';
    ss', evs', s' := Advance(n, ss, evs, on, Some(h), r, present, on', x, Some(h'));
    FallsWithFound(n, ss, evs, ss[|evs|], Says(n, r, present), s');
    FallenNext(n, ss, evs, ss[|evs|], Says(n, r, present), s', d);
  }

  lemma {:induction false} FreshStart(n: nat)
    requires n < U64_MAX
    ensures EndsWith(n, [NewNode()], [], {}, None)
  {
    LineLinked(n);
  }

  /** The primary P reports block `n`, which is not enough. */
  lemma {:induction false} OnePrimary(n: nat) returns (ss: seq<Node>, evs: seq<Event>)
    requires n < U64_MAX
    ensures EndsWith(n, ss, evs, {P}, None) && |evs| == 1
  {
    FreshStart(n);
    OneFindsNothing(n, None);
    var s;
    ss, evs, s := Advance(n, [NewNode()], [], {}, None, P, true, {P}, None, None);
  }

  /** The primary Q reports it too, and it gets published. */
  lemma {:induction false} TwoPrimaries(n: nat) returns (ss: seq<Node>, evs: seq<Event>)
    requires n < U64_MAX
    ensures EndsWith(n, ss, evs, {P, Q}, Some(n)) && |evs| == 2
  {
    assert |{P, Q}| == 2;
    PrimariesFind(n, {P, Q}, None);
    var ss1, evs1 := OnePrimary(n);
    var s;
    ss, evs, s := Advance(n, ss1, evs1, {P}, None, Q, true, {P, Q}, Some(n), Some(n));
  }

  /** The backup K reports it too. */
  lemma {:induction false} Start(n: nat) returns (ss: seq<Node>, evs: seq<Event>)
    requires n < U64_MAX
    ensures EndsWith(n, ss, evs, {P, Q, K}, Some(n)) && |evs| == 3
  {
    assert |{P, Q, K}| == 3;
    PrimariesFind(n, {P, Q, K}, Some(n));
    var ss2, evs2 := TwoPrimaries(n);
    var s3;
    ss, evs, s3 := Advance(n, ss2, evs2, {P, Q}, Some(n), K, true, {P, Q, K}, Some(n), Some(n));
  }

  /** One primary leaves: the watched head falls to the block `h` below. */
  lemma {:induction false} FirstFall(n: nat, h: nat) returns (ss: seq<Node>, evs: seq<Event>)
    requires h + 1 == n < U64_MAX
    ensures EndsWith(n, ss, evs, {P, K}, Some(h)) && Fallen(n, ss, evs, 1)
  {
    BackupsFind(n, n, h);
    assert {P, Q, K} - {Q} == {P, K};
    ss, evs := Start(n);
    ss, evs := AdvanceFallen(n, ss, evs, {P, Q, K}, n, Q, false, {P, K}, Some(h), h, 0, 1);
  }

  /** The backup leaves and comes back: the watched head falls by another block. */
  lemma {:induction false} NextFall(n: nat, ss: seq<Node>, evs: seq<Event>, h: nat, h': nat, d: nat, d': nat)
    returns (ss': seq<Node>, evs': seq<Event>)
    requires EndsWith(n, ss, evs, {P, K}, Some(h)) && Fallen(n, ss, evs, d)
    requires h' + 1 == h <= n && d' == d + 1
    ensures EndsWith(n, ss', evs', {P, K}, Some(h')) && Fallen(n, ss', evs', d')
  {
    OneFindsNothing(n, Some(h));
    BackupsFind(n, h, h');
    assert {P, K} - {K} == {P} && {P} + {K} == {P, K};
    var ss1, evs1 := AdvanceFallen(n, ss, evs, {P, K}, h, K, false, {P}, None, h, d, d);
    ss', evs' := AdvanceFallen(n, ss1, evs1, {P}, h, K, true, {P, K}, Some(h'), h', d, d');
  }

  lemma {:induction false} FallFar(n: nat, d: nat, h: nat) returns (ss: seq<Node>, evs: seq<Event>)
    requires 0 < d && h + d == n < U64_MAX
    ensures EndsWith(n, ss, evs, {P, K}, Some(h)) && Fallen(n, ss, evs, d)
    decreases d
  {
    if d == 1 {
      ss, evs := FirstFall(n, h);
    } else {
      var d0, h0 := d - 1, h + 1;
      var ss0, evs0 := FallFar(n, d0, h0);
      ss, evs := NextFall(n, ss0, evs0, h0, h, d0, d);
    }
  }

  /** What such a run has come to. */
  ghost predicate FellTo(n: nat, ss: seq<Node>, evs: seq<Event>, d: nat, h: nat) {
    && Run(Line(n), TWO, ss, evs) && |ss| == |evs| + 1 && |evs| >= 3 && ss[3].head == Some(BlockAt(n))
    && Falls(TWO, ss, evs, 3, |evs|) == BackupSteps(TWO, ss, evs, 3, |evs|) == d
    && var s := ss[|evs|];
       && s.head == Some(BlockAt(h))
       && |s.tiers| == TIERS && AllHeads(s.tiers) == map[P := BlockAt(n), K := BlockAt(n)]
  }

  lemma {:induction false} FellToAt(n: nat, ss: seq<Node>, evs: seq<Event>, d: nat, h: nat, s: Node)
    requires EndsWith(n, ss, evs, {P, K}, Some(h)) && Fallen(n, ss, evs, d) && s == ss[|evs|]
    ensures FellTo(n, ss, evs, d, h)
  {
    HeadsAt(n, s, h);
  }

  /** The bound of `HeadNeverFallsBack` is attained at every number of falls: after block `n` was published, a primary
      leaves, and then a backup leaves and comes back again and again. Every tracked server stays on block `n` while the
      watched head falls to block `n - d`, one block for each of `d` backup-voted publications. */
  lemma {:induction false} FallsAreAttained(n: nat, d: nat, h: nat) returns (ss: seq<Node>, evs: seq<Event>)
    requires 0 < d && h + d == n < U64_MAX
    ensures TWO.quorum.Positive() && FellTo(n, ss, evs, d, h)
  {
    ss, evs := FallFar(n, d, h);
    FellToAt(n, ss, evs, d, h, ss[|evs|]);
  }

  lemma {:induction false} HeadsAt(n: nat, s: Node, h: nat)
    requires StateAt(n, s, false, {P, K}, Some(h))
    ensures |s.tiers| == TIERS && s.head == Some(BlockAt(h))
    ensures AllHeads(s.tiers) == map[P := BlockAt(n), K := BlockAt(n)]
  {
    assert AllHeads(Flat({P, K}, n)) == map[P := BlockAt(n), K := BlockAt(n)];
  }
}

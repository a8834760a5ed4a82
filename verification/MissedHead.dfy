/** Runs in which the search is skipped because no head changed, although it would publish another head. */
module MissedHead {
  import opened Options
  import opened Chain
  import opened HeadScan
  import opened Tiers
  import opened HeadTracker
  import opened Rescan
  import opened SkippedScan
  import opened FallingHead

  /** Report `i` changes nothing and leaves `kept` watched, where searching anyway would send `missed`. */
  ghost predicate Misses(truth: Blocks, cfg: Config, ss: seq<Node>, evs: seq<Event>, i: nat, kept: Option<Block>,
                         missed: Block)
  {
    && Run(truth, cfg, ss, evs) && cfg.quorum.Positive() && i < |evs| && !Searches(cfg, ss[i], evs[i])
    && MissedIn(EnvOf(cfg, ss[i + 1], evs[i]), ss[i + 1], kept, missed)
  }

  ghost predicate MissedIn(env: Env, s: Node, kept: Option<Block>, missed: Block) {
    && |s.tiers| == TIERS && AllSearchable(env, s.tiers) && s.head == kept
    && Publish(s, Best(env, s.tiers)).head == Some(missed)
  }

  // ----- after a backup-voted publication, in an unchanged setting -----

  /** A report that changes nothing. */
  lemma {:induction false} IdleAt(n: nat, s: Node, h: nat, s': Node)
    requires n < U64_MAX && StateAt(n, s, false, {P, K}, Some(h)) && s' == Tracked(TWO, s, Says(n, P, true))
    ensures |s.tiers| == TIERS && !Searches(TWO, s, Says(n, P, true))
    ensures Next(TWO, s, Says(n, P, true), s')
    ensures s'.tiers == Flat({P, K}, n) && s'.head == s.head && s'.consensus == s.consensus
    ensures EnvOf(TWO, s', Says(n, P, true)) == Floor(n, Some(h), Synced(s'.consensus))
  {
    ChangedFlat(n, s, false, {P, K}, Some(h), P, true);
    assert {P, K} + {P} == {P, K};
    TrackedFlat(n, s, false, {P, K}, Some(h), P, true, {P, K}, s');
  }

  lemma {:induction false} SearchMoves(s: Node, env: Env, n: nat, h: nat, h': nat)
    requires h' + 1 == h <= n < U64_MAX && s.tiers == Flat({P, K}, n) && env == Floor(n, Some(h), Synced(s.consensus))
    requires s.head == Some(BlockAt(h)) && (s.consensus.Some? ==> s.head == Some(s.consensus.value.headBlock))
    ensures MissedIn(env, s, Some(BlockAt(h)), BlockAt(h'))
  {
    BackupsFind(n, h, h');
    assert FindsIf(n, {P, K}, Some(h), Some(h'), Synced(s.consensus));
  }

  /** Q leaves, which makes the head fall, and then P repeats itself. */
  lemma {:induction false} FallAndRepeat(n: nat, h: nat, s0: Node) returns (s1: Node, s2: Node)
    requires h + 1 == n < U64_MAX && NodeValid(Line(n), s0) && StateAt(n, s0, false, {P, Q, K}, Some(n))
    ensures |s0.tiers| == TIERS && |s1.tiers| == TIERS
    ensures Next(TWO, s0, Says(n, Q, false), s1) && Searches(TWO, s0, Says(n, Q, false))
    ensures Next(TWO, s1, Says(n, P, true), s2) && !Searches(TWO, s1, Says(n, P, true))
    ensures s2.tiers == Flat({P, K}, n) && s2.head == Some(BlockAt(h))
    ensures s2.consensus.Some? ==> s2.head == Some(s2.consensus.value.headBlock)
    ensures SearchEnv(TWO, s0, Says(n, Q, false)) == Floor(n, Some(n), Synced(s0.consensus))
    ensures EnvOf(TWO, s2, Says(n, P, true)) == Floor(n, Some(h), Synced(s2.consensus))
  {
    assert {P, Q, K} - {Q} == {P, K};
    BackupsFind(n, n, h);
    SaysIsValid(n, Q, false);
    s1 := AdvanceState(n, s0, false, {P, Q, K}, Some(n), Q, false, {P, K}, Some(h), Some(h));
    TrackedFlat(n, s0, false, {P, Q, K}, Some(n), Q, false, {P, K}, Tracked(TWO, s0, Says(n, Q, false)));
    ChangedFlat(n, s0, false, {P, Q, K}, Some(n), Q, false);
    NextValid(Line(n), TWO, s0, Says(n, Q, false), s1);
    s2 := Tracked(TWO, s1, Says(n, P, true));
    IdleAt(n, s1, h, s2);
  }

  lemma {:induction false} SameFloorSetting(n: nat, f: Option<nat>, g: Option<nat>, x: bool, y: bool, on: set<Rpc>)
    requires n < U64_MAX
    ensures SameSetting(Floor(n, f, x), Floor(n, g, y), Flat(on, n))
  {
    LineLinked(n);
  }

  /** Everything else is as it was at the last search. */
  ghost predicate SettingLasts(cfg: Config, ss: seq<Node>, evs: seq<Event>, j: nat, i: nat) {
    && |ss| == |evs| + 1 && LastSearch(cfg, ss, evs, j, i) && j < i && |ss[i + 1].tiers| == TIERS
    && SameSetting(SearchEnv(cfg, ss[j], evs[j]), EnvOf(cfg, ss[i + 1], evs[i]), ss[i + 1].tiers)
  }

  lemma {:induction false} LastsOneStep(cfg: Config, ss: seq<Node>, evs: seq<Event>, j: nat, i: nat, a: Env, b: Env)
    requires |ss| == |evs| + 1 && i == j + 1 < |evs|
    requires Searches(cfg, ss[j], evs[j]) && !Searches(cfg, ss[i], evs[i]) && |ss[i + 1].tiers| == TIERS
    requires a == SearchEnv(cfg, ss[j], evs[j]) && b == EnvOf(cfg, ss[i + 1], evs[i])
    requires SameSetting(a, b, ss[i + 1].tiers)
    ensures SettingLasts(cfg, ss, evs, j, i)
  {
  }

  /** After a backup-voted publication a report that changes nothing leaves the head one block below block `n`, where
      searching and publishing would move it on by another block, although the setting is that of the last search. */
  lemma {:induction false} SkippingCanDiffer(n: nat, h: nat, h': nat)
    returns (ss: seq<Node>, evs: seq<Event>, j: nat, i: nat)
    requires h' + 1 == h && h + 1 == n < U64_MAX
    ensures Misses(Line(n), TWO, ss, evs, i, Some(BlockAt(h)), BlockAt(h')) && SettingLasts(TWO, ss, evs, j, i)
  {
    var ss0, evs0 := Start(n);
    var s0 := ss0[|evs0|];
    RunIsSound(Line(n), TWO, ss0, evs0, |evs0|);
    ss, evs, j, i := DifferFrom(n, h, h', ss0, evs0, s0);
  }

  lemma {:induction false} DifferFrom(n: nat, h: nat, h': nat, ss0: seq<Node>, evs0: seq<Event>, s0: Node)
    returns (ss: seq<Node>, evs: seq<Event>, j: nat, i: nat)
    requires h' + 1 == h && h + 1 == n < U64_MAX
    requires Run(Line(n), TWO, ss0, evs0) && |ss0| == |evs0| + 1 && s0 == ss0[|evs0|]
    requires NodeValid(Line(n), s0) && StateAt(n, s0, false, {P, Q, K}, Some(n))
    ensures Misses(Line(n), TWO, ss, evs, i, Some(BlockAt(h)), BlockAt(h')) && SettingLasts(TWO, ss, evs, j, i)
  {
    var e0, e1 := Says(n, Q, false), Says(n, P, true);
    var s1, s2 := FallAndRepeat(n, h, s0);
    SaysIsValid(n, Q, false);
    SaysIsValid(n, P, true);
    ss, evs := RunTwice(Line(n), TWO, ss0, evs0, s0, e0, s1, e1, s2);
    j, i := |evs0|, |evs0| + 1;
    var a, b := SearchEnv(TWO, s0, e0), EnvOf(TWO, s2, e1);
    SearchMoves(s2, b, n, h, h');
    SameFloorSetting(n, Some(n), Some(h), Synced(s0.consensus), Synced(s2.consensus), {P, K});
    LastsOneStep(TWO, ss, evs, j, i, a, b);
  }

  lemma {:induction false} RunTwice(truth: Blocks, cfg: Config, ss0: seq<Node>, evs0: seq<Event>, s0: Node, e0: Event,
                                    s1: Node, e1: Event, s2: Node) returns (ss: seq<Node>, evs: seq<Event>)
    requires Run(truth, cfg, ss0, evs0) && s0 == ss0[|evs0|] && |s0.tiers| == TIERS && |s1.tiers| == TIERS
    requires EventValid(truth, e0) && EventValid(truth, e1) && Next(cfg, s0, e0, s1) && Next(cfg, s1, e1, s2)
    ensures Run(truth, cfg, ss, evs) && |evs| == |evs0| + 2 && |ss| == |evs| + 1
    ensures ss[|evs0|] == s0 && ss[|evs0| + 1] == s1 && ss[|evs0| + 2] == s2
    ensures evs[|evs0|] == e0 && evs[|evs0| + 1] == e1
  {
    RunExtends(truth, cfg, ss0, evs0, e0, s1);
    RunExtends(truth, cfg, ss0 + [s1], evs0 + [e0], e1, s2);
    ss, evs := ss0 + [s1] + [s2], evs0 + [e0] + [e1];
  }

  // ----- after a server is registered late -----

  const ONE: Config := Config(Quorum(1, 0), None, None)

  /** P reports block `n` while `registered` are known. */
  ghost function Reports(n: nat, registered: set<Rpc>): Event {
    Event(Report(P, Some(BlockAt(n)), 0), registered, Line(n))
  }

  ghost function Seen(n: nat): Node { Node(Flat({P}, n), map[n + 1 := BlockAt(n)], map[], None, None) }

  ghost function EnvWith(n: nat, registered: set<Rpc>): Env {
    Env(registered, false, ONE.quorum, None, None, Line(n))
  }

  lemma {:induction false} SeenTracked(n: nat, registered: set<Rpc>)
    requires n < U64_MAX
    ensures Tracked(ONE, NewNode(), Reports(n, registered)) == Seen(n) == Tracked(ONE, Seen(n), Reports(n, registered))
    ensures EnvOf(ONE, Seen(n), Reports(n, registered)) == EnvWith(n, registered)
    ensures Searches(ONE, NewNode(), Reports(n, registered)) && !Searches(ONE, Seen(n), Reports(n, registered))
    ensures EventValid(Line(n), Reports(n, registered))
  {
    LineLinked(n);
    FlatInsert({P}, n, P);
    assert {P} + {P} == {P};
    assert Line(n) + map[n + 1 := BlockAt(n)] == Line(n);
  }

  ghost predicate WalkWith(n: nat, registered: set<Rpc>, g: Group, s: Scan) {
    && n < U64_MAX && g == Group(map[P := BlockAt(n)], Some(BlockAt(n)))
    && Searchable(EnvWith(n, registered), g) && s == ScanOf(EnvWith(n, registered), g, None)
  }

  lemma {:induction false} WalkWithShape(n: nat, registered: set<Rpc>, g: Group, s: Scan)
    requires WalkWith(n, registered, g, s)
    ensures |s.path| >= 1 && s.path[0] == BlockAt(n) && s.Depth() > 0
  {
  }

  lemma {:induction false} UnknownGivesUp(n: nat, g: Group, s: Scan)
    requires WalkWith(n, {}, g, s)
    ensures s.Fails()
  {
    WalkWithShape(n, {}, g, s);
    assert P in s.heads && s.heads[P].hash == s.path[0].hash;
    assert s.GivesUpFirst(0);
  }

  lemma {:induction false} KnownElects(n: nat, g: Group, s: Scan)
    requires WalkWith(n, {P}, g, s)
    ensures s.Outcome(0).Found? && s.Outcome(0).consensus.headBlock == BlockAt(n)
  {
    WalkWithShape(n, {P}, g, s);
    assert s.heads[P].hash == s.path[0].hash && s.HeadIn(P, 1);
    assert s.Primaries(1) == {P};
    assert s.PrimaryQuorum(0);
    s.AgreementIsFound(0, 0);
  }

  lemma {:induction false} FlatGroups(n: nat, registered: set<Rpc>)
    requires n < U64_MAX
    ensures var env, ts := EnvWith(n, registered), Flat({P}, n);
      AllSearchable(env, ts) && forall i | 0 <= i < TIERS :: WalkWith(n, registered, ts[i], ScanOf(env, ts[i], None))
  {
    LineLinked(n);
    forall i | 0 <= i < TIERS ensures Flat({P}, n)[i].heads == map[P := BlockAt(n)] {}
  }

  lemma {:induction false} UnknownFindsNothing(n: nat)
    requires n < U64_MAX
    ensures var env, ts := EnvWith(n, {}), Flat({P}, n); AllSearchable(env, ts) && Best(env, ts).NotFound?
  {
    FlatGroups(n, {});
    var env, ts := EnvWith(n, {}), Flat({P}, n);
    var rs := TierResults(env, ts, None);
    forall i | 0 <= i < TIERS ensures rs[i].NotFound? {
      UnknownGivesUp(n, ts[i], ScanOf(env, ts[i], None));
      TierFailsIff(env, ts[i], None, i);
    }
    var t := FirstFoundAt(rs, 0);
  }

  lemma {:induction false} KnownFinds(n: nat)
    requires n < U64_MAX
    ensures MissedIn(EnvWith(n, {P}), Seen(n), None, BlockAt(n))
  {
    FlatGroups(n, {P});
    var env, ts := EnvWith(n, {P}), Flat({P}, n);
    KnownElects(n, ts[0], ScanOf(env, ts[0], None));
    assert |ts[0].heads| == |ts[0].heads.Keys| == 1;
    FirstFoundIs(env, ts, None, 0);
  }

  /** P reports block `n` before it is registered, so the search gives up and nothing is published. Registered, P
      reports the same block again: the search is skipped and nothing stays published, although it would publish
      block `n`. */
  lemma {:induction false} LateRegistration(n: nat) returns (ss: seq<Node>, evs: seq<Event>)
    requires n < U64_MAX
    ensures |evs| == 2 && Misses(Line(n), ONE, ss, evs, 1, None, BlockAt(n))
    ensures evs == [Reports(n, {}), Reports(n, {P})] && ss[2].consensus == None
  {
    LineLinked(n);
    UnknownFindsNothing(n);
    KnownFinds(n);
    SeenTracked(n, {});
    SeenTracked(n, {P});
    assert Next(ONE, NewNode(), Reports(n, {}), Seen(n));
    ss, evs := RunTwice(Line(n), ONE, [NewNode()], [], NewNode(), Reports(n, {}), Seen(n), Reports(n, {P}), Seen(n));
  }
}

/** Picking one server for a request: filtering, grouping, and duels by latency inside each shuffled group. */
module ServerSelection {
  import opened Options
  import opened Chain
  import BlockData

  datatype Head = Head(number: nat, age: nat)

  /** A server as the selection sees it. Latency and load, which is latency times active requests, are only compared. */
  datatype Server = Server(
    name: string, tier: nat, backup: bool, head: Option<Head>, dataLimit: nat, latency: int, load: int)
  {
    predicate Has(n: nat) {
      BlockData.HasBlockData(if head.None? then None else Some(head.value.number), dataLimit, n)
    }
  }

  /** The answer to asking one server for a request handle, and the answer of the whole selection. */
  datatype Open = Handle(server: Server) | RetryAt(at: int) | NotReady | Failed

  datatype Attempt = Granted | Limited(until: int) | Unready | Refused

  datatype Consensus = Consensus(headNum: nat, headAge: nat, rpcs: seq<Server>)

  datatype Query = Query(
    consensus: Option<Consensus>, byName: set<Server>, skip: seq<string>,
    min: Option<nat>, max: Option<nat>, maxBlockLag: Option<nat>, maxBlockAge: Option<nat>)

  datatype Comparison = Old | AtHead | Future | Malformed

  function Compare(a: nat, head: nat): Comparison { if a < head then Old else if a == head then AtHead else Future }

  /** Where the requested range lies; with both ends given it is the lower end that counts. */
  function Needed(q: Query, head: nat): Comparison {
    match (q.min, q.max)
    case (None, None) => AtHead
    case (None, Some(max)) => Compare(max, head)
    case (Some(min), None) => Compare(min, head)
    case (Some(min), Some(max)) => if min <= max then Compare(min, head) else Malformed
  }

  function Least(a: nat, b: nat): nat { if a < b then a else b }

  /** Usable for an old range: not skipped, holding both ends, and not lagging behind the consensus. */
  predicate Eligible(q: Query, c: Consensus, s: Server) {
    && s.name !in q.skip
    && (q.max.Some? ==> s.Has(q.max.value))
    && (q.min.Some? ==> s.Has(q.min.value))
    && s.head.Some?
    && (q.maxBlockLag.Some? ==>
          Least(s.head.value.number, c.headNum) >= SaturatingSub(c.headNum, q.maxBlockLag.value))
    && (q.maxBlockAge.Some? ==> s.head.value.age <= SaturatingSub(c.headAge, q.maxBlockAge.value))
  }

  /** The servers the selection may hand out. */
  ghost function Candidates(q: Query): set<Server> {
    if q.consensus.None? then {} else
      var c := q.consensus.value;
      match Needed(q, c.headNum)
      case Old => set s | s in q.byName && Eligible(q, c, s)
      case AtHead => set s | s in c.rpcs && s.name !in q.skip
      case _ => {}
  }

  /** Lower tiers first, then lower heads; servers at the consensus head form one group. */
  datatype Key = Key(tier: nat, number: Option<nat>)

  predicate KeyLess(a: Key, b: Key) {
    a.tier < b.tier || (a.tier == b.tier && b.number.Some? && (a.number.None? || a.number.value < b.number.value))
  }

  /** The lower end of the range, or the only one. */
  function FirstWanted(q: Query): nat
    requires q.min.Some? || q.max.Some?
  {
    if q.min.Some? then q.min.value else q.max.value
  }

  /** A range is malformed if its ends are in the wrong order; otherwise its lower end decides. */
  lemma {:induction false} RangeKindIff(q: Query, head: nat)
    ensures Needed(q, head).Malformed? <==> q.min.Some? && q.max.Some? && q.max.value < q.min.value
    ensures q.min.None? && q.max.None? ==> Needed(q, head).AtHead?
    ensures (q.min.Some? || q.max.Some?) && !Needed(q, head).Malformed? ==>
              && (Needed(q, head).Old? <==> FirstWanted(q) < head)
              && (Needed(q, head).AtHead? <==> FirstWanted(q) == head)
              && (Needed(q, head).Future? <==> FirstWanted(q) > head)
  {
  }

  /** A server has block `e`: not above its head, and not further below it than its limit. */
  predicate HoldsEnd(s: Server, e: nat) {
    s.head.Some? && e <= s.head.value.number && s.head.value.number <= e + s.dataLimit
  }

  /** The candidates in plain numbers. For a range that starts below the consensus head: registered servers that were
      not skipped, have both ends, lag at most `maxBlockLag` behind, and whose head is by `maxBlockAge` younger than the
      consensus head or of age zero. At the consensus head: its servers that were not skipped. Beyond it: none. */
  lemma {:induction false} CandidateIff(q: Query, c: Consensus, s: Server)
    requires q.consensus == Some(c)
    ensures Needed(q, c.headNum).Old? ==>
              (s in Candidates(q) <==>
                 && s in q.byName && s.name !in q.skip && s.head.Some?
                 && (q.min.Some? ==> HoldsEnd(s, q.min.value)) && (q.max.Some? ==> HoldsEnd(s, q.max.value))
                 && (q.maxBlockLag.Some? ==> s.head.value.number + q.maxBlockLag.value >= c.headNum)
                 && (q.maxBlockAge.Some? ==>
                       s.head.value.age == 0 || s.head.value.age + q.maxBlockAge.value <= c.headAge))
    ensures Needed(q, c.headNum).AtHead? ==> (s in Candidates(q) <==> s in c.rpcs && s.name !in q.skip)
    ensures Needed(q, c.headNum).Future? || Needed(q, c.headNum).Malformed? ==> Candidates(q) == {}
  {
  }

  function KeyOf(q: Query, s: Server): Key {
    if q.consensus.Some? && Needed(q, q.consensus.value.headNum).Old? && s.head.Some?
    then Key(s.tier, Some(Least(s.head.value.number, q.consensus.value.headNum)))
    else Key(0, None)
  }

  ghost predicate NoRepeats(g: seq<Server>) { forall i, j | 0 <= i < j < |g| :: g[i] != g[j] }

  /** The groups hold exactly the candidates, each under its own key and once. */
  ghost predicate Grouped(q: Query, cs: set<Server>, m: map<Key, seq<Server>>) {
    && (forall k, s | k in m && s in m[k] :: s in cs && KeyOf(q, s) == k)
    && (forall s | s in cs :: KeyOf(q, s) in m && s in m[KeyOf(q, s)])
    && (forall k | k in m :: m[k] != [] && NoRepeats(m[k]))
  }

  function Push(m: map<Key, seq<Server>>, k: Key, s: Server): map<Key, seq<Server>> {
    m[k := (if k in m then m[k] else []) + [s]]
  }

  lemma {:induction false} GroupedPush(q: Query, cs: set<Server>, m: map<Key, seq<Server>>, s: Server)
    requires Grouped(q, cs, m) && s !in cs
    ensures Grouped(q, cs + {s}, Push(m, KeyOf(q, s), s))
  {
    var k := KeyOf(q, s);
    var m' := Push(m, k, s);
    assert m'[k][|m'[k]| - 1] == s;
    forall x | x in cs + {s} ensures KeyOf(q, x) in m' && x in m'[KeyOf(q, x)] {
      if x != s && KeyOf(q, x) == k { assert x in m[k]; }
    }
  }

  /** Collects the candidates into groups, in whatever order the registry yields them. */
  method GroupCandidates(q: Query) returns (ok: bool, m: map<Key, seq<Server>>)
    requires q.consensus.Some? ==> NoRepeats(q.consensus.value.rpcs)
    ensures ok <==> !(q.consensus.Some? && Needed(q, q.consensus.value.headNum).Malformed?)
    ensures Grouped(q, Candidates(q), m)
  {
    m := map[];
    ghost var cs := {};
    if q.consensus.None? {
      return true, m;
    }
    var c := q.consensus.value;
    var needed := Needed(q, c.headNum);
    ok := !needed.Malformed?;
    if needed.Old? {
      var todo := q.byName;
      while todo != {}
        invariant todo <= q.byName
        invariant cs == set s | s in q.byName && s !in todo && Eligible(q, c, s)
        invariant Grouped(q, cs, m)
      {
        var s :| s in todo;
        todo := todo - {s};
        if Eligible(q, c, s) {
          GroupedPush(q, cs, m, s);
          m, cs := Push(m, KeyOf(q, s), s), cs + {s};
        }
      }
    } else if needed.AtHead? {
      var i := 0;
      while i < |c.rpcs|
        invariant 0 <= i <= |c.rpcs|
        invariant cs == set s | s in c.rpcs[..i] && s.name !in q.skip
        invariant Grouped(q, cs, m)
      {
        var s := c.rpcs[i];
        assert c.rpcs[..i + 1] == c.rpcs[..i] + [s];
        if s.name !in q.skip {
          GroupedPush(q, cs, m, s);
          m, cs := Push(m, KeyOf(q, s), s), cs + {s};
        }
        i := i + 1;
      }
      assert c.rpcs[..|c.rpcs|] == c.rpcs;
    }
    assert cs == Candidates(q);
  }

  // ----- duels inside one group -----

  /** `min_by_key`: the first on a tie. */
  function Faster(a: Server, b: Server): Server { if b.latency < a.latency then b else a }

  function After(n: nat, i: nat): nat { if i + 1 == n then 0 else i + 1 }

  /** The servers asked for a handle: the winner of every server's duel with its circular successor. */
  function Duels(g: seq<Server>): seq<Server> {
    seq(|g|, i requires 0 <= i < |g| => Faster(g[i], g[After(|g|, i)]))
  }

  /** Server j wins its own duel if it is no slower than its successor, and its predecessor's if it is strictly faster;
      it wins no other. */
  lemma {:induction false} DuelWonBy(g: seq<Server>, i: nat, j: nat)
    requires NoRepeats(g) && i < |g| && j < |g|
    ensures Duels(g)[i] == g[j] <==>
            || (i == j && g[j].latency <= g[After(|g|, j)].latency)
            || (After(|g|, i) == j && g[j].latency < g[i].latency)
  {
    assert Duels(g)[i] == Faster(g[i], g[After(|g|, i)]);
  }

  ghost function Wins(g: seq<Server>, s: Server): set<int> { set i | 0 <= i < |g| && Duels(g)[i] == s }

  /** Exactly which servers are tried in a group that yields no handle: a fastest one always, a strictly slowest one of
      several never, and none more than twice. */
  lemma {:induction false} TriedInGroup(g: seq<Server>, j: nat)
    requires NoRepeats(g) && j < |g|
    ensures var before := if j == 0 then |g| - 1 else j - 1;
      g[j] in Duels(g) <==>
        g[j].latency <= g[After(|g|, j)].latency || g[j].latency < g[before].latency
    ensures |Wins(g, g[j])| <= 2
    ensures (forall i | 0 <= i < |g| :: g[j].latency <= g[i].latency) ==> g[j] in Duels(g)
    ensures |g| >= 2 && (forall i | 0 <= i < |g| && i != j :: g[i].latency < g[j].latency) ==> g[j] !in Duels(g)
  {
    var before := if j == 0 then |g| - 1 else j - 1;
    forall i | 0 <= i < |g|
      ensures Duels(g)[i] == g[j] <==>
              || (i == j && g[j].latency <= g[After(|g|, j)].latency)
              || (i == before && g[j].latency < g[i].latency)
    {
      DuelWonBy(g, i, j);
    }
    assert Wins(g, g[j]) <= {j, before};
    SmallSet(Wins(g, g[j]), j, before);
    if g[j].latency <= g[After(|g|, j)].latency {
      assert Duels(g)[j] == g[j];
    } else if g[j].latency < g[before].latency {
      assert Duels(g)[before] == g[j];
    }
  }

  lemma {:induction false} SmallSet(s: set<int>, a: int, b: int)
    requires s <= {a, b}
    ensures |s| <= 2
  {
    assert s == {} || s == {a} || s == {b} || s == {a, b};
  }

  // ----- the selection -----

  /** `Ord::min` on options: `None` sorts below every `Some`. */
  function MinOption(a: Option<int>, b: Option<int>): Option<int> {
    if a.None? || b.None? then None else Some(if b.value < a.value then b.value else a.value)
  }

  function Conclude(earliest: Option<int>): Open { if earliest.None? then NotReady else RetryAt(earliest.value) }

  ghost predicate NoGrants(answers: nat -> Attempt, from: nat, to: nat) {
    forall i: nat | from <= i < to :: !answers(i).Granted?
  }

  /** Duels through one shuffled group until a server grants a handle. */
  method TryGroup(g: seq<Server>, answers: nat -> Attempt, first: nat, earliest0: Option<int>)
    returns (granted: Option<Server>, tried: seq<Server>, earliest: Option<int>)
    ensures earliest0.None? ==> earliest.None?
    ensures tried <= Duels(g)
    ensures granted.None? ==> tried == Duels(g) && NoGrants(answers, first, first + |tried|)
    ensures granted.Some? ==> tried != [] && granted.value == tried[|tried| - 1]
    ensures granted.Some? ==> answers(first + |tried| - 1).Granted? && NoGrants(answers, first, first + |tried| - 1)
  {
    tried, earliest := [], earliest0;
    var i := 0;
    while i < |g|
      invariant 0 <= i <= |g| && tried == Duels(g)[..i] && (earliest0.None? ==> earliest.None?)
      invariant NoGrants(answers, first, first + i)
    {
      var best := Faster(g[i], g[After(|g|, i)]);
      tried := tried + [best];
      match answers(first + i) {
        case Granted => return Some(best), tried, earliest;
        case Limited(at) => earliest := MinOption(earliest, Some(at));
        case Unready =>
        case Refused =>
      }
      i := i + 1;
    }
    granted := None;
  }

  method LeastKey(keys: set<Key>) returns (k: Key)
    requires keys != {}
    ensures k in keys && forall x | x in keys && x != k :: KeyLess(k, x)
  {
    k :| k in keys;
    var todo := keys - {k};
    ghost var seen := {k};
    while todo != {}
      invariant todo + seen == keys && k in seen
      invariant forall x | x in seen && x != k :: KeyLess(k, x)
      decreases todo
    {
      var x :| x in todo;
      if KeyLess(x, k) {
        k := x;
      }
      todo, seen := todo - {x}, seen + {x};
    }
  }

  /** A group as it was tried: its key and its servers in shuffled order. */
  datatype Visit = Visit(key: Key, group: seq<Server>)

  ghost function AllDuels(vs: seq<Visit>): seq<Server> {
    if vs == [] then [] else AllDuels(vs[..|vs| - 1]) + Duels(vs[|vs| - 1].group)
  }

  /** Each visit was to a permutation of the group with the least key then left; `left` holds the keys still ahead. */
  ghost predicate Visited(m: map<Key, seq<Server>>, vs: seq<Visit>, left: set<Key>) {
    if vs == [] then left == m.Keys
    else
      var v := vs[|vs| - 1];
      && v.key in m && v.key !in left && multiset(v.group) == multiset(m[v.key])
      && (forall x | x in left :: KeyLess(v.key, x))
      && Visited(m, vs[..|vs| - 1], left + {v.key})
  }

  lemma {:induction false} VisitedNext(m: map<Key, seq<Server>>, vs: seq<Visit>, left: set<Key>, v: Visit)
    requires Visited(m, vs, left) && v.key in left && v.key in m && multiset(v.group) == multiset(m[v.key])
    requires forall x | x in left && x != v.key :: KeyLess(v.key, x)
    ensures Visited(m, vs + [v], left - {v.key})
    ensures AllDuels(vs + [v]) == AllDuels(vs) + Duels(v.group)
  {
    assert (vs + [v])[..|vs|] == vs;
    assert left - {v.key} + {v.key} == left;
  }

  lemma {:induction false} LeftIsKnown(m: map<Key, seq<Server>>, vs: seq<Visit>, left: set<Key>)
    requires Visited(m, vs, left)
    ensures left <= m.Keys
  {
    if vs != [] {
      LeftIsKnown(m, vs[..|vs| - 1], left + {vs[|vs| - 1].key});
    }
  }

  /** Groups are visited by tier, and within a tier by head, the lowest first. */
  lemma {:induction false} VisitedInOrder(m: map<Key, seq<Server>>, vs: seq<Visit>, left: set<Key>, i: nat, k: Key)
    requires Visited(m, vs, left) && i < |vs| && k in left
    ensures vs[i].key.tier <= k.tier
    ensures vs[i].key.tier == k.tier ==>
              k.number.Some? && (vs[i].key.number.None? || vs[i].key.number.value < k.number.value)
    decreases |vs|
  {
    var n := |vs| - 1;
    if i < n {
      VisitedInOrder(m, vs[..n], left + {vs[n].key}, i, k);
    }
  }

  /** What has been tried while no handle was granted. */
  ghost predicate AllRefused(m: map<Key, seq<Server>>, answers: nat -> Attempt, vs: seq<Visit>, left: set<Key>,
                          tried: seq<Server>)
  {
    Visited(m, vs, left) && tried == AllDuels(vs) && NoGrants(answers, 0, |tried|)
  }

  /** The handle comes from the group visited last, after all duels of the groups before it. */
  ghost predicate GrantedInLast(vs: seq<Visit>, tried: seq<Server>, s: Server) {
    && vs != [] && tried != [] && s in vs[|vs| - 1].group
    && AllDuels(vs[..|vs| - 1]) <= tried[..|tried| - 1]
  }

  lemma {:induction false} LastGrants(vs: seq<Visit>, k: Key, g: seq<Server>, before: seq<Server>, more: seq<Server>)
    requires before == AllDuels(vs) && more != [] && more <= Duels(g)
    ensures GrantedInLast(vs + [Visit(k, g)], before + more, more[|more| - 1])
  {
    DuelsMembers(g);
    assert more[|more| - 1] in Duels(g);
    assert (vs + [Visit(k, g)])[..|vs|] == vs;
    assert (before + more)[..|before + more| - 1] == before + more[..|more| - 1];
  }

  /** Tries the group with the least key left. */
  method TryNext(m: map<Key, seq<Server>>, shuffle: seq<Server> -> seq<Server>, answers: nat -> Attempt,
                 todo: set<Key>, tried0: seq<Server>, ghost vs0: seq<Visit>, earliest0: Option<int>)
    returns (granted: Option<Server>, k: Key, tried: seq<Server>, earliest: Option<int>, ghost vs: seq<Visit>)
    requires forall g :: multiset(shuffle(g)) == multiset(g)
    requires todo != {} && AllRefused(m, answers, vs0, todo, tried0)
    ensures k in todo && Visited(m, vs, todo - {k}) && tried <= AllDuels(vs)
    ensures earliest0.None? ==> earliest.None?
    ensures granted.None? ==> AllRefused(m, answers, vs, todo - {k}, tried)
    ensures granted.Some? ==> tried != [] && granted.value == tried[|tried| - 1]
    ensures granted.Some? ==> answers(|tried| - 1).Granted? && NoGrants(answers, 0, |tried| - 1)
    ensures granted.Some? ==> GrantedInLast(vs, tried, granted.value)
  {
    LeftIsKnown(m, vs0, todo);
    var g;
    k, g := NextGroup(m, shuffle, todo);
    var more;
    granted, more, earliest := TryGroup(g, answers, |tried0|, earliest0);
    vs, tried := vs0 + [Visit(k, g)], tried0 + more;
    GroupTried(m, answers, vs0, todo, tried0, k, g, more, granted.Some?, vs, tried);
  }

  method NextGroup(m: map<Key, seq<Server>>, shuffle: seq<Server> -> seq<Server>, todo: set<Key>)
    returns (k: Key, g: seq<Server>)
    requires forall g :: multiset(shuffle(g)) == multiset(g)
    requires todo != {} && todo <= m.Keys
    ensures IsNext(m, todo, k, g)
  {
    k := LeastKey(todo);
    g := if |m[k]| == 1 then m[k] else shuffle(m[k]);
  }

  ghost predicate IsNext(m: map<Key, seq<Server>>, todo: set<Key>, k: Key, g: seq<Server>) {
    && k in todo && k in m && multiset(g) == multiset(m[k])
    && forall x | x in todo && x != k :: KeyLess(k, x)
  }

  /** One more group is tried, until its last or, with `granted`, its first grant. */
  lemma {:induction false} GroupTried(m: map<Key, seq<Server>>, answers: nat -> Attempt, vs: seq<Visit>, todo: set<Key>,
                                      tried: seq<Server>, k: Key, g: seq<Server>, more: seq<Server>, granted: bool,
                                      vs': seq<Visit>, tried': seq<Server>)
    requires AllRefused(m, answers, vs, todo, tried) && IsNext(m, todo, k, g) && more <= Duels(g)
    requires if granted then more != [] else more == Duels(g)
    requires NoGrants(answers, |tried|, |tried| + |more| - if granted then 1 else 0)
    requires vs' == vs + [Visit(k, g)] && tried' == tried + more
    ensures Visited(m, vs', todo - {k}) && tried' <= AllDuels(vs')
    ensures NoGrants(answers, 0, |tried'| - if granted then 1 else 0)
    ensures !granted ==> AllRefused(m, answers, vs', todo - {k}, tried')
    ensures granted ==> GrantedInLast(vs', tried', more[|more| - 1])
  {
    VisitedNext(m, vs, todo, Visit(k, g));
    NoGrantsJoin(answers, tried, more, granted);
    PrefixJoin(tried, more, Duels(g));
    if granted {
      LastGrants(vs, k, g, tried, more);
    }
  }

  /** Tries the groups in key order. `shuffle` stands for the random shuffle of a group. */
  method TryGroups(m: map<Key, seq<Server>>, shuffle: seq<Server> -> seq<Server>, answers: nat -> Attempt)
    returns (res: Open, tried: seq<Server>, ghost vs: seq<Visit>, ghost left: set<Key>)
    requires forall g :: multiset(shuffle(g)) == multiset(g)
    ensures Visited(m, vs, left) && tried <= AllDuels(vs)
    ensures !res.RetryAt? && !res.Failed?
    ensures res.Handle? ==> tried != [] && res.server == tried[|tried| - 1]
    ensures res.Handle? ==> answers(|tried| - 1).Granted? && NoGrants(answers, 0, |tried| - 1)
    ensures res.Handle? ==> GrantedInLast(vs, tried, res.server)
    ensures res.NotReady? ==> left == {} && tried == AllDuels(vs) && NoGrants(answers, 0, |tried|)
  {
    var todo := m.Keys;
    var earliest: Option<int> := None;
    tried, vs, left := [], [], todo;
    while todo != {}
      invariant earliest.None? && todo == left && AllRefused(m, answers, vs, todo, tried)
      decreases todo
    {
      var granted, k;
      granted, k, tried, earliest, vs := TryNext(m, shuffle, answers, todo, tried, vs, earliest);
      todo := todo - {k};
      left := todo;
      if granted.Some? {
        return Handle(granted.value), tried, vs, left;
      }
    }
    res := Conclude(earliest);
  }

  lemma {:induction false} PrefixJoin(a: seq<Server>, b: seq<Server>, c: seq<Server>)
    requires b <= c
    ensures a + b <= a + c
  {
  }

  lemma {:induction false} NoGrantsJoin(answers: nat -> Attempt, before: seq<Server>, more: seq<Server>,
                                        granted: bool)
    requires NoGrants(answers, 0, |before|)
    requires granted ==> more != []
    requires NoGrants(answers, |before|, |before| + |more| - if granted then 1 else 0)
    ensures NoGrants(answers, 0, |before + more| - if granted then 1 else 0)
  {
  }

  lemma {:induction false} NoRepeatsOnce(g: seq<Server>, s: Server)
    requires NoRepeats(g)
    ensures multiset(g)[s] <= 1
  {
    if g != [] {
      assert g == [g[0]] + g[1..];
      NoRepeatsOnce(g[1..], s);
    }
  }

  lemma {:induction false} ShuffledNoRepeats(g: seq<Server>, h: seq<Server>)
    requires NoRepeats(g) && multiset(g) == multiset(h)
    ensures NoRepeats(h)
  {
    forall i, j | 0 <= i < j < |h| ensures h[i] != h[j] {
      NoRepeatsOnce(g, h[i]);
      assert h == h[..j] + h[j..];
      assert h[i] in multiset(h[..j]);
      assert h[j] in multiset(h[j..]);
    }
  }

  lemma {:induction false} DuelsMembers(g: seq<Server>)
    ensures forall s | s in Duels(g) :: s in g
  {
    forall s | s in Duels(g) ensures s in g {
      var i :| 0 <= i < |g| && Duels(g)[i] == s;
    }
  }

  lemma {:induction false} SameMembers(g: seq<Server>, h: seq<Server>, s: Server)
    requires multiset(g) == multiset(h)
    ensures s in g <==> s in h
  {
    assert s in g <==> s in multiset(g);
  }

  /** Only candidates are tried. */
  lemma {:induction false} TriedAreCandidates(q: Query, cs: set<Server>, m: map<Key, seq<Server>>, vs: seq<Visit>,
                                              left: set<Key>, s: Server)
    requires Grouped(q, cs, m) && Visited(m, vs, left) && s in AllDuels(vs)
    ensures s in cs
    decreases |vs|
  {
    var n := |vs| - 1;
    if s in AllDuels(vs[..n]) {
      TriedAreCandidates(q, cs, m, vs[..n], left + {vs[n].key}, s);
    } else {
      DuelsMembers(vs[n].group);
      SameMembers(m[vs[n].key], vs[n].group, s);
    }
  }

  /** For an old range, servers of one tier with the same head form a group, where all heads from the consensus head on
      count as one; otherwise all servers do. */
  predicate SameGroup(q: Query, x: Server, y: Server) {
    q.consensus.Some? && Needed(q, q.consensus.value.headNum).Old? && x.head.Some? && y.head.Some? ==>
      var head := q.consensus.value.headNum;
      && x.tier == y.tier
      && (x.head.value.number == y.head.value.number || (x.head.value.number >= head && y.head.value.number >= head))
  }

  /** For an old range: of a lower tier, or of the same tier with a lower head that is below the consensus head. */
  predicate Sooner(q: Query, x: Server, y: Server) {
    && q.consensus.Some? && Needed(q, q.consensus.value.headNum).Old? && x.head.Some? && y.head.Some?
    && (|| x.tier < y.tier
        || (&& x.tier == y.tier && x.head.value.number < y.head.value.number
            && x.head.value.number < q.consensus.value.headNum))
  }

  lemma {:induction false} KeysMeanGroups(q: Query, x: Server, y: Server)
    requires x in Candidates(q) && y in Candidates(q)
    ensures KeyOf(q, x) == KeyOf(q, y) <==> SameGroup(q, x, y)
    ensures KeyLess(KeyOf(q, x), KeyOf(q, y)) <==> Sooner(q, x, y)
  {
  }

  /** No other server of its group is faster. */
  ghost predicate Fastest(q: Query, cs: set<Server>, s: Server) {
    s in cs && forall x | x in cs && SameGroup(q, x, s) :: s.latency <= x.latency
  }

  lemma {:induction false} FastestInGroup(q: Query, cs: set<Server>, m: map<Key, seq<Server>>, g: seq<Server>,
                                          s: Server)
    requires Grouped(q, cs, m) && cs <= Candidates(q)
    requires Fastest(q, cs, s) && multiset(g) == multiset(m[KeyOf(q, s)])
    ensures s in Duels(g)
  {
    var k := KeyOf(q, s);
    ShuffledNoRepeats(m[k], g);
    SameMembers(m[k], g, s);
    var j :| 0 <= j < |g| && g[j] == s;
    forall x | 0 <= x < |g| ensures s.latency <= g[x].latency {
      SameMembers(m[k], g, g[x]);
      KeysMeanGroups(q, g[x], s);
    }
    TriedInGroup(g, j);
  }

  lemma {:induction false} FastestIsTried(q: Query, cs: set<Server>, m: map<Key, seq<Server>>, vs: seq<Visit>,
                                          left: set<Key>, s: Server)
    requires Grouped(q, cs, m) && cs <= Candidates(q) && Visited(m, vs, left)
    requires Fastest(q, cs, s) && KeyOf(q, s) !in left
    ensures s in AllDuels(vs)
    decreases |vs|
  {
    if vs != [] {
      var n := |vs| - 1;
      if vs[n].key == KeyOf(q, s) {
        FastestInGroup(q, cs, m, vs[n].group, s);
      } else {
        FastestIsTried(q, cs, m, vs[..n], left + {vs[n].key}, s);
      }
    }
  }

  /** `tried` are the duel winners of the shuffled groups, in order of the keys; with `all`, of all groups. */
  ghost predicate Trial(q: Query, m: map<Key, seq<Server>>, vs: seq<Visit>, left: set<Key>, tried: seq<Server>,
                        all: bool)
  {
    && Grouped(q, Candidates(q), m) && Visited(m, vs, left) && tried <= AllDuels(vs)
    && (all ==> left == {} && tried == AllDuels(vs))
  }

  ghost predicate TriedDuels(q: Query, tried: seq<Server>, all: bool) {
    exists m, vs, left :: Trial(q, m, vs, left, tried, all)
  }

  /** Before the last of `tried`, a fastest candidate of every group that comes sooner than `s` was asked. */
  ghost predicate SoonerAsked(q: Query, tried: seq<Server>, s: Server) {
    tried != [] && forall x | Fastest(q, Candidates(q), x) && Sooner(q, x, s) :: x in tried[..|tried| - 1]
  }

  lemma {:induction false} SoonerIsAsked(q: Query, m: map<Key, seq<Server>>, vs: seq<Visit>, left: set<Key>,
                                         tried: seq<Server>, s: Server, x: Server)
    requires Grouped(q, Candidates(q), m) && Visited(m, vs, left) && GrantedInLast(vs, tried, s)
    requires s in Candidates(q) && Fastest(q, Candidates(q), x) && Sooner(q, x, s)
    ensures x in tried[..|tried| - 1]
  {
    var n := |vs| - 1;
    var last := vs[n];
    SameMembers(m[last.key], last.group, s);
    KeysMeanGroups(q, x, s);
    assert KeyLess(KeyOf(q, x), last.key) && KeyOf(q, x) !in left;
    FastestIsTried(q, Candidates(q), m, vs[..n], left + {last.key}, x);
  }

  /** Picks a server for a request. Every server handed out is a candidate, and a fastest one of every sooner group was
      asked before and refused; if none can be had, a fastest candidate of
      every group was asked. A time to retry at is never reported, because the earliest time starts at `None` and `min`
      keeps it there. */
  method BestAvailableRpc(q: Query, shuffle: seq<Server> -> seq<Server>, answers: nat -> Attempt)
    returns (res: Open, tried: seq<Server>)
    requires forall g :: multiset(shuffle(g)) == multiset(g)
    requires q.consensus.Some? ==> NoRepeats(q.consensus.value.rpcs)
    ensures !res.RetryAt?
    ensures res.Failed? <==> q.consensus.Some? && Needed(q, q.consensus.value.headNum).Malformed?
    ensures forall s | s in tried :: s in Candidates(q)
    ensures res.Handle? ==> tried != [] && res.server == tried[|tried| - 1] && res.server in Candidates(q)
    ensures res.Handle? ==> answers(|tried| - 1).Granted? && NoGrants(answers, 0, |tried| - 1)
    ensures res.Handle? ==> SoonerAsked(q, tried, res.server)
    ensures res.NotReady? ==> NoGrants(answers, 0, |tried|) && forall s | Fastest(q, Candidates(q), s) :: s in tried
    ensures !res.Failed? ==> TriedDuels(q, tried, res.NotReady?)
  {
    tried := [];
    if q.consensus.None? {
      assert Trial(q, map[], [], {}, tried, true);
      return NotReady, tried;
    }
    var ok, m := GroupCandidates(q);
    if !ok {
      return Failed, tried;
    }
    ghost var vs, left;
    res, tried, vs, left := TryGroups(m, shuffle, answers);
    forall s | s in tried ensures s in Candidates(q) {
      TriedAreCandidates(q, Candidates(q), m, vs, left, s);
    }
    assert Trial(q, m, vs, left, tried, res.NotReady?);
    if res.Handle? {
      forall x | Fastest(q, Candidates(q), x) && Sooner(q, x, res.server) ensures x in tried[..|tried| - 1] {
        SoonerIsAsked(q, m, vs, left, tried, res.server, x);
      }
    }
    if res.NotReady? {
      forall s | Fastest(q, Candidates(q), s) ensures s in tried {
        FastestIsTried(q, Candidates(q), m, vs, left, s);
      }
    }
  }

  /** The blocks a request asks for: all between both ends, or the one end that is given. */
  predicate Wanted(q: Query, n: nat) {
    match (q.min, q.max)
    case (None, None) => false
    case (None, Some(max)) => n == max
    case (Some(min), None) => n == min
    case (Some(min), Some(max)) => min <= n <= max
  }

  /** Nothing is asked for, or old blocks, or the server's own head is past the end of the range and the server keeps
      blocks down to the consensus head. */
  predicate Covers(q: Query, s: Server, depth: nat)
    requires q.consensus.Some?
  {
    var head := q.consensus.value.headNum;
    || (q.min.None? && q.max.None?)
    || Needed(q, head).Old?
    || (s.head.Some? && (if q.max.Some? then q.max.value else q.min.value) <= s.head.value.number <= head + depth)
  }

  lemma {:induction false} EndsAreKept(q: Query, s: Server, depth: nat)
    requires s in Candidates(q) && Needed(q, q.consensus.value.headNum).Old?
    requires s.head.Some? ==> BlockData.Sound(depth, s.head.value.number, s.dataLimit)
    ensures s.head.Some? && (q.max.Some? ==> BlockData.Keeps(depth, s.head.value.number, q.max.value))
    ensures q.min.Some? ==> BlockData.Keeps(depth, s.head.value.number, q.min.value)
  {
  }

  /** For every kind of range: a server handed out was not skipped and, where its data limit is sound, holds every block
      asked for exactly when it covers the range. An old range is always covered. */
  lemma {:induction false} HandedOutHoldsIff(q: Query, s: Server, depth: nat)
    requires s in Candidates(q) && (s.head.Some? ==> BlockData.Sound(depth, s.head.value.number, s.dataLimit))
    ensures s.name !in q.skip
    ensures (forall n: nat | Wanted(q, n) :: s.head.Some? && BlockData.Keeps(depth, s.head.value.number, n))
            <==> Covers(q, s, depth)
  {
    if Needed(q, q.consensus.value.headNum).Old? {
      EndsAreKept(q, s, depth);
    } else if q.max.Some? {
      assert Wanted(q, q.max.value) && Wanted(q, q.consensus.value.headNum);
    } else if q.min.Some? {
      assert Wanted(q, q.min.value);
    }
  }

  /** A range from the consensus head to beyond it is handed to every server of the consensus, though none that is on
      the consensus head has the end of it. */
  lemma {:induction false} BeyondHeadIsHandedOut(q: Query, c: Consensus, s: Server, depth: nat)
    requires q.consensus == Some(c) && s in c.rpcs && s.name !in q.skip
    requires q.min == Some(c.headNum) && q.max.Some? && q.max.value > c.headNum
    requires s.head.Some? && s.head.value.number == c.headNum
    ensures s in Candidates(q) && Wanted(q, q.max.value) && !BlockData.Keeps(depth, s.head.value.number, q.max.value)
  {
  }

  /** The age filter subtracts the allowed age from that of the consensus head, so for an old range it rejects a server
      that sits on that head and holds both ends, unless no age or an age of zero is configured or the head is new. */
  lemma {:induction false} HeadServerEligibleIff(q: Query, c: Consensus, s: Server)
    requires q.consensus == Some(c) && s in q.byName && s.name !in q.skip
    requires s.head == Some(Head(c.headNum, c.headAge)) && Needed(q, c.headNum).Old?
    requires (q.min.Some? ==> s.Has(q.min.value)) && (q.max.Some? ==> s.Has(q.max.value))
    ensures s in Candidates(q) <==> q.maxBlockAge.None? || q.maxBlockAge.value == 0 || c.headAge == 0
  {
  }

  // ----- the retry loop -----

  datatype Reply = Success(text: string) | JsonError(code: int, message: string) | Broken

  predicate StartsWith(s: string, prefix: string) { prefix <= s }

  predicate EndsWith(s: string, suffix: string) { |suffix| <= |s| && s[|s| - |suffix|..] == suffix }

  /** The one json error that is tried on another server: the method is unknown to this one. The checks for rate limit
      and missing header messages only continue their own inner loops, so those errors are returned. */
  predicate Unsupported(r: Reply) {
    r.JsonError? && r.code == -32601
    && ((StartsWith(r.message, "the method") && EndsWith(r.message, "is not available"))
        || r.message == "Method not found")
  }

  /** A reply that is passed on; `unsupported` tells the json errors that are not. */
  predicate Final(unsupported: Reply -> bool, r: Reply) { !r.Broken? && !unsupported(r) }

  /** The two parts of the message cannot overlap. */
  lemma {:induction false} PartsAreApart(m: string)
    requires StartsWith(m, "the method") && EndsWith(m, "is not available")
    ensures |m| >= 26
  {
    var a, b := "the method", "is not available";
    assert a == ['t', 'h', 'e', ' ', 'm', 'e', 't', 'h', 'o', 'd'];
    assert forall j | 0 <= j < 10 :: m[j] == a[j] && m[j] != 'i';
    assert m[|m| - 16..][0] == b[0] == 'i';
  }

  lemma {:induction false} MessageIff(m: string)
    ensures StartsWith(m, "the method") && EndsWith(m, "is not available")
            <==> exists x :: m == "the method" + x + "is not available"
  {
    var a, b := "the method", "is not available";
    assert |a| == 10 && |b| == 16;
    if StartsWith(m, a) && EndsWith(m, b) {
      PartsAreApart(m);
      assert m == a + m[10..|m| - 16] + b;
    }
    if x :| m == a + x + b {
      assert m == (a + x) + b && m[|m| - 16..] == b && m[..10] == a;
    }
  }

  /** Which replies are passed on: every success, and every json error except the two messages about an unknown method
      under their code; a broken request never is. */
  lemma {:induction false} FinalIff(r: Reply)
    ensures Final(Unsupported, r) <==>
              match r
              case Success(_) => true
              case Broken => false
              case JsonError(code, m) =>
                !(code == -32601
                  && (m == "Method not found" || exists x :: m == "the method" + x + "is not available"))
  {
    if r.JsonError? {
      MessageIff(r.message);
    }
  }

  datatype Sent = Answered(reply: Reply) | BadRange | DataNotAvailable

  function Names(ss: seq<Server>): (ns: seq<string>)
    ensures |ns| == |ss|
  {
    seq(|ss|, i requires 0 <= i < |ss| => ss[i].name)
  }

  /** Everything outside the loop that one round meets; `known` is the number of servers registered when it begins. */
  datatype Round = Round(
    query: Query, known: nat, shuffle: seq<Server> -> seq<Server>, answers: nat -> Attempt, reply: Reply)

  ghost predicate RoundValid(r: Round) {
    && (forall g :: multiset((r.shuffle)(g)) == multiset(g))
    && (r.query.consensus.Some? ==> NoRepeats(r.query.consensus.value.rpcs))
  }

  ghost predicate MalformedRange(q: Query) { q.consensus.Some? && Needed(q, q.consensus.value.headNum).Malformed? }

  /** The last of the duel winners `tried` is the first to grant a handle. */
  ghost predicate HandedAfter(q: Query, answers: nat -> Attempt, tried: seq<Server>, s: Server) {
    && tried != [] && s == tried[|tried| - 1] && s in Candidates(q)
    && answers(|tried| - 1).Granted? && NoGrants(answers, 0, |tried| - 1) && TriedDuels(q, tried, false)
    && SoonerAsked(q, tried, s)
  }

  /** `tried` are all duel winners and none grants a handle; every fastest candidate is among them. */
  ghost predicate NoneHanded(q: Query, answers: nat -> Attempt, tried: seq<Server>) {
    && NoGrants(answers, 0, |tried|) && TriedDuels(q, tried, true)
    && forall s | Fastest(q, Candidates(q), s) :: s in tried
  }

  /** Each server was handed out given those before it. */
  ghost predicate InTurn(handed: (seq<Server>, Server) -> bool, sent: seq<Server>) {
    sent == [] || (var n := |sent| - 1; handed(sent[..n], sent[n]) && InTurn(handed, sent[..n]))
  }

  lemma {:induction false} InTurnNext(handed: (seq<Server>, Server) -> bool, sent: seq<Server>, s: Server)
    requires InTurn(handed, sent) && handed(sent, s)
    ensures InTurn(handed, sent + [s])
  {
    assert (sent + [s])[..|sent|] == sent;
  }

  lemma {:induction false} InTurnDistinct(handed: (seq<Server>, Server) -> bool, sent: seq<Server>)
    requires InTurn(handed, sent) && forall before, s | handed(before, s) :: s.name !in Names(before)
    ensures DistinctNames(sent)
  {
    if sent != [] {
      var n := |sent| - 1;
      InTurnDistinct(handed, sent[..n]);
      forall i | 0 <= i < n ensures sent[i].name != sent[n].name {
        assert Names(sent[..n])[i] == sent[i].name;
      }
    }
  }

  /** The server handed out in the round after requests to the servers `before`, fewer than are then registered. */
  ghost function HandedIn(rounds: nat -> Round): (seq<Server>, Server) -> bool {
    (before: seq<Server>, s: Server) =>
      |before| < rounds(|before|).known &&
      exists tried :: HandedAfter(QueryAfter(rounds, before), rounds(|before|).answers, tried, s)
  }

  /** Each server was handed out in its round, given the servers sent to before. */
  ghost predicate SentInTurn(rounds: nat -> Round, sent: seq<Server>) { InTurn(HandedIn(rounds), sent) }

  /** The query of the next round after requests to `sent`. */
  ghost function QueryAfter(rounds: nat -> Round, sent: seq<Server>): Query {
    rounds(|sent|).query.(skip := Names(sent))
  }

  ghost predicate NoneFinal(unsupported: Reply -> bool, rounds: nat -> Round, n: nat) {
    forall i: nat | i < n :: !Final(unsupported, rounds(i).reply)
  }

  /** The answer after requests to `sent`: the last reply if it is final. Otherwise as many servers were sent to as are
      registered now, or the next range is malformed, or nothing was handed out in the next round. */
  ghost predicate Concludes(unsupported: Reply -> bool, rounds: nat -> Round, sent: seq<Server>, res: Sent) {
    var n := |sent|;
    && (n > 0 ==> NoneFinal(unsupported, rounds, n - 1))
    && if n > 0 && Final(unsupported, rounds(n - 1).reply) then res == Answered(rounds(n - 1).reply)
       else if n < rounds(n).known && MalformedRange(QueryAfter(rounds, sent)) then res == BadRange
       else
         && res == LastUnsupported(unsupported, rounds, n)
         && (n < rounds(n).known ==>
               exists tried :: NoneHanded(QueryAfter(rounds, sent), rounds(n).answers, tried))
  }

  ghost predicate DistinctNames(ss: seq<Server>) { forall i, j | 0 <= i < j < |ss| :: ss[i].name != ss[j].name }

  lemma {:induction false} NamesNext(ss: seq<Server>, s: Server)
    ensures Names(ss + [s]) == Names(ss) + [s.name]
  {
  }

  lemma {:induction false} SentNext(rounds: nat -> Round, sent: seq<Server>, s: Server, tried: seq<Server>)
    requires SentInTurn(rounds, sent) && |sent| < rounds(|sent|).known
    requires HandedAfter(QueryAfter(rounds, sent), rounds(|sent|).answers, tried, s)
    ensures SentInTurn(rounds, sent + [s])
  {
    InTurnNext(HandedIn(rounds), sent, s);
  }

  lemma {:induction false} HandedIsNew(rounds: nat -> Round, before: seq<Server>, s: Server)
    requires HandedIn(rounds)(before, s)
    ensures s.name !in Names(before)
  {
    var q := QueryAfter(rounds, before);
    var tried :| HandedAfter(q, rounds(|before|).answers, tried, s);
    NotSkipped(q, s);
  }

  /** No server is sent the request twice. */
  lemma {:induction false} SentToDistinct(rounds: nat -> Round, sent: seq<Server>)
    requires SentInTurn(rounds, sent)
    ensures DistinctNames(sent)
  {
    forall before, s | HandedIn(rounds)(before, s) ensures s.name !in Names(before) {
      HandedIsNew(rounds, before, s);
    }
    InTurnDistinct(HandedIn(rounds), sent);
  }

  /** One round: a server for the request, given the servers sent to before. */
  method NextServer(rounds: nat -> Round, sent: seq<Server>, skip: seq<string>)
    returns (open: Open)
    requires RoundValid(rounds(|sent|)) && skip == Names(sent) && SentInTurn(rounds, sent)
    requires |sent| < rounds(|sent|).known
    ensures !open.RetryAt? && (open.Failed? <==> MalformedRange(QueryAfter(rounds, sent)))
    ensures open.NotReady? ==> exists tried :: NoneHanded(QueryAfter(rounds, sent), rounds(|sent|).answers, tried)
    ensures open.Handle? ==> SentInTurn(rounds, sent + [open.server])
  {
    var round := rounds(|sent|);
    var q := round.query.(skip := skip);
    var tried;
    open, tried := BestAvailableRpc(q, round.shuffle, round.answers);
    if open.Handle? {
      SentNext(rounds, sent, open.server, tried);
    } else if open.NotReady? {
      assert NoneHanded(q, round.answers, tried);
    }
  }

  /** The loop's state before a round: no final reply so far. */
  ghost predicate Sending(unsupported: Reply -> bool, rounds: nat -> Round, sent: seq<Server>, skip: seq<string>,
                          saved: Sent)
  {
    && skip == Names(sent) && saved == LastUnsupported(unsupported, rounds, |sent|)
    && NoneFinal(unsupported, rounds, |sent|)
  }

  /** What the reply of one more server makes of that state. */
  lemma {:induction false} ReplyNext(unsupported: Reply -> bool, rounds: nat -> Round, sent: seq<Server>,
                                     skip: seq<string>, saved: Sent, s: Server, reply: Reply)
    requires Sending(unsupported, rounds, sent, skip, saved) && reply == rounds(|sent|).reply
    ensures Final(unsupported, reply) ==> Concludes(unsupported, rounds, sent + [s], Answered(reply))
    ensures !Final(unsupported, reply) ==>
              Sending(unsupported, rounds, sent + [s], skip + [s.name],
                      if reply.Broken? then saved else Answered(reply))
  {
    NamesNext(sent, s);
  }

  /** One turn of the loop below; `res` is its answer if this turn ends it. */
  method SendOne(rounds: nat -> Round, unsupported: Reply -> bool, sent0: seq<Server>, skip0: seq<string>, saved0: Sent)
    returns (res: Option<Sent>, sent: seq<Server>, skip: seq<string>, saved: Sent)
    requires RoundValid(rounds(|sent0|)) && |sent0| < rounds(|sent0|).known && SentInTurn(rounds, sent0)
    requires Sending(unsupported, rounds, sent0, skip0, saved0)
    ensures |sent| <= |sent0| + 1 && SentInTurn(rounds, sent)
    ensures res.None? ==> |sent| == |sent0| + 1 && Sending(unsupported, rounds, sent, skip, saved)
    ensures res.Some? ==> Concludes(unsupported, rounds, sent, res.value)
  {
    res, sent, skip, saved := None, sent0, skip0, saved0;
    var reply := rounds(|sent|).reply;
    var open := NextServer(rounds, sent, skip);
    if open.Failed? {
      return Some(BadRange), sent, skip, saved;
    }
    if open.NotReady? {
      return Some(saved), sent, skip, saved;
    }
    ReplyNext(unsupported, rounds, sent, skip, saved, open.server, reply);
    sent, skip := sent + [open.server], skip + [open.server.name];
    if !reply.Broken? {
      if !unsupported(reply) {
        return Some(Answered(reply)), sent, skip, saved;
      }
      saved := Answered(reply);
    }
  }

  method SendRounds(rounds: nat -> Round, unsupported: Reply -> bool, ghost last: nat)
    returns (res: Sent, sent: seq<Server>)
    requires (forall i: nat :: RoundValid(rounds(i))) && rounds(last).known <= last
    ensures |sent| <= last && SentInTurn(rounds, sent)
    ensures Concludes(unsupported, rounds, sent, res)
  {
    var skip: seq<string>, saved: Sent := [], DataNotAvailable;
    sent := [];
    while |skip| < rounds(|sent|).known
      invariant |sent| <= last && SentInTurn(rounds, sent) && Sending(unsupported, rounds, sent, skip, saved)
      decreases last - |sent|
    {
      assert RoundValid(rounds(|sent|)) && |sent| != last;
      var answer;
      answer, sent, skip, saved := SendOne(rounds, unsupported, sent, skip, saved);
      if answer.Some? {
        return answer.value, sent;
      }
    }
    res := saved;
  }

  /** Sends the request to one server after another until one answers it, never twice to one, and only while fewer were
      sent to than are registered. It is enough for an end that in some round `last` no more than `last` servers are
      registered. The answer is the first final one; only when no server is left, or none could be had, it is the last
      complaint about an unknown method. */
  method TrySendBest(rounds: nat -> Round, ghost last: nat) returns (res: Sent, sent: seq<Server>)
    requires (forall i: nat :: RoundValid(rounds(i))) && rounds(last).known <= last
    ensures |sent| <= last && SentInTurn(rounds, sent) && DistinctNames(sent)
    ensures Concludes(Unsupported, rounds, sent, res)
  {
    res, sent := SendRounds(rounds, Unsupported, last);
    SentToDistinct(rounds, sent);
  }

  lemma {:induction false} NotSkipped(q: Query, s: Server)
    requires s in Candidates(q)
    ensures s.name !in q.skip
  {
  }

  function LastUnsupported(unsupported: Reply -> bool, rounds: nat -> Round, n: nat): Sent {
    if n == 0 then DataNotAvailable
    else if !rounds(n - 1).reply.Broken? && unsupported(rounds(n - 1).reply) then Answered(rounds(n - 1).reply)
    else LastUnsupported(unsupported, rounds, n - 1)
  }

  lemma {:induction false} NotFinal(rounds: nat -> Round, n: nat)
    requires NoneFinal(Unsupported, rounds, n)
    ensures forall i: nat | i < n :: Rejected(Unsupported, rounds(i).reply)
  {
    forall i: nat | i < n ensures Rejected(Unsupported, rounds(i).reply) {
      assert !Final(Unsupported, rounds(i).reply);
    }
  }

  predicate Rejected(unsupported: Reply -> bool, r: Reply) { r.Broken? || (r.JsonError? && unsupported(r)) }

  /** Reply `i` is the last json error before `n`. */
  ghost predicate LastJsonError(rounds: nat -> Round, n: nat, i: nat) {
    i < n && rounds(i).reply.JsonError? && forall j: nat | i < j < n :: rounds(j).reply.Broken?
  }

  lemma {:induction false} LastRejected(unsupported: Reply -> bool, rounds: nat -> Round, n: nat)
    requires forall i: nat | i < n :: Rejected(unsupported, rounds(i).reply)
    ensures var res := LastUnsupported(unsupported, rounds, n);
      && (res.DataNotAvailable? <==> forall i: nat | i < n :: rounds(i).reply.Broken?)
      && (!res.DataNotAvailable? ==> exists i: nat :: LastJsonError(rounds, n, i) && res == Answered(rounds(i).reply))
  {
    if n > 0 {
      assert Rejected(unsupported, rounds(n - 1).reply);
      if !rounds(n - 1).reply.Broken? {
        assert LastJsonError(rounds, n, n - 1);
      } else {
        LastRejected(unsupported, rounds, n - 1);
        forall i: nat | LastJsonError(rounds, n - 1, i) ensures LastJsonError(rounds, n, i) {
        }
      }
    }
  }

  /** Without a final reply the answer is the last json error received, and that data is not available only if there was
      none. */
  lemma {:induction false} LastComplaint(rounds: nat -> Round, n: nat)
    requires NoneFinal(Unsupported, rounds, n)
    ensures var res := LastUnsupported(Unsupported, rounds, n);
      && (res.DataNotAvailable? <==> forall i: nat | i < n :: rounds(i).reply.Broken?)
      && (!res.DataNotAvailable? ==>
            exists i: nat :: LastJsonError(rounds, n, i) && res == Answered(rounds(i).reply))
  {
    NotFinal(rounds, n);
    LastRejected(Unsupported, rounds, n);
  }
}

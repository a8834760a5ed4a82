/** Sending one request to many servers: which handles are collected, and the vote over their answers. */
module Broadcast {
  import opened Options
  import opened Chain
  import opened ServerSelection
  import ResponseVote

  /** Sort key: highest head first, then lower tier, then no backup, then less load. No head counts as block zero. */
  predicate NotAfter(a: Server, b: Server) {
    var x, y := HeadNumber(a), HeadNumber(b);
    || x > y
    || (x == y && a.tier < b.tier)
    || (x == y && a.tier == b.tier && !a.backup && b.backup)
    || (x == y && a.tier == b.tier && a.backup == b.backup && a.load <= b.load)
  }

  function HeadNumber(s: Server): nat { if s.head.None? then 0 else s.head.value.number }

  ghost predicate Sorted(ss: seq<Server>) { forall i, j | 0 <= i < j < |ss| :: NotAfter(ss[i], ss[j]) }

  /** The stable sort by that key. */
  function SortByStatus(ss: seq<Server>): seq<Server> {
    if ss == [] then [] else Place(ss[0], SortByStatus(ss[1..]))
  }

  function Place(s: Server, ss: seq<Server>): seq<Server> {
    if ss == [] || NotAfter(s, ss[0]) then [s] + ss else [ss[0]] + Place(s, ss[1..])
  }

  lemma {:induction false} PlaceMembers(s: Server, ss: seq<Server>)
    ensures multiset(Place(s, ss)) == multiset(ss) + multiset{s}
    ensures forall x | x in Place(s, ss) :: x == s || x in ss
  {
    if !(ss == [] || NotAfter(s, ss[0])) {
      PlaceMembers(s, ss[1..]);
      assert ss == [ss[0]] + ss[1..];
    }
  }

  lemma {:induction false} PlaceSorted(s: Server, ss: seq<Server>)
    requires Sorted(ss)
    ensures Sorted(Place(s, ss))
  {
    if ss != [] {
      if NotAfter(s, ss[0]) {
        forall i | 0 <= i < |ss| ensures NotAfter(s, ss[i]) {
          assert i > 0 ==> NotAfter(ss[0], ss[i]);
        }
      } else {
        PlaceSorted(s, ss[1..]);
        PlaceMembers(s, ss[1..]);
        var rest := Place(s, ss[1..]);
        forall i | 0 <= i < |rest| ensures NotAfter(ss[0], rest[i]) {
          assert rest[i] in rest;
        }
      }
    }
  }

  lemma {:induction false} SortByStatusSorts(ss: seq<Server>)
    ensures Sorted(SortByStatus(ss)) && multiset(SortByStatus(ss)) == multiset(ss)
  {
    if ss != [] {
      SortByStatusSorts(ss[1..]);
      PlaceSorted(ss[0], SortByStatus(ss[1..]));
      PlaceMembers(ss[0], SortByStatus(ss[1..]));
      assert ss == [ss[0]] + ss[1..];
    }
  }

  /** The sorted order in plain terms: higher heads first, then lower tiers, then servers that are no backups, then less
      load; no head counts as block zero. */
  lemma {:induction false} SortedMeans(ss: seq<Server>, i: nat, j: nat)
    requires i < j < |ss|
    ensures var sorted := SortByStatus(ss);
      && |sorted| == |ss|
      && var a, b := sorted[i], sorted[j];
         var x, y := if a.head.Some? then a.head.value.number else 0, if b.head.Some? then b.head.value.number else 0;
         && x >= y
         && (x == y ==> a.tier <= b.tier)
         && (x == y && a.tier == b.tier && a.backup ==> b.backup)
         && (x == y && a.tier == b.tier && a.backup == b.backup ==> a.load <= b.load)
  {
    SortByStatusSorts(ss);
    var sorted := SortByStatus(ss);
    assert |sorted| == |multiset(sorted)| == |multiset(ss)| == |ss|;
    assert NotAfter(sorted[i], sorted[j]);
  }

  /** The servers that sort like `k`. */
  function Like(ss: seq<Server>, k: Server): seq<Server> {
    if ss == [] then []
    else (if NotAfter(ss[0], k) && NotAfter(k, ss[0]) then [ss[0]] else []) + Like(ss[1..], k)
  }

  lemma {:induction false} PlaceIsStable(s: Server, ss: seq<Server>, k: Server)
    ensures Like(Place(s, ss), k) == Like([s] + ss, k)
  {
    assert ([s] + ss)[1..] == ss;
    if ss != [] && !NotAfter(s, ss[0]) {
      var rest := Place(s, ss[1..]);
      PlaceIsStable(s, ss[1..], k);
      assert ([s] + ss[1..])[1..] == ss[1..];
      assert ([ss[0]] + rest)[1..] == rest;
    }
  }

  /** Servers that sort alike keep their order. */
  lemma {:induction false} SortIsStable(ss: seq<Server>, k: Server)
    ensures Like(SortByStatus(ss), k) == Like(ss, k)
  {
    if ss != [] {
      SortIsStable(ss[1..], k);
      PlaceIsStable(ss[0], SortByStatus(ss[1..]), k);
      assert ([ss[0]] + SortByStatus(ss[1..]))[1..] == SortByStatus(ss[1..]);
    }
  }

  function NameSet(ss: seq<Server>): set<string> { set s | s in ss :: s.name }

  /** The servers of `ss` that are neither in `seen` nor named earlier. */
  function Unseen(ss: seq<Server>, seen: set<string>): seq<Server> {
    if ss == [] then []
    else if ss[0].name in seen then Unseen(ss[1..], seen)
    else [ss[0]] + Unseen(ss[1..], seen + {ss[0].name})
  }

  datatype Request = Request(min: Option<nat>, max: Option<nat>, maxCount: Option<nat>, allowBackups: bool)

  predicate Passes(req: Request, s: Server) {
    && (req.allowBackups || !s.backup)
    && (req.min.Some? ==> s.Has(req.min.value))
    && (req.max.Some? ==> s.Has(req.max.value))
  }

  /** Those of the tried servers that pass the filters and grant a handle. */
  function Granting(req: Request, opens: string -> Attempt, tried: seq<Server>): seq<Server> {
    if tried == [] then []
    else
      var s := tried[|tried| - 1];
      Granting(req, opens, tried[..|tried| - 1]) + if Passes(req, s) && opens(s.name).Granted? then [s] else []
  }

  /** The order in which servers are considered: synced ones first, each part sorted by status. */
  function Order(synced: seq<Server>, known: seq<Server>): seq<Server> {
    SortByStatus(synced) + SortByStatus(known)
  }

  function Limit(req: Request, known: seq<Server>): nat {
    if req.maxCount.Some? then req.maxCount.value else |known|
  }

  datatype Connections = Connected(handles: seq<Server>) | RetryLater(at: Option<int>)

  /** Collects handles until `maxCount` of them are granted. An empty collection is never handed out: without any handle
      it answers with a time to retry at, which is always `None`. */
  method AllConnections(req: Request, synced: seq<Server>, known: seq<Server>, opens: string -> Attempt)
    returns (res: Connections, ghost tried: seq<Server>)
    ensures tried <= Unseen(Order(synced, known), {})
    ensures var handles := Granting(req, opens, tried);
      var asked := if req.maxCount.Some? then req.maxCount.value else |known|;
      && res == (if handles == [] then RetryLater(None) else Connected(handles))
      && |handles| <= asked
      && (|handles| < asked ==> tried == Unseen(Order(synced, known), {}))
    ensures res.Connected? ==> forall s | s in res.handles :: Suits(req, s) && opens(s.name).Granted?
  {
    var selected, retryAt;
    selected, retryAt, tried := Collect(req, Order(synced, known), Limit(req, known), opens);
    res := if selected == [] then RetryLater(retryAt) else Connected(selected);
    GrantingSuits(req, opens, tried);
  }

  /** The loop's state: `tried` are the servers considered so far and `rest` those still ahead. */
  ghost predicate Collecting(req: Request, order: seq<Server>, opens: string -> Attempt, rest: seq<Server>,
                             seen: set<string>, tried: seq<Server>, selected: seq<Server>)
  {
    selected == Granting(req, opens, tried) && Unseen(order, {}) == tried + Unseen(rest, seen)
  }

  lemma {:induction false} CollectingNext(req: Request, order: seq<Server>, opens: string -> Attempt, i: nat,
                                          seen: set<string>, tried: seq<Server>, selected: seq<Server>)
    requires i < |order| && Collecting(req, order, opens, order[i..], seen, tried, selected)
    ensures var s := order[i];
      if s.name in seen then Collecting(req, order, opens, order[i + 1..], seen, tried, selected)
      else Collecting(req, order, opens, order[i + 1..], seen + {s.name}, tried + [s],
                      selected + if Passes(req, s) && opens(s.name).Granted? then [s] else [])
  {
    UnseenStep(order, i, seen);
    GrantingStep(req, opens, tried, order[i]);
    if order[i].name !in seen {
      Shift(tried, order[i], Unseen(order[i + 1..], seen + {order[i].name}));
    }
  }

  lemma {:induction false} Shift(a: seq<Server>, s: Server, b: seq<Server>)
    ensures a + ([s] + b) == a + [s] + b
  {
  }

  /** Asks one server for a handle; answers whether it is granted. */
  method OpenOne(req: Request, rpc: Server, opens: string -> Attempt, retryAt0: Option<int>)
    returns (granted: bool, retryAt: Option<int>)
    ensures granted <==> Passes(req, rpc) && opens(rpc.name).Granted?
    ensures retryAt0.None? ==> retryAt.None?
  {
    granted, retryAt := false, retryAt0;
    if Passes(req, rpc) {
      match opens(rpc.name) {
        case Limited(at) => retryAt := MinOption(retryAt, Some(at));
        case Granted => granted := true;
        case Unready =>
        case Refused =>
      }
    }
  }

  method Collect(req: Request, order: seq<Server>, limit: nat, opens: string -> Attempt)
    returns (selected: seq<Server>, retryAt: Option<int>, ghost tried: seq<Server>)
    ensures tried <= Unseen(order, {}) && selected == Granting(req, opens, tried)
    ensures |selected| <= limit && (|selected| < limit ==> tried == Unseen(order, {}))
    ensures retryAt == None
  {
    var maxCount := limit;
    var triedNames: set<string> := {};
    selected, retryAt, tried := [], None, [];
    var i := 0;
    while i < |order| && maxCount > 0
      invariant 0 <= i <= |order| && retryAt.None? && |selected| + maxCount == limit
      invariant Collecting(req, order, opens, order[i..], triedNames, tried, selected)
    {
      var rpc := order[i];
      CollectingNext(req, order, opens, i, triedNames, tried, selected);
      i := i + 1;
      if rpc.name !in triedNames {
        triedNames, tried := triedNames + {rpc.name}, tried + [rpc];
        var granted;
        granted, retryAt := OpenOne(req, rpc, opens, retryAt);
        if granted {
          maxCount := maxCount - 1;
          selected := selected + [rpc];
        } else {
          assert selected + [] == selected;
        }
      }
    }
    if |selected| < limit {
      assert order[i..] == [];
    }
  }

  lemma {:induction false} UnseenStep(order: seq<Server>, i: nat, seen: set<string>)
    requires i < |order|
    ensures Unseen(order[i..], seen) == if order[i].name in seen then Unseen(order[i + 1..], seen)
                                        else [order[i]] + Unseen(order[i + 1..], seen + {order[i].name})
  {
    assert order[i..][1..] == order[i + 1..];
  }

  lemma {:induction false} GrantingStep(req: Request, opens: string -> Attempt, tried: seq<Server>, s: Server)
    ensures Granting(req, opens, tried + [s]) ==
            Granting(req, opens, tried) + if Passes(req, s) && opens(s.name).Granted? then [s] else []
  {
    assert (tried + [s])[..|tried|] == tried;
  }

  lemma {:induction false} UnseenMembers(ss: seq<Server>, seen: set<string>)
    ensures DistinctNames(Unseen(ss, seen))
    ensures forall s | s in Unseen(ss, seen) :: s in ss && s.name !in seen
    ensures forall s | s in ss :: s.name in seen || s.name in NameSet(Unseen(ss, seen))
  {
    if ss != [] {
      if ss[0].name in seen {
        UnseenMembers(ss[1..], seen);
      } else {
        var rest := Unseen(ss[1..], seen + {ss[0].name});
        UnseenMembers(ss[1..], seen + {ss[0].name});
        assert Unseen(ss, seen) == [ss[0]] + rest;
        assert ss[0] in Unseen(ss, seen);
        forall s | s in ss && s.name !in seen ensures s.name in NameSet(Unseen(ss, seen)) {
          if s.name != ss[0].name {
            var t :| t in rest && t.name == s.name;
            assert t in Unseen(ss, seen);
          }
        }
      }
    }
  }

  lemma {:induction false} GrantingSuits(req: Request, opens: string -> Attempt, tried: seq<Server>)
    ensures forall s | s in Granting(req, opens, tried) :: Suits(req, s) && opens(s.name).Granted?
  {
    if tried != [] {
      GrantingSuits(req, opens, tried[..|tried| - 1]);
      PassesIff(req, tried[|tried| - 1]);
    }
  }

  /** Handles are taken from the tried servers, pass the filters and belong to different servers. */
  lemma {:induction false} GrantingMembers(req: Request, opens: string -> Attempt, tried: seq<Server>)
    requires DistinctNames(tried)
    ensures DistinctNames(Granting(req, opens, tried))
    ensures forall s :: s in Granting(req, opens, tried) <==> s in tried && Passes(req, s) && opens(s.name).Granted?
  {
    if tried != [] {
      var n := |tried| - 1;
      GrantingMembers(req, opens, tried[..n]);
      assert tried == tried[..n] + [tried[n]];
      var before := Granting(req, opens, tried[..n]);
      forall i | 0 <= i < |before| ensures before[i].name != tried[n].name {
        assert before[i] in tried[..n];
      }
    }
  }

  /** The filters in plain numbers: no backup unless backups are allowed, and both given ends between the server's head
      and its data limit below it. */
  predicate Suits(req: Request, s: Server) {
    && (s.backup ==> req.allowBackups)
    && (req.min.Some? ==> HoldsEnd(s, req.min.value)) && (req.max.Some? ==> HoldsEnd(s, req.max.value))
  }

  lemma {:induction false} PassesIff(req: Request, s: Server)
    ensures Passes(req, s) <==> Suits(req, s)
  {
  }

  lemma {:induction false} HandlesMeaning(req: Request, synced: seq<Server>, known: seq<Server>, order: seq<Server>,
                                          opens: string -> Attempt, tried: seq<Server>, s: Server)
    requires order == Order(synced, known) && tried <= Unseen(order, {})
    requires forall x, y | x in synced + known && y in synced + known && x.name == y.name :: x == y
    ensures DistinctNames(tried) && (s in tried ==> s in synced + known)
    ensures tried == Unseen(order, {}) && s in synced + known ==> s in tried
  {
    UnseenMembers(order, {});
    SortByStatusSorts(synced);
    SortByStatusSorts(known);
    SameMembers(order, synced, known);
    if tried == Unseen(order, {}) && s in synced + known {
      var t :| t in tried && t.name == s.name;
    }
  }

  /** What a caller of AllConnections can rely on: different servers that all suit the request, and if every server was
      tried, exactly those that suit it and grant a handle. */
  lemma {:induction false} ConnectionsMeaning(req: Request, synced: seq<Server>, known: seq<Server>,
                                              opens: string -> Attempt, tried: seq<Server>, s: Server)
    requires tried <= Unseen(Order(synced, known), {})
    requires forall x, y | x in synced + known && y in synced + known && x.name == y.name :: x == y
    ensures var selected := Granting(req, opens, tried);
      && DistinctNames(selected)
      && (s in selected ==> s in synced + known && Suits(req, s) && opens(s.name).Granted?)
      && (tried == Unseen(Order(synced, known), {}) && s in synced + known && Suits(req, s) && opens(s.name).Granted?
          ==> s in selected)
  {
    HandlesMeaning(req, synced, known, Order(synced, known), opens, tried, s);
    GrantingMembers(req, opens, tried);
    PassesIff(req, s);
  }

  lemma {:induction false} SameMembers(order: seq<Server>, synced: seq<Server>, known: seq<Server>)
    requires order == Order(synced, known)
    requires multiset(SortByStatus(synced)) == multiset(synced) && multiset(SortByStatus(known)) == multiset(known)
    ensures forall s :: s in order <==> s in synced + known
  {
    forall s ensures s in order <==> s in synced + known {
      assert s in synced <==> s in multiset(synced);
      assert s in known <==> s in multiset(known);
      assert s in SortByStatus(synced) <==> s in multiset(SortByStatus(synced));
      assert s in SortByStatus(known) <==> s in multiset(SortByStatus(known));
    }
  }

  /** Synced servers come first: another server is only tried once all of them were. */
  lemma {:induction false} UnseenAppend(a: seq<Server>, b: seq<Server>, seen: set<string>)
    ensures Unseen(a + b, seen) == Unseen(a, seen) + Unseen(b, seen + NameSet(a))
  {
    if a == [] {
      assert a + b == b && seen + NameSet(a) == seen;
    } else {
      assert (a + b)[1..] == a[1..] + b;
      assert seen + {a[0].name} + NameSet(a[1..]) == seen + NameSet(a) by {
        assert a == [a[0]] + a[1..];
      }
      if a[0].name in seen {
        assert seen + NameSet(a[1..]) == seen + NameSet(a);
        UnseenAppend(a[1..], b, seen);
      } else {
        UnseenAppend(a[1..], b, seen + {a[0].name});
      }
    }
  }

  /** A server that is not synced is only tried once all synced ones were. */
  lemma {:induction false} SyncedFirst(synced: seq<Server>, known: seq<Server>, tried: seq<Server>, s: Server,
                                       x: Server)
    requires tried <= Unseen(Order(synced, known), {}) && s in tried && x in synced
    requires forall y | y in synced :: y.name != s.name
    ensures exists y :: y in tried && y.name == x.name
  {
    var a, b := SortByStatus(synced), SortByStatus(known);
    UnseenAppend(a, b, {});
    UnseenMembers(a, {});
    SortByStatusSorts(synced);
    SortedMembers(synced);
    var first := Unseen(a, {});
    var i :| 0 <= i < |tried| && tried[i] == s;
    assert forall k | 0 <= k < |first| :: first[k] in first;
    assert i >= |first| && first <= tried;
    var y :| y in first && y.name == x.name;
    assert y in tried;
  }

  lemma {:induction false} SortedMembers(ss: seq<Server>)
    ensures forall s :: s in SortByStatus(ss) <==> s in ss
  {
    SortByStatusSorts(ss);
    forall s ensures s in SortByStatus(ss) <==> s in ss {
      assert s in ss <==> s in multiset(ss);
      assert s in SortByStatus(ss) <==> s in multiset(SortByStatus(ss));
    }
  }

  function Replies(handles: seq<Server>, replies: string -> ResponseVote.Response): seq<ResponseVote.Response> {
    seq(|handles|, i requires 0 <= i < |handles| => replies(handles[i].name))
  }

  /** One round of a broadcast: collect handles, ask them all, vote. The vote never runs on nothing, so it always has an
      answer; `None` means that no server could be connected. */
  method BroadcastRound(req: Request, synced: seq<Server>, known: seq<Server>, opens: string -> Attempt,
                        replies: string -> ResponseVote.Response, render: ResponseVote.Render)
    returns (answer: Option<ResponseVote.Response>, ghost tried: seq<Server>)
    requires ResponseVote.TellsClass(render)
    ensures answer.None? <==> Granting(req, opens, tried) == []
    ensures answer.Some? ==>
              ResponseVote.Wins(render, Replies(Granting(req, opens, tried), replies), answer.value)
    ensures answer.None? && (if req.maxCount.Some? then req.maxCount.value else |known|) > 0 ==>
              tried == Unseen(Order(synced, known), {})
  {
    var connections;
    connections, tried := AllConnections(req, synced, known, opens);
    answer := None;
    if connections.Connected? {
      answer := ResponseVote.MostCommonResponse(render, Replies(connections.handles, replies));
    }
  }
}

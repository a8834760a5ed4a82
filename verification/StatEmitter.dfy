/** Aggregating response stats per key and saving them period by period. */
module StatEmitter {
  import opened Options

  datatype LogLevel = Anonymous | Aggregated | Detailed

  datatype Stat = Stat(
    rpcKeyId: Option<nat>, origin: Option<string>, logLevel: LogLevel, name: string, archiveRequest: bool,
    errorResponse: bool, requestBytes: nat, backendRequests: nat, responseBytes: nat, responseMillis: nat)

  datatype Key = Key(
    archiveRequest: bool, errorResponse: bool, rpcKeyId: Option<nat>, name: Option<string>, origin: Option<string>)

  /** The row a stat is counted in. Only the detailed log level joins a key id with a method name, and a request made
      with a key never has its origin saved. */
  function KeyOf(s: Stat): (k: Key)
    ensures k.archiveRequest == s.archiveRequest && k.errorResponse == s.errorResponse
    ensures k.rpcKeyId == if s.logLevel.Anonymous? then None else s.rpcKeyId
    ensures k.name == if s.logLevel.Aggregated? then None else Some(s.name)
    ensures k.origin == if s.rpcKeyId.Some? then None else s.origin
    ensures k.rpcKeyId.Some? && k.name.Some? ==> s.logLevel.Detailed?
  {
    var (id, origin) := if s.rpcKeyId.Some? then (s.rpcKeyId, None) else (None, s.origin);
    match s.logLevel
    case Anonymous => Key(s.archiveRequest, s.errorResponse, None, Some(s.name), origin)
    case Aggregated => Key(s.archiveRequest, s.errorResponse, id, None, origin)
    case Detailed => Key(s.archiveRequest, s.errorResponse, id, Some(s.name), origin)
  }

  datatype Totals = Totals(
    frontend: nat, backend: nat, misses: nat, hits: nat, requestBytes: nat, responseBytes: nat, responseMillis: nat)

  function Nothing(): Totals { Totals(0, 0, 0, 0, 0, 0, 0) }

  function Plus(a: Totals, b: Totals): Totals {
    Totals(a.frontend + b.frontend, a.backend + b.backend, a.misses + b.misses, a.hits + b.hits,
           a.requestBytes + b.requestBytes, a.responseBytes + b.responseBytes, a.responseMillis + b.responseMillis)
  }

  /** What one stat contributes: a request without backend requests was a cache hit. */
  function Worth(s: Stat): Totals {
    Totals(1, s.backendRequests, if s.backendRequests == 0 then 0 else 1, if s.backendRequests == 0 then 1 else 0,
           s.requestBytes, s.responseBytes, s.responseMillis)
  }

  class Aggregate {
    var frontend: nat
    var backend: nat
    var misses: nat
    var hits: nat
    var requestBytes: nat
    var responseBytes: nat
    var responseMillis: nat

    constructor ()
      ensures Abs() == Nothing()
    {
      frontend, backend, misses, hits, requestBytes, responseBytes, responseMillis := 0, 0, 0, 0, 0, 0, 0;
    }

    ghost function Abs(): Totals
      reads this
    {
      Totals(frontend, backend, misses, hits, requestBytes, responseBytes, responseMillis)
    }

    /** Adds a stat. A histogram that cannot record it makes this fail, but only after the sums are taken. */
    method Add(s: Stat, recorded: bool) returns (ok: bool)
      modifies this
      ensures Abs() == Plus(old(Abs()), Worth(s)) && ok == recorded
    {
      frontend := frontend + 1;
      if s.backendRequests == 0 {
        hits := hits + 1;
      } else {
        misses := misses + 1;
        backend := backend + s.backendRequests;
      }
      requestBytes := requestBytes + s.requestBytes;
      responseBytes := responseBytes + s.responseBytes;
      responseMillis := responseMillis + s.responseMillis;
      ok := recorded;
    }
  }

  datatype Row = Row(key: Key, timestamp: nat, totals: Totals)

  /** A stat with the period that was current when it came in. */
  datatype Stamped = Stamped(stat: Stat, timestamp: nat)

  ghost function RowsTotal(rows: seq<Row>, k: Key, t: nat): Totals {
    if rows == [] then Nothing()
    else
      var row := rows[|rows| - 1];
      Plus(RowsTotal(rows[..|rows| - 1], k, t), if row.key == k && row.timestamp == t then row.totals else Nothing())
  }

  ghost function StatsTotal(stats: seq<Stamped>, k: Key, t: nat): Totals {
    if stats == [] then Nothing()
    else
      var s := stats[|stats| - 1];
      Plus(StatsTotal(stats[..|stats| - 1], k, t),
           if KeyOf(s.stat) == k && s.timestamp == t then Worth(s.stat) else Nothing())
  }

  ghost function PendingTotal(pending: map<Key, Totals>, k: Key): Totals {
    if k in pending then pending[k] else Nothing()
  }

  /** What is saved for a key and period plus what is still pending. */
  ghost function Kept(rows: seq<Row>, pending: map<Key, Totals>, now: nat, k: Key, t: nat): Totals {
    Plus(RowsTotal(rows, k, t), if t == now then PendingTotal(pending, k) else Nothing())
  }

  /** For every key and period, what is saved plus what is still pending is what was received. */
  ghost predicate Conserved(rows: seq<Row>, pending: map<Key, Totals>, now: nat, stats: seq<Stamped>) {
    forall k, t :: Kept(rows, pending, now, k, t) == StatsTotal(stats, k, t)
  }

  ghost predicate Counts(t: Totals) { t.hits + t.misses == t.frontend }

  ghost predicate AllCount(rows: seq<Row>, pending: map<Key, Totals>) {
    (forall i | 0 <= i < |rows| :: Counts(rows[i].totals)) && (forall k | k in pending :: Counts(pending[k]))
  }

  /** Nothing that is saved or pending is empty. */
  ghost predicate NoneEmpty(rows: seq<Row>, pending: map<Key, Totals>) {
    && (forall i | 0 <= i < |rows| :: rows[i].totals.frontend > 0)
    && (forall k | k in pending :: pending[k].frontend > 0)
  }

  /** No two rows share key and period, and none of the current period has a key that is still pending. */
  ghost predicate OnceEach(rows: seq<Row>, keys: set<Key>, now: nat) {
    && (forall i, j | 0 <= i < j < |rows| :: rows[i].key != rows[j].key || rows[i].timestamp != rows[j].timestamp)
    && (forall i | 0 <= i < |rows| ::
          rows[i].timestamp <= now && (rows[i].timestamp == now ==> rows[i].key !in keys))
  }

  /** Every row is of an earlier period. */
  ghost predicate AllPast(rows: seq<Row>, now: nat) { forall i | 0 <= i < |rows| :: rows[i].timestamp < now }

  /** What holds of the rows between two turns: with a positive period each key has one row per period. */
  ghost predicate Tidy(rows: seq<Row>, pending: map<Key, Totals>, now: nat, period: nat) {
    && AllCount(rows, pending) && NoneEmpty(rows, pending)
    && (period > 0 ==> OnceEach(rows, pending.Keys, now))
  }

  lemma {:induction false} TidyByStat(rows: seq<Row>, pending: map<Key, Totals>, now: nat, period: nat, s: Stat)
    requires Tidy(rows, pending, now, period) && (period > 0 ==> AllPast(rows, now))
    ensures Tidy(rows, pending[KeyOf(s) := Plus(PendingTotal(pending, KeyOf(s)), Worth(s))], now, period)
  {
    CountedByStat(rows, pending, s);
  }

  lemma {:induction false} TidyBySave(rows: seq<Row>, pending: map<Key, Totals>, now: nat, period: nat, key: Key)
    requires Tidy(rows, pending, now, period) && key in pending
    ensures Tidy(rows + [Row(key, now, pending[key])], pending - {key}, now, period)
  {
    CountedBySave(rows, pending, now, key);
  }

  lemma {:induction false} TidyByTick(rows: seq<Row>, now: nat, period: nat)
    requires Tidy(rows, map[], now, period)
    ensures Tidy(rows, map[], now + period, period) && (period > 0 ==> AllPast(rows, now + period))
  {
  }

  lemma {:induction false} ConservedByStat(rows: seq<Row>, pending: map<Key, Totals>, now: nat, stats: seq<Stamped>,
                                           s: Stat)
    requires Conserved(rows, pending, now, stats)
    ensures var k := KeyOf(s);
      Conserved(rows, pending[k := Plus(PendingTotal(pending, k), Worth(s))], now, stats + [Stamped(s, now)])
  {
    var all := stats + [Stamped(s, now)];
    assert all[..|all| - 1] == stats;
    var pending' := pending[KeyOf(s) := Plus(PendingTotal(pending, KeyOf(s)), Worth(s))];
    forall k, t ensures Kept(rows, pending', now, k, t) == StatsTotal(all, k, t) {
      assert Kept(rows, pending, now, k, t) == StatsTotal(stats, k, t);
      KeptAfterStat(rows, pending, now, s, k, t);
    }
  }

  lemma {:induction false} KeptAfterStat(rows: seq<Row>, pending: map<Key, Totals>, now: nat, s: Stat, k: Key, t: nat)
    ensures Kept(rows, pending[KeyOf(s) := Plus(PendingTotal(pending, KeyOf(s)), Worth(s))], now, k, t)
            == Plus(Kept(rows, pending, now, k, t), if KeyOf(s) == k && now == t then Worth(s) else Nothing())
  {
  }

  lemma {:induction false} ConservedBySave(rows: seq<Row>, pending: map<Key, Totals>, now: nat, stats: seq<Stamped>,
                                           key: Key)
    requires Conserved(rows, pending, now, stats) && key in pending
    ensures Conserved(rows + [Row(key, now, pending[key])], pending - {key}, now, stats)
  {
    var all := rows + [Row(key, now, pending[key])];
    assert all[..|all| - 1] == rows;
    forall k, t ensures Kept(all, pending - {key}, now, k, t) == StatsTotal(stats, k, t) {
      assert Kept(rows, pending, now, k, t) == StatsTotal(stats, k, t);
    }
  }

  lemma {:induction false} ConservedByTick(rows: seq<Row>, now: nat, later: nat, stats: seq<Stamped>)
    requires Conserved(rows, map[], now, stats)
    ensures Conserved(rows, map[], later, stats)
  {
    forall k, t ensures Kept(rows, map[], later, k, t) == StatsTotal(stats, k, t) {
      assert Kept(rows, map[], now, k, t) == StatsTotal(stats, k, t);
    }
  }

  /** Something the loop wakes up for. `Closed` is the stat channel closing. */
  datatype Event = Received(stat: Stat, recorded: bool) | Tick | Shutdown | Closed

  ghost function Ticks(events: seq<Event>): nat {
    if events == [] then 0 else Ticks(events[..|events| - 1]) + if events[|events| - 1].Tick? then 1 else 0
  }

  /** The stats received, each with the start plus one period for every tick before it. */
  ghost function Stamp(events: seq<Event>, start: nat, period: nat): seq<Stamped> {
    if events == [] then []
    else
      var before := events[..|events| - 1];
      Stamp(before, start, period)
      + if events[|events| - 1].Received?
        then [Stamped(events[|events| - 1].stat, start + Ticks(before) * period)] else []
  }

  class StatEmitter {
    const periodSeconds: nat
    var aggregates: map<Key, Aggregate>
    var timestamp: nat
    var rows: seq<Row>

    constructor (periodSeconds: nat, start: nat)
      ensures this.periodSeconds == periodSeconds && timestamp == start && rows == [] && aggregates == map[]
    {
      this.periodSeconds, timestamp, rows, aggregates := periodSeconds, start, [], map[];
    }

    /** Different keys have different aggregates. */
    ghost predicate Valid()
      reads this
    {
      forall j, k | j in aggregates && k in aggregates && j != k :: aggregates[j] != aggregates[k]
    }

    ghost function Pending(): map<Key, Totals>
      reads this, aggregates.Values
    {
      map k | k in aggregates :: aggregates[k].Abs()
    }

    method Receive(s: Stat, recorded: bool)
      requires Valid()
      modifies this`aggregates, aggregates.Values
      ensures Valid() && fresh(aggregates.Values - old(aggregates.Values))
      ensures Pending() == old(Pending())[KeyOf(s) := Plus(PendingTotal(old(Pending()), KeyOf(s)), Worth(s))]
    {
      var key := KeyOf(s);
      if key !in aggregates {
        var empty := new Aggregate();
        aggregates := aggregates[key := empty];
      }
      assert aggregates[key].Abs() == PendingTotal(old(Pending()), key);
      var _ := aggregates[key].Add(s, recorded);
    }

    /** Takes one aggregate out of the map and saves it as a row of the current period. */
    method SaveOne(key: Key)
      requires Valid() && key in aggregates
      modifies this`aggregates, this`rows
      ensures Valid() && aggregates == old(aggregates) - {key}
      ensures Pending() == old(Pending()) - {key}
      ensures rows == old(rows) + [Row(key, timestamp, old(Pending())[key])]
    {
      var a := aggregates[key];
      rows := rows + [Row(key, timestamp, Totals(a.frontend, a.backend, a.misses, a.hits,
                                                 a.requestBytes, a.responseBytes, a.responseMillis))];
      aggregates := aggregates - {key};
    }

    /** Saves and forgets every aggregate, in whatever order the map yields them. */
    method Drain(ghost stats: seq<Stamped>)
      requires Valid() && Conserved(rows, Pending(), timestamp, stats)
      requires Tidy(rows, Pending(), timestamp, periodSeconds)
      modifies this`aggregates, this`rows
      ensures aggregates == map[]
      ensures Conserved(rows, map[], timestamp, stats) && Tidy(rows, map[], timestamp, periodSeconds)
    {
      var todo := aggregates.Keys;
      while todo != {}
        invariant Valid() && todo == aggregates.Keys
        invariant Conserved(rows, Pending(), timestamp, stats) && Tidy(rows, Pending(), timestamp, periodSeconds)
        decreases todo
      {
        var key :| key in todo;
        ConservedBySave(rows, Pending(), timestamp, stats, key);
        TidyBySave(rows, Pending(), timestamp, periodSeconds, key);
        SaveOne(key);
        todo := todo - {key};
      }
      assert aggregates == map[] && Pending() == map[];
    }

    /** The state between two turns of the loop, with `stats` received so far. */
    ghost predicate Running(stats: seq<Stamped>)
      reads this, aggregates.Values
    {
      && Valid() && Conserved(rows, Pending(), timestamp, stats)
      && Tidy(rows, Pending(), timestamp, periodSeconds) && (periodSeconds > 0 ==> AllPast(rows, timestamp))
    }

    /** One turn of the loop. */
    method OnEvent(e: Event, ghost stats: seq<Stamped>)
      requires (e.Received? || e.Tick?) && Running(stats)
      modifies this`aggregates, this`rows, this`timestamp, aggregates.Values
      ensures fresh(aggregates.Values - old(aggregates.Values))
      ensures timestamp == old(timestamp) + if e.Tick? then periodSeconds else 0
      ensures Running(stats + Stamps(e, old(timestamp)))
    {
      if e.Received? {
        ghost var pending := Pending();
        ConservedByStat(rows, pending, timestamp, stats, e.stat);
        TidyByStat(rows, pending, timestamp, periodSeconds, e.stat);
        Receive(e.stat, e.recorded);
      } else {
        Drain(stats);
        ConservedByTick(rows, timestamp, timestamp + periodSeconds, stats);
        TidyByTick(rows, timestamp, periodSeconds);
        timestamp := timestamp + periodSeconds;
        assert Pending() == map[] && stats + Stamps(e, old(timestamp)) == stats;
      }
    }

    /** The loop: collects stats, saves them at every tick under the period that just ended, and at shutdown under the
        current one. If the stat channel closes first it fails without saving what is pending. For every key and period
        the saved rows add up to exactly what was received in it, whatever the histograms could record. No row is empty,
        and with a positive period no two rows share key and period. */
    method StatLoop(events: seq<Event>) returns (ok: bool, ghost n: nat)
      requires aggregates == map[] && rows == []
      modifies this
      ensures n <= |events| && forall i | 0 <= i < n :: events[i].Received? || events[i].Tick?
      ensures ok <==> n < |events| && events[n].Shutdown?
      ensures !ok ==> n == |events| || events[n].Closed?
      ensures ok ==> forall k, t ::
                RowsTotal(rows, k, t) == StatsTotal(Stamp(events[..n], old(timestamp), periodSeconds), k, t)
      ensures forall i | 0 <= i < |rows| :: Counts(rows[i].totals) && rows[i].totals.frontend > 0
      ensures periodSeconds > 0 ==>
                forall i, j | 0 <= i < j < |rows| ::
                  rows[i].key != rows[j].key || rows[i].timestamp != rows[j].timestamp
    {
      ghost var start := timestamp;
      n := 0;
      var i := 0;
      assert Pending() == map[];
      ghost var stats := Stamp(events[..0], start, periodSeconds);
      while i < |events| && !events[i].Shutdown?
        invariant n == i <= |events| && fresh(aggregates.Values)
        invariant forall j | 0 <= j < i :: events[j].Received? || events[j].Tick?
        invariant timestamp == start + Ticks(events[..i]) * periodSeconds
        invariant stats == Stamp(events[..i], start, periodSeconds) && Running(stats)
      {
        if events[i].Closed? {
          return false, n;
        }
        StampNext(events, i, start, periodSeconds);
        ghost var before := stats;
        stats := stats + Stamps(events[i], timestamp);
        OnEvent(events[i], before);
        i, n := i + 1, i + 1;
      }
      if i == |events| {
        return false, n;
      }
      Drain(stats);
      SavedIsReceived(rows, timestamp, stats);
      ok := true;
    }
  }

  ghost function Stamps(e: Event, now: nat): seq<Stamped> { if e.Received? then [Stamped(e.stat, now)] else [] }

  lemma {:induction false} StampNext(events: seq<Event>, i: nat, start: nat, period: nat)
    requires i < |events|
    ensures Stamp(events[..i + 1], start, period)
            == Stamp(events[..i], start, period) + Stamps(events[i], start + Ticks(events[..i]) * period)
    ensures Ticks(events[..i + 1]) * period == Ticks(events[..i]) * period + if events[i].Tick? then period else 0
  {
    assert events[..i + 1][..i] == events[..i];
    assert (Ticks(events[..i]) + 1) * period == Ticks(events[..i]) * period + period;
  }

  /** The sum of `f` over the stats of a key and period. */
  ghost function Sum(stats: seq<Stamped>, k: Key, t: nat, f: Stat -> nat): nat {
    if stats == [] then 0
    else
      var s := stats[|stats| - 1];
      Sum(stats[..|stats| - 1], k, t, f) + if KeyOf(s.stat) == k && s.timestamp == t then f(s.stat) else 0
  }

  /** What was received for a key and period, column by column: requests, backend requests, requests with and without
      any of these, bytes in, bytes out, and milliseconds. */
  lemma {:induction false} TotalsAreSums(stats: seq<Stamped>, k: Key, t: nat)
    ensures var total := StatsTotal(stats, k, t);
      && total.frontend == Sum(stats, k, t, s => 1)
      && total.backend == Sum(stats, k, t, (s: Stat) => s.backendRequests)
      && total.misses == Sum(stats, k, t, (s: Stat) => if s.backendRequests > 0 then 1 else 0)
      && total.hits == Sum(stats, k, t, (s: Stat) => if s.backendRequests == 0 then 1 else 0)
      && total.requestBytes == Sum(stats, k, t, (s: Stat) => s.requestBytes)
      && total.responseBytes == Sum(stats, k, t, (s: Stat) => s.responseBytes)
      && total.responseMillis == Sum(stats, k, t, (s: Stat) => s.responseMillis)
  {
    if stats != [] {
      TotalsAreSums(stats[..|stats| - 1], k, t);
    }
  }

  lemma {:induction false} CountedByStat(rows: seq<Row>, pending: map<Key, Totals>, s: Stat)
    requires AllCount(rows, pending)
    ensures AllCount(rows, pending[KeyOf(s) := Plus(PendingTotal(pending, KeyOf(s)), Worth(s))])
  {
    assert KeyOf(s) in pending ==> Counts(pending[KeyOf(s)]);
  }

  lemma {:induction false} CountedBySave(rows: seq<Row>, pending: map<Key, Totals>, now: nat, key: Key)
    requires AllCount(rows, pending) && key in pending
    ensures AllCount(rows + [Row(key, now, pending[key])], pending - {key})
  {
    assert Counts(pending[key]);
  }

  lemma {:induction false} SavedIsReceived(rows: seq<Row>, now: nat, stats: seq<Stamped>)
    requires Conserved(rows, map[], now, stats)
    ensures forall k, t :: RowsTotal(rows, k, t) == StatsTotal(stats, k, t)
  {
    forall k, t ensures RowsTotal(rows, k, t) == StatsTotal(stats, k, t) {
      assert Kept(rows, map[], now, k, t) == StatsTotal(stats, k, t);
    }
  }
}

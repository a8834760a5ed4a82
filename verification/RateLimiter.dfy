/** A local counter per proxy in front of one shared redis counter, within one throttle key. */
module RateLimiter {
  import opened Options

  datatype Answer = Allowed | RetryAt | RetryNever

  datatype RedisAnswer = Counted(answer: Answer, count: nat) | Never | Unreachable

  /** Above this local count a request waits for redis: 99% of the limit rounded down, and at least one below it. */
  function Headroom(max: nat): (limit: nat)
    requires max > 0
    ensures limit < max
  {
    if 99 * max / 100 < max - 1 then 99 * max / 100 else max - 1
  }

  /** A local count leaves headroom exactly when it is below the limit and at most 99% of it. */
  lemma {:induction false} HeadroomIff(max: nat, count: nat)
    requires max > 0
    ensures count <= Headroom(max) <==> count < max && count as real <= 0.99 * max as real
  {
    assert count as real <= 0.99 * max as real <==> 100 * count <= 99 * max;
  }

  /** One proxy's cached count, if the key is cached, and its redis updates still in the background. */
  datatype Proxy = Proxy(local: Option<nat>, pending: seq<nat>)

  datatype Outcome = Outcome(redis: nat, proxy: Proxy, answer: Answer)

  function Judge(max: nat, count: nat): Answer { if count > max then RetryAt else Allowed }

  /** A request for `count` units; `up` says whether redis can be reached. */
  function Ask(max: nat, redis: nat, p: Proxy, count: nat, up: bool): Outcome {
    if max == 0 then Outcome(redis, p, RetryNever)
    else if p.local.None? then
      if up then Outcome(redis + count, p.(local := Some(redis + count)), Judge(max, redis + count))
      else Outcome(redis, p.(local := Some(0)), Allowed)
    else
      var expected := p.local.value + count;
      if expected > max then Outcome(redis, p.(local := Some(expected)), RetryAt)
      else if expected > Headroom(max) then
        if up then Outcome(redis + count, p.(local := Some(redis + count)), Judge(max, redis + count))
        else Outcome(redis, p.(local := Some(expected)), Allowed)
      else Outcome(redis, Proxy(Some(expected), p.pending + [count]), Allowed)
  }

  /** When a request is allowed: never with a zero limit; with redis down, if nothing is cached or the cached count
      leaves room; with redis up, if the count redis then has is within the limit, where a cached count must leave room
      too, and alone decides up to the headroom. */
  lemma {:induction false} AllowedIff(max: nat, redis: nat, p: Proxy, count: nat, up: bool)
    ensures var answer := Ask(max, redis, p, count, up).answer;
      && (answer.RetryNever? <==> max == 0)
      && (max > 0 && !up ==> (answer.Allowed? <==> p.local.None? || p.local.value + count <= max))
      && (max > 0 && up ==>
            (answer.Allowed? <==>
               if p.local.None? then redis + count <= max
               else p.local.value + count <= max
                    && (p.local.value + count <= Headroom(max) || redis + count <= max)))
  {
  }

  /** The k-th background update reaches redis; its answer is dropped, its count is stored. */
  function Settle(max: nat, redis: nat, p: Proxy, k: nat, up: bool): Outcome
    requires k < |p.pending| && max > 0
  {
    var rest := p.pending[..k] + p.pending[k + 1..];
    var count := redis + p.pending[k];
    if up then Outcome(count, Proxy(Some(count), rest), Judge(max, count))
    else Outcome(redis, p.(pending := rest), Allowed)
  }

  // ----- the code -----

  class RedisRateLimiter {
    const maxRequestsPerPeriod: nat
    var count: nat

    constructor (max: nat)
      ensures maxRequestsPerPeriod == max && count == 0
    {
      maxRequestsPerPeriod, count := max, 0;
    }

    /** The atomic increment and the comparison with the limit. */
    method ThrottleLabel(maxPerPeriod: Option<nat>, n: nat, up: bool) returns (r: RedisAnswer)
      modifies this
      ensures var max := if maxPerPeriod.Some? then maxPerPeriod.value else maxRequestsPerPeriod;
        if max == 0 then r == Never && count == old(count)
        else if !up then r == Unreachable && count == old(count)
        else count == old(count) + n && r == Counted(Judge(max, count), count)
    {
      var max := if maxPerPeriod.Some? then maxPerPeriod.value else maxRequestsPerPeriod;
      if max == 0 {
        return Never;
      }
      if !up {
        return Unreachable;
      }
      count := count + n;
      if count > max {
        r := Counted(RetryAt, count);
      } else {
        r := Counted(Allowed, count);
      }
    }
  }

  class DeferredRateLimiter {
    const rrl: RedisRateLimiter
    const defaultMax: Option<nat>
    var local: Option<nat>
    var pending: seq<nat>

    constructor (rrl: RedisRateLimiter, defaultMax: Option<nat>)
      ensures this.rrl == rrl && this.defaultMax == defaultMax && Abs() == Proxy(None, [])
    {
      this.rrl, this.defaultMax, local, pending := rrl, defaultMax, None, [];
    }

    ghost function Abs(): Proxy
      reads this
    {
      Proxy(local, pending)
    }

    function Limit(override: Option<nat>): nat {
      if override.Some? then override.value
      else if defaultMax.Some? then defaultMax.value else rrl.maxRequestsPerPeriod
    }

    method Throttle(override: Option<nat>, count: nat, up: bool) returns (answer: Answer)
      modifies this, rrl
      ensures var o := Outcome(rrl.count, Abs(), answer);
        && (override.Some? ==> o == Ask(override.value, old(rrl.count), old(Abs()), count, up))
        && (override.None? && defaultMax.Some? ==> o == Ask(defaultMax.value, old(rrl.count), old(Abs()), count, up))
        && (override.None? && defaultMax.None? ==>
              o == Ask(rrl.maxRequestsPerPeriod, old(rrl.count), old(Abs()), count, up))
    {
      var max := Limit(override);
      if max == 0 {
        return RetryNever;
      }
      if local.None? {
        var r := rrl.ThrottleLabel(Some(max), count, up);
        if r.Counted? {
          local, answer := Some(r.count), r.answer;
        } else {
          local, answer := Some(0), Allowed;
        }
        return;
      }
      var expected := local.value + count;
      local := Some(expected);
      if expected > max {
        return RetryAt;
      }
      if expected > Headroom(max) {
        var r := rrl.ThrottleLabel(Some(max), count, up);
        if r.Counted? {
          local, answer := Some(r.count), r.answer;
        } else {
          answer := Allowed;
        }
      } else {
        pending := pending + [count];
        answer := Allowed;
      }
    }

    method RunBackground(max: nat, k: nat, up: bool)
      requires k < |pending| && max > 0
      modifies this, rrl
      ensures var o := Settle(max, old(rrl.count), old(Abs()), k, up); rrl.count == o.redis && Abs() == o.proxy
    {
      var count := pending[k];
      pending := pending[..k] + pending[k + 1..];
      var r := rrl.ThrottleLabel(Some(max), count, up);
      if r.Counted? {
        local := Some(r.count);
      }
    }
  }

  // ----- any number of proxies over one redis counter -----

  /** `up` says whether redis can be reached by then. */
  datatype Step = Asks(proxy: nat, count: nat, up: bool) | Settles(proxy: nat, k: nat, up: bool)

  /** `admitted` is the total of all counts answered with Allowed. */
  datatype System = System(redis: nat, proxies: seq<Proxy>, admitted: nat)

  function NewSystem(n: nat): System { System(0, seq(n, i => Proxy(None, [])), 0) }

  function Apply(max: nat, s: System, step: Step): System {
    if step.proxy >= |s.proxies| then s
    else
      var p := s.proxies[step.proxy];
      match step
      case Asks(i, count, up) =>
        var o := Ask(max, s.redis, p, count, up);
        System(o.redis, s.proxies[i := o.proxy], s.admitted + if o.answer.Allowed? then count else 0)
      case Settles(i, k, up) =>
        if k >= |p.pending| || max == 0 then s
        else
          var o := Settle(max, s.redis, p, k, up);
          System(o.redis, s.proxies[i := o.proxy], s.admitted)
  }

  function Run(max: nat, s: System, steps: seq<Step>): System
    decreases |steps|
  {
    if steps == [] then s else Run(max, Apply(max, s, steps[0]), steps[1..])
  }

  /** Every background update is done before its proxy's next request; proxies interleave freely. */
  predicate Sequenced(max: nat, s: System, steps: seq<Step>)
    decreases |steps|
  {
    steps == [] ||
    ((steps[0].Asks? && steps[0].proxy < |s.proxies| ==> s.proxies[steps[0].proxy].pending == [])
     && Sequenced(max, Apply(max, s, steps[0]), steps[1..]))
  }

  predicate CountsAtMost(steps: seq<Step>, c: nat) {
    forall i | 0 <= i < |steps| :: steps[i].Asks? ==> steps[i].count <= c
  }

  /** Redis never fails. */
  predicate AlwaysUp(steps: seq<Step>) { forall i | 0 <= i < |steps| :: steps[i].up }

  /** What a proxy has admitted without redis knowing, and `c` more if one of its background updates overshot. */
  ghost function Owed(p: Proxy, overshot: bool, c: nat): nat {
    (if p.pending == [] then 0 else p.pending[0]) + (if overshot then c else 0)
  }

  ghost function TotalOwed(ps: seq<Proxy>, over: seq<bool>, c: nat): nat
    requires |ps| == |over|
  {
    if ps == [] then 0 else Owed(ps[0], over[0], c) + TotalOwed(ps[1..], over[1..], c)
  }

  lemma {:induction false} TotalOwedUpdate(ps: seq<Proxy>, over: seq<bool>, c: nat, i: nat, p: Proxy, o: bool)
    requires |ps| == |over| && i < |ps|
    ensures TotalOwed(ps[i := p], over[i := o], c) + Owed(ps[i], over[i], c)
            == TotalOwed(ps, over, c) + Owed(p, o, c)
  {
    if i == 0 {
      assert ps[i := p][1..] == ps[1..] && over[i := o][1..] == over[1..];
    } else {
      assert ps[i := p][1..] == ps[1..][i - 1 := p] && over[i := o][1..] == over[1..][i - 1 := o];
      TotalOwedUpdate(ps[1..], over[1..], c, i - 1, p, o);
    }
  }

  /** If no proxy owes more than `c`, all but one of them together owe at most `c` each. */
  lemma {:induction false} TotalOwedBound(ps: seq<Proxy>, over: seq<bool>, c: nat, q: nat)
    requires |ps| == |over| && q < |ps|
    requires forall i | 0 <= i < |ps| :: Owed(ps[i], over[i], c) <= c
    ensures TotalOwed(ps, over, c) <= (|ps| - 1) * c + Owed(ps[q], over[q], c)
  {
    if |ps| > 1 {
      var rest, n := if q == 0 then 0 else q - 1, |ps| - 2;
      TotalOwedBound(ps[1..], over[1..], c, rest);
      assert ps[1..][rest] == ps[rest + 1] && over[1..][rest] == over[rest + 1];
      assert Owed(ps[0], over[0], c) <= c && Owed(ps[rest + 1], over[rest + 1], c) <= c;
      assert (n + 1) * c == n * c + c;
    }
  }

  ghost function Ceiling(max: nat, n: int, c: nat): int { max + (n - 1) * c }

  /** The largest request that can be admitted before redis hears of it. */
  ghost function Unheard(max: nat, c: nat): nat
    requires max > 0
  {
    if c < Headroom(max) then c else Headroom(max)
  }

  /** While redis is within the limit, `last` is the proxy that moved it there and `r` its value; after that both stay
      as they were when the limit was crossed. */
  datatype Mark = Mark(last: nat, r: nat, over: seq<bool>)

  ghost predicate ProxyValid(max: nat, c: nat, p: Proxy, overshot: bool)
    requires max > 0
  {
    && |p.pending| <= 1
    && (p.pending != [] ==> p.pending[0] <= c && !overshot && p.local.Some? && p.local.value <= Headroom(max))
    && (overshot ==> p.local.Some? && p.local.value > max)
  }

  ghost predicate Bounded(max: nat, c: nat, s: System, m: Mark)
    requires max > 0
  {
    && |m.over| == |s.proxies| && m.last < |s.proxies| && m.r <= max && m.r <= s.redis
    && (forall i | 0 <= i < |s.proxies| :: ProxyValid(max, c, s.proxies[i], m.over[i]))
    && (s.redis <= max ==> m.r == s.redis && forall i | 0 <= i < |m.over| :: !m.over[i])
    && (var q := s.proxies[m.last];
        && q.local.Some?
        && q.local.value >= m.r + (if q.pending == [] then 0 else q.pending[0]))
    && s.admitted <= m.r + TotalOwed(s.proxies, m.over, c)
    && (m.over[m.last] ==> s.admitted + c <= Headroom(max) + TotalOwed(s.proxies, m.over, c))
  }

  /** Before any count is within the limit nothing was admitted. */
  ghost predicate Fresh(max: nat, s: System) {
    && s.admitted == 0
    && (forall i | 0 <= i < |s.proxies| ::
          s.proxies[i].pending == [] && (s.proxies[i].local.Some? ==> s.proxies[i].local.value > max && s.redis > max))
  }

  lemma {:induction false} BoundedTotal(max: nat, c: nat, s: System, m: Mark)
    requires max > 0 && Bounded(max, c, s, m)
    ensures s.admitted <= Ceiling(max, |s.proxies|, c)
  {
    forall i | 0 <= i < |s.proxies| ensures Owed(s.proxies[i], m.over[i], c) <= c {
      assert ProxyValid(max, c, s.proxies[i], m.over[i]);
    }
    TotalOwedBound(s.proxies, m.over, c, m.last);
    assert ProxyValid(max, c, s.proxies[m.last], m.over[m.last]);
  }

  /** Replacing one proxy by a valid one keeps all of them valid. */
  lemma {:induction false} StillValid(max: nat, c: nat, ps: seq<Proxy>, over: seq<bool>, i: nat, p: Proxy, o: bool)
    requires max > 0 && |ps| == |over| && i < |ps| && ProxyValid(max, c, p, o)
    requires forall j | 0 <= j < |ps| :: ProxyValid(max, c, ps[j], over[j])
    ensures var qs, over' := ps[i := p], over[i := o];
      forall j | 0 <= j < |qs| :: ProxyValid(max, c, qs[j], over'[j])
  {
  }

  /** A request rejected locally only raises the local count. */
  lemma {:induction false} RejectedBounded(max: nat, c: nat, s: System, m: Mark, i: nat, p: Proxy)
    requires max > 0 && Bounded(max, c, s, m) && i < |s.proxies| && s.proxies[i].pending == []
    requires s.proxies[i].local.Some? && p == Proxy(p.local, []) && p.local.Some?
    requires p.local.value >= s.proxies[i].local.value
    ensures Bounded(max, c, s.(proxies := s.proxies[i := p]), m)
  {
    assert ProxyValid(max, c, s.proxies[i], m.over[i]);
    TotalOwedUpdate(s.proxies, m.over, c, i, p, m.over[i]);
    assert m.over[i := m.over[i]] == m.over;
    StillValid(max, c, s.proxies, m.over, i, p, m.over[i]);
  }

  /** A request that redis answers. */
  lemma {:induction false} AwaitedBounded(max: nat, c: nat, s: System, m: Mark, i: nat, count: nat) returns (m': Mark)
    requires max > 0 && Bounded(max, c, s, m) && i < |s.proxies| && s.proxies[i].pending == [] && !m.over[i]
    ensures var r := s.redis + count;
      Bounded(max, c, System(r, s.proxies[i := Proxy(Some(r), [])], s.admitted + if r <= max then count else 0), m')
  {
    var r := s.redis + count;
    m' := if r <= max then m.(last := i, r := r) else m;
    TotalOwedUpdate(s.proxies, m.over, c, i, Proxy(Some(r), []), false);
    assert m.over[i := false] == m.over;
    StillValid(max, c, s.proxies, m.over, i, Proxy(Some(r), []), false);
  }

  /** A request admitted before redis hears of it. */
  lemma {:induction false} BackgroundBounded(max: nat, c: nat, s: System, m: Mark, i: nat, count: nat)
    requires max > 0 && Bounded(max, c, s, m) && i < |s.proxies| && s.proxies[i].pending == [] && !m.over[i]
    requires s.proxies[i].local.Some? && s.proxies[i].local.value + count <= Headroom(max) && count <= c
    ensures var p := Proxy(Some(s.proxies[i].local.value + count), [count]);
      Bounded(max, c, System(s.redis, s.proxies[i := p], s.admitted + count), m)
  {
    var p := Proxy(Some(s.proxies[i].local.value + count), [count]);
    TotalOwedUpdate(s.proxies, m.over, c, i, p, false);
    assert m.over[i := false] == m.over;
    StillValid(max, c, s.proxies, m.over, i, p, false);
  }

  /** The three ways a request can go when no update is in the background. */
  lemma {:induction false} AskCases(max: nat, s: System, i: nat, count: nat, s': System)
    requires max > 0 && i < |s.proxies| && s.proxies[i].pending == [] && s' == Apply(max, s, Asks(i, count, true))
    ensures var p, r := s.proxies[i], s.redis + count;
      if p.local.Some? && p.local.value + count > max then
        s' == s.(proxies := s.proxies[i := Proxy(Some(p.local.value + count), [])])
      else if p.local.Some? && p.local.value + count <= Headroom(max) then
        s' == System(s.redis, s.proxies[i := Proxy(Some(p.local.value + count), [count])], s.admitted + count)
      else
        s' == System(r, s.proxies[i := Proxy(Some(r), [])], s.admitted + if r <= max then count else 0)
  {
    assert s.proxies[i].pending + [count] == [count];
  }

  lemma {:induction false} AskBounded(max: nat, c: nat, s: System, m: Mark, i: nat, count: nat) returns (m': Mark)
    requires max > 0 && Bounded(max, c, s, m)
    requires i < |s.proxies| && s.proxies[i].pending == [] && (count <= Headroom(max) ==> count <= c)
    ensures Bounded(max, c, Apply(max, s, Asks(i, count, true)), m')
  {
    var p := s.proxies[i];
    assert ProxyValid(max, c, p, m.over[i]);
    m' := m;
    AskCases(max, s, i, count, Apply(max, s, Asks(i, count, true)));
    if p.local.Some? && p.local.value + count > max {
      RejectedBounded(max, c, s, m, i, Proxy(Some(p.local.value + count), []));
    } else if p.local.Some? && p.local.value + count <= Headroom(max) {
      BackgroundBounded(max, c, s, m, i, count);
    } else {
      m' := AwaitedBounded(max, c, s, m, i, count);
    }
  }

  lemma {:induction false} SettleBounded(max: nat, c: nat, s: System, m: Mark, i: nat) returns (m': Mark)
    requires max > 0 && Bounded(max, c, s, m)
    requires i < |s.proxies| && s.proxies[i].pending != []
    ensures Bounded(max, c, Apply(max, s, Settles(i, 0, true)), m')
  {
    var p := s.proxies[i];
    var o := Settle(max, s.redis, p, 0, true);
    assert ProxyValid(max, c, p, m.over[i]);
    assert o.proxy.pending == [];
    var overshot := o.redis > max;
    m' := Mark(if overshot then m.last else i, if overshot then m.r else o.redis, m.over[i := overshot]);
    TotalOwedUpdate(s.proxies, m.over, c, i, o.proxy, overshot);
  }

  lemma {:induction false} AskFresh(max: nat, c: nat, s: System, i: nat, count: nat) returns (started: bool, m: Mark)
    requires max > 0 && Fresh(max, s) && (s.redis == 0 || s.redis > max)
    requires i < |s.proxies|
    ensures started ==> Bounded(max, c, Apply(max, s, Asks(i, count, true)), m)
    ensures !started ==> Fresh(max, Apply(max, s, Asks(i, count, true)))
                         && Apply(max, s, Asks(i, count, true)).redis > max
  {
    var s' := Apply(max, s, Asks(i, count, true));
    started := s'.redis <= max;
    m := Mark(i, count, seq(|s.proxies|, j => false));
    if started {
      NothingOwed(s'.proxies, m.over, c);
    }
  }

  lemma {:induction false} NothingOwed(ps: seq<Proxy>, over: seq<bool>, c: nat)
    requires |ps| == |over| && forall i | 0 <= i < |ps| :: ps[i].pending == [] && !over[i]
    ensures TotalOwed(ps, over, c) == 0
  {
    if ps != [] {
      NothingOwed(ps[1..], over[1..], c);
    }
  }

  lemma {:induction false} RunBounded(max: nat, c: nat, s: System, m: Mark, steps: seq<Step>)
    requires max > 0 && Bounded(max, Unheard(max, c), s, m)
    requires Sequenced(max, s, steps) && CountsAtMost(steps, c) && AlwaysUp(steps)
    ensures Run(max, s, steps).admitted <= Ceiling(max, |s.proxies|, Unheard(max, c))
    decreases |steps|
  {
    var d := Unheard(max, c);
    if steps == [] {
      BoundedTotal(max, d, s, m);
    } else {
      var step, m' := steps[0], m;
      if step.proxy < |s.proxies| {
        assert ProxyValid(max, d, s.proxies[step.proxy], m.over[step.proxy]);
        if step.Asks? {
          m' := AskBounded(max, d, s, m, step.proxy, step.count);
        } else if step.k < |s.proxies[step.proxy].pending| {
          m' := SettleBounded(max, d, s, m, step.proxy);
        }
      }
      RunBounded(max, c, Apply(max, s, step), m', steps[1..]);
    }
  }

  /** What a sequenced run asks of its first step, and what is left of it. */
  lemma {:induction false} FirstStep(max: nat, c: nat, s: System, steps: seq<Step>, step: Step, rest: seq<Step>)
    requires steps != [] && step == steps[0] && rest == steps[1..]
    requires Sequenced(max, s, steps) && CountsAtMost(steps, c) && AlwaysUp(steps)
    ensures step.up && (step.Asks? ==> step.count <= c)
    ensures step.Asks? && step.proxy < |s.proxies| ==> s.proxies[step.proxy].pending == []
    ensures Sequenced(max, Apply(max, s, step), rest) && CountsAtMost(rest, c) && AlwaysUp(rest)
    ensures Run(max, s, steps) == Run(max, Apply(max, s, step), rest)
  {
  }

  /** A step before any count is within the limit: nothing happens, or the first request is counted. */
  lemma {:induction false} StepFresh(max: nat, d: nat, s: System, step: Step, s': System)
    returns (started: bool, m: Mark)
    requires max > 0 && Fresh(max, s) && (s.redis == 0 || s.redis > max) && s' == Apply(max, s, step) && step.up
    ensures started ==> Bounded(max, d, s', m)
    ensures !started ==> Fresh(max, s') && (s'.redis == 0 || s'.redis > max)
    ensures |s'.proxies| == |s.proxies|
  {
    started, m := false, Mark(0, 0, []);
    if step.proxy < |s.proxies| && step.Asks? {
      started, m := AskFresh(max, d, s, step.proxy, step.count);
    } else {
      assert s' == s;
    }
  }

  lemma {:induction false} RunFresh(max: nat, c: nat, s: System, steps: seq<Step>)
    requires max > 0 && Fresh(max, s) && (s.redis == 0 || s.redis > max) && |s.proxies| > 0
    requires Sequenced(max, s, steps) && CountsAtMost(steps, c) && AlwaysUp(steps)
    ensures Run(max, s, steps).admitted <= Ceiling(max, |s.proxies|, Unheard(max, c))
    decreases |steps|
  {
    if steps != [] {
      var step, rest := steps[0], steps[1..];
      var s' := Apply(max, s, step);
      FirstStep(max, c, s, steps, step, rest);
      var started, m := StepFresh(max, Unheard(max, c), s, step, s');
      if started {
        RunBounded(max, c, s', m, rest);
      } else {
        RunFresh(max, c, s', rest);
      }
    }
  }

  /** With a zero limit, only empty requests or no proxies nothing is admitted. */
  lemma {:induction false} RunNothing(max: nat, s: System, steps: seq<Step>)
    requires max == 0 || CountsAtMost(steps, 0) || |s.proxies| == 0
    ensures Run(max, s, steps).admitted == s.admitted
    decreases |steps|
  {
    if steps != [] {
      RunNothing(max, Apply(max, s, steps[0]), steps[1..]);
    }
  }

  /** The limit, plus one request that redis has not heard of for each proxy but one. */
  ghost function MostAdmitted(max: nat, c: nat, n: nat): nat {
    if max == 0 || c == 0 || n == 0 then 0 else max + (n - 1) * Unheard(max, c)
  }

  /** However n proxies interleave requests of at most `c`, they never admit more than that. */
  lemma {:induction false} AdmittedAtMost(max: nat, c: nat, n: nat, steps: seq<Step>)
    requires Sequenced(max, NewSystem(n), steps) && CountsAtMost(steps, c) && AlwaysUp(steps)
    ensures Run(max, NewSystem(n), steps).admitted <= MostAdmitted(max, c, n)
  {
    if max == 0 || c == 0 || n == 0 {
      RunNothing(max, NewSystem(n), steps);
    } else {
      RunFresh(max, c, NewSystem(n), steps);
    }
  }

  // ----- the bound is attained -----

  lemma {:induction false} RunAppend(max: nat, s: System, a: seq<Step>, b: seq<Step>)
    ensures Run(max, s, a + b) == Run(max, Run(max, s, a), b)
    ensures Sequenced(max, s, a + b) <==> Sequenced(max, s, a) && Sequenced(max, Run(max, s, a), b)
    decreases |a|
  {
    if a == [] {
      assert a + b == b;
    } else {
      assert (a + b)[1..] == a[1..] + b;
      RunAppend(max, Apply(max, s, a[0]), a[1..], b);
    }
  }

  ghost function Opened(n: nat, k: nat): System {
    System(0, seq(n, i => if i < k then Proxy(Some(0), []) else Proxy(None, [])), 0)
  }

  /** The first `k` proxies cache the key with an empty request. */
  lemma {:induction false} OpenAll(max: nat, n: nat, k: nat) returns (steps: seq<Step>)
    requires max > 0 && k <= n
    ensures Run(max, NewSystem(n), steps) == Opened(n, k) && Sequenced(max, NewSystem(n), steps)
            && CountsAtMost(steps, 0) && AlwaysUp(steps)
  {
    if k == 0 {
      steps := [];
      assert NewSystem(n) == Opened(n, 0);
    } else {
      var before := OpenAll(max, n, k - 1);
      var last := [Asks(k - 1, 0, true)];
      steps := before + last;
      RunAppend(max, NewSystem(n), before, last);
      var s := Opened(n, k - 1);
      assert Apply(max, s, last[0]) == Opened(n, k);
      assert last[1..] == [] && Run(max, s, last) == Opened(n, k);
    }
  }

  /** The first proxy has used `u` units and redis knows, the others believe that nothing was used. */
  ghost function Used(n: nat, u: nat): System
    requires n > 0
  {
    System(u, seq(n, i => if i == 0 then Proxy(Some(u), []) else Proxy(Some(0), [])), u)
  }

  /** One more request of the first proxy: in the background while there is headroom, then waiting for redis. */
  lemma {:induction false} UseMore(max: nat, n: nat, u: nat, e: nat) returns (steps: seq<Step>)
    requires n > 0 && 0 < e && u + e <= max && (u < Headroom(max) ==> u + e <= Headroom(max))
    ensures Run(max, Used(n, u), steps) == Used(n, u + e) && Sequenced(max, Used(n, u), steps)
            && CountsAtMost(steps, e) && AlwaysUp(steps)
  {
    var s := Used(n, u);
    var t := Apply(max, s, Asks(0, e, true));
    if u + e <= Headroom(max) {
      steps := [Asks(0, e, true), Settles(0, 0, true)];
      assert s.proxies[0].pending + [e] == [e];
      assert t.redis == u && t.proxies[0] == Proxy(Some(u + e), [e]);
      assert t.proxies[0].pending[..0] + t.proxies[0].pending[1..] == [];
      assert Apply(max, t, steps[1]) == Used(n, u + e);
      assert steps[1..] == [Settles(0, 0, true)] && steps[1..][1..] == [];
      assert Run(max, t, steps[1..]) == Run(max, Used(n, u + e), []);
    } else {
      steps := [Asks(0, e, true)];
      assert t == Used(n, u + e) && steps[1..] == [];
    }
  }

  /** The first proxy alone uses up the whole limit in requests of at most `c`. */
  lemma {:induction false} UseUp(max: nat, c: nat, n: nat, u: nat) returns (steps: seq<Step>)
    requires n > 0 && c > 0 && u <= max && max > 0
    ensures Run(max, Used(n, u), steps) == Used(n, max) && Sequenced(max, Used(n, u), steps)
    ensures CountsAtMost(steps, c) && AlwaysUp(steps)
    decreases max - u
  {
    if u == max {
      steps := [];
    } else {
      var left := if u < Headroom(max) then Headroom(max) - u else max - u;
      var e := if c < left then c else left;
      var first := UseMore(max, n, u, e);
      var rest := UseUp(max, c, n, u + e);
      steps := first + rest;
      RunAppend(max, Used(n, u), first, rest);
    }
  }

  /** After that the proxies before the k-th have each admitted `c` more. */
  ghost function Stale(max: nat, c: nat, n: nat, k: nat): System
    requires 0 < k <= n
  {
    System(max, seq(n, i => if i == 0 then Proxy(Some(max), []) else if i < k then Proxy(Some(c), [c])
                            else Proxy(Some(0), [])), max + (k - 1) * c)
  }

  lemma {:induction false} Overshoot(max: nat, c: nat, n: nat, k: nat) returns (steps: seq<Step>)
    requires max > 0 && 0 < k <= n && c <= Headroom(max)
    ensures Run(max, Stale(max, c, n, 1), steps) == Stale(max, c, n, k) && Sequenced(max, Stale(max, c, n, 1), steps)
            && CountsAtMost(steps, c) && AlwaysUp(steps)
  {
    if k == 1 {
      steps := [];
    } else {
      var before := Overshoot(max, c, n, k - 1);
      var last := [Asks(k - 1, c, true)];
      steps := before + last;
      RunAppend(max, Stale(max, c, n, 1), before, last);
      var s := Stale(max, c, n, k - 1);
      assert s.proxies[k - 1].pending + [c] == [c];
      assert s.admitted + c == max + (k - 1) * c;
      assert Apply(max, s, last[0]) == Stale(max, c, n, k);
      assert last[1..] == [] && Run(max, s, last) == Stale(max, c, n, k);
    }
  }

  /** For all limits, request sizes and numbers of proxies some sequenced run admits exactly that much, so the bound
      cannot be improved. */
  lemma {:induction false} BoundIsAttained(max: nat, c: nat, n: nat)
    ensures exists steps :: Sequenced(max, NewSystem(n), steps) && CountsAtMost(steps, c) && AlwaysUp(steps)
                            && Run(max, NewSystem(n), steps).admitted == MostAdmitted(max, c, n)
  {
    if max == 0 || c == 0 || n == 0 {
      var steps: seq<Step> := [];
      assert Sequenced(max, NewSystem(n), steps) && Run(max, NewSystem(n), steps).admitted == 0;
    } else {
      var d := Unheard(max, c);
      var a := OpenAll(max, n, n);
      var b := UseUp(max, c, n, 0);
      var e := Overshoot(max, d, n, n);
      assert Opened(n, n) == Used(n, 0) && Used(n, max) == Stale(max, d, n, 1);
      RunAppend(max, NewSystem(n), a, b + e);
      RunAppend(max, Opened(n, n), b, e);
      var steps := a + (b + e);
      assert CountsAtMost(steps, c) && AlwaysUp(steps);
      assert Run(max, NewSystem(n), steps).admitted == max + (n - 1) * d;
    }
  }

  // ----- without the sequencing -----

  /** The first proxy believes that nothing was used, while `k` requests of `d` are still in the background. */
  ghost function Forgotten(n: nat, d: nat, k: nat): System
    requires n > 0
  {
    System(0, seq(n, i => if i == 0 then Proxy(Some(0), seq(k, j => d)) else Proxy(None, [])), k * d)
  }

  /** One more request of `d`, and an empty one whose update is the first to settle: it stores a count of zero. */
  lemma {:induction false} ForgetOne(max: nat, n: nat, d: nat, k: nat) returns (steps: seq<Step>)
    requires n > 0 && max > 0 && d <= Headroom(max)
    ensures Run(max, Forgotten(n, d, k), steps) == Forgotten(n, d, k + 1) && CountsAtMost(steps, d) && AlwaysUp(steps)
  {
    steps := [Asks(0, d, true), Asks(0, 0, true), Settles(0, k + 1, true)];
    var s0, pending := Forgotten(n, d, k), seq(k, j => d);
    var s1 := Apply(max, s0, steps[0]);
    assert s1 == System(0, s0.proxies[0 := Proxy(Some(d), pending + [d])], k * d + d);
    var s2 := Apply(max, s1, steps[1]);
    assert s2 == System(0, s0.proxies[0 := Proxy(Some(d), pending + [d] + [0])], k * d + d);
    var s3 := Apply(max, s2, steps[2]);
    var left := pending + [d] + [0];
    assert left[..k + 1] + left[k + 2..] == seq(k + 1, j => d) && left[k + 1] == 0;
    assert (k + 1) * d == k * d + d;
    assert s3 == Forgotten(n, d, k + 1);
    assert steps[1..] == [steps[1], steps[2]] && steps[1..][1..] == [steps[2]] && [steps[2]][1..] == [];
    assert Run(max, s2, [steps[2]]) == Run(max, s3, []) == s3;
    assert Run(max, s1, [steps[1], steps[2]]) == s3;
  }

  lemma {:induction false} ForgetMany(max: nat, n: nat, d: nat, k: nat) returns (steps: seq<Step>)
    requires n > 0 && max > 0 && d <= Headroom(max)
    ensures Run(max, NewSystem(n), steps) == Forgotten(n, d, k) && CountsAtMost(steps, d) && AlwaysUp(steps)
  {
    if k == 0 {
      steps := [Asks(0, 0, true)];
      var s := Apply(max, NewSystem(n), steps[0]);
      assert s.proxies[0] == Proxy(Some(0), seq(0, j => d)) && 0 * d == 0;
      assert s.proxies == Forgotten(n, d, 0).proxies;
      assert steps[1..] == [] && Run(max, NewSystem(n), steps) == Run(max, Forgotten(n, d, 0), []);
    } else {
      var before := ForgetMany(max, n, d, k - 1);
      var last := ForgetOne(max, n, d, k - 1);
      steps := before + last;
      RunAppend(max, NewSystem(n), before, last);
    }
  }

  /** Without the sequencing there is no bound, not even for one proxy: a settled update stores a count that forgets the
      others, so for every `k` some run admits `k` times the largest request that is not awaited. */
  lemma {:induction false} OverlappingUpdatesOvershoot(max: nat, c: nat, n: nat, k: nat)
    requires max > 0 && n > 0
    ensures exists steps :: CountsAtMost(steps, c) && AlwaysUp(steps)
                            && Run(max, NewSystem(n), steps).admitted == k * Unheard(max, c)
  {
    var steps := ForgetMany(max, n, Unheard(max, c), k);
    assert CountsAtMost(steps, c) && AlwaysUp(steps) && Run(max, NewSystem(n), steps).admitted == k * Unheard(max, c);
  }

  /** With a limit of one everything but empty requests is awaited. */
  ghost predicate AllAwaited(s: System) {
    && s.admitted <= s.redis && s.admitted <= 1
    && forall i | 0 <= i < |s.proxies| :: OnlyEmpty(s.proxies[i].pending)
  }

  ghost predicate OnlyEmpty(pending: seq<nat>) { forall k | 0 <= k < |pending| :: pending[k] == 0 }

  lemma {:induction false} StepAwaited(s: System, step: Step)
    requires AllAwaited(s) && step.up
    ensures AllAwaited(Apply(1, s, step))
  {
    if step.proxy < |s.proxies| {
      assert OnlyEmpty(s.proxies[step.proxy].pending);
    }
  }

  lemma {:induction false} RunAwaited(s: System, steps: seq<Step>)
    requires AllAwaited(s) && AlwaysUp(steps)
    ensures Run(1, s, steps).admitted <= 1
    decreases |steps|
  {
    if steps != [] {
      StepAwaited(s, steps[0]);
      RunAwaited(Apply(1, s, steps[0]), steps[1..]);
    }
  }

  /** All runs, sequenced or not, stay within the limit exactly when nothing can be admitted before redis hears of
      it. */
  lemma {:induction false} UnsequencedLimitIff(max: nat, c: nat, n: nat)
    ensures (forall steps | CountsAtMost(steps, c) && AlwaysUp(steps) :: Run(max, NewSystem(n), steps).admitted <= max)
            <==> max <= 1 || c == 0 || n == 0
  {
    if max == 0 || c == 0 || n == 0 {
      forall steps | CountsAtMost(steps, c) && AlwaysUp(steps) ensures Run(max, NewSystem(n), steps).admitted <= max {
        RunNothing(max, NewSystem(n), steps);
      }
    } else if max == 1 {
      forall steps | CountsAtMost(steps, c) && AlwaysUp(steps) ensures Run(max, NewSystem(n), steps).admitted <= max {
        RunAwaited(NewSystem(n), steps);
      }
    } else {
      OverlappingUpdatesOvershoot(max, c, n, max + 1);
      Exceeds(max, Unheard(max, c));
    }
  }

  lemma {:induction false} Exceeds(max: nat, d: nat)
    requires d > 0
    ensures (max + 1) * d > max
  {
    assert (max + 1) * d >= max + 1;
  }

  // ----- one proxy decides exactly as redis alone would -----

  /** The answers given to the requests of a run. */
  function Answers(max: nat, s: System, steps: seq<Step>): seq<bool>
    decreases |steps|
  {
    if steps == [] then []
    else
      (if steps[0].Asks? && steps[0].proxy < |s.proxies|
       then [Ask(max, s.redis, s.proxies[steps[0].proxy], steps[0].count, steps[0].up).answer.Allowed?]
       else [])
      + Answers(max, Apply(max, s, steps[0]), steps[1..])
  }

  /** A plain redis limiter that counts every request of proxy 0. */
  function PlainAnswers(max: nat, total: nat, steps: seq<Step>): seq<bool>
    decreases |steps|
  {
    if steps == [] then []
    else if steps[0].Asks? && steps[0].proxy == 0 then
      [max > 0 && total + steps[0].count <= max] + PlainAnswers(max, total + steps[0].count, steps[1..])
    else PlainAnswers(max, total, steps[1..])
  }

  ghost predicate Mirrors(max: nat, s: System, total: nat) {
    && |s.proxies| == 1 && |s.proxies[0].pending| <= 1
    && var p := s.proxies[0];
       if max == 0 then p.pending == []
       else if p.local.None? then p.pending == [] && s.redis == total == 0
       else if p.pending != [] then p.local.value == total <= Headroom(max) && s.redis + p.pending[0] == total
       else (p.local.value == s.redis == total) || (p.local.value > max && total > max)
  }

  lemma {:induction false} MirrorsStep(max: nat, s: System, total: nat, step: Step)
    requires Mirrors(max, s, total) && step.proxy == 0 && step.up
    requires step.Asks? ==> s.proxies[0].pending == []
    ensures Mirrors(max, Apply(max, s, step), if step.Asks? then total + step.count else total)
    ensures step.Asks? ==>
      (Ask(max, s.redis, s.proxies[0], step.count, true).answer.Allowed? <==> max > 0 && total + step.count <= max)
  {
    if step.Settles? && step.k < |s.proxies[0].pending| && max > 0 {
      assert s.proxies[0].pending[..step.k] + s.proxies[0].pending[step.k + 1..] == [];
    }
  }

  lemma {:induction false} RunMirrors(max: nat, s: System, total: nat, steps: seq<Step>)
    requires Mirrors(max, s, total) && Sequenced(max, s, steps) && AlwaysUp(steps)
    ensures Answers(max, s, steps) == PlainAnswers(max, total, steps)
    decreases |steps|
  {
    if steps != [] {
      var step := steps[0];
      if step.proxy == 0 {
        MirrorsStep(max, s, total, step);
        RunMirrors(max, Apply(max, s, step), if step.Asks? then total + step.count else total, steps[1..]);
      } else {
        RunMirrors(max, s, total, steps[1..]);
      }
    }
  }

  /** Whenever its background updates happen to finish, one proxy answers every request exactly as redis alone would,
      although redis never hears of the requests rejected locally. */
  lemma {:induction false} OneProxyIsExact(max: nat, steps: seq<Step>)
    requires Sequenced(max, NewSystem(1), steps) && AlwaysUp(steps)
    ensures Answers(max, NewSystem(1), steps) == PlainAnswers(max, 0, steps)
  {
    RunMirrors(max, NewSystem(1), 0, steps);
  }
}

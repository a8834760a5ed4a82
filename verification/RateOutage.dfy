/** The rate limiter while redis cannot be reached, all the time or now and then. */
module RateOutage {
  import opened Options
  import opened RateLimiter

  /** At every request of every run, whatever redis did before: with redis down it is allowed exactly when nothing is
      cached or the cached count leaves room for it. */
  lemma {:induction false} DownRequestAllowedIff(max: nat, n: nat, steps: seq<Step>, i: nat)
    requires i < |steps| && steps[i].Asks? && steps[i].proxy < n && !steps[i].up && max > 0
    ensures var s := Run(max, NewSystem(n), steps[..i]);
      && |s.proxies| == n
      && var p := s.proxies[steps[i].proxy];
         Ask(max, s.redis, p, steps[i].count, false).answer.Allowed?
         <==> p.local.None? || p.local.value + steps[i].count <= max
  {
    RunKeepsProxies(max, NewSystem(n), steps[..i]);
    var s := Run(max, NewSystem(n), steps[..i]);
    AllowedIff(max, s.redis, s.proxies[steps[i].proxy], steps[i].count, false);
  }

  lemma {:induction false} RunKeepsProxies(max: nat, s: System, steps: seq<Step>)
    ensures |Run(max, s, steps).proxies| == |s.proxies|
    decreases |steps|
  {
    if steps != [] {
      RunKeepsProxies(max, Apply(max, s, steps[0]), steps[1..]);
    }
  }

  // ----- redis is down all the time -----

  predicate AlwaysDown(steps: seq<Step>) { forall i | 0 <= i < |steps| :: !steps[i].up }

  /** A limiter that counts by itself the requests of proxy 0 after the first, which it lets through uncounted. */
  function LocalAnswers(max: nat, total: Option<nat>, steps: seq<Step>): seq<bool>
    decreases |steps|
  {
    if steps == [] then []
    else if steps[0].Asks? && steps[0].proxy == 0 then
      if total.None? then [max > 0] + LocalAnswers(max, Some(0), steps[1..])
      else [max > 0 && total.value + steps[0].count <= max]
           + LocalAnswers(max, Some(total.value + steps[0].count), steps[1..])
    else LocalAnswers(max, total, steps[1..])
  }

  /** With a zero limit nothing is ever cached, and nothing allowed. */
  ghost predicate CountsAlone(max: nat, s: System, total: Option<nat>) {
    |s.proxies| == 1 && (max > 0 ==> s.proxies[0].local == total)
  }

  lemma {:induction false} RunCountsAlone(max: nat, s: System, total: Option<nat>, steps: seq<Step>)
    requires CountsAlone(max, s, total) && AlwaysDown(steps)
    ensures Answers(max, s, steps) == LocalAnswers(max, total, steps)
    decreases |steps|
  {
    if steps != [] {
      var step := steps[0];
      assert !step.up;
      var next := if step.Asks? && step.proxy == 0
                  then Some(if total.None? then 0 else total.value + step.count) else total;
      RunCountsAlone(max, Apply(max, s, step), next, steps[1..]);
    }
  }

  /** During an outage one proxy answers exactly as such a limiter would, however its background updates fail. */
  lemma {:induction false} OutageIsLocal(max: nat, steps: seq<Step>)
    requires AlwaysDown(steps)
    ensures Answers(max, NewSystem(1), steps) == LocalAnswers(max, None, steps)
  {
    RunCountsAlone(max, NewSystem(1), None, steps);
  }

  /** The most a proxy can have admitted by itself: the first request, and what it has counted since. */
  ghost function Alone(max: nat, c: nat, p: Proxy): nat {
    if p.local.None? then 0 else c + if p.local.value < max then p.local.value else max
  }

  ghost function TotalAlone(max: nat, c: nat, ps: seq<Proxy>): nat {
    if ps == [] then 0 else Alone(max, c, ps[0]) + TotalAlone(max, c, ps[1..])
  }

  lemma {:induction false} TotalAloneUpdate(max: nat, c: nat, ps: seq<Proxy>, i: nat, p: Proxy)
    requires i < |ps|
    ensures TotalAlone(max, c, ps[i := p]) + Alone(max, c, ps[i]) == TotalAlone(max, c, ps) + Alone(max, c, p)
  {
    if i == 0 {
      assert ps[i := p][1..] == ps[1..];
    } else {
      assert ps[i := p][1..] == ps[1..][i - 1 := p];
      TotalAloneUpdate(max, c, ps[1..], i - 1, p);
    }
  }

  lemma {:induction false} TotalAloneBound(max: nat, c: nat, ps: seq<Proxy>)
    ensures TotalAlone(max, c, ps) <= |ps| * (max + c)
  {
    if ps != [] {
      TotalAloneBound(max, c, ps[1..]);
      var n := |ps| - 1;
      assert (n + 1) * (max + c) == n * (max + c) + (max + c);
    }
  }

  lemma {:induction false} NothingAlone(max: nat, c: nat, ps: seq<Proxy>)
    requires forall i | 0 <= i < |ps| :: ps[i].local.None?
    ensures TotalAlone(max, c, ps) == 0
  {
    if ps != [] {
      NothingAlone(max, c, ps[1..]);
    }
  }

  lemma {:induction false} DownStep(max: nat, c: nat, s: System, step: Step)
    requires max > 0 && !step.up && (step.Asks? ==> step.count <= c)
    requires s.admitted <= TotalAlone(max, c, s.proxies)
    ensures var s' := Apply(max, s, step);
      s'.admitted <= TotalAlone(max, c, s'.proxies) && |s'.proxies| == |s.proxies|
  {
    var s' := Apply(max, s, step);
    if step.proxy < |s.proxies| {
      var p := s'.proxies[step.proxy];
      assert s'.proxies == s.proxies[step.proxy := p];
      TotalAloneUpdate(max, c, s.proxies, step.proxy, p);
    }
  }

  lemma {:induction false} RunDown(max: nat, c: nat, s: System, steps: seq<Step>)
    requires max > 0 && AlwaysDown(steps) && CountsAtMost(steps, c)
    requires s.admitted <= TotalAlone(max, c, s.proxies)
    ensures Run(max, s, steps).admitted <= |s.proxies| * (max + c)
    decreases |steps|
  {
    if steps == [] {
      TotalAloneBound(max, c, s.proxies);
    } else {
      assert !steps[0].up && (steps[0].Asks? ==> steps[0].count <= c);
      DownStep(max, c, s, steps[0]);
      RunDown(max, c, Apply(max, s, steps[0]), steps[1..]);
    }
  }

  ghost function MostInOutage(max: nat, c: nat, n: nat): nat {
    if max == 0 || c == 0 then 0 else n * (max + c)
  }

  /** During an outage every proxy admits at most the limit and one request, however its updates overlap. */
  lemma {:induction false} OutageAdmitsAtMost(max: nat, c: nat, n: nat, steps: seq<Step>)
    requires AlwaysDown(steps) && CountsAtMost(steps, c)
    ensures Run(max, NewSystem(n), steps).admitted <= MostInOutage(max, c, n)
  {
    if max == 0 || c == 0 {
      RunNothing(max, NewSystem(n), steps);
    } else {
      NothingAlone(max, c, NewSystem(n).proxies);
      RunDown(max, c, NewSystem(n), steps);
    }
  }

  /** The first `k` proxies have used up all they can; the next has been let through once and counted `u` since. */
  ghost function UsedAlone(max: nat, c: nat, n: nat, k: nat, u: Option<nat>): System {
    System(0, seq(n, i => if i < k then Proxy(Some(max), []) else if i == k then Proxy(u, []) else Proxy(None, [])),
           k * (max + c) + if u.None? then 0 else c + u.value)
  }

  lemma {:induction false} UseOneAlone(max: nat, c: nat, n: nat, k: nat, u: nat) returns (steps: seq<Step>)
    requires k < n && u < max && c > 0
    ensures Run(max, UsedAlone(max, c, n, k, Some(u)), steps) == UsedAlone(max, c, n, k, Some(u + 1))
    ensures AlwaysDown(steps) && CountsAtMost(steps, c)
  {
    var s, e := UsedAlone(max, c, n, k, Some(u)), UsedAlone(max, c, n, k, Some(u + 1));
    var t := Apply(max, s, Asks(k, 1, false));
    if u + 1 <= Headroom(max) {
      steps := [Asks(k, 1, false), Settles(k, 0, false)];
      assert s.proxies[k].pending + [1] == [1];
      assert t.proxies[k] == Proxy(Some(u + 1), [1]) && t.proxies[k].pending[..0] + t.proxies[k].pending[1..] == [];
      assert Apply(max, t, steps[1]) == e;
      assert steps[1..] == [Settles(k, 0, false)] && steps[1..][1..] == [];
      assert Run(max, t, steps[1..]) == Run(max, e, []);
    } else {
      steps := [Asks(k, 1, false)];
      assert t == e && steps[1..] == [];
    }
  }

  lemma {:induction false} UseAllAlone(max: nat, c: nat, n: nat, k: nat, u: nat) returns (steps: seq<Step>)
    requires k < n && u <= max && c > 0
    ensures Run(max, UsedAlone(max, c, n, k, Some(u)), steps) == UsedAlone(max, c, n, k, Some(max))
    ensures AlwaysDown(steps) && CountsAtMost(steps, c)
    decreases max - u
  {
    if u == max {
      steps := [];
    } else {
      var first := UseOneAlone(max, c, n, k, u);
      var rest := UseAllAlone(max, c, n, k, u + 1);
      steps := first + rest;
      RunAppend(max, UsedAlone(max, c, n, k, Some(u)), first, rest);
    }
  }

  /** The next proxy is let through once, then uses up the limit. */
  lemma {:induction false} NextAlone(max: nat, c: nat, n: nat, k: nat) returns (steps: seq<Step>)
    requires k < n && max > 0 && c > 0
    ensures Run(max, UsedAlone(max, c, n, k, None), steps) == UsedAlone(max, c, n, k + 1, None)
    ensures AlwaysDown(steps) && CountsAtMost(steps, c)
  {
    var first := [Asks(k, c, false)];
    var rest := UseAllAlone(max, c, n, k, 0);
    steps := first + rest;
    var s := UsedAlone(max, c, n, k, None);
    assert Apply(max, s, first[0]) == UsedAlone(max, c, n, k, Some(0));
    assert first[1..] == [] && Run(max, s, first) == UsedAlone(max, c, n, k, Some(0));
    RunAppend(max, s, first, rest);
    assert (k + 1) * (max + c) == k * (max + c) + (max + c);
    assert UsedAlone(max, c, n, k, Some(max)) == UsedAlone(max, c, n, k + 1, None);
  }

  lemma {:induction false} AllAlone(max: nat, c: nat, n: nat, k: nat) returns (steps: seq<Step>)
    requires k <= n && max > 0 && c > 0
    ensures Run(max, NewSystem(n), steps) == UsedAlone(max, c, n, k, None)
    ensures AlwaysDown(steps) && CountsAtMost(steps, c)
  {
    if k == 0 {
      steps := [];
      assert NewSystem(n) == UsedAlone(max, c, n, 0, None);
    } else {
      var before := AllAlone(max, c, n, k - 1);
      var last := NextAlone(max, c, n, k - 1);
      steps := before + last;
      RunAppend(max, NewSystem(n), before, last);
    }
  }

  /** And some run during an outage admits exactly that much. */
  lemma {:induction false} OutageBoundIsAttained(max: nat, c: nat, n: nat)
    ensures exists steps :: AlwaysDown(steps) && CountsAtMost(steps, c)
                            && Run(max, NewSystem(n), steps).admitted == MostInOutage(max, c, n)
  {
    var steps: seq<Step> := [];
    if max > 0 && c > 0 {
      steps := AllAlone(max, c, n, n);
    }
    assert AlwaysDown(steps) && CountsAtMost(steps, c)
           && Run(max, NewSystem(n), steps).admitted == MostInOutage(max, c, n);
  }

  // ----- redis is down now and then -----

  /** The first proxy has cached the key and believes that nothing was used, as redis does; `k` requests of `d`
      passed. */
  ghost function Unnoticed(n: nat, d: nat, k: nat): System
    requires n > 0
  {
    System(0, seq(n, i => if i == 0 then Proxy(Some(0), []) else Proxy(None, [])), k * d)
  }

  /** A request whose update is lost, with redis down: only the local count remembers it. */
  lemma {:induction false} LoseOne(max: nat, n: nat, d: nat, k: nat, s: System) returns (steps: seq<Step>, t: System)
    requires n > 0 && d <= max && max > 0 && s == Unnoticed(n, d, k)
    ensures Run(max, s, steps) == t && Sequenced(max, s, steps) && CountsAtMost(steps, d)
    ensures t == System(0, s.proxies[0 := Proxy(Some(d), [])], k * d + d)
  {
    t := System(0, s.proxies[0 := Proxy(Some(d), [])], k * d + d);
    var u := Apply(max, s, Asks(0, d, false));
    if d <= Headroom(max) {
      steps := [Asks(0, d, false), Settles(0, 0, false)];
      assert s.proxies[0].pending + [d] == [d];
      assert u.proxies[0] == Proxy(Some(d), [d]) && u.proxies[0].pending[..0] + u.proxies[0].pending[1..] == [];
      assert Apply(max, u, steps[1]) == t;
      assert steps[1..] == [Settles(0, 0, false)] && steps[1..][1..] == [];
      assert Run(max, u, steps[1..]) == Run(max, t, []) == t;
    } else {
      steps := [Asks(0, d, false)];
      assert u == t && steps[1..] == [];
    }
  }

  /** An empty request, with redis up: the local count becomes redis' own, which is zero. */
  lemma {:induction false} ForgetIt(max: nat, n: nat, d: nat, k: nat, s: System) returns (steps: seq<Step>)
    requires n > 0 && d <= max && max > 0
    requires s == System(0, Unnoticed(n, d, k).proxies[0 := Proxy(Some(d), [])], k * d + d)
    ensures Run(max, s, steps) == Unnoticed(n, d, k + 1) && Sequenced(max, s, steps) && CountsAtMost(steps, d)
  {
    var e := Unnoticed(n, d, k + 1);
    assert (k + 1) * d == k * d + d;
    var u := Apply(max, s, Asks(0, 0, true));
    if d <= Headroom(max) {
      steps := [Asks(0, 0, true), Settles(0, 0, true)];
      assert s.proxies[0].pending + [0] == [0];
      assert u.proxies[0] == Proxy(Some(d), [0]) && u.proxies[0].pending[..0] + u.proxies[0].pending[1..] == [];
      assert Apply(max, u, steps[1]) == e;
      assert steps[1..] == [Settles(0, 0, true)] && steps[1..][1..] == [];
      assert Run(max, u, steps[1..]) == Run(max, e, []) == e;
    } else {
      steps := [Asks(0, 0, true)];
      assert u == e && steps[1..] == [];
    }
  }

  lemma {:induction false} LoseMany(max: nat, n: nat, d: nat, k: nat) returns (steps: seq<Step>)
    requires n > 0 && d <= max && max > 0
    ensures Run(max, NewSystem(n), steps) == Unnoticed(n, d, k)
    ensures Sequenced(max, NewSystem(n), steps) && CountsAtMost(steps, d)
  {
    if k == 0 {
      steps := [Asks(0, 0, true)];
      var s := Apply(max, NewSystem(n), steps[0]);
      assert s.proxies == Unnoticed(n, d, 0).proxies && 0 * d == 0;
      assert steps[1..] == [];
    } else {
      var before := LoseMany(max, n, d, k - 1);
      var s := Unnoticed(n, d, k - 1);
      var one, t := LoseOne(max, n, d, k - 1, s);
      var two := ForgetIt(max, n, d, k - 1, t);
      RunAppend(max, s, one, two);
      RunAppend(max, NewSystem(n), before, one + two);
      steps := before + (one + two);
    }
  }

  /** With redis down now and then there is no bound, although every update is done before the next request. */
  lemma {:induction false} OutagesOvershoot(max: nat, c: nat, n: nat, k: nat)
    requires max > 0 && n > 0
    ensures exists steps :: Sequenced(max, NewSystem(n), steps) && CountsAtMost(steps, c)
                            && Run(max, NewSystem(n), steps).admitted == k * (if c < max then c else max)
  {
    var d := if c < max then c else max;
    var steps := LoseMany(max, n, d, k);
    assert Sequenced(max, NewSystem(n), steps) && CountsAtMost(steps, c)
           && Run(max, NewSystem(n), steps).admitted == k * d;
  }

  /** All sequenced runs, whenever redis is down, stay within the limit exactly when nothing can be admitted at all. */
  lemma {:induction false} OutageLimitIff(max: nat, c: nat, n: nat)
    ensures (forall steps | Sequenced(max, NewSystem(n), steps) && CountsAtMost(steps, c) ::
               Run(max, NewSystem(n), steps).admitted <= max)
            <==> max == 0 || c == 0 || n == 0
  {
    if max == 0 || c == 0 || n == 0 {
      forall steps | Sequenced(max, NewSystem(n), steps) && CountsAtMost(steps, c)
        ensures Run(max, NewSystem(n), steps).admitted <= max
      {
        RunNothing(max, NewSystem(n), steps);
      }
    } else {
      OutagesOvershoot(max, c, n, max + 1);
      Exceeds(max, if c < max then c else max);
    }
  }
}

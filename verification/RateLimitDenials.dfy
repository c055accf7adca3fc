/** Nobody is turned away for nothing: whenever the limiter denies a check, some window that ends with it
    is full. With the bound on every window this says exactly what the limiter lets through. */
module RateLimitDenials {
  import opened RateLimit

  /** The calls from `k` on have let `id` through so often that one more would exceed what the policy
      allows from the time of call `k`, itself a check of `id`, up to `now`. */
  ghost predicate IsFull(calls: seq<Call>, answers: seq<bool>, id: BucketId, p: Policy, k: nat, now: real)
    requires |calls| == |answers|
  {
    && k < |calls| && calls[k].CheckAt? && calls[k].id == id
    && Grants(calls[k..], answers[k..], id) as real + 1.0 > p.capacity + Gained(now - calls[k].now, p.refill)
  }

  /** The bucket holds what the policy gave since call `k`, when it was full, less what was let through. */
  ghost predicate Accounts(calls: seq<Call>, answers: seq<bool>, id: BucketId, p: Policy, k: nat, b: Bucket)
    requires |calls| == |answers|
  {
    && k < |calls| && calls[k].CheckAt? && calls[k].id == id && calls[k].now <= b.lastRefill && b.policy == p
    && b.tokens == p.capacity + Gained(b.lastRefill - calls[k].now, p.refill)
                   - Grants(calls[k..], answers[k..], id) as real
  }

  ghost predicate Accounted(lim: Limiter, calls: seq<Call>, answers: seq<bool>, id: BucketId, p: Policy, now: real)
    requires |calls| == |answers|
  {
    && id.route in lim.policies && lim.policies[id.route] == p
    && (id in lim.buckets ==>
          lim.buckets[id].lastRefill <= now && exists k: nat :: Accounts(calls, answers, id, p, k, lim.buckets[id]))
  }

  lemma {:induction false} GrantsOfConcatenation(a: seq<Call>, x: seq<bool>, b: seq<Call>, y: seq<bool>, id: BucketId)
    requires |a| == |x| && |b| == |y|
    ensures Grants(a + b, x + y, id) == Grants(a, x, id) + Grants(b, y, id)
    decreases |a|
  {
    if a == [] {
      assert a + b == b && x + y == y;
    } else {
      assert (a + b)[1..] == a[1..] + b && (x + y)[1..] == x[1..] + y;
      GrantsOfConcatenation(a[1..], x[1..], b, y, id);
    }
  }

  lemma GrantsOfOne(c: Call, answer: bool, id: BucketId)
    ensures Grants([c], [answer], id) == if c.CheckAt? && c.id == id && answer then 1 else 0
  {
    assert [c][1..] == [] && [answer][1..] == [];
  }

  /** One more call at the end of the window that began with call `k`. */
  lemma OneMoreInWindow(calls: seq<Call>, answers: seq<bool>, c: Call, answer: bool, id: BucketId, k: nat)
    requires |calls| == |answers| && k <= |calls|
    ensures Grants((calls + [c])[k..], (answers + [answer])[k..], id)
         == Grants(calls[k..], answers[k..], id) + if c.CheckAt? && c.id == id && answer then 1 else 0
  {
    assert (calls + [c])[k..] == calls[k..] + [c] && (answers + [answer])[k..] == answers[k..] + [answer];
    GrantsOfConcatenation(calls[k..], answers[k..], [c], [answer], id);
    GrantsOfOne(c, answer, id);
  }

  lemma GainsAdd(refill: real, start: real, mid: real, now: real)
    ensures Gained(mid - start, refill) + Gained(now - mid, refill) == Gained(now - start, refill)
    ensures Gained(now - now, refill) == 0.0
  {
  }

  /** A check of `id`: what its bucket holds afterwards is accounted for, and if it was denied then a
      window is full. */
  lemma OwnCheckIsAccountedFor(
    lim: Limiter, calls: seq<Call>, answers: seq<bool>, id: BucketId, p: Policy, start: real, now: real)
    returns (k: nat)
    requires |calls| == |answers| && Accounted(lim, calls, answers, id, p, start) && start <= now
    ensures var (next, answer) := Check(lim, now, id, false);
            var (longer, answered) := (calls + [CheckAt(now, id)], answers + [answer]);
            && id in next.buckets && Accounts(longer, answered, id, p, k, next.buckets[id])
            && (!answer ==> IsFull(longer, answered, id, p, k, now))
  {
    var b := BucketFor(lim, id, now);
    var (after, answer) := Take(b, now);
    GainsAdd(p.refill, now, now, now);
    if id in lim.buckets {
      k :| Accounts(calls, answers, id, p, k, b);
      if Refilled(b, now).tokens == p.capacity && b.lastRefill < now {
        k := |calls|;
        OneMoreInWindow(calls, answers, CheckAt(now, id), answer, id, k);
      } else {
        GainsAdd(p.refill, calls[k].now, b.lastRefill, now);
        OneMoreInWindow(calls, answers, CheckAt(now, id), answer, id, k);
        assert (calls + [CheckAt(now, id)])[k] == calls[k];
      }
    } else {
      k := |calls|;
      OneMoreInWindow(calls, answers, CheckAt(now, id), answer, id, k);
    }
  }

  lemma OtherStepKeepsAccounts(
    lim: Limiter, calls: seq<Call>, answers: seq<bool>, c: Call, id: BucketId, p: Policy, start: real, now: real)
    requires |calls| == |answers| && Accounted(lim, calls, answers, id, p, start) && start <= now
    requires c.CheckAt? ==> c.id != id && c.now == now
    requires c.Reconfigure? ==> c.route != id.route
    ensures var (next, answer) := Step(lim, c, false);
            Accounted(next, calls + [c], answers + [answer], id, p, now)
  {
    var (next, answer) := Step(lim, c, false);
    if id in lim.buckets {
      assert id in next.buckets && next.buckets[id] == lim.buckets[id];
      var k: nat :| Accounts(calls, answers, id, p, k, lim.buckets[id]);
      OneMoreInWindow(calls, answers, c, answer, id, k);
      assert (calls + [c])[k] == calls[k];
      assert Accounts(calls + [c], answers + [answer], id, p, k, next.buckets[id]);
    } else {
      assert id !in next.buckets;
    }
  }

  /** Along a run: `before` has been answered with `sofar`, `calls` are still to come. */
  lemma {:induction false} RunIsAccountedFor(
    lim: Limiter, before: seq<Call>, sofar: seq<bool>, calls: seq<Call>, id: BucketId, p: Policy, start: real,
    finish: real)
    requires |before| == |sofar| && Accounted(lim, before, sofar, id, p, start)
    requires ClockRuns(calls, start, finish) && NeverReconfigures(calls, id.route)
    ensures start <= finish
    ensures var (after, answers) := Run(lim, calls, false);
            Accounted(after, before + calls, sofar + answers, id, p, finish)
    decreases |calls|
  {
    if calls == [] {
      assert before + calls == before && sofar + Run(lim, calls, false).1 == sofar;
    } else {
      var c := calls[0];
      var (next, answer) := Step(lim, c, false);
      var now := if c.CheckAt? then c.now else start;
      if c.CheckAt? && c.id == id {
        var k := OwnCheckIsAccountedFor(lim, before, sofar, id, p, start, now);
      } else {
        OtherStepKeepsAccounts(lim, before, sofar, c, id, p, start, now);
      }
      RunIsAccountedFor(next, before + [c], sofar + [answer], calls[1..], id, p, now, finish);
      assert before + [c] + calls[1..] == before + calls;
      assert sofar + [answer] + Run(next, calls[1..], false).1 == sofar + Run(lim, calls, false).1;
    }
  }

  /** Over every run of a fresh limiter, pruned or not, in which nobody reconfigures the caller's route: a
      check of it is denied only if a window that ends with it is full. */
  lemma DeniedOnlyWhenFull(
    policies: map<Route, Policy>, calls: seq<Call>, id: BucketId, epoch: real, now: real)
    requires PoliciesRefill(policies) && CallsRefill(calls) && id.route in policies
    requires ClockRuns(calls, epoch, now) && NeverReconfigures(calls, id.route)
    ensures var (lim, answers) := Run(Limiter(policies, map[]), calls, true);
            var answer := Check(lim, now, id, true).1;
            !answer ==>
              exists k: nat :: IsFull(calls + [CheckAt(now, id)], answers + [answer], id, policies[id.route], k, now)
  {
    var empty := Limiter(policies, map[]);
    var (full, answers) := Run(empty, calls, false);
    PruningIsInvisible(empty, empty, calls, epoch, now);
    RunKeepsBothLimiters(empty, empty, calls, epoch, now);
    RunIsAccountedFor(empty, [], [], calls, id, policies[id.route], epoch, now);
    assert [] + calls == calls && [] + answers == answers;
    CheckKeepsAnswers(Run(empty, calls, true).0, full, id, now, now);
    var k := OwnCheckIsAccountedFor(full, calls, answers, id, policies[id.route], now, now);
  }

  // ---- the built-in limits, in numbers --------------------------------------------------------------

  /** How many requests a route lets a caller make at once, and at what rate after that. */
  const BUILT_IN: map<Route, Policy> :=
    map["capture" := Policy(10.0, 1.0 / 6.0), "confirm" := Policy(10.0, 1.0 / 6.0),
        "login" := Policy(5.0, 1.0 / 12.0), "login-sso" := Policy(15.0, 0.25)]

  lemma PoliciesAreTheLimits()
    ensures DefaultPolicies() == BUILT_IN
  {
  }

  /** The burst and what comes after it in so many seconds. */
  function Allowance(p: Policy, seconds: real): real {
    p.capacity + seconds * p.refill
  }

  lemma AllowanceIsGained(p: Policy, seconds: real)
    ensures Allowance(p, seconds) == p.capacity + Gained(seconds, p.refill)
  {
  }

  /** With the built-in limits, over every run of checks of a fresh limiter: no window lets a caller
      through more than the route allows for its length. */
  lemma BuiltInWindowsAreBounded(
    before: seq<Call>, window: seq<Call>, id: BucketId, epoch: real, start: real, finish: real)
    requires forall c :: c in before + window ==> c.CheckAt?
    requires ClockRuns(before, epoch, start) && ClockRuns(window, start, finish)
    requires id.route in BUILT_IN
    ensures var lim := Run(Limiter(DefaultPolicies(), map[]), before, true).0;
            Grants(window, Run(lim, window, true).1, id) as real <= Allowance(BUILT_IN[id.route], finish - start)
  {
    PoliciesAreTheLimits();
    OnlyChecks(before, window);
    DefaultLimiterIsBounded(before, window, id, epoch, start, finish);
    ObeyedWithinAllowance(Run(Limiter(DefaultPolicies(), map[]), before, true).0, window, id,
                          DefaultPolicies()[id.route], start, finish);
  }

  lemma ObeyedWithinAllowance(lim: Limiter, window: seq<Call>, id: BucketId, p: Policy, start: real, finish: real)
    requires Obeys(lim, window, id, p, start, finish)
    requires (forall c :: c in window ==> c.CheckAt?) && ClockRuns(window, start, finish)
    ensures Grants(window, Run(lim, window, true).1, id) as real <= Allowance(p, finish - start)
  {
    AllowanceIsGained(p, finish - start);
  }

  lemma DenialsAreDue(policies: map<Route, Policy>, calls: seq<Call>, id: BucketId, epoch: real, now: real)
    requires PoliciesRefill(policies) && CallsRefill(calls) && id.route in policies
    requires ClockRuns(calls, epoch, now) && NeverReconfigures(calls, id.route)
    ensures var (lim, answers) := Run(Limiter(policies, map[]), calls, true);
            var (longer, answered) := (calls + [CheckAt(now, id)], answers + [Check(lim, now, id, true).1]);
            !Check(lim, now, id, true).1 ==> exists k: nat :: Exhausts(longer, answered, id, policies[id.route], k, now)
  {
    DeniedOnlyWhenFull(policies, calls, id, epoch, now);
    var (lim, answers) := Run(Limiter(policies, map[]), calls, true);
    var (longer, answered) := (calls + [CheckAt(now, id)], answers + [Check(lim, now, id, true).1]);
    if !Check(lim, now, id, true).1 {
      var k: nat :| IsFull(longer, answered, id, policies[id.route], k, now);
      AllowanceIsGained(policies[id.route], now - longer[k].now);
      assert Exhausts(longer, answered, id, policies[id.route], k, now);
    }
  }

  /** One more in the window from call `k`, a check of `id`, up to `now` would be too many. */
  ghost predicate Exhausts(calls: seq<Call>, answers: seq<bool>, id: BucketId, p: Policy, k: nat, now: real)
    requires |calls| == |answers|
  {
    && k < |calls| && calls[k].CheckAt? && calls[k].id == id
    && Grants(calls[k..], answers[k..], id) as real + 1.0 > Allowance(p, now - calls[k].now)
  }

  /** And a check is denied only where one more would break that in a window that ends with it. */
  lemma BuiltInDenialsAreDue(calls: seq<Call>, id: BucketId, epoch: real, now: real)
    requires (forall c :: c in calls ==> c.CheckAt?) && ClockRuns(calls, epoch, now) && id.route in BUILT_IN
    ensures var (lim, answers) := Run(Limiter(DefaultPolicies(), map[]), calls, true);
            var (longer, answered) := (calls + [CheckAt(now, id)], answers + [Check(lim, now, id, true).1]);
            !Check(lim, now, id, true).1 ==>
              exists k: nat :: Exhausts(longer, answered, id, BUILT_IN[id.route], k, now)
  {
    PoliciesAreTheLimits();
    DefaultPoliciesRefill();
    DenialsAreDue(DefaultPolicies(), calls, id, epoch, now);
  }

  // ---- routes without a policy, and the size of the table -----------------------------------------------

  /** A route that nobody has configured is never limited. */
  lemma {:induction false} UnconfiguredRouteIsNeverLimited(
    lim: Limiter, calls: seq<Call>, id: BucketId, k: nat, pruning: bool)
    requires id.route !in lim.policies && NeverReconfigures(calls, id.route)
    requires k < |calls| && calls[k].CheckAt? && calls[k].id == id
    ensures Run(lim, calls, pruning).1[k]
    decreases |calls|
  {
    if k > 0 {
      UnconfiguredRouteIsNeverLimited(Step(lim, calls[0], pruning).0, calls[1..], id, k - 1, pruning);
    }
  }

  /** What pruning takes: nothing from a table of up to 256 buckets, and of a larger one exactly those
      not touched for more than three hundred seconds. */
  lemma PruningTakesExactly(buckets: map<BucketId, Bucket>, now: real, id: BucketId)
    requires id in buckets
    ensures id in Pruned(buckets, now) <==> |buckets| <= 256 || now - buckets[id].lastRefill <= 300.0
    ensures id in Pruned(buckets, now) ==> Pruned(buckets, now)[id] == buckets[id]
  {
  }
}

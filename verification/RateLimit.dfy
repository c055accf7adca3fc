/** The token-bucket limiter, its idle-bucket pruning, and what neither may change: the answers. */
module RateLimit {
  type Route = string
  /** A bucket belongs to one route and one caller. */
  datatype BucketId = BucketId(route: Route, caller: string)

  datatype Policy = Policy(capacity: real, refill: real)
  datatype Bucket = Bucket(tokens: real, lastRefill: real, policy: Policy)
  datatype Limiter = Limiter(policies: map<Route, Policy>, buckets: map<BucketId, Bucket>)

  const PRUNE_AFTER := 300.0
  const PRUNE_ABOVE := 256

  function Min(a: real, b: real): real {
    if a <= b then a else b
  }

  /** What `elapsed` seconds add at `refill` tokens a second. */
  function Gained(elapsed: real, refill: real): real {
    elapsed * refill
  }

  /** The bucket at `now`; a clock that has not moved forward refills nothing. */
  function Refilled(b: Bucket, now: real): Bucket {
    var elapsed := now - b.lastRefill;
    if elapsed > 0.0
    then b.(tokens := Min(b.policy.capacity, b.tokens + Gained(elapsed, b.policy.refill)), lastRefill := now)
    else b
  }

  function Take(b: Bucket, now: real): (Bucket, bool) {
    var full := Refilled(b, now);
    if full.tokens >= 1.0 then (full.(tokens := full.tokens - 1.0), true) else (full, false)
  }

  function BucketFor(lim: Limiter, id: BucketId, now: real): Bucket
    requires id.route in lim.policies
  {
    if id in lim.buckets then lim.buckets[id]
    else Bucket(lim.policies[id.route].capacity, now, lim.policies[id.route])
  }

  predicate Idle(b: Bucket, now: real) {
    now - b.lastRefill > PRUNE_AFTER
  }

  function Pruned(buckets: map<BucketId, Bucket>, now: real): map<BucketId, Bucket> {
    if |buckets| > PRUNE_ABOVE
    then map id | id in buckets && !Idle(buckets[id], now) :: buckets[id]
    else buckets
  }

  /** One `check`; `pruning` off is the limiter that never forgets a bucket. */
  function Check(lim: Limiter, now: real, id: BucketId, pruning: bool): (Limiter, bool) {
    if id.route !in lim.policies then (lim, true)
    else
      var (b, allowed) := Take(BucketFor(lim, id, now), now);
      var buckets := lim.buckets[id := b];
      (lim.(buckets := if pruning then Pruned(buckets, now) else buckets), allowed)
  }

  function Configure(lim: Limiter, route: Route, policy: Policy): Limiter {
    Limiter(lim.policies[route := policy],
            map id | id in lim.buckets ::
              if id.route == route then lim.buckets[id].(policy := policy) else lim.buckets[id])
  }

  // ---- the limiter as the program keeps it ----------------------------------------------------

  class RateLimiter {
    var policies: map<Route, Policy>
    var buckets: map<BucketId, Bucket>

    function State(): Limiter
      reads this
    {
      Limiter(policies, buckets)
    }

    constructor ()
      ensures State() == Limiter(DefaultPolicies(), map[])
    {
      policies, buckets := DefaultPolicies(), map[];
    }

    method ConfigureRoute(route: Route, capacity: real, refill: real)
      modifies this
      ensures State() == Configure(old(State()), route, Policy(capacity, refill))
    {
      policies := policies[route := Policy(capacity, refill)];
      var todo := buckets.Keys;
      ghost var before := buckets;
      while todo != {}
        invariant todo <= before.Keys == buckets.Keys
        invariant policies == old(policies)[route := Policy(capacity, refill)]
        invariant forall id :: id in before.Keys ==>
          buckets[id] == if id.route == route && id !in todo
                         then before[id].(policy := Policy(capacity, refill)) else before[id]
        decreases todo
      {
        var id :| id in todo;
        todo := todo - {id};
        if id.route == route {
          buckets := buckets[id := buckets[id].(policy := Policy(capacity, refill))];
        }
      }
    }

    method CheckRate(now: real, route: Route, caller: string) returns (allowed: bool)
      modifies this
      ensures (State(), allowed) == Check(old(State()), now, BucketId(route, caller), true)
    {
      if route !in policies {
        return true;
      }
      var id := BucketId(route, caller);
      if id !in buckets {
        buckets := buckets[id := Bucket(policies[route].capacity, now, policies[route])];
      }
      var (bucket, granted) := Take(buckets[id], now);
      buckets := buckets[id := bucket];
      assert buckets == old(buckets)[id := bucket];
      allowed := granted;
      PruneIdle(now);
    }

    method PruneIdle(now: real)
      modifies `buckets
      ensures buckets == Pruned(old(buckets), now)
    {
      if |buckets| > PRUNE_ABOVE {
        var stale := set k | k in buckets && Idle(buckets[k], now);
        ghost var all := stale;
        while stale != {}
          invariant stale <= all && buckets == old(buckets) - (all - stale)
          decreases stale
        {
          var k :| k in stale;
          stale := stale - {k};
          buckets := buckets - {k};
        }
      }
    }
  }

  function DefaultPolicies(): map<Route, Policy> {
    map["capture" := Policy(10.0, 1.0 / 6.0), "confirm" := Policy(10.0, 1.0 / 6.0),
        "login" := Policy(5.0, 1.0 / 12.0), "login-sso" := Policy(15.0, 1.0 / 4.0)]
  }

  // ---- whole runs -----------------------------------------------------------------------------

  datatype Call = CheckAt(now: real, id: BucketId) | Reconfigure(route: Route, policy: Policy)

  function Step(lim: Limiter, c: Call, pruning: bool): (Limiter, bool) {
    match c
    case CheckAt(now, id) => Check(lim, now, id, pruning)
    case Reconfigure(route, policy) => (Configure(lim, route, policy), false)
  }

  /** The state after a run, and the answer to each call in it. */
  function Run(lim: Limiter, calls: seq<Call>, pruning: bool): (r: (Limiter, seq<bool>))
    ensures |r.1| == |calls|
    decreases |calls|
  {
    if calls == [] then (lim, [])
    else
      var (next, answer) := Step(lim, calls[0], pruning);
      var (last, answers) := Run(next, calls[1..], pruning);
      (last, [answer] + answers)
  }

  /** Every check's clock reading lies in `start..finish` and never goes back. */
  ghost predicate ClockRuns(calls: seq<Call>, start: real, finish: real) {
    if calls == [] then start <= finish
    else match calls[0]
      case CheckAt(now, _) => start <= now && ClockRuns(calls[1..], now, finish)
      case Reconfigure(_, _) => ClockRuns(calls[1..], start, finish)
  }

  /** A policy whose bucket is full again by the time it may be reaped. */
  predicate RefillsBeforePruning(p: Policy) {
    0.0 <= p.capacity <= PRUNE_AFTER * p.refill
  }

  ghost predicate PoliciesRefill(policies: map<Route, Policy>) {
    forall route :: route in policies ==> RefillsBeforePruning(policies[route])
  }

  lemma DefaultPoliciesRefill()
    ensures PoliciesRefill(DefaultPolicies())
  {
  }

  ghost predicate CallsRefill(calls: seq<Call>) {
    forall c :: c in calls && c.Reconfigure? ==> RefillsBeforePruning(c.policy)
  }

  /** Every bucket carries its route's policy, owes nothing, and was last touched in the past. */
  ghost predicate Consistent(lim: Limiter, now: real) {
    forall id :: id in lim.buckets ==>
      && id.route in lim.policies && lim.buckets[id].policy == lim.policies[id.route]
      && 0.0 <= lim.buckets[id].tokens && lim.buckets[id].lastRefill <= now
  }

  /** The pruning limiter holds the other one's buckets, except some that have gone idle. */
  ghost predicate Forgets(lean: Limiter, full: Limiter, now: real) {
    && lean.policies == full.policies
    && (forall id :: id in lean.buckets ==> id in full.buckets && lean.buckets[id] == full.buckets[id])
    && (forall id :: id in full.buckets && id !in lean.buckets ==> Idle(full.buckets[id], now))
  }

  lemma GainsGrow(a: real, b: real, refill: real)
    requires a <= b && 0.0 <= refill
    ensures Gained(a, refill) <= Gained(b, refill)
    ensures Gained(0.0, refill) == 0.0
  {
  }

  /** An idle bucket has refilled: it answers as a brand-new one would. */
  lemma IdleBucketIsFull(b: Bucket, now: real)
    requires RefillsBeforePruning(b.policy) && 0.0 <= b.tokens && Idle(b, now)
    ensures Refilled(b, now) == Refilled(Bucket(b.policy.capacity, now, b.policy), now)
  {
    GainsGrow(PRUNE_AFTER, now - b.lastRefill, b.policy.refill);
  }

  lemma TakeKeepsBucketSound(b: Bucket, now: real)
    requires 0.0 <= b.policy.capacity && 0.0 <= b.policy.refill && 0.0 <= b.tokens && b.lastRefill <= now
    ensures var b' := Take(b, now).0; 0.0 <= b'.tokens && b'.lastRefill == now && b'.policy == b.policy
  {
    GainsGrow(0.0, now - b.lastRefill, b.policy.refill);
  }

  lemma ForgettingIdleBuckets(lean: Limiter, full: Limiter, now: real)
    requires Forgets(lean, full, now)
    ensures Forgets(lean.(buckets := Pruned(lean.buckets, now)), full, now)
  {
  }

  /** A forgotten bucket and its idle original give the same answer and the same bucket. */
  lemma TakesTheSame(lean: Limiter, full: Limiter, id: BucketId, start: real, now: real)
    requires PoliciesRefill(full.policies) && Consistent(full, start) && Forgets(lean, full, start) && start <= now
    requires id.route in full.policies
    ensures Take(BucketFor(lean, id, now), now) == Take(BucketFor(full, id, now), now)
    ensures var b := Take(BucketFor(full, id, now), now).0;
            0.0 <= b.tokens && b.lastRefill == now && b.policy == full.policies[id.route]
  {
    var b := BucketFor(full, id, now);
    assert RefillsBeforePruning(full.policies[id.route]);
    if id in full.buckets && id !in lean.buckets {
      IdleBucketIsFull(b, now);
    }
    TakeKeepsBucketSound(b, now);
  }

  lemma PutKeepsForgets(lean: Limiter, full: Limiter, id: BucketId, b: Bucket, start: real, now: real)
    requires Forgets(lean, full, start) && start <= now
    ensures Forgets(lean.(buckets := lean.buckets[id := b]), full.(buckets := full.buckets[id := b]), now)
  {
  }

  lemma PutKeepsConsistent(full: Limiter, id: BucketId, b: Bucket, start: real, now: real)
    requires Consistent(full, start) && start <= now && id.route in full.policies
    requires 0.0 <= b.tokens && b.lastRefill == now && b.policy == full.policies[id.route]
    ensures Consistent(full.(buckets := full.buckets[id := b]), now)
  {
  }

  lemma CheckKeepsAnswers(lean: Limiter, full: Limiter, id: BucketId, start: real, now: real)
    requires PoliciesRefill(full.policies) && Consistent(full, start) && Forgets(lean, full, start) && start <= now
    ensures var (lean', a) := Check(lean, now, id, true); var (full', b) := Check(full, now, id, false);
            a == b && Forgets(lean', full', now) && Consistent(full', now) && full'.policies == full.policies
  {
    if id.route in full.policies {
      TakesTheSame(lean, full, id, start, now);
      var b := Take(BucketFor(full, id, now), now).0;
      PutKeepsForgets(lean, full, id, b, start, now);
      PutKeepsConsistent(full, id, b, start, now);
      ForgettingIdleBuckets(lean.(buckets := lean.buckets[id := b]), full.(buckets := full.buckets[id := b]), now);
    }
  }

  lemma StepKeepsAnswers(lean: Limiter, full: Limiter, c: Call, start: real, now: real)
    requires PoliciesRefill(full.policies) && (c.Reconfigure? ==> RefillsBeforePruning(c.policy))
    requires Consistent(full, start) && Forgets(lean, full, start)
    requires start <= now && (c.CheckAt? ==> c.now == now)
    ensures var (lean', a) := Step(lean, c, true); var (full', b) := Step(full, c, false);
            && a == b && Forgets(lean', full', now)
            && Consistent(full', now) && PoliciesRefill(full'.policies)
  {
    if c.CheckAt? {
      CheckKeepsAnswers(lean, full, c.id, start, now);
    }
  }

  /** The main refinement: forgetting idle buckets never changes an answer, whatever the calls,
      the callers and the reconfigurations. */
  lemma {:induction false} PruningIsInvisible(lean: Limiter, full: Limiter, calls: seq<Call>, start: real, finish: real)
    requires PoliciesRefill(full.policies) && CallsRefill(calls) && ClockRuns(calls, start, finish)
    requires Consistent(full, start) && Forgets(lean, full, start)
    ensures Run(lean, calls, true).1 == Run(full, calls, false).1
    decreases |calls|
  {
    if calls != [] {
      var now := if calls[0].CheckAt? then calls[0].now else start;
      StepKeepsAnswers(lean, full, calls[0], start, now);
      PruningIsInvisible(Step(lean, calls[0], true).0, Step(full, calls[0], false).0, calls[1..], now, finish);
    }
  }

  // ---- how much a window grants ---------------------------------------------------------------

  /** How many times a run let `id` through. */
  function Grants(calls: seq<Call>, answers: seq<bool>, id: BucketId): nat
    requires |calls| == |answers|
  {
    if calls == [] then 0
    else (if calls[0].CheckAt? && calls[0].id == id && answers[0] then 1 else 0)
         + Grants(calls[1..], answers[1..], id)
  }

  ghost predicate NeverReconfigures(calls: seq<Call>, route: Route) {
    forall c :: c in calls && c.Reconfigure? ==> c.route != route
  }

  /** The route's policy is `p`, and the bucket, if there is one, could spend no more than its capacity. */
  ghost predicate Capped(lim: Limiter, id: BucketId, p: Policy, now: real) {
    && id.route in lim.policies && lim.policies[id.route] == p
    && (id in lim.buckets ==>
          && lim.buckets[id].policy == p && lim.buckets[id].lastRefill <= now
          && 0.0 <= lim.buckets[id].tokens && Refilled(lim.buckets[id], now).tokens <= p.capacity)
  }

  /** What `id` could spend at `now`: the potential the bound is paid from. */
  function Available(lim: Limiter, id: BucketId, p: Policy, now: real): real {
    if id in lim.buckets then Refilled(lim.buckets[id], now).tokens else p.capacity
  }

  lemma GainsSplit(refill: real, start: real, now: real, finish: real)
    requires 0.0 <= refill && start <= now <= finish
    ensures Gained(finish - start, refill) == Gained(now - start, refill) + Gained(finish - now, refill)
    ensures 0.0 <= Gained(now - start, refill) && 0.0 <= Gained(finish - now, refill)
  {
  }

  lemma RefillIsAtMostLinear(b: Bucket, start: real, now: real)
    requires b.lastRefill <= start <= now && 0.0 <= b.policy.capacity && 0.0 <= b.policy.refill && 0.0 <= b.tokens
    requires Refilled(b, start).tokens <= b.policy.capacity
    ensures 0.0 <= Refilled(b, now).tokens <= Refilled(b, start).tokens + Gained(now - start, b.policy.refill)
    ensures Refilled(b, now).tokens <= b.policy.capacity
  {
    GainsSplit(b.policy.refill, b.lastRefill, start, now);
    GainsGrow(0.0, now - b.lastRefill, b.policy.refill);
  }

  lemma CapKeepsAvailableBounded(lim: Limiter, id: BucketId, p: Policy, now: real)
    requires 0.0 <= p.capacity && 0.0 <= p.refill && Capped(lim, id, p, now)
    ensures 0.0 <= Available(lim, id, p, now) <= p.capacity
  {
    if id in lim.buckets {
      RefillIsAtMostLinear(lim.buckets[id], now, now);
    }
  }

  /** A check of `id` itself: the token it takes was available. */
  lemma OwnCheckIsPaidFor(lim: Limiter, id: BucketId, p: Policy, start: real, now: real)
    requires 0.0 <= p.capacity && 0.0 <= p.refill && Capped(lim, id, p, start) && start <= now
    ensures var (next, answer) := Check(lim, now, id, false);
            && Capped(next, id, p, now)
            && Available(next, id, p, now) + (if answer then 1.0 else 0.0)
               <= Available(lim, id, p, start) + Gained(now - start, p.refill)
  {
    GainsSplit(p.refill, start, start, now);
    if id in lim.buckets {
      RefillIsAtMostLinear(lim.buckets[id], start, now);
      RefillIsAtMostLinear(lim.buckets[id], start, start);
    }
  }

  /** Anything else leaves `id` what it had, grown only by the time that passed. */
  lemma OtherStepSpendsNothing(lim: Limiter, c: Call, id: BucketId, p: Policy, start: real, now: real)
    requires 0.0 <= p.capacity && 0.0 <= p.refill && Capped(lim, id, p, start) && start <= now
    requires c.CheckAt? ==> c.now == now && c.id != id
    requires c.Reconfigure? ==> c.route != id.route
    ensures var next := Step(lim, c, false).0;
            && Capped(next, id, p, now)
            && Available(next, id, p, now) <= Available(lim, id, p, start) + Gained(now - start, p.refill)
  {
    GainsSplit(p.refill, start, start, now);
    if id in lim.buckets {
      RefillIsAtMostLinear(lim.buckets[id], start, now);
    }
  }

  lemma StepPaysForItsGrant(lim: Limiter, c: Call, id: BucketId, p: Policy, start: real, now: real)
    requires 0.0 <= p.capacity && 0.0 <= p.refill && Capped(lim, id, p, start) && start <= now
    requires c.CheckAt? ==> c.now == now
    requires c.Reconfigure? ==> c.route != id.route
    ensures var (next, answer) := Step(lim, c, false);
            && Capped(next, id, p, now)
            && Available(next, id, p, now) + (if c.CheckAt? && c.id == id && answer then 1.0 else 0.0)
               <= Available(lim, id, p, start) + Gained(now - start, p.refill)
  {
    if c.CheckAt? && c.id == id {
      OwnCheckIsPaidFor(lim, id, p, start, now);
    } else {
      OtherStepSpendsNothing(lim, c, id, p, start, now);
    }
  }

  lemma {:induction false} GrantsArePaidFor(
    lim: Limiter, calls: seq<Call>, id: BucketId, p: Policy, start: real, finish: real)
    requires 0.0 <= p.capacity && 0.0 <= p.refill && Capped(lim, id, p, start)
    requires ClockRuns(calls, start, finish) && NeverReconfigures(calls, id.route)
    ensures start <= finish
    ensures Grants(calls, Run(lim, calls, false).1, id) as real
         <= Available(lim, id, p, start) + Gained(finish - start, p.refill)
         <= p.capacity + Gained(finish - start, p.refill)
    decreases |calls|
  {
    CapKeepsAvailableBounded(lim, id, p, start);
    if calls == [] {
      GainsSplit(p.refill, start, start, finish);
    } else {
      var now := if calls[0].CheckAt? then calls[0].now else start;
      var (next, answer) := Step(lim, calls[0], false);
      StepPaysForItsGrant(lim, calls[0], id, p, start, now);
      GrantsArePaidFor(next, calls[1..], id, p, now, finish);
      var answers := Run(lim, calls, false).1;
      assert answers[0] == answer && answers[1..] == Run(next, calls[1..], false).1;
      GainsSplit(p.refill, start, now, finish);
    }
  }

  /** What a run leaves behind, for both limiters at once. */
  lemma {:induction false} RunKeepsBothLimiters(
    lean: Limiter, full: Limiter, calls: seq<Call>, start: real, finish: real)
    requires PoliciesRefill(full.policies) && CallsRefill(calls) && ClockRuns(calls, start, finish)
    requires Consistent(full, start) && Forgets(lean, full, start)
    ensures var (lean', full') := (Run(lean, calls, true).0, Run(full, calls, false).0);
            PoliciesRefill(full'.policies) && Consistent(full', finish) && Forgets(lean', full', finish)
    decreases |calls|
  {
    if calls != [] {
      var now := if calls[0].CheckAt? then calls[0].now else start;
      StepKeepsAnswers(lean, full, calls[0], start, now);
      RunKeepsBothLimiters(Step(lean, calls[0], true).0, Step(full, calls[0], false).0, calls[1..], now, finish);
    }
  }

  /** At this very instant the caller holds more than its capacity, and a token to show for it. Only
      a `configure` that lowered the capacity since the bucket was last refilled can bring it about. */
  predicate Overfull(lim: Limiter, id: BucketId, now: real) {
    && id in lim.buckets && lim.buckets[id].lastRefill == now
    && lim.buckets[id].tokens > lim.buckets[id].policy.capacity && lim.buckets[id].tokens >= 1.0
  }

  /** Under a capacity below one token a caller is never let through, whatever fraction it holds. */
  ghost predicate Starved(lim: Limiter, id: BucketId, p: Policy, now: real) {
    && p.capacity < 1.0 && id.route in lim.policies && lim.policies[id.route] == p
    && (id in lim.buckets ==>
          && lim.buckets[id].policy == p && lim.buckets[id].lastRefill <= now
          && (lim.buckets[id].lastRefill < now || lim.buckets[id].tokens < 1.0))
  }

  lemma StarvedStays(lim: Limiter, c: Call, id: BucketId, p: Policy, start: real, now: real)
    requires Starved(lim, id, p, start) && start <= now
    requires c.CheckAt? ==> c.now == now
    requires c.Reconfigure? ==> c.route != id.route
    ensures var (next, answer) := Step(lim, c, false);
            Starved(next, id, p, now) && !(c.CheckAt? && c.id == id && answer)
  {
  }

  lemma {:induction false} StarvedIsNeverGranted(
    lim: Limiter, calls: seq<Call>, id: BucketId, p: Policy, start: real, finish: real)
    requires Starved(lim, id, p, start)
    requires ClockRuns(calls, start, finish) && NeverReconfigures(calls, id.route)
    ensures start <= finish && Grants(calls, Run(lim, calls, false).1, id) == 0
    decreases |calls|
  {
    if calls != [] {
      var now := if calls[0].CheckAt? then calls[0].now else start;
      var (next, answer) := Step(lim, calls[0], false);
      StarvedStays(lim, calls[0], id, p, start, now);
      StarvedIsNeverGranted(next, calls[1..], id, p, now, finish);
      var answers := Run(lim, calls, false).1;
      assert answers[0] == answer && answers[1..] == Run(next, calls[1..], false).1;
    }
  }

  /** Any bucket that is not overfull in the lean limiter is one the bound can be paid from. */
  lemma CappedOrStarved(lean: Limiter, full: Limiter, id: BucketId, p: Policy, now: real)
    requires PoliciesRefill(full.policies) && Consistent(full, now) && Forgets(lean, full, now)
    requires id.route in full.policies && p == full.policies[id.route] && !Overfull(lean, id, now)
    ensures RefillsBeforePruning(p) && (Capped(full, id, p, now) || Starved(full, id, p, now))
  {
  }

  /** One window, from any pair of limiters a run can have produced. */
  lemma WindowFrom(lean: Limiter, full: Limiter, window: seq<Call>, id: BucketId, p: Policy, start: real, finish: real)
    requires PoliciesRefill(full.policies) && Consistent(full, start) && Forgets(lean, full, start)
    requires id.route in full.policies && p == full.policies[id.route] && !Overfull(lean, id, start)
    requires CallsRefill(window) && ClockRuns(window, start, finish) && NeverReconfigures(window, id.route)
    ensures Grants(window, Run(lean, window, true).1, id) as real <= p.capacity + Gained(finish - start, p.refill)
  {
    CappedOrStarved(lean, full, id, p, start);
    PruningIsInvisible(lean, full, window, start, finish);
    if Capped(full, id, p, start) {
      GrantsArePaidFor(full, window, id, p, start, finish);
    } else {
      StarvedIsNeverGranted(full, window, id, p, start, finish);
      GainsGrow(0.0, finish - start, p.refill);
    }
  }

  // ---- a window that grants more -----------------------------------------------------------------

  /** `n` checks of one caller at one instant. */
  function Burst(id: BucketId, now: real, n: nat): seq<Call> {
    if n == 0 then [] else [CheckAt(now, id)] + Burst(id, now, n - 1)
  }

  /** The limiter after `n` tokens of `id` were taken and nothing else happened. */
  function Drained(lim: Limiter, id: BucketId, n: nat): Limiter
    requires id in lim.buckets
  {
    lim.(buckets := lim.buckets[id := lim.buckets[id].(tokens := lim.buckets[id].tokens - n as real)])
  }

  lemma {:induction false} BurstIsGranted(lim: Limiter, id: BucketId, now: real, n: nat, later: seq<Call>)
    requires id.route in lim.policies && id in lim.buckets
    requires lim.buckets[id].lastRefill == now && lim.buckets[id].tokens >= n as real
    ensures var calls := Burst(id, now, n) + later;
            Grants(calls, Run(lim, calls, false).1, id)
            == n + Grants(later, Run(Drained(lim, id, n), later, false).1, id)
    decreases n
  {
    var calls := Burst(id, now, n) + later;
    if n == 0 {
      assert calls == later && Drained(lim, id, 0) == lim by {
        assert lim.buckets[id := lim.buckets[id]] == lim.buckets;
      }
    } else {
      var rest := Burst(id, now, n - 1) + later;
      assert calls == [CheckAt(now, id)] + rest;
      assert calls[0] == CheckAt(now, id) && calls[1..] == rest;
      var next := Step(lim, calls[0], false).0;
      assert next == Drained(lim, id, 1);
      BurstIsGranted(next, id, now, n - 1, later);
      assert Drained(next, id, n - 1) == Drained(lim, id, n);
      var answers := Run(lim, calls, false).1;
      assert answers[0] && answers[1..] == Run(next, rest, false).1;
    }
  }

  lemma {:induction false} BurstIsAWindow(id: BucketId, now: real, n: nat, later: seq<Call>, finish: real)
    requires CallsRefill(later) && ClockRuns(later, now, finish) && NeverReconfigures(later, id.route)
    ensures var calls := Burst(id, now, n) + later;
            CallsRefill(calls) && ClockRuns(calls, now, finish) && NeverReconfigures(calls, id.route)
    decreases n
  {
    var calls := Burst(id, now, n) + later;
    if n == 0 {
      assert calls == later;
    } else {
      var rest := Burst(id, now, n - 1) + later;
      assert calls == [CheckAt(now, id)] + rest && calls[1..] == rest;
      BurstIsAWindow(id, now, n - 1, later, finish);
      assert forall c :: c in calls ==> c == CheckAt(now, id) || c in rest;
    }
  }

  /** How long it takes to gain `tokens`. */
  function TimeToGain(tokens: real, refill: real): real
    requires refill > 0.0
  {
    tokens / refill
  }

  lemma GainTakesItsTime(tokens: real, refill: real)
    requires refill > 0.0 && 0.0 < tokens
    ensures TimeToGain(tokens, refill) > 0.0 && Gained(TimeToGain(tokens, refill), refill) == tokens
  {
  }

  /** The window that breaks the bound: all whole tokens at once, and if that is not yet too much, one
      more as soon as the broken one is whole. */
  lemma OverfullWindow(full: Limiter, id: BucketId, p: Policy, now: real) returns (window: seq<Call>, finish: real)
    requires Consistent(full, now) && id.route in full.policies && p == full.policies[id.route]
    requires RefillsBeforePruning(p) && Overfull(full, id, now)
    ensures CallsRefill(window) && ClockRuns(window, now, finish) && NeverReconfigures(window, id.route)
    ensures Grants(window, Run(full, window, false).1, id) as real > p.capacity + Gained(finish - now, p.refill)
  {
    var tokens := full.buckets[id].tokens;
    var n: nat := tokens.Floor;
    if n as real > p.capacity {
      window, finish := Burst(id, now, n) + [], now;
      BurstIsAWindow(id, now, n, [], now);
      BurstIsGranted(full, id, now, n, []);
    } else {
      var missing := 1.0 - (tokens - n as real);
      var wait := TimeToGain(missing, p.refill);
      GainTakesItsTime(missing, p.refill);
      finish := now + wait;
      var last := [CheckAt(finish, id)];
      window := Burst(id, now, n) + last;
      assert ClockRuns(last[1..], finish, finish);
      BurstIsAWindow(id, now, n, last, finish);
      BurstIsGranted(full, id, now, n, last);
      OneMoreIsGranted(Drained(full, id, n), id, p, now, finish);
      assert finish - now == wait;
    }
  }

  lemma OneMoreIsGranted(lim: Limiter, id: BucketId, p: Policy, now: real, finish: real)
    requires id.route in lim.policies && id in lim.buckets && lim.buckets[id].policy == p && p.capacity >= 1.0
    requires lim.buckets[id].lastRefill == now < finish
    requires lim.buckets[id].tokens + Gained(finish - now, p.refill) >= 1.0
    ensures Grants([CheckAt(finish, id)], Run(lim, [CheckAt(finish, id)], false).1, id) == 1
  {
    var calls := [CheckAt(finish, id)];
    assert calls[1..] == [];
    assert Refilled(lim.buckets[id], finish).tokens >= 1.0;
    assert Step(lim, calls[0], false).1;
    var answers := Run(lim, calls, false).1;
    assert answers[0] && answers[1..] == [];
  }

  // ---- the bound, exactly ----------------------------------------------------------------------------

  /** If this is a window in which the caller's policy stands, it grants at most the bound. */
  ghost predicate Obeys(lim: Limiter, window: seq<Call>, id: BucketId, p: Policy, start: real, finish: real) {
    CallsRefill(window) && ClockRuns(window, start, finish) && NeverReconfigures(window, id.route) ==>
      Grants(window, Run(lim, window, true).1, id) as real <= p.capacity + Gained(finish - start, p.refill)
  }

  /** The bound callers rely on: however the route was configured and used before, and however the
      other callers and routes behave meanwhile, the pruning limiter lets one caller through at most
      `capacity + refill * T` times in a window of length `T` while its policy stands, unless the
      caller's bucket is overfull as the window opens. */
  lemma WindowGrantsAreBounded(
    policies: map<Route, Policy>, before: seq<Call>, window: seq<Call>, id: BucketId,
    epoch: real, start: real, finish: real)
    requires PoliciesRefill(policies) && CallsRefill(before) && ClockRuns(before, epoch, start)
    requires CallsRefill(window) && ClockRuns(window, start, finish) && NeverReconfigures(window, id.route)
    requires var lim := Run(Limiter(policies, map[]), before, true).0;
             id.route in lim.policies && !Overfull(lim, id, start)
    ensures var lim := Run(Limiter(policies, map[]), before, true).0;
            var p := lim.policies[id.route];
            Grants(window, Run(lim, window, true).1, id) as real <= p.capacity + Gained(finish - start, p.refill)
  {
    var empty := Limiter(policies, map[]);
    RunKeepsBothLimiters(empty, empty, before, epoch, start);
    var (lean, full) := (Run(empty, before, true).0, Run(empty, before, false).0);
    WindowFrom(lean, full, window, id, full.policies[id.route], start, finish);
  }

  ghost predicate EveryWindowObeys(lim: Limiter, id: BucketId, p: Policy, start: real) {
    forall window, finish :: Obeys(lim, window, id, p, start, finish)
  }

  lemma OverfullBreaksTheBound(lean: Limiter, full: Limiter, id: BucketId, p: Policy, start: real)
    requires PoliciesRefill(full.policies) && Consistent(full, start) && Forgets(lean, full, start)
    requires id.route in full.policies && p == full.policies[id.route] && Overfull(lean, id, start)
    ensures !EveryWindowObeys(lean, id, p, start)
  {
    var window, finish := OverfullWindow(full, id, p, start);
    PruningIsInvisible(lean, full, window, start, finish);
    assert !Obeys(lean, window, id, p, start, finish);
  }

  lemma OtherwiseTheBoundHolds(lean: Limiter, full: Limiter, id: BucketId, p: Policy, start: real)
    requires PoliciesRefill(full.policies) && Consistent(full, start) && Forgets(lean, full, start)
    requires id.route in full.policies && p == full.policies[id.route] && !Overfull(lean, id, start)
    ensures EveryWindowObeys(lean, id, p, start)
  {
    forall window, finish
      ensures Obeys(lean, window, id, p, start, finish)
    {
      if CallsRefill(window) && ClockRuns(window, start, finish) && NeverReconfigures(window, id.route) {
        WindowFrom(lean, full, window, id, p, start, finish);
      }
    }
  }

  /** And that is exact: every window from this instant on obeys the bound if and only if the bucket is
      not overfull now. */
  lemma WindowBoundIsExact(policies: map<Route, Policy>, before: seq<Call>, id: BucketId, epoch: real, start: real)
    requires PoliciesRefill(policies) && CallsRefill(before) && ClockRuns(before, epoch, start)
    requires id.route in Run(Limiter(policies, map[]), before, true).0.policies
    ensures var lim := Run(Limiter(policies, map[]), before, true).0;
            EveryWindowObeys(lim, id, lim.policies[id.route], start) <==> !Overfull(lim, id, start)
  {
    var empty := Limiter(policies, map[]);
    RunKeepsBothLimiters(empty, empty, before, epoch, start);
    var (lean, full) := (Run(empty, before, true).0, Run(empty, before, false).0);
    if Overfull(lean, id, start) {
      OverfullBreaksTheBound(lean, full, id, full.policies[id.route], start);
    } else {
      OtherwiseTheBoundHolds(lean, full, id, full.policies[id.route], start);
    }
  }

  /** Nothing is overfull while nobody lowers a capacity: on a fresh limiter with its built-in policies
      every caller of the four routes meets the bound in every window, pruned or not. */
  lemma DefaultLimiterIsBounded(
    before: seq<Call>, window: seq<Call>, id: BucketId, epoch: real, start: real, finish: real)
    requires forall c :: c in before + window ==> c.CheckAt?
    requires ClockRuns(before, epoch, start) && ClockRuns(window, start, finish)
    requires id.route in DefaultPolicies()
    ensures var lim := Limiter(DefaultPolicies(), map[]);
            && Run(lim, before, true).1 == Run(lim, before, false).1
            && Obeys(Run(lim, before, true).0, window, id, DefaultPolicies()[id.route], start, finish)
  {
    var empty := Limiter(DefaultPolicies(), map[]);
    DefaultPoliciesRefill();
    OnlyChecks(before, window);
    PruningIsInvisible(empty, empty, before, epoch, start);
    RunKeepsBothLimiters(empty, empty, before, epoch, start);
    ChecksKeepCapped(empty, before, id, DefaultPolicies()[id.route], epoch, start);
    var (lean, full) := (Run(empty, before, true).0, Run(empty, before, false).0);
    assert !Overfull(lean, id, start);
    WindowFrom(lean, full, window, id, DefaultPolicies()[id.route], start, finish);
  }

  lemma OnlyChecks(before: seq<Call>, window: seq<Call>)
    requires forall c :: c in before + window ==> c.CheckAt?
    ensures forall c :: c in before ==> c.CheckAt?
    ensures forall c :: c in window ==> c.CheckAt?
  {
    assert forall c :: c in before ==> c in before + window;
    assert forall c :: c in window ==> c in before + window;
  }

  lemma {:induction false} ChecksKeepCapped(
    lim: Limiter, calls: seq<Call>, id: BucketId, p: Policy, start: real, finish: real)
    requires 0.0 <= p.capacity && 0.0 <= p.refill && Capped(lim, id, p, start)
    requires ClockRuns(calls, start, finish) && forall c :: c in calls ==> c.CheckAt?
    ensures start <= finish && Capped(Run(lim, calls, false).0, id, p, finish)
    decreases |calls|
  {
    if calls == [] {
      if id in lim.buckets {
        RefillIsAtMostLinear(lim.buckets[id], start, finish);
      }
    } else {
      assert calls[0].CheckAt?;
      StepPaysForItsGrant(lim, calls[0], id, p, start, calls[0].now);
      ChecksKeepCapped(Step(lim, calls[0], false).0, calls[1..], id, p, calls[0].now, finish);
    }
  }

  /** Where the bound stops: `configure` lowers a capacity without touching the tokens already
      handed out, so at that instant the old allowance can still be spent. */
  lemma LoweredCapacityIsNotRetroactive()
    ensures var id: BucketId := BucketId("login", "10.0.0.9");
            var before := Limiter(map["login" := Policy(3.0, 0.5)], map[id := Bucket(2.0, 7.0, Policy(3.0, 0.5))]);
            var calls := [Reconfigure("login", Policy(1.0, 0.5)), CheckAt(7.0, id), CheckAt(7.0, id)];
            Run(before, calls, false).1 == [false, true, true]
  {
    var id: BucketId := BucketId("login", "10.0.0.9");
    var before := Limiter(map["login" := Policy(3.0, 0.5)], map[id := Bucket(2.0, 7.0, Policy(3.0, 0.5))]);
    var calls := [Reconfigure("login", Policy(1.0, 0.5)), CheckAt(7.0, id), CheckAt(7.0, id)];
    var lowered := Step(before, calls[0], false).0;
    var once := Step(lowered, calls[1], false).0;
    assert lowered.buckets[id] == Bucket(2.0, 7.0, Policy(1.0, 0.5));
    assert once.buckets[id] == Bucket(1.0, 7.0, Policy(1.0, 0.5));
    assert calls[1..] == [calls[1], calls[2]] && calls[1..][1..] == [calls[2]];
    assert Run(once, [calls[2]], false).1 == [true];
    assert Run(lowered, calls[1..], false).1 == [true, true];
  }
}

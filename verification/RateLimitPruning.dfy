/** When pruning can be noticed, exactly: for which policies some run of checks is answered otherwise
    by a limiter that forgets its idle buckets. */
module RateLimitPruning {
  import opened RateLimit

  /** Nobody under such a policy can tell: it never grants, or it refills a bucket before it is reaped. */
  predicate IsHarmless(p: Policy) {
    p.capacity < 1.0 || p.capacity <= 300.0 * p.refill
  }

  ghost predicate AllHarmless(policies: map<Route, Policy>) {
    forall route :: route in policies ==> IsHarmless(policies[route])
  }

  function Empty(policies: map<Route, Policy>): Limiter {
    Limiter(policies, map[])
  }

  ghost predicate OnlyChecks(calls: seq<Call>) {
    forall c :: c in calls ==> c.CheckAt?
  }

  /** With and without pruning, this run of checks from an empty table is answered alike. */
  ghost predicate AnsweredAlike(policies: map<Route, Policy>, calls: seq<Call>, start: real, finish: real) {
    OnlyChecks(calls) && ClockRuns(calls, start, finish) ==>
      Run(Empty(policies), calls, true).1 == Run(Empty(policies), calls, false).1
  }

  ghost predicate NobodyCanTell(policies: map<Route, Policy>) {
    forall calls, start, finish :: AnsweredAlike(policies, calls, start, finish)
  }

  // ---- harmless policies ------------------------------------------------------------------------------

  predicate BucketOk(lim: Limiter, id: BucketId, now: real)
    requires id in lim.buckets
  {
    var b := lim.buckets[id];
    && id.route in lim.policies && b.policy == lim.policies[id.route] && b.lastRefill <= now
    && if b.policy.capacity < 1.0 then b.tokens < 1.0 else 0.0 <= b.tokens
  }

  /** Under a capacity below one token neither limiter grants; under any other the pruning one holds
      the same bucket, or none where the other one's is idle. */
  ghost predicate Agree(lean: Limiter, full: Limiter, now: real) {
    && lean.policies == full.policies && AllHarmless(full.policies)
    && (forall id :: id in lean.buckets ==> BucketOk(lean, id, now))
    && (forall id :: id in full.buckets ==> BucketOk(full, id, now))
    && (forall id :: id in lean.buckets && lean.buckets[id].policy.capacity >= 1.0 ==>
          id in full.buckets && full.buckets[id] == lean.buckets[id])
    && (forall id :: id in full.buckets && id !in lean.buckets && full.buckets[id].policy.capacity >= 1.0 ==>
          Idle(full.buckets[id], now))
  }

  /** One check of one bucket, and how it answers. */
  lemma StarvedTake(b: Bucket, now: real)
    requires b.policy.capacity < 1.0 && b.tokens < 1.0 && b.lastRefill <= now
    ensures !Take(b, now).1
    ensures var after := Take(b, now).0; after.tokens < 1.0 && after.lastRefill == now && after.policy == b.policy
  {
  }

  lemma TakesAlike(lean: Limiter, full: Limiter, id: BucketId, start: real, now: real)
    requires Agree(lean, full, start) && start <= now && id.route in full.policies
    ensures Take(BucketFor(lean, id, now), now).1 == Take(BucketFor(full, id, now), now).1
    ensures full.policies[id.route].capacity >= 1.0 ==>
              Take(BucketFor(lean, id, now), now) == Take(BucketFor(full, id, now), now)
  {
    var (a, b) := (BucketFor(lean, id, now), BucketFor(full, id, now));
    assert IsHarmless(full.policies[id.route]);
    if full.policies[id.route].capacity < 1.0 {
      StarvedTake(a, now);
      StarvedTake(b, now);
    } else if id in full.buckets && id !in lean.buckets {
      IdleBucketIsFull(b, now);
    }
  }

  lemma TakeKeepsBucketOk(lim: Limiter, id: BucketId, start: real, now: real)
    requires id.route in lim.policies && IsHarmless(lim.policies[id.route]) && start <= now
    requires id in lim.buckets ==> BucketOk(lim, id, start)
    ensures var b := Take(BucketFor(lim, id, now), now).0;
            b.lastRefill == now && BucketOk(lim.(buckets := lim.buckets[id := b]), id, now)
  {
    var b := BucketFor(lim, id, now);
    if b.policy.capacity < 1.0 {
      StarvedTake(b, now);
    } else {
      TakeKeepsBucketSound(b, now);
    }
  }

  lemma PutKeepsAgree(lean: Limiter, full: Limiter, id: BucketId, a: Bucket, b: Bucket, start: real, now: real)
    requires Agree(lean, full, start) && start <= now && id.route in full.policies
    requires BucketOk(lean.(buckets := lean.buckets[id := a]), id, now)
    requires BucketOk(full.(buckets := full.buckets[id := b]), id, now)
    requires full.policies[id.route].capacity >= 1.0 ==> a == b
    ensures Agree(lean.(buckets := lean.buckets[id := a]), full.(buckets := full.buckets[id := b]), now)
  {
  }

  lemma PruningKeepsAgree(lean: Limiter, full: Limiter, now: real)
    requires Agree(lean, full, now)
    ensures Agree(lean.(buckets := Pruned(lean.buckets, now)), full, now)
  {
  }

  lemma CheckKeepsAgree(lean: Limiter, full: Limiter, id: BucketId, start: real, now: real)
    requires Agree(lean, full, start) && start <= now
    ensures var (lean', x) := Check(lean, now, id, true); var (full', y) := Check(full, now, id, false);
            x == y && Agree(lean', full', now)
  {
    if id.route in full.policies {
      TakesAlike(lean, full, id, start, now);
      TakeKeepsBucketOk(lean, id, start, now);
      TakeKeepsBucketOk(full, id, start, now);
      var a := Take(BucketFor(lean, id, now), now).0;
      var b := Take(BucketFor(full, id, now), now).0;
      PutKeepsAgree(lean, full, id, a, b, start, now);
      PruningKeepsAgree(lean.(buckets := lean.buckets[id := a]), full.(buckets := full.buckets[id := b]), now);
    }
  }

  lemma {:induction false} AgreeingLimitersAnswerAlike(
    lean: Limiter, full: Limiter, calls: seq<Call>, start: real, finish: real)
    requires Agree(lean, full, start) && OnlyChecks(calls) && ClockRuns(calls, start, finish)
    ensures Run(lean, calls, true).1 == Run(full, calls, false).1
    decreases |calls|
  {
    if calls != [] {
      assert calls[0] in calls;
      CheckKeepsAgree(lean, full, calls[0].id, start, calls[0].now);
      AgreeingLimitersAnswerAlike(
        Step(lean, calls[0], true).0, Step(full, calls[0], false).0, calls[1..], calls[0].now, finish);
    }
  }

  // ---- one caller's checks alone ---------------------------------------------------------------------

  ghost predicate Ascending(times: seq<real>, start: real) {
    times == [] || (start <= times[0] && Ascending(times[1..], times[0]))
  }

  function LastTime(times: seq<real>, start: real): real {
    if times == [] then start else times[|times| - 1]
  }

  function ChecksOf(id: BucketId, times: seq<real>): seq<Call>
    decreases |times|
  {
    if times == [] then [] else [CheckAt(times[0], id)] + ChecksOf(id, times[1..])
  }

  /** What one bucket answers to checks at these times, and what becomes of it. */
  function Takes(b: Bucket, times: seq<real>): seq<bool>
    decreases |times|
  {
    if times == [] then [] else [Take(b, times[0]).1] + Takes(Take(b, times[0]).0, times[1..])
  }

  function After(b: Bucket, times: seq<real>): Bucket
    decreases |times|
  {
    if times == [] then b else After(Take(b, times[0]).0, times[1..])
  }

  /** A caller that checks alone is answered by its own bucket: its check is never idle afterwards, so
      no pruning takes it away. */
  lemma {:induction false} OwnChecksAreTakes(lim: Limiter, id: BucketId, times: seq<real>, start: real, pruning: bool)
    requires times != [] && Ascending(times, start) && id.route in lim.policies
    requires id in lim.buckets ==> lim.buckets[id].lastRefill <= start
    ensures Run(lim, ChecksOf(id, times), pruning).1 == Takes(BucketFor(lim, id, times[0]), times)
    decreases |times|
  {
    var calls := ChecksOf(id, times);
    assert calls[0] == CheckAt(times[0], id) && calls[1..] == ChecksOf(id, times[1..]);
    var b := Take(BucketFor(lim, id, times[0]), times[0]).0;
    var next := Step(lim, calls[0], pruning).0;
    assert b.lastRefill == times[0];
    assert id in next.buckets && next.buckets[id] == b;
    if times[1..] == [] {
      assert Run(next, [], pruning).1 == [];
    } else {
      OwnChecksAreTakes(next, id, times[1..], times[0], pruning);
      assert BucketFor(next, id, times[1..][0]) == b;
    }
  }

  /** And alone on an empty table it has the only bucket. */
  lemma {:induction false} AloneThereIsOneBucket(lim: Limiter, id: BucketId, b: Bucket, times: seq<real>, pruning: bool)
    requires id.route in lim.policies && lim.buckets == map[id := b]
    ensures Run(lim, ChecksOf(id, times), pruning).0 == lim.(buckets := map[id := After(b, times)])
    decreases |times|
  {
    if times != [] {
      var calls := ChecksOf(id, times);
      assert calls[0] == CheckAt(times[0], id) && calls[1..] == ChecksOf(id, times[1..]);
      var next := Take(b, times[0]).0;
      assert lim.buckets[id := next] == map[id := next];
      assert |map[id := next]| == 1;
      AloneThereIsOneBucket(lim.(buckets := map[id := next]), id, next, times[1..], pruning);
    }
  }

  // ---- telling two buckets apart ---------------------------------------------------------------------

  /** Two buckets of one policy that differ at `now` can be told apart from `now` on: by draining the
      fuller one while the other runs dry, or, when both are down to a fraction, at the moment the
      fuller one has a whole token again. */
  lemma DifferentBucketsCanBeTold(a: Bucket, b: Bucket, now: real) returns (times: seq<real>)
    requires a.policy == b.policy && a.policy.capacity >= 1.0 && a.lastRefill <= now && b.lastRefill <= now
    requires var (x, y) := (Refilled(a, now).tokens, Refilled(b, now).tokens);
             && 0.0 <= x && y < x && (a.policy.refill > 0.0 || (x >= 1.0 && y <= x - 1.0))
    ensures times != [] && times[0] == now && Ascending(times, now)
    ensures Takes(a, times) != Takes(b, times)
    decreases Refilled(a, now).tokens.Floor
  {
    var (x, y) := (Refilled(a, now).tokens, Refilled(b, now).tokens);
    var (a', b') := (Take(a, now).0, Take(b, now).0);
    if x >= 1.0 && y < 1.0 {
      times := [now];
      assert Takes(a, times)[0] && !Takes(b, times)[0];
    } else if x >= 1.0 {
      assert Refilled(a', now).tokens == x - 1.0 && Refilled(b', now).tokens == y - 1.0;
      var rest := DifferentBucketsCanBeTold(a', b', now);
      times := [now] + rest;
      assert times[1..] == rest;
      assert Takes(a, times)[1..] == Takes(a', rest) && Takes(b, times)[1..] == Takes(b', rest);
    } else {
      var wait := TimeToGain(1.0 - x, a.policy.refill);
      GainTakesItsTime(1.0 - x, a.policy.refill);
      var later := now + wait;
      times := [now, later];
      assert times[1..] == [later] && times[1..][1..] == [];
      assert later - now == wait;
      assert a'.tokens == x && b'.tokens == y && a'.lastRefill == now && b'.lastRefill == now;
      assert Refilled(a', later).tokens == 1.0 && Refilled(b', later).tokens < 1.0;
      assert Takes(a', [later]) == [true] && Takes(b', [later]) == [false];
      assert Takes(a, times)[1] != Takes(b, times)[1];
    }
  }

  /** A refilling bucket can be emptied to the last fraction. */
  lemma BucketCanBeEmptied(b: Bucket) returns (times: seq<real>)
    requires b.policy.capacity >= 1.0 && b.policy.refill > 0.0 && 0.0 <= b.tokens <= b.policy.capacity
    ensures Ascending(times, b.lastRefill)
    ensures After(b, times) == Bucket(0.0, LastTime(times, b.lastRefill), b.policy)
    ensures b.tokens > 0.0 ==> times != []
    decreases b.tokens.Floor
  {
    if b.tokens >= 1.0 {
      var next := Take(b, b.lastRefill).0;
      var rest := BucketCanBeEmptied(next);
      times := [b.lastRefill] + rest;
      assert times[1..] == rest;
    } else if b.tokens == 0.0 {
      times := [];
    } else {
      var wait := TimeToGain(1.0 - b.tokens, b.policy.refill);
      GainTakesItsTime(1.0 - b.tokens, b.policy.refill);
      var later := b.lastRefill + wait;
      times := [later];
      assert later - b.lastRefill == wait;
      assert Take(b, later).0 == Bucket(0.0, later, b.policy);
      assert times[1..] == [];
      assert After(b, times) == After(Take(b, later).0, times[1..]);
    }
  }

  // ---- the crowd that makes the limiter prune --------------------------------------------------------

  function Name(n: nat): string {
    seq(n, _ => 'c')
  }

  function Crowd(route: Route, now: real, n: nat): seq<Call> {
    if n == 0 then [] else Crowd(route, now, n - 1) + [CheckAt(now, BucketId(route, Name(n)))]
  }

  lemma {:induction false} RunOfConcatenation(lim: Limiter, before: seq<Call>, after: seq<Call>, pruning: bool)
    ensures var (mid, answers) := Run(lim, before, pruning);
            && Run(lim, before + after, pruning).0 == Run(mid, after, pruning).0
            && Run(lim, before + after, pruning).1 == answers + Run(mid, after, pruning).1
    decreases |before|
  {
    if before == [] {
      assert before + after == after;
    } else {
      assert (before + after)[0] == before[0] && (before + after)[1..] == before[1..] + after;
      RunOfConcatenation(Step(lim, before[0], pruning).0, before[1..], after, pruning);
    }
  }

  lemma {:induction false} ClockRunsOn(before: seq<Call>, after: seq<Call>, start: real, mid: real, finish: real)
    requires ClockRuns(before, start, mid) && ClockRuns(after, mid, finish)
    ensures ClockRuns(before + after, start, finish)
    decreases |before|
  {
    if before == [] {
      assert before + after == after;
      ClockMayStartEarlier(after, start, mid, finish);
    } else {
      assert (before + after)[0] == before[0] && (before + after)[1..] == before[1..] + after;
      ClockRunsOn(before[1..], after, if before[0].CheckAt? then before[0].now else start, mid, finish);
    }
  }

  lemma {:induction false} ClockMayStartEarlier(calls: seq<Call>, start: real, mid: real, finish: real)
    requires start <= mid && ClockRuns(calls, mid, finish)
    ensures ClockRuns(calls, start, finish)
    decreases |calls|
  {
    if calls != [] && calls[0].Reconfigure? {
      ClockMayStartEarlier(calls[1..], start, mid, finish);
    }
  }

  /** The table after `n` of the crowd have come: theirs and the first caller's bucket, untouched. */
  ghost predicate Crowded(lim: Limiter, policies: map<Route, Policy>, id: BucketId, b: Bucket, n: nat) {
    && lim.policies == policies && |lim.buckets| == n + 1 && id in lim.buckets && lim.buckets[id] == b
    && forall m: nat :: m > n ==> BucketId(id.route, Name(m)) !in lim.buckets
  }

  lemma {:induction false} CrowdComes(
    policies: map<Route, Policy>, id: BucketId, b: Bucket, now: real, n: nat, pruning: bool)
    requires id.route in policies && id.caller == "" && (pruning ==> n < PRUNE_ABOVE)
    ensures Crowded(Run(Limiter(policies, map[id := b]), Crowd(id.route, now, n), pruning).0, policies, id, b, n)
    decreases n
  {
    var lim := Limiter(policies, map[id := b]);
    if n == 0 {
      assert |map[id := b]| == 1;
      forall m: nat | m > 0
        ensures BucketId(id.route, Name(m)) != id
      {
        assert |Name(m)| == m;
      }
    } else {
      CrowdComes(policies, id, b, now, n - 1, pruning);
      RunOfConcatenation(lim, Crowd(id.route, now, n - 1), [CheckAt(now, BucketId(id.route, Name(n)))], pruning);
      OneMoreComes(Run(lim, Crowd(id.route, now, n - 1), pruning).0, policies, id, b, now, n, pruning);
    }
  }

  /** A single call, run. */
  lemma RunOfOne(lim: Limiter, c: Call, pruning: bool)
    ensures Run(lim, [c], pruning).0 == Step(lim, c, pruning).0
  {
    assert [c][1..] == [];
  }

  lemma NewcomerAddsABucket(buckets: map<BucketId, Bucket>, id: BucketId, b: Bucket)
    requires id !in buckets
    ensures |buckets[id := b]| == |buckets| + 1
  {
    assert buckets[id := b].Keys == buckets.Keys + {id};
    assert |buckets[id := b].Keys| == |buckets.Keys| + 1;
  }

  lemma OneMoreComes(
    lim: Limiter, policies: map<Route, Policy>, id: BucketId, b: Bucket, now: real, n: nat, pruning: bool)
    requires n >= 1 && Crowded(lim, policies, id, b, n - 1)
    requires id.route in policies && id.caller == "" && (pruning ==> n < PRUNE_ABOVE)
    ensures Crowded(Run(lim, [CheckAt(now, BucketId(id.route, Name(n)))], pruning).0, policies, id, b, n)
  {
    var newcomer := BucketId(id.route, Name(n));
    RunOfOne(lim, CheckAt(now, newcomer), pruning);
    var next := Take(BucketFor(lim, newcomer, now), now).0;
    NewcomerAddsABucket(lim.buckets, newcomer, next);
    assert |Name(n)| == n;
    forall m: nat | m > n
      ensures BucketId(id.route, Name(m)) != newcomer
    {
      assert |Name(m)| == m;
    }
  }

  /** The last of the crowd makes the pruning limiter forget an idle first caller. */
  lemma CrowdDrivesOut(policies: map<Route, Policy>, id: BucketId, b: Bucket, now: real)
    requires id.route in policies && id.caller == "" && Idle(b, now)
    ensures var lean := Run(Limiter(policies, map[id := b]), Crowd(id.route, now, PRUNE_ABOVE), true).0;
            lean.policies == policies && id !in lean.buckets
    ensures var full := Run(Limiter(policies, map[id := b]), Crowd(id.route, now, PRUNE_ABOVE), false).0;
            full.policies == policies && id in full.buckets && full.buckets[id] == b
  {
    var lim := Limiter(policies, map[id := b]);
    CrowdComes(policies, id, b, now, PRUNE_ABOVE, false);
    CrowdComes(policies, id, b, now, PRUNE_ABOVE - 1, true);
    var last := CheckAt(now, BucketId(id.route, Name(PRUNE_ABOVE)));
    RunOfConcatenation(lim, Crowd(id.route, now, PRUNE_ABOVE - 1), [last], true);
    var before := Run(lim, Crowd(id.route, now, PRUNE_ABOVE - 1), true).0;
    RunOfOne(before, last, true);
    LastOneDrivesOut(before, policies, id, b, now);
  }

  lemma LastOneDrivesOut(lim: Limiter, policies: map<Route, Policy>, id: BucketId, b: Bucket, now: real)
    requires Crowded(lim, policies, id, b, PRUNE_ABOVE - 1) && id.route in policies && id.caller == "" && Idle(b, now)
    ensures var next := Check(lim, now, BucketId(id.route, Name(PRUNE_ABOVE)), true).0;
            next.policies == policies && id !in next.buckets
  {
    var newcomer := BucketId(id.route, Name(PRUNE_ABOVE));
    var next := Take(BucketFor(lim, newcomer, now), now).0;
    NewcomerAddsABucket(lim.buckets, newcomer, next);
    assert |Name(PRUNE_ABOVE)| == PRUNE_ABOVE;
  }

  lemma {:induction false} CrowdIsARun(route: Route, now: real, n: nat)
    ensures OnlyChecks(Crowd(route, now, n)) && ClockRuns(Crowd(route, now, n), now, now)
    decreases n
  {
    if n > 0 {
      CrowdIsARun(route, now, n - 1);
      var last := [CheckAt(now, BucketId(route, Name(n)))];
      assert last[1..] == [];
      ClockRunsOn(Crowd(route, now, n - 1), last, now, now, now);
    }
  }

  lemma {:induction false} ChecksAreARun(id: BucketId, times: seq<real>, start: real)
    requires Ascending(times, start)
    ensures OnlyChecks(ChecksOf(id, times)) && ClockRuns(ChecksOf(id, times), start, LastTime(times, start))
    decreases |times|
  {
    if times != [] {
      var calls := ChecksOf(id, times);
      ChecksAreARun(id, times[1..], times[0]);
      assert calls[0] == CheckAt(times[0], id) && calls[1..] == ChecksOf(id, times[1..]);
      assert LastTime(times, start) == LastTime(times[1..], times[0]);
    }
  }

  // ---- a policy that is not harmless -------------------------------------------------------------------

  function FreshBucket(p: Policy, now: real): Bucket {
    Bucket(p.capacity, now, p)
  }

  /** Checks of one caller, and a later moment at which its bucket has been idle long enough to be
      reaped and is still not full. */
  lemma IdleAndNotFull(p: Policy) returns (times: seq<real>, later: real)
    requires !IsHarmless(p)
    ensures times != [] && times[0] == 0.0 && Ascending(times, 0.0) && LastTime(times, 0.0) <= later
    ensures var b := After(FreshBucket(p, 0.0), times);
            && b.policy == p && b.lastRefill <= later && Idle(b, later)
            && Refilled(b, later).tokens < p.capacity
            && (p.refill > 0.0 || Refilled(b, later).tokens <= p.capacity - 1.0)
  {
    var b := FreshBucket(p, 0.0);
    if p.refill > 0.0 {
      var first := Take(b, 0.0).0;
      var rest := BucketCanBeEmptied(first);
      times := [0.0] + rest;
      assert times[1..] == rest;
      var extra := TimeToGain((p.capacity - PRUNE_AFTER * p.refill) / 2.0, p.refill);
      GainTakesItsTime((p.capacity - PRUNE_AFTER * p.refill) / 2.0, p.refill);
      var emptied := LastTime(rest, 0.0);
      later := emptied + PRUNE_AFTER + extra;
      assert After(b, times) == Bucket(0.0, emptied, p);
      assert later - emptied == PRUNE_AFTER + extra;
      assert Gained(PRUNE_AFTER + extra, p.refill) == PRUNE_AFTER * p.refill + Gained(extra, p.refill);
      AscendingEndsLate(rest, 0.0);
    } else {
      times, later := [0.0], PRUNE_AFTER + 1.0;
      assert times[1..] == [];
      assert After(b, times) == Take(b, 0.0).0;
      NothingGained(PRUNE_AFTER + 1.0, p.refill);
    }
  }

  lemma NothingGained(elapsed: real, refill: real)
    requires elapsed >= 0.0 && refill <= 0.0
    ensures Gained(elapsed, refill) <= 0.0
  {
  }

  lemma {:induction false} AscendingEndsLate(times: seq<real>, start: real)
    requires Ascending(times, start)
    ensures start <= LastTime(times, start)
    decreases |times|
  {
    if times != [] {
      AscendingEndsLate(times[1..], times[0]);
      assert LastTime(times, start) == LastTime(times[1..], times[0]);
    }
  }

  /** The first check of an empty table makes a full bucket and takes from it. */
  lemma AloneFromTheStart(policies: map<Route, Policy>, id: BucketId, times: seq<real>, pruning: bool)
    requires id.route in policies && times != []
    ensures Run(Empty(policies), ChecksOf(id, times), pruning).0
         == Limiter(policies, map[id := After(FreshBucket(policies[id.route], times[0]), times)])
  {
    var b := FreshBucket(policies[id.route], times[0]);
    var calls := ChecksOf(id, times);
    assert calls[0] == CheckAt(times[0], id) && calls[1..] == ChecksOf(id, times[1..]);
    var next := Take(b, times[0]).0;
    assert Empty(policies).buckets[id := next] == map[id := next];
    assert |map[id := next]| == 1;
    assert Step(Empty(policies), calls[0], pruning).0 == Limiter(policies, map[id := next]);
    AloneThereIsOneBucket(Limiter(policies, map[id := next]), id, next, times[1..], pruning);
  }

  /** What the crowd leaves the caller with: a full bucket if its own was reaped, its own otherwise. */
  lemma BackAfterTheCrowd(
    policies: map<Route, Policy>, id: BucketId, b: Bucket, later: real, back: seq<real>, pruning: bool)
    requires id.route in policies && id.caller == "" && Idle(b, later) && b.lastRefill <= later
    requires back != [] && back[0] == later && Ascending(back, later)
    ensures Run(Limiter(policies, map[id := b]), Crowd(id.route, later, PRUNE_ABOVE) + ChecksOf(id, back), pruning).1
         == Run(Limiter(policies, map[id := b]), Crowd(id.route, later, PRUNE_ABOVE), pruning).1
            + Takes(if pruning then FreshBucket(policies[id.route], later) else b, back)
  {
    var lim := Limiter(policies, map[id := b]);
    CrowdDrivesOut(policies, id, b, later);
    RunOfConcatenation(lim, Crowd(id.route, later, PRUNE_ABOVE), ChecksOf(id, back), pruning);
    OwnChecksAreTakes(Run(lim, Crowd(id.route, later, PRUNE_ABOVE), pruning).0, id, back, later, pruning);
  }

  /** The run as a whole. */
  function Telling(id: BucketId, times: seq<real>, later: real, back: seq<real>): seq<Call> {
    ChecksOf(id, times) + (Crowd(id.route, later, PRUNE_ABOVE) + ChecksOf(id, back))
  }

  lemma TellingIsARun(id: BucketId, times: seq<real>, later: real, back: seq<real>)
    requires Ascending(times, 0.0) && LastTime(times, 0.0) <= later && Ascending(back, later)
    ensures OnlyChecks(Telling(id, times, later, back))
    ensures ClockRuns(Telling(id, times, later, back), 0.0, LastTime(back, later))
  {
    var crowd := Crowd(id.route, later, PRUNE_ABOVE);
    ChecksAreARun(id, times, 0.0);
    CrowdIsARun(id.route, later, PRUNE_ABOVE);
    ChecksAreARun(id, back, later);
    var finish := LastTime(back, later);
    ClockRunsOn(crowd, ChecksOf(id, back), later, later, finish);
    ClockMayStartEarlier(crowd + ChecksOf(id, back), LastTime(times, 0.0), later, finish);
    ClockRunsOn(ChecksOf(id, times), crowd + ChecksOf(id, back), 0.0, LastTime(times, 0.0), finish);
  }

  lemma TellingEndsDifferently(
    policies: map<Route, Policy>, id: BucketId, times: seq<real>, later: real, back: seq<real>)
    requires id.route in policies && id.caller == "" && times != [] && back != [] && back[0] == later
    requires Ascending(back, later)
    requires var b := After(FreshBucket(policies[id.route], times[0]), times);
             && Idle(b, later) && b.lastRefill <= later
             && Takes(FreshBucket(policies[id.route], later), back) != Takes(b, back)
    ensures Run(Empty(policies), Telling(id, times, later, back), true).1
         != Run(Empty(policies), Telling(id, times, later, back), false).1
  {
    var (p, first) := (policies[id.route], ChecksOf(id, times));
    var rest := Crowd(id.route, later, PRUNE_ABOVE) + ChecksOf(id, back);
    var b := After(FreshBucket(p, times[0]), times);
    RunOfConcatenation(Empty(policies), first, rest, true);
    RunOfConcatenation(Empty(policies), first, rest, false);
    AloneFromTheStart(policies, id, times, true);
    AloneFromTheStart(policies, id, times, false);
    BackAfterTheCrowd(policies, id, b, later, back, true);
    BackAfterTheCrowd(policies, id, b, later, back, false);
    var n := |first| + PRUNE_ABOVE;
    CrowdSize(id.route, later, PRUNE_ABOVE);
    assert Run(Empty(policies), first + rest, true).1[n..] == Takes(FreshBucket(p, later), back);
    assert Run(Empty(policies), first + rest, false).1[n..] == Takes(b, back);
  }

  lemma {:induction false} CrowdSize(route: Route, now: real, n: nat)
    ensures |Crowd(route, now, n)| == n
    decreases n
  {
    if n > 0 {
      CrowdSize(route, now, n - 1);
    }
  }

  /** The run in which somebody can tell: a caller uses up its bucket and goes idle, a crowd comes and
      has it reaped, and the caller comes back and counts. */
  lemma SomebodyCanTell(policies: map<Route, Policy>, route: Route)
    requires route in policies && !IsHarmless(policies[route])
    ensures !NobodyCanTell(policies)
  {
    var (id, p) := (BucketId(route, ""), policies[route]);
    var times, later := IdleAndNotFull(p);
    var b := After(FreshBucket(p, 0.0), times);
    var back := DifferentBucketsCanBeTold(FreshBucket(p, later), b, later);
    TellingIsARun(id, times, later, back);
    TellingEndsDifferently(policies, id, times, later, back);
    assert !AnsweredAlike(policies, Telling(id, times, later, back), 0.0, LastTime(back, later));
  }

  // ---- exactly --------------------------------------------------------------------------------------

  /** Pruning cannot be noticed in any run of checks if and only if each route's capacity is below one
      token, or refilled within the time after which an idle bucket is reaped. */
  lemma PruningIsInvisibleIff(policies: map<Route, Policy>)
    ensures NobodyCanTell(policies) <==> AllHarmless(policies)
  {
    if AllHarmless(policies) {
      forall calls, start, finish
        ensures AnsweredAlike(policies, calls, start, finish)
      {
        if OnlyChecks(calls) && ClockRuns(calls, start, finish) {
          AgreeingLimitersAnswerAlike(Empty(policies), Empty(policies), calls, start, finish);
        }
      }
    } else {
      var route :| route in policies && !IsHarmless(policies[route]);
      SomebodyCanTell(policies, route);
    }
  }
}

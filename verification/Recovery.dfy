/** The reboot-recovery poller: it watches one device until a reboot has demonstrably completed. */
module Recovery {
  import opened Wrappers

  /** The device's boot id; a reply with an empty one carries `None`. */
  type BootId = nat

  datatype Reply =
    | Answered(ready: bool, boot: Option<BootId>, uptime: Option<int>)
    | Rejected   // 401 or 403
    | Down       // refused, timed out, or any other failure

  /** What the k-th probe of one call says, and how much of the call has passed after it. */
  type Probes = nat -> Reply
  type Clock = nat -> real

  const FRESH_BOOT_UPTIME := 180

  function Clamp(value: Option<real>, default: real, lo: real, hi: real): real {
    match value
    case None => default
    case Some(v) => if v < lo then lo else if v > hi then hi else v
  }

  function Timeout(value: Option<real>): (t: real)
    ensures 5.0 <= t <= 600.0
  {
    Clamp(value, 90.0, 5.0, 600.0)
  }

  function Interval(value: Option<real>): (t: real)
    ensures 1.0 <= t <= 30.0
  {
    Clamp(value, 3.0, 1.0, 30.0)
  }

  // ---- what the trace of replies says -------------------------------------------------------

  ghost predicate WentDown(probes: Probes, n: nat) {
    exists i: nat :: i < n && probes(i).Down?
  }

  ghost predicate WasNotReady(probes: Probes, n: nat) {
    exists i: nat :: i < n && probes(i).Answered? && !probes(i).ready
  }

  /** The boot to compare with after `n` replies: the caller's, or else the first one reported. */
  function KnownBoot(probes: Probes, n: nat, given: Option<BootId>): Option<BootId> {
    if given.Some? then given
    else if n == 0 then None
    else
      var before := KnownBoot(probes, n - 1, None);
      if before.None? && probes(n - 1).Answered? then probes(n - 1).boot else before
  }

  /** The last uptime reported in the first `n` replies. */
  function LastUptime(probes: Probes, n: nat): Option<int> {
    if n == 0 then None
    else if probes(n - 1).Answered? && probes(n - 1).uptime.Some? then probes(n - 1).uptime
    else LastUptime(probes, n - 1)
  }

  /** Probe `k` itself shows a new boot, or an earlier probe of this call saw the old one end. */
  ghost predicate BootEvidence(probes: Probes, k: nat, given: Option<BootId>)
    requires probes(k).Answered?
  {
    var (boot, uptime) := (probes(k).boot, probes(k).uptime);
    || WentDown(probes, k)
    || WasNotReady(probes, k)
    || (boot.Some? && KnownBoot(probes, k + 1, given).Some? && boot != KnownBoot(probes, k + 1, given))
    || (uptime.Some? && LastUptime(probes, k).Some? && uptime.value < LastUptime(probes, k).value)
    || (uptime.Some? && uptime.value < FRESH_BOOT_UPTIME)
  }

  ghost predicate RecoveredAt(probes: Probes, k: nat, given: Option<BootId>) {
    probes(k).Answered? && probes(k).ready && BootEvidence(probes, k, given)
  }

  /** One after a rejection, none after anything else: the loop stops before it can be two. */
  function Refusals(probes: Probes, n: nat): nat {
    if n >= 1 && probes(n - 1).Rejected? then 1 else 0
  }

  /** The second rejection in a row. */
  ghost predicate LockedOutAt(probes: Probes, k: nat) {
    k >= 1 && probes(k).Rejected? && probes(k - 1).Rejected?
  }

  predicate OutOfTimeAt(clock: Clock, k: nat, interval: real, timeout: real) {
    clock(k) + interval > timeout
  }

  ghost predicate StopsAt(probes: Probes, clock: Clock, k: nat, interval: real, timeout: real, given: Option<BootId>) {
    RecoveredAt(probes, k, given) || LockedOutAt(probes, k) || OutOfTimeAt(clock, k, interval, timeout)
  }

  datatype Verdict = Recovered | AuthFailed | StillWaiting

  datatype Report = Report(
    verdict: Verdict, polls: nat, offlineObserved: bool, notReadyObserved: bool, baseline: Option<BootId>)

  /** The report of a call: it stopped at the first probe that allowed it to, for the strongest
      reason that probe gave, and says what the call has seen. */
  ghost predicate IsReport(
    report: Report, probes: Probes, clock: Clock, interval: real, timeout: real, given: Option<BootId>)
  {
    && report.polls >= 1
    && var k := report.polls - 1;
       && StopsAt(probes, clock, k, interval, timeout, given)
       && (forall i: nat :: i < k ==> !StopsAt(probes, clock, i, interval, timeout, given))
       && report.verdict == (if RecoveredAt(probes, k, given) then Recovered
                             else if LockedOutAt(probes, k) then AuthFailed else StillWaiting)
       && report.offlineObserved == WentDown(probes, k + 1)
       && report.notReadyObserved == WasNotReady(probes, k + 1)
       && report.baseline == KnownBoot(probes, k + 1, given)
  }

  /** The specification admits one report for a trace. */
  lemma ReportIsUnique(
    a: Report, b: Report, probes: Probes, clock: Clock, interval: real, timeout: real, given: Option<BootId>)
    requires IsReport(a, probes, clock, interval, timeout, given)
    requires IsReport(b, probes, clock, interval, timeout, given)
    ensures a == b
  {
    assert StopsAt(probes, clock, a.polls - 1, interval, timeout, given);
    assert StopsAt(probes, clock, b.polls - 1, interval, timeout, given);
  }

  /** Sleeping advances the clock by at least the interval asked for. */
  ghost predicate SleepsFully(clock: Clock, interval: real) {
    0.0 <= clock(0) && forall k: nat :: clock(k) + interval <= clock(k + 1)
  }

  lemma OneMoreReply(probes: Probes, n: nat, given: Option<BootId>)
    ensures WentDown(probes, n + 1) == (WentDown(probes, n) || probes(n).Down?)
    ensures WasNotReady(probes, n + 1) == (WasNotReady(probes, n) || (probes(n).Answered? && !probes(n).ready))
    ensures KnownBoot(probes, n + 1, given) == (if KnownBoot(probes, n, given).None? && probes(n).Answered?
                                                then probes(n).boot else KnownBoot(probes, n, given))
    ensures LastUptime(probes, n + 1) == (if probes(n).Answered? && probes(n).uptime.Some?
                                          then probes(n).uptime else LastUptime(probes, n))
  {
  }

  // ---- the poller ---------------------------------------------------------------------------

  function Remaining(clock: Clock, k: nat, timeout: real): nat {
    if clock(k) > timeout then 0 else (timeout - clock(k)).Floor + 1
  }

  lemma TimeRunsDown(clock: Clock, k: nat, interval: real, timeout: real)
    requires SleepsFully(clock, interval) && interval >= 1.0 && !OutOfTimeAt(clock, k, interval, timeout)
    ensures Remaining(clock, k + 1, timeout) < Remaining(clock, k, timeout)
  {
    assert clock(k) + interval <= clock(k + 1);
  }

  /** What the loop remembers of the replies so far. */
  datatype Seen = Seen(baseline: Option<BootId>, prevUptime: Option<int>, offline: bool, notReady: bool)

  ghost predicate Tracks(seen: Seen, probes: Probes, n: nat, given: Option<BootId>) {
    && seen.baseline == KnownBoot(probes, n, given) && seen.prevUptime == LastUptime(probes, n)
    && seen.offline == WentDown(probes, n) && seen.notReady == WasNotReady(probes, n)
  }

  /** Takes in one answer: what is remembered afterwards, and whether it completes a reboot. */
  method ObserveAnswer(seen: Seen, probes: Probes, k: nat, given: Option<BootId>) returns (next: Seen, recovered: bool)
    requires Tracks(seen, probes, k, given) && probes(k).Answered?
    ensures Tracks(next, probes, k + 1, given)
    ensures recovered == RecoveredAt(probes, k, given)
  {
    OneMoreReply(probes, k, given);
    next := seen;
    var (boot, uptime) := (probes(k).boot, probes(k).uptime);
    if next.baseline.None? && boot.Some? {
      next := next.(baseline := boot);
    }
    var uptimeDecreased := seen.prevUptime.Some? && uptime.Some? && uptime.value < seen.prevUptime.value;
    if uptime.Some? {
      next := next.(prevUptime := uptime);
    }
    if !probes(k).ready {
      next := next.(notReady := true);
      return next, false;
    }
    recovered :=
      || next.offline || next.notReady
      || (boot.Some? && next.baseline.Some? && boot != next.baseline)
      || uptimeDecreased || (uptime.Some? && uptime.value < FRESH_BOOT_UPTIME);
  }

  method AwaitDeviceRecovery(probes: Probes, clock: Clock, timeoutAsked: Option<real>, intervalAsked: Option<real>,
                             given: Option<BootId>) returns (report: Report)
    requires SleepsFully(clock, Interval(intervalAsked))
    ensures IsReport(report, probes, clock, Interval(intervalAsked), Timeout(timeoutAsked), given)
  {
    var timeout, interval := Timeout(timeoutAsked), Interval(intervalAsked);
    var seen := Seen(given, None, false, false);
    var rejections, polls := 0, 0;
    while true
      invariant forall i: nat :: i < polls ==> !StopsAt(probes, clock, i, interval, timeout, given)
      invariant Tracks(seen, probes, polls, given)
      invariant rejections == Refusals(probes, polls)
      decreases Remaining(clock, polls, timeout)
    {
      var k := polls;
      OneMoreReply(probes, k, given);
      polls := polls + 1;
      if probes(k).Answered? {
        rejections := 0;
        var recovered;
        seen, recovered := ObserveAnswer(seen, probes, k, given);
        if recovered {
          return Report(Recovered, polls, seen.offline, seen.notReady, seen.baseline);
        }
      } else if probes(k).Rejected? {
        rejections := rejections + 1;
        if rejections >= 2 {
          return Report(AuthFailed, polls, seen.offline, seen.notReady, seen.baseline);
        }
      } else {
        seen := seen.(offline := true);
        rejections := 0;
      }
      if clock(k) + interval > timeout {
        return Report(StillWaiting, polls, seen.offline, seen.notReady, seen.baseline);
      }
      TimeRunsDown(clock, k, interval, timeout);
    }
  }

  // ---- what the report can be relied on for ---------------------------------------------------

  /** A device that stays up on the same boot, or names none, is never reported recovered, however long
      it is watched. */
  lemma UnrebootedDeviceIsNotRecovered(
    report: Report, probes: Probes, clock: Clock, interval: real, timeout: real,
    given: Option<BootId>, boot: Option<BootId>)
    requires IsReport(report, probes, clock, interval, timeout, given)
    requires forall k: nat :: probes(k).Answered? && probes(k).ready && probes(k).boot == boot
    requires given.None? || boot.None? || given == boot
    requires forall k: nat ::
      probes(k).Answered? && probes(k).uptime.Some? ==> probes(k).uptime.value >= FRESH_BOOT_UPTIME
    requires forall i: nat, k: nat ::
      (i < k && probes(i).Answered? && probes(k).Answered? && probes(i).uptime.Some? && probes(k).uptime.Some?)
      ==> probes(i).uptime.value <= probes(k).uptime.value
    ensures report.verdict == StillWaiting && report.baseline == (if given.Some? then given else boot)
  {
    var k := report.polls - 1;
    SameBootThroughout(probes, k + 1, given, boot);
    UptimeWasReported(probes, k);
    assert !BootEvidence(probes, k, given);
    assert !LockedOutAt(probes, k);
  }

  lemma {:induction false} SameBootThroughout(probes: Probes, n: nat, given: Option<BootId>, boot: Option<BootId>)
    requires forall k: nat :: probes(k).Answered? && probes(k).boot == boot
    requires given.None? || boot.None? || given == boot
    ensures KnownBoot(probes, n, given) == if n == 0 then given else if given.Some? then given else boot
  {
    if n > 0 && given.None? {
      SameBootThroughout(probes, n - 1, given, boot);
    }
  }

  lemma {:induction false} UptimeWasReported(probes: Probes, n: nat)
    ensures LastUptime(probes, n).Some? ==>
      exists i: nat :: i < n && probes(i).Answered? && probes(i).uptime == LastUptime(probes, n)
  {
    if n > 0 && !(probes(n - 1).Answered? && probes(n - 1).uptime.Some?) {
      UptimeWasReported(probes, n - 1);
    }
  }

  /** The number of probes is bounded by the time allowed. */
  lemma {:induction false} ClockOutrunsProbes(clock: Clock, interval: real, k: nat)
    requires SleepsFully(clock, interval)
    ensures clock(k) >= k as real * interval
  {
    if k > 0 {
      ClockOutrunsProbes(clock, interval, k - 1);
      assert clock(k - 1) + interval <= clock(k - 1 + 1);
      assert k as real * interval == (k - 1) as real * interval + interval;
    }
  }

  lemma ProbesAreBounded(
    report: Report, probes: Probes, clock: Clock, interval: real, timeout: real, given: Option<BootId>)
    requires SleepsFully(clock, interval) && 0.0 <= timeout
    requires IsReport(report, probes, clock, interval, timeout, given)
    ensures (report.polls - 1) as real * interval <= timeout
  {
    if report.polls >= 2 {
      var k := report.polls - 2;
      assert !StopsAt(probes, clock, k, interval, timeout, given);
      ClockOutrunsProbes(clock, interval, k);
      assert (k + 1) as real * interval == k as real * interval + interval;
    }
  }

  /** Waiting can be resumed: with the baseline one call returned, the next one recognises the
      first ready answer on another boot, even if it saw nothing of the reboot itself. */
  lemma ResumedCallSeesTheNewBoot(
    first: Report, second: Report, firstProbes: Probes, probes: Probes, firstClock: Clock, clock: Clock,
    interval: real, timeout: real, given: Option<BootId>, k: nat)
    requires IsReport(first, firstProbes, firstClock, interval, timeout, given) && first.baseline.Some?
    requires IsReport(second, probes, clock, interval, timeout, first.baseline)
    requires probes(k).Answered? && probes(k).ready && probes(k).boot.Some? && probes(k).boot != first.baseline
    requires forall i: nat :: i < k ==> !(probes(i).Answered? && probes(i).ready)
    requires forall i: nat :: i < k ==> !LockedOutAt(probes, i) && !OutOfTimeAt(clock, i, interval, timeout)
    ensures second.verdict == Recovered && second.polls == k + 1 && second.baseline == first.baseline
  {
    assert RecoveredAt(probes, k, first.baseline);
    assert StopsAt(probes, clock, k, interval, timeout, first.baseline);
    assert forall i: nat :: i < k ==> !StopsAt(probes, clock, i, interval, timeout, first.baseline);
    assert StopsAt(probes, clock, second.polls - 1, interval, timeout, first.baseline);
    assert second.polls - 1 == k;
  }

  // ---- the report without the loop's bookkeeping ------------------------------------------------------

  /** In seconds: ninety and three unless the caller says otherwise, within ten minutes and half a minute. */
  lemma LimitsInSeconds(v: real)
    ensures Timeout(None) == 90.0 && Interval(None) == 3.0
    ensures Timeout(Some(v)) == if v < 5.0 then 5.0 else if v > 600.0 then 600.0 else v
    ensures Interval(Some(v)) == if v < 1.0 then 1.0 else if v > 30.0 then 30.0 else v
  {
  }

  predicate NamesABoot(r: Reply) {
    r.Answered? && r.boot.Some?
  }

  predicate TellsUptime(r: Reply) {
    r.Answered? && r.uptime.Some?
  }

  /** The first of the first `n` replies that names a boot is reply `i`. */
  ghost predicate FirstToName(probes: Probes, n: nat, i: nat) {
    i < n && NamesABoot(probes(i)) && forall j: nat :: j < i ==> !NamesABoot(probes(j))
  }

  /** The last of the first `n` replies that tells an uptime is reply `i`. */
  ghost predicate LastToTell(probes: Probes, n: nat, i: nat) {
    i < n && TellsUptime(probes(i)) && forall j: nat :: i < j < n ==> !TellsUptime(probes(j))
  }

  /** A ready answer after which the wait is over: the device had been down or not ready, or names
      another boot than the one asked about, or than the first it named itself, or has been up for less
      than it had been, or than three minutes. */
  ghost predicate ShowsReboot(probes: Probes, k: nat, given: Option<BootId>) {
    && probes(k).Answered? && probes(k).ready
    && var (boot, uptime) := (probes(k).boot, probes(k).uptime);
       || (exists i: nat :: i < k && probes(i).Down?)
       || (exists i: nat :: i < k && probes(i).Answered? && !probes(i).ready)
       || (boot.Some? && given.Some? && boot != given)
       || (boot.Some? && given.None? && exists i: nat :: FirstToName(probes, k, i) && boot != probes(i).boot)
       || (uptime.Some? && exists i: nat :: LastToTell(probes, k, i) && uptime.value < probes(i).uptime.value)
       || (uptime.Some? && uptime.value < 180)
  }

  lemma {:induction false} KnownBootIsTheFirstNamed(probes: Probes, n: nat)
    ensures KnownBoot(probes, n, None).Some? ==>
              exists i: nat :: FirstToName(probes, n, i) && KnownBoot(probes, n, None) == probes(i).boot
    ensures KnownBoot(probes, n, None).None? ==> forall i: nat :: i < n ==> !NamesABoot(probes(i))
  {
    if n > 0 {
      KnownBootIsTheFirstNamed(probes, n - 1);
      if KnownBoot(probes, n - 1, None).Some? {
        var i: nat :| FirstToName(probes, n - 1, i) && KnownBoot(probes, n - 1, None) == probes(i).boot;
        assert FirstToName(probes, n, i);
      } else if NamesABoot(probes(n - 1)) {
        assert FirstToName(probes, n, n - 1);
      }
    }
  }

  lemma {:induction false} LastUptimeIsTheLastTold(probes: Probes, n: nat)
    ensures LastUptime(probes, n).Some? ==>
              exists i: nat :: LastToTell(probes, n, i) && LastUptime(probes, n) == probes(i).uptime
    ensures LastUptime(probes, n).None? ==> forall i: nat :: i < n ==> !TellsUptime(probes(i))
  {
    if n > 0 {
      LastUptimeIsTheLastTold(probes, n - 1);
      if TellsUptime(probes(n - 1)) {
        assert LastToTell(probes, n, n - 1);
      } else if LastUptime(probes, n - 1).Some? {
        var i: nat :| LastToTell(probes, n - 1, i) && LastUptime(probes, n - 1) == probes(i).uptime;
        assert LastToTell(probes, n, i);
      }
    }
  }

  lemma OneIsFirst(probes: Probes, n: nat, i: nat, j: nat)
    requires FirstToName(probes, n, i) && FirstToName(probes, n, j)
    ensures i == j
  {
  }

  lemma OneIsLast(probes: Probes, n: nat, i: nat, j: nat)
    requires LastToTell(probes, n, i) && LastToTell(probes, n, j)
    ensures i == j
  {
  }

  lemma OtherBootIsSeen(probes: Probes, k: nat, boot: Option<BootId>)
    requires probes(k).Answered? && probes(k).boot == boot && boot.Some?
    ensures KnownBoot(probes, k + 1, None).Some?
    ensures boot != KnownBoot(probes, k + 1, None) <==>
            exists i: nat :: FirstToName(probes, k, i) && boot != probes(i).boot
  {
    KnownBootIsTheFirstNamed(probes, k);
    if KnownBoot(probes, k, None).Some? {
      var i: nat :| FirstToName(probes, k, i) && KnownBoot(probes, k, None) == probes(i).boot;
      forall j: nat | FirstToName(probes, k, j)
        ensures j == i
      {
        OneIsFirst(probes, k, i, j);
      }
    }
  }

  lemma ShorterUptimeIsSeen(probes: Probes, k: nat, uptime: int)
    ensures (LastUptime(probes, k).Some? && uptime < LastUptime(probes, k).value) <==>
            exists i: nat :: LastToTell(probes, k, i) && uptime < probes(i).uptime.value
  {
    LastUptimeIsTheLastTold(probes, k);
    if LastUptime(probes, k).Some? {
      var i: nat :| LastToTell(probes, k, i) && LastUptime(probes, k) == probes(i).uptime;
      forall j: nat | LastToTell(probes, k, j)
        ensures j == i
      {
        OneIsLast(probes, k, i, j);
      }
    }
  }

  lemma RecoveryIsAReboot(probes: Probes, k: nat, given: Option<BootId>)
    ensures RecoveredAt(probes, k, given) <==> ShowsReboot(probes, k, given)
  {
    if probes(k).Answered? {
      if probes(k).boot.Some? && given.None? {
        OtherBootIsSeen(probes, k, probes(k).boot);
      }
      if probes(k).uptime.Some? {
        ShorterUptimeIsSeen(probes, k, probes(k).uptime.value);
      }
    }
  }

  /** The call ends at probe `k`: it shows a reboot, or is the second refusal in a row, or leaves no time
      for another interval. */
  ghost predicate EndsAt(probes: Probes, clock: Clock, k: nat, interval: real, timeout: real, given: Option<BootId>) {
    || ShowsReboot(probes, k, given)
    || (k > 0 && probes(k).Rejected? && probes(k - 1).Rejected?)
    || clock(k) + interval > timeout
  }

  /** The report in full: how many probes, which verdict, and what it says was seen. */
  lemma ReportInFull(
    report: Report, probes: Probes, clock: Clock, interval: real, timeout: real, given: Option<BootId>)
    requires IsReport(report, probes, clock, interval, timeout, given)
    ensures report.polls > 0
    ensures var k := report.polls - 1;
            && EndsAt(probes, clock, k, interval, timeout, given)
            && (forall i: nat :: i < k ==> !EndsAt(probes, clock, i, interval, timeout, given))
            && (report.verdict == Recovered <==> ShowsReboot(probes, k, given))
            && (report.verdict == AuthFailed <==>
                  !ShowsReboot(probes, k, given) && k > 0 && probes(k).Rejected? && probes(k - 1).Rejected?)
            && (report.offlineObserved <==> exists i: nat :: i <= k && probes(i).Down?)
            && (report.notReadyObserved <==> exists i: nat :: i <= k && probes(i).Answered? && !probes(i).ready)
            && (given.Some? ==> report.baseline == given)
            && (given.None? && report.baseline.Some? ==>
                  exists i: nat :: FirstToName(probes, k + 1, i) && report.baseline == probes(i).boot)
            && (given.None? && report.baseline.None? ==> forall i: nat :: i <= k ==> !NamesABoot(probes(i)))
  {
    var k := report.polls - 1;
    forall i: nat | i <= k
      ensures StopsAt(probes, clock, i, interval, timeout, given)
              <==> EndsAt(probes, clock, i, interval, timeout, given)
      ensures RecoveredAt(probes, i, given) <==> ShowsReboot(probes, i, given)
    {
      RecoveryIsAReboot(probes, i, given);
    }
    KnownBootIsTheFirstNamed(probes, k + 1);
  }
}

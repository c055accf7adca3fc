/** What a device was seen to support, how long that is believed, and how a cycle of probes
    becomes rows. */
module Capabilities {
  import opened Text
  import opened Wrappers

  datatype Classification = Present | Absent | Unconfirmed

  const DAY := 86400
  const WEEK := 7 * DAY

  function Pow2(n: nat): nat {
    if n == 0 then 1 else 2 * Pow2(n - 1)
  }

  /** How long the `streak`-th unconfirmed failure in a row is believed, in seconds. */
  function Lease(streak: nat): nat {
    var backoff := DAY * Pow2(if streak == 0 then 0 else streak - 1);
    if backoff < WEEK then backoff else WEEK
  }

  lemma {:induction false} Pow2Grows(a: nat, b: nat)
    requires a <= b
    ensures 1 <= Pow2(a) <= Pow2(b)
    decreases b
  {
    if a < b {
      Pow2Grows(a, b - 1);
    } else if a > 0 {
      Pow2Grows(a - 1, a - 1);
    }
  }

  /** Back-off never shortens, stays between a day and a week, and reaches the week at the
      fourth failure. */
  lemma LeaseGrowsToAWeek(s: nat, t: nat)
    requires 1 <= s <= t
    ensures DAY <= Lease(s) <= Lease(t) <= WEEK
    ensures Lease(t) == WEEK <==> t >= 4
  {
    Pow2Grows(s - 1, t - 1);
    Pow2Grows(0, s - 1);
    assert Pow2(3) == 8 && Pow2(2) == 4;
    if t >= 4 {
      Pow2Grows(3, t - 1);
    } else {
      Pow2Grows(t - 1, 2);
    }
  }

  /** In seconds: a day, two, four, and then a week for good. */
  lemma LeaseInSeconds(streak: nat)
    ensures Lease(streak) as real == LeaseOf(streak)
  {
    assert Pow2(0) == 1 && Pow2(1) == 2 && Pow2(2) == 4 && Pow2(3) == 8;
    if streak >= 4 {
      Pow2Grows(3, streak - 1);
    }
  }

  function LeaseOf(streak: nat): real {
    if streak <= 1 then 86400.0 else if streak == 2 then 172800.0 else if streak == 3 then 345600.0 else 604800.0
  }

  /** When a row stops being trusted; `None` is not before the firmware changes. */
  function ExpiryFor(cls: Classification, streak: nat, now: real): Option<real> {
    match cls
    case Present => None
    case Absent => Some(now + WEEK as real)
    case Unconfirmed => Some(now + Lease(streak) as real)
  }

  // ---- rows and the history they stand for ------------------------------------------------------

  datatype RowId = RowId(device: string, probeKey: string)
  datatype Observation = Observation(cls: Classification, firmware: string, source: string, reason: string, now: real)
  datatype Row = Row(
    supported: bool, firmware: string, source: string, reason: string,
    failStreak: nat, observedAt: real, expiresAt: Option<real>)

  const REASON_MAX := 200

  function Clipped(reason: string): string {
    if |reason| <= REASON_MAX then reason else reason[..REASON_MAX]
  }

  /** The class is not stored: it is read back from the flag and the streak. */
  function ClassOf(row: Row): Classification {
    if row.supported then Present else if row.failStreak > 0 then Unconfirmed else Absent
  }

  predicate IsStale(row: Row, firmware: string, now: real) {
    row.firmware != firmware || (row.expiresAt.Some? && row.expiresAt.value <= now)
  }

  function NextStreak(previous: Option<Row>, o: Observation): nat {
    if o.cls != Unconfirmed then 0
    else if previous.Some? && previous.value.failStreak > 0 && previous.value.firmware == o.firmware
    then previous.value.failStreak + 1
    else 1
  }

  function RowFor(o: Observation, streak: nat): Row {
    Row(o.cls == Present, o.firmware, o.source, Clipped(o.reason), streak, o.now, ExpiryFor(o.cls, streak, o.now))
  }

  type Rows = map<RowId, Row>

  function Find(rows: Rows, id: RowId): Option<Row> {
    if id in rows then Some(rows[id]) else None
  }

  datatype Event = Observed(id: RowId, seen: Observation) | Forgotten(device: string)

  function Apply(rows: Rows, e: Event): Rows {
    match e
    case Observed(id, o) => rows[id := RowFor(o, NextStreak(Find(rows, id), o))]
    case Forgotten(device) => map id | id in rows && id.device != device :: rows[id]
  }

  /** The rows a history leaves behind. */
  function Run(events: seq<Event>): Rows
    decreases |events|
  {
    if events == [] then map[] else Apply(Run(events[..|events| - 1]), events[|events| - 1])
  }

  /** Everything observed under `id` since its device was last forgotten, oldest first. */
  function Observations(events: seq<Event>, id: RowId): seq<Observation>
    decreases |events|
  {
    if events == [] then []
    else
      var before := Observations(events[..|events| - 1], id);
      match events[|events| - 1]
      case Observed(i, o) => if i == id then before + [o] else before
      case Forgotten(device) => if device == id.device then [] else before
  }

  predicate FailedAt(o: Observation, firmware: string) {
    o.cls == Unconfirmed && o.firmware == firmware
  }

  /** The last `n` observations are unconfirmed failures at the firmware last seen, and no more. */
  ghost predicate IsTrailingRun(seen: seq<Observation>, n: nat) {
    && 0 < |seen| && n <= |seen|
    && (forall i :: |seen| - n <= i < |seen| ==> FailedAt(seen[i], seen[|seen| - 1].firmware))
    && (n == |seen| || !FailedAt(seen[|seen| - n - 1], seen[|seen| - 1].firmware))
  }

  lemma TrailingRunIsUnique(seen: seq<Observation>, m: nat, n: nat)
    requires IsTrailingRun(seen, m) && IsTrailingRun(seen, n)
    ensures m == n
  {
    if m < |seen| {
      assert !FailedAt(seen[|seen| - m - 1], seen[|seen| - 1].firmware);
    }
    if n < |seen| {
      assert !FailedAt(seen[|seen| - n - 1], seen[|seen| - 1].firmware);
    }
  }

  /** The row that belongs to a history: the last observation, the length of its trailing run
      of failures, and the class last recorded. */
  ghost predicate Describes(row: Row, seen: seq<Observation>) {
    && IsTrailingRun(seen, row.failStreak)
    && var last := seen[|seen| - 1];
       row == RowFor(last, row.failStreak) && ClassOf(row) == last.cls
  }

  lemma OneMoreObservation(row: Row, seen: seq<Observation>, o: Observation)
    requires Describes(row, seen)
    ensures Describes(RowFor(o, NextStreak(Some(row), o)), seen + [o])
  {
    var last := seen[|seen| - 1];
    var longer := seen + [o];
    assert longer[|longer| - 1] == o && longer[|longer| - 2] == last;
    if o.cls == Unconfirmed && row.failStreak > 0 && row.firmware == o.firmware {
      var n := row.failStreak + 1;
      forall i | |longer| - n <= i < |longer|
        ensures FailedAt(longer[i], o.firmware)
      {
        if i < |seen| {
          assert longer[i] == seen[i];
        }
      }
      if n != |longer| {
        assert longer[|longer| - n - 1] == seen[|seen| - row.failStreak - 1];
      }
    }
  }

  /** The learner's memory: whatever was recorded and forgotten, in whatever order, each row is
      exactly what the observations since the last forget say, and there is a row for an id
      just when there is such an observation. */
  lemma {:induction false} RowsMatchHistory(events: seq<Event>, id: RowId)
    ensures id in Run(events) <==> Observations(events, id) != []
    ensures id in Run(events) ==> Describes(Run(events)[id], Observations(events, id))
    decreases |events|
  {
    if events != [] {
      var (before, e) := (events[..|events| - 1], events[|events| - 1]);
      RowsMatchHistory(before, id);
      if e.Observed? && e.id == id && id in Run(before) {
        OneMoreObservation(Run(before)[id], Observations(before, id), e.seen);
      }
    }
  }

  /** What a row keeps of the last observation: its words, cut to two hundred characters, and whether
      it was a success. */
  lemma RowRemembersTheLastObservation(events: seq<Event>, id: RowId)
    ensures id in Run(events) <==> Observations(events, id) != []
    ensures id in Run(events) ==>
              var (row, seen) := (Run(events)[id], Observations(events, id));
              var last := seen[|seen| - 1];
              && (row.supported <==> last.cls == Present) && row.firmware == last.firmware && row.source == last.source
              && row.reason == (if |last.reason| > 200 then last.reason[..200] else last.reason)
              && row.observedAt == last.now && (row.failStreak > 0 <==> last.cls == Unconfirmed)
  {
    RowsMatchHistory(events, id);
  }

  /** The rows selection may trust for a device running `firmware` at `now`, by probe key. */
  function View(rows: Rows, device: string, firmware: string, now: real): map<string, Row> {
    map key | key in (set id | id in rows :: id.probeKey)
              && RowId(device, key) in rows && !IsStale(rows[RowId(device, key)], firmware, now)
      :: rows[RowId(device, key)]
  }

  /** Trust in terms of evidence alone: the last thing seen under this key was seen at this
      firmware, and it is either a success, or an absence less than a week old, or a failure
      whose lease, set by the length of the run of failures, has not run out. */
  lemma TrustedIffEvidenceIsFresh(events: seq<Event>, id: RowId, firmware: string, now: real, streak: nat)
    requires Observations(events, id) != [] ==> IsTrailingRun(Observations(events, id), streak)
    ensures id.probeKey in View(Run(events), id.device, firmware, now) <==>
            var seen := Observations(events, id);
            && seen != []
            && var last := seen[|seen| - 1];
               && last.firmware == firmware
               && match last.cls {
                    case Present => true
                    case Absent => now < last.now + 604800.0
                    case Unconfirmed => now < last.now + LeaseOf(streak)
                  }
  {
    LeaseInSeconds(streak);
    RowsMatchHistory(events, id);
    assert RowId(id.device, id.probeKey) == id;
    if id in Run(events) {
      TrailingRunIsUnique(Observations(events, id), streak, Run(events)[id].failStreak);
    }
  }

  // ---- the store ----------------------------------------------------------------------------

  class DeviceCapabilityStore {
    var rows: Rows
    ghost var history: seq<Event>

    ghost predicate Valid()
      reads this
    {
      rows == Run(history)
    }

    constructor ()
      ensures Valid() && rows == map[] && history == []
    {
      rows, history := map[], [];
    }

    method Record(id: RowId, cls: Classification, firmware: string, source: string, reason: string, now: real)
      returns (row: Row)
      requires Valid()
      modifies this
      ensures Valid() && history == old(history) + [Observed(id, Observation(cls, firmware, source, reason, now))]
      ensures rows == old(rows)[id := row]
    {
      var previous := if id in rows then Some(rows[id]) else None;
      var streak := 0;
      if cls == Unconfirmed {
        if previous.Some? && previous.value.failStreak > 0 && previous.value.firmware == firmware {
          streak := previous.value.failStreak + 1;
        } else {
          streak := 1;
        }
      }
      row := Row(cls == Present, firmware, source, Clipped(reason), streak, now, ExpiryFor(cls, streak, now));
      rows := rows[id := row];
      history := history + [Observed(id, Observation(cls, firmware, source, reason, now))];
      assert history[..|history| - 1] == old(history);
    }

    method Forget(device: string) returns (removed: nat)
      requires Valid()
      modifies this
      ensures Valid() && history == old(history) + [Forgotten(device)]
      ensures rows == map id | id in old(rows) && id.device != device :: old(rows)[id]
      ensures removed == |old(rows)| - |rows|
    {
      var kept := map id | id in rows && id.device != device :: rows[id];
      assert kept.Keys <= rows.Keys;
      CardinalityOfSubset(kept.Keys, rows.Keys);
      removed := |rows.Keys| - |kept.Keys|;
      assert |kept| == |kept.Keys| && |rows| == |rows.Keys|;
      rows := kept;
      history := history + [Forgotten(device)];
      assert history[..|history| - 1] == old(history);
    }
  }

  lemma CardinalityOfSubset<T>(a: set<T>, b: set<T>)
    requires a <= b
    ensures |a| <= |b|
  {
    assert b == a + (b - a);
  }

  // ---- the learner ----------------------------------------------------------------------------

  /** One executor outcome; `status` is `None` when there was no HTTP response at all. */
  datatype StepResult = StepResult(success: bool, status: Option<int>, error: string)

  const ABSENT_STATUS_CODES := {400, 404, 405, 410, 501}
  const METHOD_ABSENT_MARKS :=
    ["method not found", "-32601", "unknown method", "no such method", "not supported", "unsupported method"]

  predicate SaysMethodAbsent(error: string) {
    exists mark <- METHOD_ABSENT_MARKS :: Contains(Lower(error), mark)
  }

  function Classify(result: StepResult, readable: bool): Option<Classification> {
    if result.success then Some(Present)
    else if !readable then None
    else match result.status
      case None => Some(Unconfirmed)
      case Some(status) =>
        if status in ABSENT_STATUS_CODES then Some(Absent)
        else if status >= 400 then Some(Unconfirmed)
        else if SaysMethodAbsent(result.error) then Some(Absent)
        else Some(Unconfirmed)
  }

  /** No response, a refused login or a server error. */
  predicate IsTrouble(result: StepResult) {
    && !result.success
    && (result.status.None? || result.status.value in {401, 403}
        || (500 <= result.status.value && result.status.value != 501))
  }

  lemma TroubleIsUnconfirmed(result: StepResult)
    requires IsTrouble(result)
    ensures Classify(result, true) == Some(Unconfirmed)
  {
  }

  /** A device having a bad moment is believed to lack the API for a day, never for the week that a
      definite answer earns: after any history in which it was not failing already, a selection made
      on that evidence holds exactly until a day later. */
  lemma TroubleIsBelievedForADay(
    events: seq<Event>, id: RowId, result: StepResult, firmware: string, source: string, seenAt: real, now: real)
    requires IsTrouble(result)
    requires var before := Observations(events, id); before == [] || !FailedAt(before[|before| - 1], firmware)
    ensures Classify(result, true) == Some(Unconfirmed)
    ensures var o := Observation(Unconfirmed, firmware, source, result.error, seenAt);
            var after := Run(events + [Observed(id, o)]);
            id.probeKey in View(after, id.device, firmware, now) <==> now < seenAt + 86400.0
  {
    TroubleIsUnconfirmed(result);
    var o := Observation(Unconfirmed, firmware, source, result.error, seenAt);
    var after := events + [Observed(id, o)];
    assert after[..|after| - 1] == events;
    assert Observations(after, id) == Observations(events, id) + [o];
    TrustedIffEvidenceIsFresh(after, id, firmware, now, 1);
  }

  function Rank(cls: Classification): nat {
    match cls
    case Present => 3
    case Absent => 2
    case Unconfirmed => 1
  }

  datatype Outcome = Outcome(probeKey: string, result: StepResult)
  datatype Verdict = Verdict(cls: Classification, reason: string)

  function VerdictOf(o: Outcome, readable: bool): Option<Verdict> {
    match Classify(o.result, readable)
    case None => None
    case Some(cls) => Some(Verdict(cls, if cls != Present then o.result.error else ""))
  }

  /** `o` speaks about `key`, and this is what it says. */
  predicate Says(o: Outcome, readable: bool, key: string, v: Verdict) {
    o.probeKey == key && VerdictOf(o, readable) == Some(v)
  }

  function Stronger(held: Option<Verdict>, v: Verdict): Verdict {
    if held.None? || Rank(v.cls) > Rank(held.value.cls) then v else held.value
  }

  /** What a cycle comes to believe about one key. */
  function Strongest(outcomes: seq<Outcome>, readable: bool, key: string): Option<Verdict>
    decreases |outcomes|
  {
    if outcomes == [] then None
    else
      var held := Strongest(outcomes[..|outcomes| - 1], readable, key);
      var o := outcomes[|outcomes| - 1];
      if o.probeKey == key && VerdictOf(o, readable).Some?
      then Some(Stronger(held, VerdictOf(o, readable).value))
      else held
  }

  /** It is the strongest thing any outcome says about the key, in the words of the first outcome
      that says it; and it is nothing just when no outcome says anything. */
  ghost predicate IsStrongest(outcomes: seq<Outcome>, readable: bool, key: string, r: Option<Verdict>) {
    && (forall j, w {:trigger Says(outcomes[j], readable, key, w)} ::
          0 <= j < |outcomes| && Says(outcomes[j], readable, key, w) ==> r.Some? && Rank(w.cls) <= Rank(r.value.cls))
    && (r.Some? ==> exists i: nat :: FirstToSay(outcomes, readable, key, r.value, i))
  }

  ghost predicate FirstToSay(outcomes: seq<Outcome>, readable: bool, key: string, v: Verdict, i: nat) {
    && i < |outcomes| && Says(outcomes[i], readable, key, v)
    && forall j, w :: 0 <= j < i && Says(outcomes[j], readable, key, w) ==> Rank(w.cls) < Rank(v.cls)
  }

  lemma {:induction false} StrongestWins(outcomes: seq<Outcome>, readable: bool, key: string)
    ensures IsStrongest(outcomes, readable, key, Strongest(outcomes, readable, key))
    decreases |outcomes|
  {
    if outcomes != [] {
      var (before, o) := (outcomes[..|outcomes| - 1], outcomes[|outcomes| - 1]);
      StrongestWins(before, readable, key);
      assert outcomes == before + [o];
      OneMoreOutcome(before, o, readable, key, Strongest(before, readable, key));
    }
  }

  lemma OneMoreOutcome(before: seq<Outcome>, o: Outcome, readable: bool, key: string, held: Option<Verdict>)
    requires IsStrongest(before, readable, key, held)
    ensures var v := VerdictOf(o, readable);
            IsStrongest(before + [o], readable, key,
                        if o.probeKey == key && v.Some? then Some(Stronger(held, v.value)) else held)
  {
    var longer := before + [o];
    assert longer[|before|] == o;
    var v := VerdictOf(o, readable);
    var now := if o.probeKey == key && v.Some? then Some(Stronger(held, v.value)) else held;
    forall j, w {:trigger Says(longer[j], readable, key, w)} | 0 <= j < |longer| && Says(longer[j], readable, key, w)
      ensures now.Some? && Rank(w.cls) <= Rank(now.value.cls)
    {
      if j < |before| {
        assert Says(before[j], readable, key, w);
      }
    }
    if now != held {
      TakesOver(before, o, readable, key, held, now.value);
      assert FirstToSay(longer, readable, key, now.value, |before|);
    } else if held.Some? {
      var i: nat :| FirstToSay(before, readable, key, held.value, i);
      assert longer[i] == before[i];
      assert FirstToSay(longer, readable, key, now.value, i);
    }
  }

  lemma TakesOver(
    before: seq<Outcome>, o: Outcome, readable: bool, key: string, held: Option<Verdict>, v: Verdict)
    requires IsStrongest(before, readable, key, held) && Says(o, readable, key, v)
    requires held.None? || Rank(v.cls) > Rank(held.value.cls)
    ensures FirstToSay(before + [o], readable, key, v, |before|)
  {
    forall j, w | 0 <= j < |before| && Says((before + [o])[j], readable, key, w)
      ensures Rank(w.cls) < Rank(v.cls)
    {
      assert Says(before[j], readable, key, w);
    }
  }

  /** Order and repetition do not matter: two cycles in which the same things were said about a
      key come to the same class. */
  lemma ClassIgnoresOrderAndRepetition(a: seq<Outcome>, b: seq<Outcome>, readable: bool, key: string)
    requires forall o :: o in a && o.probeKey == key ==> o in b
    requires forall o :: o in b && o.probeKey == key ==> o in a
    ensures var (x, y) := (Strongest(a, readable, key), Strongest(b, readable, key));
            x.Some? == y.Some? && (x.Some? ==> x.value.cls == y.value.cls)
  {
    StrongestIsMatched(a, b, readable, key);
    StrongestIsMatched(b, a, readable, key);
  }

  lemma StrongestIsMatched(a: seq<Outcome>, b: seq<Outcome>, readable: bool, key: string)
    requires forall o :: o in a && o.probeKey == key ==> o in b
    ensures Strongest(a, readable, key).Some? ==>
            && Strongest(b, readable, key).Some?
            && Rank(Strongest(a, readable, key).value.cls) <= Rank(Strongest(b, readable, key).value.cls)
  {
    StrongestWins(a, readable, key);
    StrongestWins(b, readable, key);
    var x := Strongest(a, readable, key);
    if x.Some? {
      var i: nat :| FirstToSay(a, readable, key, x.value, i);
      assert a[i] in b;
      var j :| 0 <= j < |b| && b[j] == a[i];
      assert Says(b[j], readable, key, x.value);
    }
  }

  /** A device that could not be read teaches only what it was seen to support. */
  lemma UnreadableDeviceTeachesOnlySuccess(outcomes: seq<Outcome>, key: string)
    ensures var r := Strongest(outcomes, false, key);
            && (r.Some? ==> r.value.cls == Present)
            && (r.Some? <==> exists o <- outcomes :: o.probeKey == key && o.result.success)
  {
    StrongestWins(outcomes, false, key);
    var r := Strongest(outcomes, false, key);
    if r.Some? {
      var i: nat :| FirstToSay(outcomes, false, key, r.value, i);
      assert outcomes[i] in outcomes;
    }
    if o :| o in outcomes && o.probeKey == key && o.result.success {
      var j :| 0 <= j < |outcomes| && outcomes[j] == o;
      assert Says(outcomes[j], false, key, Verdict(Present, ""));
    }
  }

  /** The words by which a service says that it does not know a method. */
  ghost predicate DisownsTheMethod(error: string) {
    exists mark <- ["method not found", "-32601", "unknown method", "no such method", "not supported",
                    "unsupported method"] :: Carries(Lower(error), mark)
  }

  lemma MarksAreCarried(error: string)
    ensures SaysMethodAbsent(error) <==> DisownsTheMethod(error)
  {
    forall mark | mark in METHOD_ABSENT_MARKS
      ensures Contains(Lower(error), mark) <==> Carries(Lower(error), mark)
    {
      ContainsWhatItCarries(Lower(error), mark);
    }
  }

  /** A definite no: one of five statuses, or an answer below 400 whose text disowns the method. */
  ghost predicate IsDefiniteNo(result: StepResult) {
    && !result.success && result.status.Some?
    && (result.status.value in {400, 404, 405, 410, 501}
        || (result.status.value < 400 && DisownsTheMethod(result.error)))
  }

  lemma ClassOfOne(result: StepResult)
    ensures Classify(result, true)
         == Some(if result.success then Present else if IsDefiniteNo(result) then Absent else Unconfirmed)
  {
    MarksAreCarried(result.error);
  }

  /** Of several outcomes for one key, on a device that can be read: it is there if one of them
      succeeded; otherwise it is absent if one of them is a definite no; otherwise it is unconfirmed,
      if there are any at all. In the words of the first outcome of that kind. */
  ghost predicate IsVerdictOn(outcomes: seq<Outcome>, key: string, r: Option<Verdict>) {
    && (r.Some? <==> exists o <- outcomes :: o.probeKey == key)
    && (r.Some? ==>
          && (r.value.cls == Present <==> exists o <- outcomes :: o.probeKey == key && o.result.success)
          && (r.value.cls == Absent <==>
                && (forall o <- outcomes :: o.probeKey == key ==> !o.result.success)
                && exists o <- outcomes :: o.probeKey == key && IsDefiniteNo(o.result))
          && QuotesTheFirst(outcomes, key, r.value))
  }

  ghost predicate IsOfKind(o: Outcome, key: string, cls: Classification) {
    o.probeKey == key
    && match cls
       case Present => o.result.success
       case Absent => IsDefiniteNo(o.result)
       case Unconfirmed => !o.result.success && !IsDefiniteNo(o.result)
  }

  ghost predicate FirstOfItsKind(outcomes: seq<Outcome>, key: string, cls: Classification, i: nat) {
    i < |outcomes| && IsOfKind(outcomes[i], key, cls) && forall j :: 0 <= j < i ==> !IsOfKind(outcomes[j], key, cls)
  }

  lemma WhatOneSays(o: Outcome, key: string, v: Verdict)
    ensures Says(o, true, key, v) <==>
            IsOfKind(o, key, v.cls) && v.reason == WordsOf(o)
  {
    ClassOfOne(o.result);
  }

  function WordsOf(o: Outcome): string {
    if o.result.success then "" else o.result.error
  }

  /** Nothing in the cycle is of a stronger kind than `r`. */
  ghost predicate BoundsTheKinds(outcomes: seq<Outcome>, key: string, r: Option<Verdict>) {
    forall o, cls :: o in outcomes && IsOfKind(o, key, cls) ==> r.Some? && Rank(cls) <= Rank(r.value.cls)
  }

  ghost predicate QuotesTheFirst(outcomes: seq<Outcome>, key: string, v: Verdict) {
    exists i: nat :: FirstOfItsKind(outcomes, key, v.cls, i) && v.reason == WordsOf(outcomes[i])
  }

  lemma StrongestBoundsTheKinds(outcomes: seq<Outcome>, key: string)
    ensures BoundsTheKinds(outcomes, key, Strongest(outcomes, true, key))
  {
    StrongestWins(outcomes, true, key);
    var r := Strongest(outcomes, true, key);
    forall o, cls | o in outcomes && IsOfKind(o, key, cls)
      ensures r.Some? && Rank(cls) <= Rank(r.value.cls)
    {
      var j :| 0 <= j < |outcomes| && outcomes[j] == o;
      WhatOneSays(outcomes[j], key, Verdict(cls, WordsOf(o)));
      assert Says(outcomes[j], true, key, Verdict(cls, WordsOf(o)));
    }
  }

  lemma StrongestQuotesTheFirst(outcomes: seq<Outcome>, key: string)
    requires Strongest(outcomes, true, key).Some?
    ensures QuotesTheFirst(outcomes, key, Strongest(outcomes, true, key).value)
  {
    StrongestWins(outcomes, true, key);
    var v := Strongest(outcomes, true, key).value;
    var i: nat :| FirstToSay(outcomes, true, key, v, i);
    WhatOneSays(outcomes[i], key, v);
    forall j | 0 <= j < i
      ensures !IsOfKind(outcomes[j], key, v.cls)
    {
      var w := Verdict(v.cls, WordsOf(outcomes[j]));
      WhatOneSays(outcomes[j], key, w);
      assert Says(outcomes[j], true, key, w) ==> Rank(w.cls) < Rank(v.cls);
    }
    assert FirstOfItsKind(outcomes, key, v.cls, i);
  }

  function KindOf(o: Outcome, definiteNo: bool): Classification {
    if o.result.success then Present else if definiteNo then Absent else Unconfirmed
  }

  lemma SomeKindIsIts(o: Outcome, key: string)
    requires o.probeKey == key
    ensures IsOfKind(o, key, KindOf(o, IsDefiniteNo(o.result)))
  {
  }

  lemma BoundAndQuotedIsTheVerdict(outcomes: seq<Outcome>, key: string, r: Option<Verdict>)
    requires BoundsTheKinds(outcomes, key, r) && (r.Some? ==> QuotesTheFirst(outcomes, key, r.value))
    ensures IsVerdictOn(outcomes, key, r)
  {
    forall o | o in outcomes && o.probeKey == key
      ensures r.Some? && Rank(KindOf(o, IsDefiniteNo(o.result))) <= Rank(r.value.cls)
    {
      SomeKindIsIts(o, key);
    }
    if r.Some? {
      var i: nat :| FirstOfItsKind(outcomes, key, r.value.cls, i) && r.value.reason == WordsOf(outcomes[i]);
      assert outcomes[i] in outcomes && IsOfKind(outcomes[i], key, r.value.cls);
    }
  }

  lemma StrongestIsTheVerdict(outcomes: seq<Outcome>, key: string)
    ensures IsVerdictOn(outcomes, key, Strongest(outcomes, true, key))
  {
    StrongestBoundsTheKinds(outcomes, key);
    if Strongest(outcomes, true, key).Some? {
      StrongestQuotesTheFirst(outcomes, key);
    }
    BoundAndQuotedIsTheVerdict(outcomes, key, Strongest(outcomes, true, key));
  }

  method Merge(outcomes: seq<Outcome>, readable: bool) returns (merged: map<string, Verdict>)
    ensures forall key :: Strongest(outcomes, readable, key) == if key in merged then Some(merged[key]) else None
  {
    merged := map[];
    assert outcomes[..0] == [];
    for n := 0 to |outcomes|
      invariant forall key ::
        Strongest(outcomes[..n], readable, key) == if key in merged then Some(merged[key]) else None
    {
      var o := outcomes[n];
      assert outcomes[..n + 1][..n] == outcomes[..n];
      var verdict := VerdictOf(o, readable);
      if verdict.Some? {
        if o.probeKey !in merged || Rank(verdict.value.cls) > Rank(merged[o.probeKey].cls) {
          merged := merged[o.probeKey := verdict.value];
        }
      }
    }
    assert outcomes[..|outcomes|] == outcomes;
  }

  function Lesson(v: Verdict, firmware: string, source: string, now: real): Observation {
    Observation(v.cls, firmware, source, v.reason, now)
  }

  /** What a cycle adds to the history of `id`. */
  ghost function NewLessons(
    id: RowId, device: string, outcomes: seq<Outcome>, readable: bool, recorded: map<string, Classification>,
    firmware: string, source: string, now: real): seq<Observation>
  {
    var v := Strongest(outcomes, readable, id.probeKey);
    if id.device == device && id.probeKey in recorded && v.Some? then [Lesson(v.value, firmware, source, now)] else []
  }

  /** One cycle. `failing` are the keys whose write fails; a failed write loses only its own row.
      For every key the cycle recorded, the history grows by exactly one observation, the
      strongest verdict; for everything else it does not grow at all. */
  method Learn(
    store: DeviceCapabilityStore, device: string, firmware: string, outcomes: seq<Outcome>, readable: bool,
    source: string, now: real, failing: set<string>)
    returns (recorded: map<string, Classification>)
    requires store.Valid()
    modifies store
    ensures store.Valid()
    ensures forall key :: key in recorded <==> Strongest(outcomes, readable, key).Some? && key !in failing
    ensures forall key :: key in recorded ==> recorded[key] == Strongest(outcomes, readable, key).value.cls
    ensures forall id ::
              Observations(store.history, id) == Observations(old(store.history), id)
                + NewLessons(id, device, outcomes, readable, recorded, firmware, source, now)
  {
    var merged := Merge(outcomes, readable);
    recorded := map[];
    var todo := merged.Keys;
    while todo != {}
      invariant store.Valid() && todo <= merged.Keys
      invariant forall key :: key in recorded <==> key in merged && key !in todo && key !in failing
      invariant forall key :: key in recorded ==> recorded[key] == merged[key].cls
      invariant forall id ::
                  Observations(store.history, id) == Observations(old(store.history), id)
                    + NewLessons(id, device, outcomes, readable, recorded, firmware, source, now)
      decreases todo
    {
      var key :| key in todo;
      todo := todo - {key};
      if key !in failing {
        var verdict := merged[key];
        ghost var before := store.history;
        var row := store.Record(RowId(device, key), verdict.cls, firmware, source, verdict.reason, now);
        OneRecord(before, RowId(device, key), Lesson(verdict, firmware, source, now));
        recorded := recorded[key := verdict.cls];
      }
    }
  }

  lemma OneRecord(history: seq<Event>, id: RowId, o: Observation)
    ensures forall i :: Observations(history + [Observed(id, o)], i)
                     == Observations(history, i) + if i == id then [o] else []
  {
    var longer := history + [Observed(id, o)];
    assert longer[..|longer| - 1] == history;
    forall i
      ensures Observations(longer, i) == Observations(history, i) + if i == id then [o] else []
    {
      assert Observations(history, i) + [] == Observations(history, i);
    }
  }

  /** So however many operations share a key, and whatever order they answer in, one cycle makes
      a streak of failures at most one longer, and only when all of them failed unconfirmed. */
  lemma OneCycleLengthensAStreakByOne(
    seen: seq<Observation>, outcomes: seq<Outcome>, readable: bool, key: string, firmware: string,
    source: string, now: real, before: nat, after: nat)
    requires Strongest(outcomes, readable, key).Some?
    requires (seen == [] && before == 0) || IsTrailingRun(seen, before)
    requires IsTrailingRun(seen + [Lesson(Strongest(outcomes, readable, key).value, firmware, source, now)], after)
    ensures after <= before + 1
    ensures after > 0 <==>
            forall j, w :: 0 <= j < |outcomes| && Says(outcomes[j], readable, key, w) ==> w.cls == Unconfirmed
  {
    var v := Strongest(outcomes, readable, key).value;
    var longer := seen + [Lesson(v, firmware, source, now)];
    StrongestWins(outcomes, readable, key);
    if after > 1 {
      var last := seen[|seen| - 1];
      assert longer[|longer| - 2] == last && FailedAt(last, firmware);
      if before < |seen| {
        assert longer[|longer| - before - 2] == seen[|seen| - before - 1];
        assert !FailedAt(seen[|seen| - before - 1], firmware);
      }
    }
    if v.cls == Unconfirmed {
      assert FailedAt(longer[|longer| - 1], firmware);
    }
  }
}

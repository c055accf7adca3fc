/** Adding several discovered devices under one approval: coroutines that interleave at their
    awaits, at most four in flight. */
module BatchAdd {
  import opened Wrappers

  /** A device, by its identity alone. */
  type Id = nat

  const ADD_CONCURRENCY := 4

  // ---- one device -------------------------------------------------------------------------------------

  /** What onboarding leaves: an account it made, credentials that already worked, or none. */
  datatype Access = AccountMade | AlreadyWorks | NoCredentials

  datatype Status =
    | AlreadyRegistered
    | IdentityUnconfirmed
    | RegisterFailed
    | OnboardingFailed
    | Onboarded(access: Access)
    | Crashed

  datatype Row = Row(id: Id, registered: bool, status: Status)

  predicate IsCredentialed(status: Status) {
    status.Onboarded? && status.access != NoCredentials
  }

  /** Where a coroutine stands: queued, awaiting the identity read, awaiting onboarding, or done. */
  datatype Stage = Queued | Confirming | Onboarding | Done(row: Row)

  predicate InFlight(stage: Stage) {
    stage.Confirming? || stage.Onboarding?
  }

  /** `adds` counts this batch's registry writes by device, `confirmed` the devices whose identity
      it has confirmed. */
  datatype Batch = Batch(
    listed: seq<Id>, stage: map<Id, Stage>, registry: set<Id>, adds: map<Id, nat>, confirmed: set<Id>)

  predicate Distinct(ids: seq<Id>) {
    forall i, j :: 0 <= i < j < |ids| ==> ids[i] != ids[j]
  }

  function Begin(listed: seq<Id>, registry: set<Id>): Batch {
    Batch(listed, map id | id in listed :: Queued, registry, map id | id in listed :: 0, {})
  }

  function CountInFlight(listed: seq<Id>, stage: map<Id, Stage>): nat
    requires forall id <- listed :: id in stage
    decreases |listed|
  {
    if listed == [] then 0
    else (if InFlight(stage[listed[0]]) then 1 else 0) + CountInFlight(listed[1..], stage)
  }

  /** What the identity read came back with. */
  datatype Identity = Confirmed | Unconfirmed | ReadRaised

  /** How onboarding ended; `Cancelled` is an exception that one device may not swallow. */
  datatype Onboard = Ended(access: Access) | RaisedException | Cancelled

  /** `readable`: the registry could be listed; an unreadable one looks empty. `addRaises`: the write
      fails for a reason of its own; it always fails for a device that is there. */
  datatype Step =
    | Start(id: Id, readable: bool)
    | IdentityRead(id: Id, identity: Identity, readable: bool, addRaises: bool)
    | OnboardingEnds(id: Id, outcome: Onboard)
    | CancelQueued(id: Id)
    | OthersChange(registry: set<Id>)

  predicate SeesRegistered(b: Batch, id: Id, readable: bool) {
    readable && id in b.registry
  }

  function Finish(b: Batch, id: Id, registered: bool, status: Status): Batch {
    b.(stage := b.stage[id := Done(Row(id, registered, status))])
  }

  /** A slot is free: the coroutine takes it and looks for the device. */
  function DoStart(b: Batch, id: Id, readable: bool): Batch {
    if SeesRegistered(b, id, readable) then Finish(b, id, false, AlreadyRegistered)
    else b.(stage := b.stage[id := Confirming])
  }

  /** The identity read is back. No other coroutine runs between the second look and the write. */
  function DoIdentityRead(b: Batch, id: Id, identity: Identity, readable: bool, addRaises: bool): Batch
    requires id in b.adds
  {
    if identity == ReadRaised then Finish(b, id, false, Crashed)
    else if identity == Unconfirmed then Finish(b, id, false, IdentityUnconfirmed)
    else
      var b1 := b.(confirmed := b.confirmed + {id});
      if SeesRegistered(b1, id, readable) then Finish(b1, id, false, AlreadyRegistered)
      else if addRaises || id in b1.registry then Finish(b1, id, false, RegisterFailed)
      else
        b1.(registry := b1.registry + {id}, adds := b1.adds[id := b1.adds[id] + 1],
            stage := b1.stage[id := Onboarding])
  }

  function DoOnboardingEnds(b: Batch, id: Id, outcome: Onboard): Batch {
    match outcome
    case Ended(access) => Finish(b, id, true, Onboarded(access))
    case RaisedException => Finish(b, id, true, OnboardingFailed)
    case Cancelled => Finish(b, id, false, Crashed)
  }

  /** From one await to the next; a step that cannot be taken changes nothing. */
  function Next(b: Batch, step: Step): Batch
    requires WellKept(b)
  {
    match step
    case Start(id, readable) =>
      if id in b.listed && b.stage[id] == Queued && CountInFlight(b.listed, b.stage) < ADD_CONCURRENCY
      then DoStart(b, id, readable) else b
    case IdentityRead(id, identity, readable, addRaises) =>
      if id in b.listed && b.stage[id] == Confirming then DoIdentityRead(b, id, identity, readable, addRaises) else b
    case OnboardingEnds(id, outcome) =>
      if id in b.listed && b.stage[id] == Onboarding then DoOnboardingEnds(b, id, outcome) else b
    case CancelQueued(id) =>
      if id in b.listed && b.stage[id] == Queued then Finish(b, id, false, Crashed) else b
    case OthersChange(registry) => b.(registry := registry)
  }

  // ---- what every interleaving keeps ---------------------------------------------------------------------

  /** Every listed device has one stage and one count, and nothing else has. */
  ghost predicate WellKept(b: Batch) {
    && Distinct(b.listed)
    && (forall id :: id in b.stage <==> id in b.listed)
    && (forall id :: id in b.adds <==> id in b.listed)
  }

  /** The registry writes by stage: none before the write, one after it, and only after the
      identity was confirmed; what a row claims about it. */
  predicate StageOk(stage: Stage, id: Id, adds: nat, confirmed: bool) {
    match stage
    case Queued => adds == 0
    case Confirming => adds == 0
    case Onboarding => adds == 1 && confirmed
    case Done(row) =>
      && row.id == id && adds <= 1 && (adds == 1 ==> confirmed)
      && (row.registered ==> adds == 1)
      && (adds == 1 && !row.registered ==> row.status == Crashed)
      && (row.registered <==> row.status.Onboarded? || row.status == OnboardingFailed)
  }

  ghost predicate Good(b: Batch) {
    && WellKept(b)
    && (forall id :: id in b.listed ==> StageOk(b.stage[id], id, b.adds[id], id in b.confirmed))
    && CountInFlight(b.listed, b.stage) <= ADD_CONCURRENCY
  }

  /** The devices in flight: their coroutines await the identity read or onboarding. */
  function Flying(b: Batch): set<Id>
    requires WellKept(b)
  {
    set id | id in b.listed && (b.stage[id] == Confirming || b.stage[id] == Onboarding)
  }

  lemma WithoutOne(ids: set<Id>, id: Id)
    ensures |ids| == |ids - {id}| + if id in ids then 1 else 0
  {
    assert ids == if id in ids then (ids - {id}) + {id} else ids - {id};
  }

  lemma {:induction false} CountIsOfASet(listed: seq<Id>, stage: map<Id, Stage>, flying: set<Id>)
    requires (forall x <- listed :: x in stage) && Distinct(listed)
    requires forall id :: id in flying <==> id in listed && (stage[id] == Confirming || stage[id] == Onboarding)
    ensures CountInFlight(listed, stage) == |flying|
    decreases |listed|
  {
    if listed != [] {
      var first := listed[0];
      assert first !in listed[1..];
      CountIsOfASet(listed[1..], stage, flying - {first});
      WithoutOne(flying, first);
    } else {
      assert flying == {};
    }
  }

  lemma CountIsOfTheFlying(b: Batch)
    requires WellKept(b)
    ensures CountInFlight(b.listed, b.stage) == |Flying(b)|
  {
    CountIsOfASet(b.listed, b.stage, Flying(b));
  }

  lemma {:induction false} CountUnchanged(listed: seq<Id>, stage: map<Id, Stage>, id: Id, to: Stage)
    requires (forall x <- listed :: x in stage) && id !in listed
    ensures CountInFlight(listed, stage[id := to]) == CountInFlight(listed, stage)
    decreases |listed|
  {
    if listed != [] {
      CountUnchanged(listed[1..], stage, id, to);
    }
  }

  lemma {:induction false} CountAfterMove(listed: seq<Id>, stage: map<Id, Stage>, id: Id, to: Stage)
    requires (forall x <- listed :: x in stage) && Distinct(listed) && id in listed
    ensures CountInFlight(listed, stage[id := to])
         == CountInFlight(listed, stage) - (if InFlight(stage[id]) then 1 else 0) + (if InFlight(to) then 1 else 0)
    decreases |listed|
  {
    if listed[0] == id {
      assert id !in listed[1..];
      CountUnchanged(listed[1..], stage, id, to);
    } else {
      CountAfterMove(listed[1..], stage, id, to);
    }
  }

  /** One coroutine's step: its own stage, count and confirmation, and the registry. */
  function Moved(b: Batch, id: Id, to: Stage, adds: nat, confirmed: bool, registry: set<Id>): Batch {
    Batch(b.listed, b.stage[id := to], registry, b.adds[id := adds],
          if confirmed then b.confirmed + {id} else b.confirmed)
  }

  lemma MoveKeepsGood(b: Batch, id: Id, to: Stage, adds: nat, confirmed: bool, registry: set<Id>)
    requires Good(b) && id in b.listed && StageOk(to, id, adds, confirmed || id in b.confirmed)
    requires InFlight(to) ==> InFlight(b.stage[id]) || CountInFlight(b.listed, b.stage) < ADD_CONCURRENCY
    ensures Good(Moved(b, id, to, adds, confirmed, registry))
  {
    CountAfterMove(b.listed, b.stage, id, to);
  }

  lemma StartKeepsGood(b: Batch, id: Id, readable: bool)
    requires Good(b) && id in b.listed && b.stage[id] == Queued && CountInFlight(b.listed, b.stage) < ADD_CONCURRENCY
    ensures Good(DoStart(b, id, readable))
  {
    var to := if SeesRegistered(b, id, readable) then Done(Row(id, false, AlreadyRegistered)) else Confirming;
    assert b.adds[id := b.adds[id]] == b.adds;
    MoveKeepsGood(b, id, to, b.adds[id], false, b.registry);
  }

  lemma IdentityReadKeepsGood(b: Batch, id: Id, identity: Identity, readable: bool, addRaises: bool)
    requires Good(b) && id in b.listed && b.stage[id] == Confirming
    ensures Good(DoIdentityRead(b, id, identity, readable, addRaises))
  {
    assert b.adds[id := b.adds[id]] == b.adds;
    var refused := if identity == ReadRaised then Crashed else if identity == Unconfirmed then IdentityUnconfirmed
                   else if SeesRegistered(b, id, readable) then AlreadyRegistered else RegisterFailed;
    if identity == Confirmed && !addRaises && id !in b.registry {
      MoveKeepsGood(b, id, Onboarding, b.adds[id] + 1, true, b.registry + {id});
    } else {
      MoveKeepsGood(b, id, Done(Row(id, false, refused)), b.adds[id], identity == Confirmed, b.registry);
    }
  }

  lemma OnboardingEndsKeepsGood(b: Batch, id: Id, outcome: Onboard)
    requires Good(b) && id in b.listed && b.stage[id] == Onboarding
    ensures Good(DoOnboardingEnds(b, id, outcome))
  {
    assert b.adds[id := b.adds[id]] == b.adds;
    MoveKeepsGood(b, id, DoOnboardingEnds(b, id, outcome).stage[id], b.adds[id], false, b.registry);
  }

  lemma CancelKeepsGood(b: Batch, id: Id)
    requires Good(b) && id in b.listed && b.stage[id] == Queued
    ensures Good(Finish(b, id, false, Crashed))
  {
    assert b.adds[id := b.adds[id]] == b.adds;
    MoveKeepsGood(b, id, Done(Row(id, false, Crashed)), b.adds[id], false, b.registry);
  }

  lemma RegistryIsTheirs(b: Batch, registry: set<Id>)
    requires Good(b)
    ensures Good(b.(registry := registry))
  {
  }

  lemma NextKeepsListed(b: Batch, step: Step)
    requires WellKept(b)
    ensures Next(b, step).listed == b.listed
  {
  }

  lemma OwnStepKeepsGood(b: Batch, step: Step)
    requires Good(b) && (step.OnboardingEnds? || step.CancelQueued?)
    ensures Good(Next(b, step))
  {
    var id := step.id;
    if id in b.listed {
      if step.OnboardingEnds? && b.stage[id] == Onboarding {
        OnboardingEndsKeepsGood(b, id, step.outcome);
      } else if step.CancelQueued? && b.stage[id] == Queued {
        CancelKeepsGood(b, id);
      }
    }
  }

  lemma NextKeepsGood(b: Batch, step: Step)
    requires Good(b)
    ensures Good(Next(b, step))
  {
    match step
    case Start(id, readable) =>
      if id in b.listed && b.stage[id] == Queued && CountInFlight(b.listed, b.stage) < ADD_CONCURRENCY {
        StartKeepsGood(b, id, readable);
      }
    case IdentityRead(id, identity, readable, addRaises) =>
      if id in b.listed && b.stage[id] == Confirming {
        IdentityReadKeepsGood(b, id, identity, readable, addRaises);
      }
    case OnboardingEnds(_, _) => OwnStepKeepsGood(b, step);
    case CancelQueued(_) => OwnStepKeepsGood(b, step);
    case OthersChange(registry) => RegistryIsTheirs(b, registry);
  }

  function Run(b: Batch, steps: seq<Step>): (after: Batch)
    requires Good(b)
    ensures Good(after) && after.listed == b.listed
    decreases |steps|
  {
    if steps == [] then b
    else
      NextKeepsGood(b, steps[0]);
      NextKeepsListed(b, steps[0]);
      Run(Next(b, steps[0]), steps[1..])
  }

  lemma {:induction false} BeginCountsNone(listed: seq<Id>, stage: map<Id, Stage>)
    requires forall x <- listed :: x in stage && stage[x] == Queued
    ensures CountInFlight(listed, stage) == 0
    decreases |listed|
  {
    if listed != [] {
      BeginCountsNone(listed[1..], stage);
    }
  }

  lemma BeginIsGood(listed: seq<Id>, registry: set<Id>)
    requires Distinct(listed)
    ensures Good(Begin(listed, registry))
  {
    BeginCountsNone(listed, Begin(listed, registry).stage);
  }

  /** A whole batch, from all queued, under one interleaving. */
  function RunBatch(listed: seq<Id>, registry: set<Id>, steps: seq<Step>): (b: Batch)
    requires Distinct(listed)
    ensures Good(b) && b.listed == listed
  {
    BeginIsGood(listed, registry);
    Run(Begin(listed, registry), steps)
  }

  /** Whatever the interleaving and whatever else happens to the registry: at most four devices are
      in flight; each listed device is written at most once by this batch, and only once its
      identity is confirmed; and nothing that is not listed is touched. */
  lemma EachDeviceIsAddedOnce(listed: seq<Id>, registry: set<Id>, steps: seq<Step>, id: Id)
    requires Distinct(listed)
    ensures var after := RunBatch(listed, registry, steps);
            && |Flying(after)| <= 4
            && (id in after.adds <==> id in listed)
            && (id in listed ==> after.adds[id] <= 1 && (after.adds[id] == 1 ==> id in after.confirmed))
  {
    var after := RunBatch(listed, registry, steps);
    CountIsOfTheFlying(after);
    if id in listed {
      assert StageOk(after.stage[id], id, after.adds[id], id in after.confirmed);
    }
  }

  /** The registry grows by exactly what the batch writes. */
  lemma OnlyConfirmedDevicesAreWritten(b: Batch, step: Step)
    requires Good(b) && !step.OthersChange?
    ensures b.registry <= Next(b, step).registry
    ensures forall id :: id in Next(b, step).registry - b.registry ==>
              id in b.listed && step.IdentityRead? && step.id == id && step.identity == Confirmed
              && b.adds[id] == 0 && Next(b, step).adds[id] == 1
  {
    if step.IdentityRead? && step.id in b.listed {
      assert StageOk(b.stage[step.id], step.id, b.adds[step.id], step.id in b.confirmed);
    }
  }

  // ---- the result ---------------------------------------------------------------------------------------

  predicate AllDone(b: Batch)
    requires WellKept(b)
  {
    forall id <- b.listed :: b.stage[id].Done?
  }

  datatype Result =
    | Malformed
    | Result(success: bool, rows: seq<Row>, added: seq<Id>, accounts: seq<Id>, failed: seq<Id>)

  /** The row of every listed device, in the order listed. */
  function Rows(b: Batch, listed: seq<Id>): (rows: seq<Row>)
    requires forall id <- listed :: id in b.stage && b.stage[id].Done?
    ensures |rows| == |listed|
    decreases |listed|
  {
    if listed == [] then []
    else Rows(b, listed[..|listed| - 1]) + [b.stage[listed[|listed| - 1]].row]
  }

  function Added(rows: seq<Row>): seq<Id>
    decreases |rows|
  {
    if rows == [] then []
    else
      var last := rows[|rows| - 1];
      Added(rows[..|rows| - 1]) + if last.registered then [last.id] else []
  }

  /** The devices an account was made on. */
  function Accounts(rows: seq<Row>): seq<Id>
    decreases |rows|
  {
    if rows == [] then []
    else
      var last := rows[|rows| - 1];
      Accounts(rows[..|rows| - 1]) + if last.status == Onboarded(AccountMade) then [last.id] else []
  }

  function Failed(rows: seq<Row>): seq<Id>
    decreases |rows|
  {
    if rows == [] then []
    else
      var last := rows[|rows| - 1];
      Failed(rows[..|rows| - 1]) + if IsCredentialed(last.status) then [] else [last.id]
  }

  method CollectRows(b: Batch) returns (rows: seq<Row>)
    requires Good(b) && AllDone(b)
    ensures rows == Rows(b, b.listed)
  {
    rows := [];
    for i := 0 to |b.listed|
      invariant rows == Rows(b, b.listed[..i])
    {
      assert b.listed[..i + 1][..i] == b.listed[..i];
      rows := rows + [b.stage[b.listed[i]].row];
    }
    assert b.listed[..|b.listed|] == b.listed;
  }

  method CollectOutcomes(rows: seq<Row>) returns (added: seq<Id>, accounts: seq<Id>, failed: seq<Id>)
    ensures added == Added(rows) && accounts == Accounts(rows) && failed == Failed(rows)
  {
    added, accounts, failed := [], [], [];
    for i := 0 to |rows|
      invariant added == Added(rows[..i]) && accounts == Accounts(rows[..i]) && failed == Failed(rows[..i])
    {
      assert rows[..i + 1][..i] == rows[..i];
      if rows[i].registered {
        added := added + [rows[i].id];
      }
      if rows[i].status == Onboarded(AccountMade) {
        accounts := accounts + [rows[i].id];
      }
      if !IsCredentialed(rows[i].status) {
        failed := failed + [rows[i].id];
      }
    }
    assert rows[..|rows|] == rows;
  }

  method Collect(b: Batch) returns (r: Result)
    requires Good(b) && AllDone(b)
    ensures r.Result? && r.rows == Rows(b, b.listed)
    ensures r.added == Added(r.rows) && r.accounts == Accounts(r.rows) && r.failed == Failed(r.rows)
    ensures r.success <==> r.failed == []
  {
    var rows := CollectRows(b);
    var added, accounts, failed := CollectOutcomes(rows);
    return Result(failed == [], rows, added, accounts, failed);
  }

  lemma {:induction false} RowsAreInOrder(b: Batch, listed: seq<Id>)
    requires forall id <- listed :: id in b.stage && b.stage[id].Done? && b.stage[id].row.id == id
    ensures forall i :: 0 <= i < |listed| ==>
              Rows(b, listed)[i] == b.stage[listed[i]].row && Rows(b, listed)[i].id == listed[i]
    decreases |listed|
  {
    if listed != [] {
      RowsAreInOrder(b, listed[..|listed| - 1]);
    }
  }

  lemma {:induction false} FailedIsEmptyIffAllCredentialed(rows: seq<Row>)
    ensures Failed(rows) == [] <==> forall i :: 0 <= i < |rows| ==> IsCredentialed(rows[i].status)
    decreases |rows|
  {
    if rows != [] {
      FailedIsEmptyIffAllCredentialed(rows[..|rows| - 1]);
    }
  }

  /** `out` are the ids of exactly the rows that `keep` keeps, in their order, one for one. */
  ghost predicate Picks(out: seq<Id>, rows: seq<Row>, keep: Row -> bool)
    decreases |rows|
  {
    if rows == [] then out == []
    else
      var n := |rows| - 1;
      if keep(rows[n]) then out != [] && out[|out| - 1] == rows[n].id && Picks(out[..|out| - 1], rows[..n], keep)
      else Picks(out, rows[..n], keep)
  }

  predicate IsWritten(row: Row) {
    row.registered
  }

  predicate GotAnAccount(row: Row) {
    row.status == Onboarded(AccountMade)
  }

  predicate LacksCredentials(row: Row) {
    row.status != Onboarded(AccountMade) && row.status != Onboarded(AlreadyWorks)
  }

  lemma PicksOneMore(out: seq<Id>, rows: seq<Row>, keep: Row -> bool, longer: seq<Id>)
    requires rows != [] && Picks(out, rows[..|rows| - 1], keep)
    requires longer == out + if keep(rows[|rows| - 1]) then [rows[|rows| - 1].id] else []
    ensures Picks(longer, rows, keep)
  {
    if keep(rows[|rows| - 1]) {
      assert longer[..|longer| - 1] == out;
    } else {
      assert longer == out;
    }
  }

  /** What the three lists hold: the devices written, those an account was made on, and those that
      onboarding did not leave working credentials on. */
  lemma {:induction false} ListsPickTheirRows(rows: seq<Row>)
    ensures Picks(Added(rows), rows, IsWritten)
    ensures Picks(Accounts(rows), rows, GotAnAccount)
    ensures Picks(Failed(rows), rows, LacksCredentials)
    decreases |rows|
  {
    if rows != [] {
      var before := rows[..|rows| - 1];
      ListsPickTheirRows(before);
      PicksOneMore(Added(before), rows, IsWritten, Added(rows));
      PicksOneMore(Accounts(before), rows, GotAnAccount, Accounts(rows));
      PicksOneMore(Failed(before), rows, LacksCredentials, Failed(rows));
    }
  }

  /** A finished batch answers for every device it was given, once each and in order, and reports
      success exactly when every one of them ended with working credentials. */
  lemma ResultCoversTheBatch(b: Batch)
    requires Good(b) && AllDone(b)
    ensures var rows := Rows(b, b.listed);
            && |rows| == |b.listed| && (forall i :: 0 <= i < |rows| ==> rows[i].id == b.listed[i])
            && (Failed(rows) == [] <==> forall id <- b.listed :: IsCredentialed(b.stage[id].row.status))
  {
    forall id | id in b.listed
      ensures b.stage[id].row.id == id
    {
      assert StageOk(b.stage[id], id, b.adds[id], id in b.confirmed);
    }
    var rows := Rows(b, b.listed);
    RowsAreInOrder(b, b.listed);
    FailedIsEmptyIffAllCredentialed(rows);
    forall id | id in b.listed
      ensures exists i :: 0 <= i < |rows| && rows[i] == b.stage[id].row
    {
      var i :| 0 <= i < |b.listed| && b.listed[i] == id;
      assert rows[i] == b.stage[id].row;
    }
  }

  /** What a row may claim: registered only if the batch wrote the device, and credentialed only if
      registered. */
  lemma RowsTellTheTruth(b: Batch, id: Id)
    requires Good(b) && AllDone(b) && id in b.listed
    ensures var row := b.stage[id].row;
            && (row.registered ==> b.adds[id] == 1 && id in b.confirmed)
            && (IsCredentialed(row.status) ==> row.registered)
    ensures (forall x :: x in b.listed ==> IsCredentialed(b.stage[x].row.status)) ==> b.adds[id] == 1
  {
    assert StageOk(b.stage[id], id, b.adds[id], id in b.confirmed);
  }

  // ---- what made a row what it is ----------------------------------------------------------------------

  /** The read confirms a device that is not registered, and writing it does not raise. */
  predicate Registers(b: Batch, step: Step)
    requires step.IdentityRead?
  {
    step.identity == Confirmed && step.id !in b.registry && !step.addRaises
  }

  /** This step, taken where the device stands, ends its coroutine with this status. */
  predicate EndsAs(b: Batch, step: Step, id: Id, status: Status)
    requires WellKept(b)
  {
    && !step.OthersChange? && step.id == id && id in b.listed
    && match b.stage[id]
       case Queued =>
         || (step.CancelQueued? && status == Crashed)
         || (step.Start? && status == AlreadyRegistered && step.readable && id in b.registry && |Flying(b)| < 4)
       case Confirming =>
         step.IdentityRead? && !Registers(b, step)
         && status == (match step.identity
                       case ReadRaised => Crashed
                       case Unconfirmed => IdentityUnconfirmed
                       case Confirmed =>
                         if id in b.registry && step.readable then AlreadyRegistered else RegisterFailed)
       case Onboarding =>
         step.OnboardingEnds?
         && status == (match step.outcome
                       case Ended(access) => Onboarded(access)
                       case RaisedException => OnboardingFailed
                       case Cancelled => Crashed)
       case Done(_) => false
  }

  predicate RowIs(b: Batch, id: Id, status: Status)
    requires WellKept(b)
  {
    id in b.listed && b.stage[id].Done? && b.stage[id].row.status == status
  }

  lemma StartEndsAs(b: Batch, step: Step, status: Status)
    requires Good(b) && (step.Start? || step.CancelQueued?) && step.id in b.listed && Good(Next(b, step))
    ensures RowIs(Next(b, step), step.id, status) <==> RowIs(b, step.id, status) || EndsAs(b, step, step.id, status)
  {
    CountIsOfTheFlying(b);
  }

  lemma ReadEndsAs(b: Batch, step: Step, status: Status)
    requires Good(b) && step.IdentityRead? && step.id in b.listed && Good(Next(b, step))
    ensures RowIs(Next(b, step), step.id, status) <==> RowIs(b, step.id, status) || EndsAs(b, step, step.id, status)
  {
    if b.stage[step.id] == Confirming {
      ConfirmingEndsAs(b, step);
    } else {
      assert Next(b, step) == b;
    }
  }

  lemma ConfirmingEndsAs(b: Batch, step: Step)
    requires step.IdentityRead? && step.id in b.adds
    ensures var after := DoIdentityRead(b, step.id, step.identity, step.readable, step.addRaises);
            && after.listed == b.listed && step.id in after.stage
            && after.stage[step.id] ==
                 if Registers(b, step) then Onboarding
                 else Done(Row(step.id, false,
                               match step.identity
                               case ReadRaised => Crashed
                               case Unconfirmed => IdentityUnconfirmed
                               case Confirmed =>
                                 if step.id in b.registry && step.readable then AlreadyRegistered else RegisterFailed))
  {
  }

  lemma OnboardingEndsAs(b: Batch, step: Step, status: Status)
    requires Good(b) && step.OnboardingEnds? && step.id in b.listed && Good(Next(b, step))
    ensures RowIs(Next(b, step), step.id, status) <==> RowIs(b, step.id, status) || EndsAs(b, step, step.id, status)
  {
    if b.stage[step.id] == Onboarding {
      assert Next(b, step) == DoOnboardingEnds(b, step.id, step.outcome);
    } else {
      assert Next(b, step) == b;
    }
  }

  lemma StepEndsAs(b: Batch, step: Step, id: Id, status: Status)
    requires Good(b)
    ensures Good(Next(b, step))
    ensures RowIs(Next(b, step), id, status) <==> RowIs(b, id, status) || EndsAs(b, step, id, status)
  {
    NextKeepsGood(b, step);
    NextKeepsListed(b, step);
    if id in b.listed {
      if step.OthersChange? || step.id != id {
        OthersLeaveItAlone(b, step, id);
      } else if step.OnboardingEnds? {
        OnboardingEndsAs(b, step, status);
      } else if step.IdentityRead? {
        ReadEndsAs(b, step, status);
      } else {
        StartEndsAs(b, step, status);
      }
    }
  }

  /** Some step of the run ends the coroutine of `id` with this status. */
  predicate SomeStepEndsAs(b: Batch, steps: seq<Step>, id: Id, status: Status)
    requires Good(b)
    decreases |steps|
  {
    steps != [] &&
    (|| EndsAs(b, steps[0], id, status)
     || (NextKeepsGood(b, steps[0]); SomeStepEndsAs(Next(b, steps[0]), steps[1..], id, status)))
  }

  lemma {:induction false} RunEndsAs(b: Batch, steps: seq<Step>, id: Id, status: Status)
    requires Good(b)
    ensures RowIs(Run(b, steps), id, status) <==> RowIs(b, id, status) || SomeStepEndsAs(b, steps, id, status)
    decreases |steps|
  {
    if steps != [] {
      StepEndsAs(b, steps[0], id, status);
      RunEndsAs(Next(b, steps[0]), steps[1..], id, status);
    }
  }

  /** A row's status is what happened: it is exactly the one with which a step of the run ended the
      device's coroutine where it stood; above all, it is `Onboarded(a)` if and only if onboarding was
      awaited and ended with `a`. */
  lemma RowSaysWhatHappened(listed: seq<Id>, registry: set<Id>, steps: seq<Step>, id: Id, status: Status)
    requires Distinct(listed)
    ensures Good(Begin(listed, registry))
    ensures RowIs(RunBatch(listed, registry, steps), id, status)
            <==> SomeStepEndsAs(Begin(listed, registry), steps, id, status)
  {
    BeginIsGood(listed, registry);
    RunEndsAs(Begin(listed, registry), steps, id, status);
  }

  /** In this batch onboarding of `id` was awaited and left credentials that work. */
  ghost predicate GotCredentials(listed: seq<Id>, registry: set<Id>, steps: seq<Step>, id: Id)
    requires Distinct(listed)
  {
    BeginIsGood(listed, registry);
    var b := Begin(listed, registry);
    SomeStepEndsAs(b, steps, id, Onboarded(AccountMade)) || SomeStepEndsAs(b, steps, id, Onboarded(AlreadyWorks))
  }

  /** So a finished batch succeeds exactly when onboarding got credentials for every listed device, and
      lists the others as failed. */
  lemma SuccessIsCredentialsForAll(listed: seq<Id>, registry: set<Id>, steps: seq<Step>)
    requires Distinct(listed) && AllDone(RunBatch(listed, registry, steps))
    ensures forall id :: id in listed ==>
              (IsCredentialed(RunBatch(listed, registry, steps).stage[id].row.status)
               <==> GotCredentials(listed, registry, steps, id))
    ensures var b := RunBatch(listed, registry, steps);
            Failed(Rows(b, listed)) == [] <==> forall id :: id in listed ==> GotCredentials(listed, registry, steps, id)
  {
    BeginIsGood(listed, registry);
    var b := RunBatch(listed, registry, steps);
    forall id | id in listed
      ensures IsCredentialed(b.stage[id].row.status) <==> GotCredentials(listed, registry, steps, id)
    {
      RowSaysWhatHappened(listed, registry, steps, id, Onboarded(AccountMade));
      RowSaysWhatHappened(listed, registry, steps, id, Onboarded(AlreadyWorks));
    }
    ResultCoversTheBatch(b);
  }

  // ---- the batch goes on ---------------------------------------------------------------------------------

  /** A queued device starts as soon as fewer than four are in flight, and not before; unless it is
      registered already it goes on to the identity read. */
  lemma QueuedDeviceStarts(b: Batch, id: Id, readable: bool)
    requires Good(b) && id in b.listed && b.stage[id] == Queued
    ensures var next := Next(b, Start(id, readable));
            if |Flying(b)| >= 4 then next == b
            else if readable && id in b.registry
            then next == b.(stage := b.stage[id := Done(Row(id, false, AlreadyRegistered))])
            else next == b.(stage := b.stage[id := Confirming])
  {
    CountIsOfTheFlying(b);
  }

  /** A confirmed device that is not there is written and awaits onboarding; any other read writes nothing. */
  lemma ConfirmedDeviceIsWritten(b: Batch, step: Step)
    requires Good(b) && step.IdentityRead? && step.id in b.listed && b.stage[step.id] == Confirming
    ensures var (next, id) := (Next(b, step), step.id);
            && id in next.stage && id in next.adds
            && (if Registers(b, step)
                then && next.registry == b.registry + {id} && next.stage[id] == Onboarding
                     && next.adds[id] == b.adds[id] + 1
                else next.registry == b.registry && next.stage[id].Done? && next.adds == b.adds)
            && next.confirmed == b.confirmed + if step.identity == Confirmed then {id} else {}
  {
  }

  /** Nothing but a read that registers, and what others do, changes the registry. */
  lemma OnlyReadsRegister(b: Batch, step: Step)
    requires Good(b) && !step.IdentityRead?
    ensures Next(b, step).registry == if step.OthersChange? then step.registry else b.registry
    ensures Next(b, step).adds == b.adds && Next(b, step).confirmed == b.confirmed
  {
  }

  /** The row of a device that the batch has written says that it has not. */
  predicate Understates(b: Batch, id: Id)
    requires WellKept(b)
  {
    id in b.listed && b.adds[id] == 1 && b.stage[id].Done? && !b.stage[id].row.registered
  }

  /** Some step of the run cancels the coroutine of `id` while it awaits onboarding. */
  predicate CancelledWhileOnboarding(b: Batch, steps: seq<Step>, id: Id)
    requires Good(b)
    decreases |steps|
  {
    steps != [] &&
    (|| (steps[0] == OnboardingEnds(id, Cancelled) && id in b.listed && b.stage[id] == Onboarding)
     || (NextKeepsGood(b, steps[0]); CancelledWhileOnboarding(Next(b, steps[0]), steps[1..], id)))
  }

  /** A step that is not the coroutine's own leaves it where it stands. */
  lemma OthersLeaveItAlone(b: Batch, step: Step, id: Id)
    requires WellKept(b) && id in b.listed && (step.OthersChange? || step.id != id)
    ensures var after := Next(b, step);
            && after.listed == b.listed && id in after.stage && id in after.adds
            && after.stage[id] == b.stage[id] && after.adds[id] == b.adds[id]
  {
  }

  /** Its own steps up to the write. */
  lemma IdentityReadDoesNotUnderstate(b: Batch, step: Step)
    requires Good(b) && step.IdentityRead? && step.id in b.listed && Good(Next(b, step))
    ensures Understates(Next(b, step), step.id) <==> Understates(b, step.id)
  {
    assert StageOk(b.stage[step.id], step.id, b.adds[step.id], step.id in b.confirmed);
  }

  lemma EarlyStepsDoNotUnderstate(b: Batch, step: Step)
    requires Good(b) && (step.Start? || step.CancelQueued?) && step.id in b.listed && Good(Next(b, step))
    ensures Understates(Next(b, step), step.id) <==> Understates(b, step.id)
  {
    assert StageOk(b.stage[step.id], step.id, b.adds[step.id], step.id in b.confirmed);
  }

  /** And the one after it. */
  lemma LastStepUnderstatesIfCancelled(b: Batch, id: Id, outcome: Onboard)
    requires Good(b) && id in b.listed && Good(Next(b, OnboardingEnds(id, outcome)))
    ensures Understates(Next(b, OnboardingEnds(id, outcome)), id) <==>
            Understates(b, id) || (outcome == Cancelled && b.stage[id] == Onboarding)
  {
    assert StageOk(b.stage[id], id, b.adds[id], id in b.confirmed);
  }

  lemma StepMakesItUnderstate(b: Batch, step: Step, id: Id)
    requires Good(b)
    ensures Good(Next(b, step))
    ensures Understates(Next(b, step), id) <==>
            Understates(b, id) || (step == OnboardingEnds(id, Cancelled) && id in b.listed && b.stage[id] == Onboarding)
  {
    NextKeepsGood(b, step);
    NextKeepsListed(b, step);
    if id in b.listed {
      if step.OthersChange? || step.id != id {
        OthersLeaveItAlone(b, step, id);
      } else if step.OnboardingEnds? {
        LastStepUnderstatesIfCancelled(b, id, step.outcome);
      } else if step.IdentityRead? {
        IdentityReadDoesNotUnderstate(b, step);
      } else {
        EarlyStepsDoNotUnderstate(b, step);
      }
    }
  }

  lemma {:induction false} RunMakesItUnderstate(b: Batch, steps: seq<Step>, id: Id)
    requires Good(b)
    ensures Understates(Run(b, steps), id) <==> Understates(b, id) || CancelledWhileOnboarding(b, steps, id)
    decreases |steps|
  {
    if steps != [] {
      StepMakesItUnderstate(b, steps[0], id);
      RunMakesItUnderstate(Next(b, steps[0]), steps[1..], id);
    }
  }

  /** A device the batch wrote is reported registered, with exactly one exception: its coroutine was
      cancelled while it awaited onboarding. */
  lemma OnlyCancellationUnderstates(listed: seq<Id>, registry: set<Id>, steps: seq<Step>, id: Id)
    requires Distinct(listed)
    ensures Good(Begin(listed, registry))
    ensures Understates(RunBatch(listed, registry, steps), id)
            <==> CancelledWhileOnboarding(Begin(listed, registry), steps, id)
  {
    BeginIsGood(listed, registry);
    RunMakesItUnderstate(Begin(listed, registry), steps, id);
  }

  /** Such a run: one device, confirmed, written, cancelled. */
  lemma CancelledRowUnderstates(id: Id)
    ensures Understates(RunBatch([id], {}, [Start(id, true), IdentityRead(id, Confirmed, true, false),
                                            OnboardingEnds(id, Cancelled)]), id)
  {
    var steps := [Start(id, true), IdentityRead(id, Confirmed, true, false), OnboardingEnds(id, Cancelled)];
    var b := Begin([id], {});
    OnlyCancellationUnderstates([id], {}, steps, id);
    BeginCountsNone(b.listed, b.stage);
    assert id in b.listed;
    var b1 := Next(b, steps[0]);
    assert b1.stage[id] == Confirming;
    NextKeepsGood(b, steps[0]);
    NextKeepsGood(b1, steps[1]);
    assert Next(b1, steps[1]).stage[id] == Onboarding;
    assert steps[1..][0] == steps[1] && steps[1..][1..][0] == steps[2];
    assert CancelledWhileOnboarding(Next(b1, steps[1]), steps[1..][1..], id);
    assert CancelledWhileOnboarding(b1, steps[1..], id);
  }

  // ---- the approved batch ----------------------------------------------------------------------------------

  lemma MalformedBatch(listed: seq<Id>, entries: set<Id>)
    requires (set id | id in listed) != entries
    ensures exists id :: (id in listed) != (id in entries)
  {
    var all := set id | id in listed;
    if all <= entries {
      var id :| id in entries && id !in all;
      assert (id in listed) != (id in entries);
    } else {
      var id :| id in all && id !in entries;
      assert (id in listed) != (id in entries);
    }
  }

  /** The whole action: `listed` and `entries` are the two lists of the approved payload, `steps` the
      interleaving it meets. A malformed batch runs none of it. */
  method AddDiscoveredDevices(listed: seq<Id>, entries: set<Id>, registry: set<Id>, steps: seq<Step>)
    returns (after: set<Id>, r: Option<Result>)
    ensures r == Some(Malformed) <==>
            || listed == [] || (exists id :: (id in listed) != (id in entries))
            || exists i, j :: 0 <= i < j < |listed| && listed[i] == listed[j]
    ensures r == Some(Malformed) ==> after == registry
    ensures r != Some(Malformed) ==>
              && Distinct(listed)
              && var b := RunBatch(listed, registry, steps);
                 && after == b.registry
                 && (r.Some? <==> AllDone(b))
                 && (r.Some? ==>
                       && r.value.Result? && r.value.rows == Rows(b, listed)
                       && r.value.added == Added(r.value.rows) && r.value.accounts == Accounts(r.value.rows)
                       && r.value.failed == Failed(r.value.rows)
                       && (r.value.success <==>
                             forall id :: id in listed ==> GotCredentials(listed, registry, steps, id)))
  {
    if listed == [] || (set id | id in listed) != entries || !Distinct(listed) {
      if (set id | id in listed) != entries {
        MalformedBatch(listed, entries);
      }
      return registry, Some(Malformed);
    }
    BeginIsGood(listed, registry);
    var b := Begin(listed, registry);
    assert steps[0..] == steps;
    var i := 0;
    while i < |steps|
      invariant 0 <= i <= |steps| && Good(b) && b.listed == listed
      invariant Run(b, steps[i..]) == RunBatch(listed, registry, steps)
    {
      NextKeepsGood(b, steps[i]);
      NextKeepsListed(b, steps[i]);
      assert steps[i..][1..] == steps[i + 1..];
      b := Next(b, steps[i]);
      i := i + 1;
    }
    if forall id <- listed :: b.stage[id].Done? {
      var result := Collect(b);
      SuccessIsCredentialsForAll(listed, registry, steps);
      return b.registry, Some(result);
    }
    return b.registry, None;
  }

  // ---- removing several devices -----------------------------------------------------------------------------

  /** Each listed device in turn, one failure not stopping the rest: `failing` cannot be removed. */
  function Remaining(registry: set<Id>, ids: seq<Id>, failing: set<Id>): set<Id> {
    registry - (set id | id in ids && id !in failing)
  }

  /** What was removed was there and was listed; every listed device is either reported removed once
      or reported failed, a second mention of one included. */
  method DeleteDevices(registry: set<Id>, ids: seq<Id>, failing: set<Id>)
    returns (after: set<Id>, removed: seq<Id>, failed: seq<Id>, success: bool)
    ensures forall id :: id in after <==> id in registry && (id !in ids || id in failing)
    ensures Distinct(removed) && forall id :: id in removed <==> id in registry && id !in after
    ensures multiset(removed) + multiset(failed) == multiset(ids)
    ensures success <==> ids != [] && |removed| == |ids|
  {
    after, removed, failed := registry, [], [];
    for i := 0 to |ids|
      invariant after == Remaining(registry, ids[..i], failing)
      invariant Distinct(removed) && forall id :: id in removed <==> id in registry && id !in after
      invariant multiset(removed) + multiset(failed) == multiset(ids[..i])
    {
      var id := ids[i];
      assert ids[..i + 1] == ids[..i] + [id];
      if id in after && id !in failing {
        after, removed := after - {id}, removed + [id];
      } else {
        failed := failed + [id];
      }
    }
    assert ids[..|ids|] == ids;
    assert |multiset(removed)| == |removed| && |multiset(failed)| == |failed| && |multiset(ids)| == |ids|;
    success := ids != [] && failed == [];
  }
}

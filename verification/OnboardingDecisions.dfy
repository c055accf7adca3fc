/** What an onboarding pass comes to, told beforehand: from the state and the call alone, with each
    operation of the device named by its turn. */
module OnboardingDecisions {
  import opened EntryCredentials
  import opened Onboarding
  import opened Provisioning
  import opened Wrappers

  /** The registry can be read and has a password to try. */
  predicate HasPasswordToTry(w: World, call: Call) {
    !call.env.readFails && w.stored.Some? && w.stored.value.pair.password != ""
  }

  predicate StoredIsRight(w: World) {
    && w.stored.Some? && w.stored.value.pair.username in w.accounts
    && w.accounts[w.stored.value.pair.username] == w.stored.value.pair.password
  }

  /** The device lets the pass in with the stored credential, at its first turn. */
  predicate StoredGetsIn(w: World, call: Call) {
    HasPasswordToTry(w, call) && call.env.answers(0) && StoredIsRight(w)
  }

  /** The turn at which the device is asked, without a credential, whether it needs setup. */
  function SetupTurn(w: World, call: Call): nat {
    if HasPasswordToTry(w, call) then 1 else 0
  }

  predicate SaysItNeedsSetup(w: World, call: Call) {
    call.env.answers(SetupTurn(w, call)) && call.env.claimsSetup
  }

  predicate HasRootPassword(w: World) {
    w.settings.rootPassword.Some? && w.settings.rootPassword.value != ""
  }

  /** The device takes `admz` at this turn from somebody it lets in. */
  predicate TakesAdmz(w: World, call: Call, turn: nat) {
    call.env.answers(turn) && ("admz" in w.accounts ==> call.env.overwrites)
  }

  predicate RegistryTakesIt(w: World, call: Call) {
    !(w.stored.Some? && call.env.removeFails) && !call.env.addFails
  }

  /** What the loop over the candidates comes to. */
  datatype Fate = GetsIn(who: Credential, turn: nat) | GoesQuiet | AllRefused

  /** Each candidate but the refused pair is asked about in its turn, until one is not refused. */
  function LoopFate(
    accounts: map<string, string>, cands: seq<Credential>, refused: Option<Pair>, turn: nat, answers: nat -> bool)
    : Fate
    decreases |cands|
  {
    if cands == [] then AllRefused
    else
      var (user, password) := (cands[0].pair.username, cands[0].pair.password);
      if refused == Some(Pair(user, password)) then LoopFate(accounts, cands[1..], refused, turn, answers)
      else if !answers(turn) then GoesQuiet
      else if user in accounts && accounts[user] == password then GetsIn(cands[0], turn)
      else LoopFate(accounts, cands[1..], refused, turn + 1, answers)
  }

  /** The pair that the device has refused before the loop. */
  function RefusedBefore(w: World, call: Call): Option<Pair> {
    if HasPasswordToTry(w, call) && call.env.answers(0) then Some(w.stored.value.pair) else None
  }

  function FateOf(w: World, call: Call): Fate {
    LoopFate(w.accounts, AttemptOrder(w.settings), RefusedBefore(w, call), SetupTurn(w, call) + 1, call.env.answers)
  }

  function Gated(call: Call): Outcome {
    if call.gateFails then Raised(BeforeWriting) else ApprovalRequired
  }

  // ---- the decision ------------------------------------------------------------------------------------

  function WhenStoredGetsIn(w: World, call: Call): Outcome
    requires w.stored.Some?
  {
    if !call.adopt || w.stored.value.pair.username == "admz" then AlreadyCredentialed(false)
    else if !call.approved then Gated(call)
    else if !TakesAdmz(w, call, 1) then AlreadyCredentialed(true)
    else if !RegistryTakesIt(w, call) then Raised(Storing)
    else if !w.stored.value.generatedByAdmz then OwnAccountCreated(None)
    else if call.env.settingsFail then Raised(AfterStoring)
    else if !HasRootPassword(w) then OwnAccountCreated(None)
    else OwnAccountCreated(Some(call.env.answers(2)))
  }

  function WhenSetupIsNeeded(w: World, call: Call): Outcome {
    var turn := SetupTurn(w, call);
    if !call.approved then Gated(call)
    else if call.env.settingsFail then Raised(BeforeWriting)
    else if !HasRootPassword(w) then FactoryFailed(NoRootPassword)
    else if w.accounts != map[] || !call.env.answers(turn + 1) then FactoryFailed(RootWriteFailed)
    else if !call.env.answers(turn + 2) then FactoryFailed(OwnAccountWriteFailed)
    else if !RegistryTakesIt(w, call) then Raised(Storing)
    else FactoryProvisioned
  }

  function WhenEntriesAreTried(w: World, call: Call): Outcome {
    if call.env.settingsFail then Raised(BeforeWriting)
    else if AttemptOrder(w.settings) == [] then CredentialsNeeded(NoEntryCredentials)
    else
      match FateOf(w, call)
      case AllRefused => CredentialsNeeded(EntryExhausted)
      case GoesQuiet => CredentialsNeeded(Unreachable)
      case GetsIn(_, turn) =>
        if !call.approved then Gated(call)
        else if !TakesAdmz(w, call, turn + 1) then OwnAccountFailed
        else if !RegistryTakesIt(w, call) then Raised(Storing)
        else OwnAccountCreated(None)
  }

  function Decision(w: World, call: Call): Outcome {
    if !call.probesOn then CredentialsNeeded(NotProbed)
    else if !call.known then CredentialsNeeded(LookupFailed)
    else if !call.hasExecutor then CredentialsNeeded(NotProbed)
    else if !call.tcpUp then CredentialsNeeded(Unreachable)
    else if StoredGetsIn(w, call) then WhenStoredGetsIn(w, call)
    else if SaysItNeedsSetup(w, call) then WhenSetupIsNeeded(w, call)
    else WhenEntriesAreTried(w, call)
  }

  lemma AdoptDecides(w: World, entry: Pair, env: Env)
    requires entry.username in w.accounts && w.accounts[entry.username] == entry.password
    ensures AdoptWithAdmzAccount(w, entry, env).1 ==
              if !(env.answers(w.turn) && ("admz" in w.accounts ==> env.overwrites)) then DeviceRefused
              else if (w.stored.Some? && env.removeFails) || env.addFails then StoreRaised
              else Created
    ensures AdoptWithAdmzAccount(w, entry, env).0.turn == w.turn + 1
  {
  }

  /** From any point of the pass at which the device and the registry are as they were. */
  predicate SameButAsked(w: World, now: World) {
    now.accounts == w.accounts && now.stored == w.stored && now.settings == w.settings
  }

  lemma {:induction false} LoopDecides(w: World, now: World, cands: seq<Credential>, refused: Option<Pair>, call: Call)
    requires SameButAsked(w, now)
    ensures TryCandidates(now, cands, refused, call).1 ==
              match LoopFate(w.accounts, cands, refused, now.turn, call.env.answers)
              case AllRefused => CredentialsNeeded(EntryExhausted)
              case GoesQuiet => CredentialsNeeded(Unreachable)
              case GetsIn(_, turn) =>
                if !call.approved then Gated(call)
                else if !TakesAdmz(w, call, turn + 1) then OwnAccountFailed
                else if !RegistryTakesIt(w, call) then Raised(Storing)
                else OwnAccountCreated(None)
    decreases |cands|
  {
    if cands != [] {
      var (next, answer) := Check(now, cands[0].pair, call.env);
      if refused == Some(cands[0].pair) {
        LoopDecides(w, now, cands[1..], refused, call);
      } else if answer == Refused {
        LoopDecides(w, next, cands[1..], refused, call);
      } else if answer == Accepted {
        AdoptDecides(Noted(next, cands[0], call), cands[0].pair, call.env);
      }
    }
  }

  lemma SetUpDecides(w: World, now: World, call: Call)
    requires SameButAsked(w, now) && now.turn == SetupTurn(w, call) + 1
    ensures SetUp(now, call).1 == WhenSetupIsNeeded(w, call)
  {
    if HasRootPassword(w) && w.accounts == map[] && call.env.answers(now.turn) {
      var root := Pair("root", w.settings.rootPassword.value);
      AdoptDecides(AddUser(now, root, None, call.env).0, root, call.env);
    }
  }

  lemma BeyondStoredDecides(w: World, now: World, call: Call)
    requires SameButAsked(w, now) && now.turn == SetupTurn(w, call)
    ensures BeyondStored(now, RefusedBefore(w, call), call).1 ==
              if SaysItNeedsSetup(w, call) then WhenSetupIsNeeded(w, call) else WhenEntriesAreTried(w, call)
  {
    var asked := now.(turn := now.turn + 1);
    if SaysItNeedsSetup(w, call) {
      SetUpDecides(w, asked, call);
    } else {
      LoopDecides(w, asked, AttemptOrder(w.settings), RefusedBefore(w, call), call);
    }
  }

  lemma AdoptInPlaceDecides(w: World, now: World, call: Call)
    requires SameButAsked(w, now) && now.turn == 1 && StoredIsRight(w)
    requires call.adopt && w.stored.value.pair.username != "admz"
    ensures AdoptInPlace(now, w.stored.value, call).1 == WhenStoredGetsIn(w, call)
  {
    AdoptDecides(now, w.stored.value.pair, call.env);
    AdoptEffect(now, w.stored.value.pair, call.env);
  }

  lemma TryStoredDecides(w: World, start: World, call: Call)
    requires SameButAsked(w, start) && HasPasswordToTry(w, call) && start.turn == 0
    ensures TryStored(start, w.stored.value, call).1 ==
              if StoredGetsIn(w, call) then WhenStoredGetsIn(w, call)
              else if SaysItNeedsSetup(w, call) then WhenSetupIsNeeded(w, call) else WhenEntriesAreTried(w, call)
  {
    var (now, answer) := Check(start, w.stored.value.pair, call.env);
    if answer == Accepted {
      if call.adopt && w.stored.value.pair.username != "admz" {
        AdoptInPlaceDecides(w, now, call);
      }
    } else {
      BeyondStoredDecides(w, now, call);
    }
  }

  /** Every outcome of every pass, from the state and the call alone. */
  lemma PassIsDecidedBeforehand(w: World, call: Call)
    ensures Onboard(w, call).1 == Decision(w, call)
  {
    var start := w.(asked := [], turn := 0);
    if PreflightPasses(call) {
      WaysOfAPass(w, call);
      if HasPasswordToTry(w, call) {
        TryStoredDecides(w, start, call);
      } else {
        BeyondStoredDecides(w, start, call);
      }
    }
  }

  // ---- and what it leaves ------------------------------------------------------------------------------

  function Admz(call: Call): Account {
    Account(Pair("admz", call.env.newPassword), true)
  }

  /** The device's accounts after a pass with this outcome. */
  function AccountsAfter(w: World, o: Outcome, call: Call): map<string, string>
    requires o == OwnAccountCreated(Some(true)) ==> w.stored.Some? && HasRootPassword(w)
    requires w.accounts == map[] && (TookOwnAccount(o) || o == FactoryFailed(OwnAccountWriteFailed)) ==>
               HasRootPassword(w)
  {
    if o == OwnAccountCreated(Some(true)) then
      w.accounts["admz" := call.env.newPassword][w.stored.value.pair.username := w.settings.rootPassword.value]
    else if TookOwnAccount(o) then
      (if w.accounts == map[] then map["root" := w.settings.rootPassword.value] else w.accounts)
        ["admz" := call.env.newPassword]
    else if o == FactoryFailed(OwnAccountWriteFailed) && w.accounts == map[] then
      map["root" := w.settings.rootPassword.value]
    else w.accounts
  }

  function StoredAfter(w: World, o: Outcome, call: Call): Option<Account> {
    if MadeOwnAccount(o) || o == Raised(AfterStoring) then Some(Admz(call))
    else if o == Raised(Storing) && !call.env.removeFails then None
    else w.stored
  }

  /** So the state after a pass is known beforehand too: the device's accounts and the registry's. */
  lemma StateIsDecidedBeforehand(w: World, call: Call)
    ensures var (after, o) := (Onboard(w, call).0, Decision(w, call));
            && (o == OwnAccountCreated(Some(true)) ==> w.stored.Some? && HasRootPassword(w))
            && (w.accounts == map[] && (TookOwnAccount(o) || o == FactoryFailed(OwnAccountWriteFailed)) ==>
                  HasRootPassword(w))
            && after.accounts == AccountsAfter(w, o, call) && after.stored == StoredAfter(w, o, call)
  {
    PassEffect(w, call);
    PassIsDecidedBeforehand(w, call);
  }

  /** The settings with the success noted, when it can be. */
  function Remembering(r: Reading, who: Credential, call: Call): Reading {
    var noted := NoteSuccess(r, who, call.now, call.freshSalt);
    if noted.None? || !call.historyWritable then r else r.(history := noted)
  }

  lemma {:induction false} LoopRemembers(now: World, cands: seq<Credential>, refused: Option<Pair>, call: Call)
    ensures TryCandidates(now, cands, refused, call).0.settings ==
              match LoopFate(now.accounts, cands, refused, now.turn, call.env.answers)
              case GetsIn(who, _) => Remembering(now.settings, who, call)
              case _ => now.settings
    decreases |cands|
  {
    if cands != [] {
      var (next, answer) := Check(now, cands[0].pair, call.env);
      if refused == Some(cands[0].pair) {
        LoopRemembers(now, cands[1..], refused, call);
      } else if answer == Refused {
        LoopRemembers(next, cands[1..], refused, call);
      } else if answer == Accepted {
        AdoptEffect(Noted(next, cands[0], call), cands[0].pair, call.env);
      }
    }
  }

  /** The pass reaches its loop: nothing before it ends it. */
  predicate ReachesTheLoop(w: World, call: Call) {
    && call.probesOn && call.known && call.hasExecutor && call.tcpUp
    && !StoredGetsIn(w, call) && !SaysItNeedsSetup(w, call) && !call.env.settingsFail
  }

  lemma BeyondStoredRemembers(w: World, now: World, call: Call)
    requires SameButAsked(w, now) && now.turn == SetupTurn(w, call)
    ensures BeyondStored(now, RefusedBefore(w, call), call).0.settings ==
              if SaysItNeedsSetup(w, call) || call.env.settingsFail then w.settings
              else match FateOf(w, call)
                   case GetsIn(who, _) => Remembering(w.settings, who, call)
                   case _ => w.settings
  {
    var asked := now.(turn := now.turn + 1);
    if SaysItNeedsSetup(w, call) {
      FactoryEffect(asked, call);
    } else {
      LoopRemembers(asked, AttemptOrder(w.settings), RefusedBefore(w, call), call);
    }
  }

  /** And the settings: a pass changes them only by noting the candidate that got in. */
  lemma SettingsAreDecidedBeforehand(w: World, call: Call)
    ensures Onboard(w, call).0.settings ==
              if ReachesTheLoop(w, call) && FateOf(w, call).GetsIn?
              then Remembering(w.settings, FateOf(w, call).who, call) else w.settings
  {
    var start := w.(asked := [], turn := 0);
    if PreflightPasses(call) {
      WaysOfAPass(w, call);
      if HasPasswordToTry(w, call) {
        var (now, answer) := Check(start, w.stored.value.pair, call.env);
        if answer == Accepted {
          AdoptEffect(now, w.stored.value.pair, call.env);
        } else {
          BeyondStoredRemembers(w, now, call);
        }
      } else {
        BeyondStoredRemembers(w, start, call);
      }
    }
  }

  /** Above all, factory provisioning: it succeeds exactly on an approved pass that reaches an empty
      device which says that it needs setup, with a root password to give, both accounts taken and
      the registry taking the second; the device then has root and `admz`, and `admz` is stored. */
  lemma FactoryProvisioningSucceedsIff(w: World, call: Call)
    ensures var (after, o) := Onboard(w, call);
            && (o == FactoryProvisioned <==>
                  && call.probesOn && call.known && call.hasExecutor && call.tcpUp && call.approved
                  && SaysItNeedsSetup(w, call) && !call.env.settingsFail && HasRootPassword(w) && w.accounts == map[]
                  && call.env.answers(SetupTurn(w, call) + 1) && call.env.answers(SetupTurn(w, call) + 2)
                  && RegistryTakesIt(w, call))
            && (o == FactoryProvisioned ==>
                  && after.accounts == map["root" := w.settings.rootPassword.value, "admz" := call.env.newPassword]
                  && after.stored == Some(Account(Pair("admz", call.env.newPassword), true)))
  {
    PassIsDecidedBeforehand(w, call);
    StateIsDecidedBeforehand(w, call);
  }

  /** It stops halfway exactly when of the two account writes the second alone is not answered; the device
      then has root alone, and what the registry had is still there. */
  lemma FactoryProvisioningStopsHalfwayIff(w: World, call: Call)
    ensures var (after, o) := Onboard(w, call);
            && (o == FactoryFailed(OwnAccountWriteFailed) <==>
                  && call.probesOn && call.known && call.hasExecutor && call.tcpUp && call.approved
                  && SaysItNeedsSetup(w, call) && !call.env.settingsFail && HasRootPassword(w) && w.accounts == map[]
                  && call.env.answers(SetupTurn(w, call) + 1) && !call.env.answers(SetupTurn(w, call) + 2))
            && (o == FactoryFailed(OwnAccountWriteFailed) ==>
                  after.accounts == map["root" := w.settings.rootPassword.value] && after.stored == w.stored)
  {
    PassIsDecidedBeforehand(w, call);
    StateIsDecidedBeforehand(w, call);
  }

  /** Adoption in place makes `admz`, whatever comes of the account it replaces, exactly when asked for
      and approved for a stored credential of another user that works, the device taking `admz` and
      the registry too. */
  lemma AdoptionInPlaceSucceedsIff(w: World, call: Call)
    requires call.probesOn && call.known && call.hasExecutor && call.tcpUp && StoredGetsIn(w, call)
    ensures var (after, o) := Onboard(w, call);
            after.stored == Some(Account(Pair("admz", call.env.newPassword), true)) && "admz" in after.accounts
              && after.accounts["admz"] == call.env.newPassword && (o.OwnAccountCreated? || o == Raised(AfterStoring))
            <==>
            && call.adopt && w.stored.value.pair.username != "admz" && call.approved
            && TakesAdmz(w, call, 1) && RegistryTakesIt(w, call)
  {
    PassIsDecidedBeforehand(w, call);
    StateIsDecidedBeforehand(w, call);
  }
}

/** One onboarding pass over a device: does a stored credential work, is the device factory-default,
    does any credential get in; and what may be written once one does. */
module Onboarding {
  import opened EntryCredentials
  import opened Provisioning
  import opened Wrappers

  datatype ReasonCode = EntryExhausted | Unreachable | NotProbed | LookupFailed | NoEntryCredentials

  /** Where an exception ended the pass. */
  datatype Point = BeforeWriting | Storing | AfterStoring

  datatype Outcome =
    | AlreadyCredentialed(adoptFailed: bool)
    | FactoryProvisioned
    | FactoryFailed(why: Provisioned)
    | OwnAccountCreated(rotated: Option<bool>)
    | OwnAccountFailed
    | ApprovalRequired
    | CredentialsNeeded(code: ReasonCode)
    | Raised(at: Point)

  /** The call: `adopt` asks for adoption in place, `approved` is whether the running task is inside
      an approval that covers account writes. The rest is what the pass finds; `gateFails`: a request
      for approval cannot be recorded. */
  datatype Call = Call(
    adopt: bool, approved: bool, gateFails: bool, probesOn: bool, known: bool, hasExecutor: bool, tcpUp: bool,
    now: real, freshSalt: string, historyWritable: bool, env: Env)

  /** Authenticating moves the credential to the front of the next pass; failing to say so is harmless. */
  function Noted(w: World, c: Credential, call: Call): World {
    var noted := NoteSuccess(w.settings, c, call.now, call.freshSalt);
    if call.historyWritable && noted.Some? then w.(settings := w.settings.(history := noted)) else w
  }

  /** The pass stops here until a human approves. */
  function AtTheGate(call: Call): Outcome {
    if call.gateFails then Raised(BeforeWriting) else ApprovalRequired
  }

  /** The credential loop. `refused` is the stored pair, if the device has refused it in this pass. */
  function TryCandidates(w: World, cands: seq<Credential>, refused: Option<Pair>, call: Call): (World, Outcome)
    decreases |cands|
  {
    if cands == [] then (w, CredentialsNeeded(EntryExhausted))
    else if refused == Some(cands[0].pair) then TryCandidates(w, cands[1..], refused, call)
    else
      var (w1, answer) := Check(w, cands[0].pair, call.env);
      match answer
      case NoAnswer => (w1, CredentialsNeeded(Unreachable))
      case Refused => TryCandidates(w1, cands[1..], refused, call)
      case Accepted =>
        var w2 := Noted(w1, cands[0], call);
        if !call.approved then (w2, AtTheGate(call))
        else
          var (w3, adopted) := AdoptWithAdmzAccount(w2, cands[0].pair, call.env);
          (w3, match adopted
               case Created => OwnAccountCreated(None)
               case DeviceRefused => OwnAccountFailed
               case StoreRaised => Raised(Storing))
  }

  /** The account exists and is stored, whatever came of resetting the one it replaces. */
  function AfterRotation(rotated: Rotation): Outcome {
    match rotated
    case Rotated(ok) => OwnAccountCreated(Some(ok))
    case NothingToRotateTo => OwnAccountCreated(None)
    case RotationRaised => Raised(AfterStoring)
  }

  /** Step 1b: the stored credential works and adoption was asked for. */
  function AdoptInPlace(w: World, stored: Account, call: Call): (World, Outcome) {
    if !call.approved then (w, AtTheGate(call))
    else
      var (w1, adopted) := AdoptWithAdmzAccount(w, stored.pair, call.env);
      match adopted
      case DeviceRefused => (w1, AlreadyCredentialed(true))
      case StoreRaised => (w1, Raised(Storing))
      case Created =>
        if !stored.generatedByAdmz then (w1, OwnAccountCreated(None))
        else
          var (w2, rotated) := RotateRootToBreakGlass(w1, stored.pair, call.env);
          (w2, AfterRotation(rotated))
  }

  /** Step 2: a device that says it has no account. */
  function SetUp(w: World, call: Call): (World, Outcome) {
    if !call.approved then (w, AtTheGate(call))
    else
      var (w1, r) := ProvisionFactoryDefault(w, true, call.env);
      (w1, AfterSetUp(r))
  }

  function AfterSetUp(r: Provisioned): Outcome {
    match r
    case Done => FactoryProvisioned
    case SettingsRaised => Raised(BeforeWriting)
    case StoringRaised => Raised(Storing)
    case _ => FactoryFailed(r)
  }

  /** Step 3: whatever may get in, in order. */
  function TryEntries(w: World, refused: Option<Pair>, call: Call): (World, Outcome) {
    var cands := AttemptOrder(w.settings);
    if call.env.settingsFail then (w, Raised(BeforeWriting))
    else if cands == [] then (w, CredentialsNeeded(NoEntryCredentials))
    else TryCandidates(w, cands, refused, call)
  }

  /** Steps 2 and 3, after the stored credential did not settle it. */
  function BeyondStored(w: World, refused: Option<Pair>, call: Call): (World, Outcome) {
    var asked := w.(turn := w.turn + 1);
    if call.env.answers(w.turn) && call.env.claimsSetup then SetUp(asked, call) else TryEntries(asked, refused, call)
  }

  /** Step 1: the stored credential, when there is one. */
  function TryStored(w: World, stored: Account, call: Call): (World, Outcome) {
    var (w1, answer) := Check(w, stored.pair, call.env);
    match answer
    case Accepted =>
      if !call.adopt || stored.pair.username == OWN_ACCOUNT then (w1, AlreadyCredentialed(false))
      else AdoptInPlace(w1, stored, call)
    case Refused => BeyondStored(w1, Some(stored.pair), call)
    case NoAnswer => BeyondStored(w1, None, call)
  }

  /** A stored account that cannot be read counts as none, as does one without a password. */
  predicate AsksStored(w: World, call: Call) {
    !call.env.readFails && w.stored.Some? && w.stored.value.pair.password != ""
  }

  function Onboard(world: World, call: Call): (World, Outcome) {
    var w := world.(asked := [], turn := 0);
    if !call.probesOn then (w, CredentialsNeeded(NotProbed))
    else if !call.known then (w, CredentialsNeeded(LookupFailed))
    else if !call.hasExecutor then (w, CredentialsNeeded(NotProbed))
    else if !call.tcpUp then (w, CredentialsNeeded(Unreachable))
    else if AsksStored(w, call) then TryStored(w, w.stored.value, call)
    else BeyondStored(w, None, call)
  }

  // ---- the pass as the program runs it ------------------------------------------------------------

  method TryEach(site: Site, candidates: seq<Credential>, storedRejected: bool, stored: Option<Account>, call: Call)
    returns (outcome: Outcome)
    requires storedRejected ==> stored.Some?
    modifies site
    ensures (site.State(), outcome)
         == TryCandidates(old(site.State()), candidates, if storedRejected then Some(stored.value.pair) else None, call)
  {
    ghost var refused := if storedRejected then Some(stored.value.pair) else None;
    var reasonCode := EntryExhausted;
    var i := 0;
    assert candidates[0..] == candidates;
    while i < |candidates|
      invariant 0 <= i <= |candidates| && reasonCode == EntryExhausted
      invariant TryCandidates(site.State(), candidates[i..], refused, call)
             == TryCandidates(old(site.State()), candidates, refused, call)
    {
      var cred := candidates[i];
      assert candidates[i..][0] == cred && candidates[i..][1..] == candidates[i + 1..];
      i := i + 1;
      if storedRejected && stored.value.pair == cred.pair {
        continue;
      }
      var answer := site.ConfirmCredentials(cred.pair, call.env);
      if answer == NoAnswer {
        reasonCode := Unreachable;
        break;
      }
      if answer == Refused {
        continue;
      }
      NoteIn(site, cred, call);
      if !call.approved {
        return AtTheGate(call);
      }
      var adopted := site.Adopt(cred.pair, call.env);
      return match adopted
        case Created => OwnAccountCreated(None)
        case DeviceRefused => OwnAccountFailed
        case StoreRaised => Raised(Storing);
    }
    return CredentialsNeeded(reasonCode);
  }

  method NoteIn(site: Site, cred: Credential, call: Call)
    modifies site`settings
    ensures site.State() == Noted(old(site.State()), cred, call)
  {
    var noted := NoteSuccess(site.settings, cred, call.now, call.freshSalt);
    if call.historyWritable && noted.Some? {
      site.settings := site.settings.(history := noted);
    }
  }

  method AdoptStored(site: Site, stored: Account, call: Call) returns (outcome: Outcome)
    modifies site
    ensures (site.State(), outcome) == AdoptInPlace(old(site.State()), stored, call)
  {
    if !call.approved {
      return AtTheGate(call);
    }
    var adopted := site.Adopt(stored.pair, call.env);
    if adopted == StoreRaised {
      return Raised(Storing);
    }
    if adopted == DeviceRefused {
      return AlreadyCredentialed(true);
    }
    // The account exists first; only then is the one it replaces reset.
    var rotated := NothingToRotateTo;
    if stored.generatedByAdmz {
      rotated := site.Rotate(stored.pair, call.env);
    }
    return AfterRotation(rotated);
  }

  method OnboardDeviceCredentials(site: Site, call: Call) returns (outcome: Outcome)
    modifies site
    ensures (site.State(), outcome) == Onboard(old(site.State()), call)
  {
    site.asked, site.turn := [], 0;
    if !call.probesOn {
      return CredentialsNeeded(NotProbed);
    }
    if !call.known {
      return CredentialsNeeded(LookupFailed);
    }
    if !call.hasExecutor {
      return CredentialsNeeded(NotProbed);
    }
    if !call.tcpUp {
      return CredentialsNeeded(Unreachable);
    }
    var stored := if call.env.readFails then None else site.stored;
    var storedRejected := false;
    if stored.Some? && stored.value.pair.password != "" {
      var ok := site.ConfirmCredentials(stored.value.pair, call.env);
      storedRejected := ok == Refused;
      if ok == Accepted {
        if !call.adopt || stored.value.pair.username == OWN_ACCOUNT {
          return AlreadyCredentialed(false);
        }
        outcome := AdoptStored(site, stored.value, call);
        return;
      }
    }
    outcome := GoBeyondStored(site, storedRejected, stored, call);
  }

  method GoBeyondStored(site: Site, storedRejected: bool, stored: Option<Account>, call: Call)
    returns (outcome: Outcome)
    requires storedRejected ==> stored.Some?
    modifies site
    ensures (site.State(), outcome)
         == BeyondStored(old(site.State()), if storedRejected then Some(stored.value.pair) else None, call)
  {
    var needsSetup := call.env.answers(site.turn) && call.env.claimsSetup;
    site.turn := site.turn + 1;
    if needsSetup {
      if !call.approved {
        return AtTheGate(call);
      }
      var r := site.Provision(true, call.env);
      return AfterSetUp(r);
    }
    if call.env.settingsFail {
      return Raised(BeforeWriting);
    }
    var candidates := AttemptOrder(site.settings);
    if candidates == [] {
      return CredentialsNeeded(NoEntryCredentials);
    }
    outcome := TryEach(site, candidates, storedRejected, stored, call);
  }

  // ---- what a pass may write ------------------------------------------------------------------------

  predicate MadeOwnAccount(o: Outcome) {
    o.OwnAccountCreated? || o.FactoryProvisioned?
  }

  /** The account ADMZ may reset: the stored one it authenticated with, if it generated it. */
  function Rotatable(w: World): Option<string> {
    if w.stored.Some? && w.stored.value.generatedByAdmz && w.stored.value.pair.username != OWN_ACCOUNT
    then Some(w.stored.value.pair.username) else None
  }

  /** The device once it has an account to come in on: itself, or with root alone if it had none. */
  function Opened(w: World): map<string, string> {
    if w.accounts == map[] && RootPassword(w).Some? then map[ROOT := RootPassword(w).value] else w.accounts
  }

  function WithOwn(accounts: map<string, string>, call: Call): map<string, string> {
    accounts[OWN_ACCOUNT := call.env.newPassword]
  }

  /** What becomes of the registry, by outcome. */
  predicate RegistryEffect(w: World, after: World, o: Outcome, call: Call) {
    if MadeOwnAccount(o) then after.stored == Some(OwnAccount(call.env))
    else if o == Raised(AfterStoring) then after.stored == Some(OwnAccount(call.env))
    else if o == Raised(Storing) then
      after.stored == (if call.env.removeFails then w.stored else None) && (call.env.removeFails || call.env.addFails)
    else after.stored == w.stored
  }

  /** The device took the new account: it is there whether or not storing it raised. */
  predicate TookOwnAccount(o: Outcome) {
    MadeOwnAccount(o) || o == Raised(Storing) || o == Raised(AfterStoring)
  }

  /** What becomes of the device, by outcome: nothing; or root alone; or `admz` beside what was
      there, and the fleet root password on the one account that may be reset just when the
      outcome says that it was. */
  predicate DeviceEffect(w: World, after: World, o: Outcome, call: Call, rotatable: Option<string>) {
    if o == OwnAccountCreated(Some(true)) then
      && rotatable.Some? && rotatable.value in w.accounts && RootPassword(w).Some?
      && after.accounts == WithOwn(w.accounts, call)[rotatable.value := RootPassword(w).value]
    else if TookOwnAccount(o) then after.accounts == WithOwn(Opened(w), call)
    else if o == FactoryFailed(OwnAccountWriteFailed) then w.accounts == map[] && after.accounts == Opened(w)
    else after.accounts == w.accounts
  }

  predicate Effect(w: World, after: World, o: Outcome, call: Call, rotatable: Option<string>) {
    && after.settings.rootPassword == w.settings.rootPassword
    && (!call.approved ==> after.accounts == w.accounts && after.stored == w.stored)
    && (w.accounts == map[] && (TookOwnAccount(o) || o == FactoryFailed(OwnAccountWriteFailed)) ==>
          RootPassword(w).Some?)
    && RegistryEffect(w, after, o, call) && DeviceEffect(w, after, o, call, rotatable)
  }

  lemma AdoptEffect(w: World, entry: Pair, env: Env)
    ensures var (after, adopted) := AdoptWithAdmzAccount(w, entry, env);
            && after.settings == w.settings
            && match adopted
               case DeviceRefused => after.accounts == w.accounts && after.stored == w.stored
               case Created =>
                 && after.accounts == w.accounts[OWN_ACCOUNT := env.newPassword]
                 && after.stored == Some(OwnAccount(env))
               case StoreRaised =>
                 && after.accounts == w.accounts[OWN_ACCOUNT := env.newPassword] && (env.removeFails || env.addFails)
                 && after.stored == if env.removeFails then w.stored else None
    ensures AdoptWithAdmzAccount(w, entry, env).1 != DeviceRefused ==> Authenticates(w.accounts, entry)
  {
  }

  lemma AcceptedEffect(w: World, c: Credential, call: Call)
    requires Authenticates(w.accounts, c.pair) && call.approved
    ensures var (after, adopted) := AdoptWithAdmzAccount(Noted(w, c, call), c.pair, call.env);
            var o := match adopted
                     case Created => OwnAccountCreated(None)
                     case DeviceRefused => OwnAccountFailed
                     case StoreRaised => Raised(Storing);
            Effect(w, after, o, call, None)
  {
    AdoptEffect(Noted(w, c, call), c.pair, call.env);
  }

  lemma {:induction false} CandidatesEffect(w: World, cands: seq<Credential>, refused: Option<Pair>, call: Call)
    ensures var (after, o) := TryCandidates(w, cands, refused, call); Effect(w, after, o, call, None)
    decreases |cands|
  {
    if cands != [] {
      var (w1, answer) := Check(w, cands[0].pair, call.env);
      if refused == Some(cands[0].pair) {
        CandidatesEffect(w, cands[1..], refused, call);
      } else if answer == Refused {
        CandidatesEffect(w1, cands[1..], refused, call);
      } else if answer == Accepted && call.approved {
        AcceptedEffect(w1, cands[0], call);
      }
    }
  }

  lemma FactoryEffect(w: World, call: Call)
    ensures var (after, r) := ProvisionFactoryDefault(w, true, call.env);
            && after.settings == w.settings
            && (r.Done? || r.StoringRaised? || r.OwnAccountWriteFailed? ==>
                  w.accounts == map[] && RootPassword(w).Some?)
            && match r
               case Done => after.accounts == WithOwn(Opened(w), call) && after.stored == Some(OwnAccount(call.env))
               case StoringRaised =>
                 && after.accounts == WithOwn(Opened(w), call) && (call.env.removeFails || call.env.addFails)
                 && after.stored == if call.env.removeFails then w.stored else None
               case OwnAccountWriteFailed => after.accounts == Opened(w) && after.stored == w.stored
               case _ => after.accounts == w.accounts && after.stored == w.stored
  {
    if RootPassword(w).Some? {
      var root := Pair(ROOT, RootPassword(w).value);
      AdoptEffect(AddUser(w, root, None, call.env).0, root, call.env);
    }
  }

  lemma SetUpEffect(w: World, call: Call)
    ensures var (after, o) := SetUp(w, call); Effect(w, after, o, call, None)
  {
    FactoryEffect(w, call);
  }

  /** Asking the device a question changes nothing an effect speaks of. */
  lemma EffectFromAsked(w: World, w1: World, after: World, o: Outcome, call: Call, rotatable: Option<string>)
    requires w1.accounts == w.accounts && w1.stored == w.stored && w1.settings == w.settings
    requires Effect(w1, after, o, call, rotatable)
    ensures Effect(w, after, o, call, rotatable)
  {
  }

  lemma TryEntriesEffect(w: World, refused: Option<Pair>, call: Call)
    ensures var (after, o) := TryEntries(w, refused, call); Effect(w, after, o, call, None)
  {
    CandidatesEffect(w, AttemptOrder(w.settings), refused, call);
  }

  lemma BeyondStoredEffect(w: World, refused: Option<Pair>, call: Call)
    ensures var (after, o) := BeyondStored(w, refused, call); Effect(w, after, o, call, None)
  {
    var asked := w.(turn := w.turn + 1);
    var (after, o) := BeyondStored(w, refused, call);
    if call.env.answers(w.turn) && call.env.claimsSetup {
      SetUpEffect(asked, call);
    } else {
      TryEntriesEffect(asked, refused, call);
    }
    EffectFromAsked(w, asked, after, o, call, None);
  }

  lemma AdoptInPlaceEffect(w: World, call: Call)
    requires w.stored.Some? && w.stored.value.pair.username != OWN_ACCOUNT
    requires Authenticates(w.accounts, w.stored.value.pair)
    ensures var (after, o) := AdoptInPlace(w, w.stored.value, call); Effect(w, after, o, call, Rotatable(w))
  {
    if call.approved {
      AdoptEffect(w, w.stored.value.pair, call.env);
    }
  }

  lemma TryStoredEffect(w: World, call: Call)
    requires w.stored.Some?
    ensures var (after, o) := TryStored(w, w.stored.value, call); Effect(w, after, o, call, Rotatable(w))
  {
    var (w1, answer) := Check(w, w.stored.value.pair, call.env);
    var (after, o) := TryStored(w, w.stored.value, call);
    match answer
    case Accepted =>
      if call.adopt && w.stored.value.pair.username != OWN_ACCOUNT {
        AdoptInPlaceEffect(w1, call);
        EffectFromAsked(w, w1, after, o, call, Rotatable(w));
      }
    case Refused =>
      BeyondStoredEffect(w1, Some(w.stored.value.pair), call);
      EffectFromAsked(w, w1, after, o, call, None);
    case NoAnswer =>
      BeyondStoredEffect(w1, None, call);
      EffectFromAsked(w, w1, after, o, call, None);
  }

  predicate PreflightPasses(call: Call) {
    call.probesOn && call.known && call.hasExecutor && call.tcpUp
  }

  /** The whole pass: nothing is written without approval; the registry keeps its account, or holds
      `admz` with the very password the device took in this pass, or (only when adding it raised
      after the old one was removed) holds nothing; the device keeps all its accounts, gains `admz`
      (and root, if it had none), and only an account whose password this program generated is
      ever reset. */
  lemma PassEffect(world: World, call: Call)
    ensures var (after, o) := Onboard(world, call); Effect(world, after, o, call, Rotatable(world))
  {
    var w := world.(asked := [], turn := 0);
    var (after, o) := Onboard(world, call);
    if PreflightPasses(call) {
      if AsksStored(w, call) {
        TryStoredEffect(w, call);
      } else {
        BeyondStoredEffect(w, None, call);
        assert Effect(w, after, o, call, None);
      }
      EffectFromAsked(world, w, after, o, call, Rotatable(world));
    }
  }

  /** Nobody else is touched: every other user keeps its password, human-supplied credentials above
      all, and a user that was not there before is `admz`, or root with the fleet password on a
      device that had no account. */
  lemma OthersAreUntouched(w: World, call: Call)
    ensures var after := Onboard(w, call).0;
            && (forall u :: u in w.accounts && u != OWN_ACCOUNT && Some(u) != Rotatable(w) ==>
                  u in after.accounts && after.accounts[u] == w.accounts[u])
            && (forall u :: u in after.accounts && u !in w.accounts && u != OWN_ACCOUNT ==>
                  u == ROOT && w.accounts == map[] && RootPassword(w) == Some(after.accounts[u]))
  {
    PassEffect(w, call);
  }

  /** Step 1b is reached: the stored credential works, is not the program's own, and adoption was asked for. */
  predicate AdoptsInPlace(w: World, call: Call) {
    && PreflightPasses(call) && AsksStored(w, call) && call.env.answers(0) && call.adopt
    && w.stored.value.pair.username != OWN_ACCOUNT && Authenticates(w.accounts, w.stored.value.pair)
  }

  /** An account a human may know is never lost: a stored one that works keeps its password through
      any pass, unless the outcome says that it was reset; then this program had generated it, and
      it takes the fleet root password. And adoption in place leaves it alone for no other reason
      than that a human supplied it or there is no password to reset it to. */
  lemma RotationIsReportedTruthfully(w: World, call: Call)
    requires w.stored.Some? && w.stored.value.pair.username != OWN_ACCOUNT
    requires Authenticates(w.accounts, w.stored.value.pair)
    ensures var ((after, o), p) := (Onboard(w, call), w.stored.value.pair);
            && (o == OwnAccountCreated(Some(true)) ==>
                  && w.stored.value.generatedByAdmz && RootPassword(w).Some?
                  && Authenticates(after.accounts, Pair(p.username, RootPassword(w).value)))
            && (o != OwnAccountCreated(Some(true)) ==> Authenticates(after.accounts, p))
            && (AdoptsInPlace(w, call) && o.OwnAccountCreated? ==>
                  (o.rotated == None <==> !w.stored.value.generatedByAdmz || RootPassword(w).None?))
  {
    PassEffect(w, call);
    if AdoptsInPlace(w, call) {
      var w1 := Check(w.(asked := [], turn := 0), w.stored.value.pair, call.env).0;
      AdoptEffect(w1, w.stored.value.pair, call.env);
    }
  }

  // ---- the stored account keeps working ----------------------------------------------------------------

  /** If the registry holds `admz`, the device accepts it. */
  predicate AdmzWorks(w: World) {
    w.stored.Some? && w.stored.value.pair.username == OWN_ACCOUNT ==> Authenticates(w.accounts, w.stored.value.pair)
  }

  /** By its outcome: the stored password is stale after a pass just when the device took a new one
      and the registry then failed to let go of the old. */
  lemma AdmzBreaksWhenStoringRaises(w: World, call: Call)
    requires AdmzWorks(w)
    ensures var (after, o) := Onboard(w, call);
            AdmzWorks(after) <==>
            !(o == Raised(Storing) && call.env.removeFails
              && w.stored.Some? && w.stored.value.pair.username == OWN_ACCOUNT
              && w.stored.value.pair.password != call.env.newPassword)
  {
    PassEffect(w, call);
  }

  /** The turn at which the device, asked about one candidate after another from `turn` on, first lets
      one in; `None` when it refuses them all, or leaves one unanswered before. */
  function GetsInAt(accounts: map<string, string>, cands: seq<Credential>, turn: nat, env: Env): Option<nat>
    decreases |cands|
  {
    if cands == [] || !env.answers(turn) then None
    else if Authenticates(accounts, cands[0].pair) then Some(turn)
    else GetsInAt(accounts, cands[1..], turn + 1, env)
  }

  /** What a pass over a working stored `admz` must meet to leave it stale, all of it known before the
      pass: the check of the stored pair is not made, because the account cannot be read or has no
      password, or is not answered; the device does not say it needs setup; the settings are
      readable and one of the candidates gets in; its add-user is answered and resets the existing
      `admz` to another password; and the registry cannot remove the old account. */
  predicate Clobbers(w: World, call: Call) {
    && w.stored.Some? && w.stored.value.pair.username == OWN_ACCOUNT
    && w.stored.value.pair.password != call.env.newPassword
    && PreflightPasses(call) && call.approved
    && call.env.removeFails && call.env.overwrites && !call.env.settingsFail
    && var setupRead := if AsksStored(w, call) then 1 else 0;
       && (setupRead == 1 ==> !call.env.answers(0))
       && !(call.env.answers(setupRead) && call.env.claimsSetup)
       && var entered := GetsInAt(w.accounts, AttemptOrder(w.settings), setupRead + 1, call.env);
          entered.Some? && call.env.answers(entered.value + 1)
  }

  /** The loop ends by raising just when a candidate gets in and what follows goes wrong that way. */
  lemma {:induction false} CandidatesRaise(w: World, cands: seq<Credential>, call: Call)
    requires call.env.removeFails && w.stored.Some? && OWN_ACCOUNT in w.accounts
    ensures var entered := GetsInAt(w.accounts, cands, w.turn, call.env);
            TryCandidates(w, cands, None, call).1 == Raised(Storing) <==>
            call.approved && call.env.overwrites && entered.Some? && call.env.answers(entered.value + 1)
    decreases |cands|
  {
    if cands != [] {
      var (w1, answer) := Check(w, cands[0].pair, call.env);
      if answer == Refused {
        CandidatesRaise(w1, cands[1..], call);
      }
    }
  }

  lemma BeyondStoredRaises(w: World, call: Call)
    requires call.env.removeFails && w.stored.Some? && OWN_ACCOUNT in w.accounts
    ensures var entered := GetsInAt(w.accounts, AttemptOrder(w.settings), w.turn + 1, call.env);
            BeyondStored(w, None, call).1 == Raised(Storing) <==>
            && call.approved && call.env.overwrites && !call.env.settingsFail
            && !(call.env.answers(w.turn) && call.env.claimsSetup)
            && entered.Some? && call.env.answers(entered.value + 1)
  {
    var asked := w.(turn := w.turn + 1);
    if call.env.answers(w.turn) && call.env.claimsSetup {
      NoSetUpWithAccounts(asked, call);
    } else {
      CandidatesRaise(asked, AttemptOrder(w.settings), call);
    }
  }

  /** On a device with accounts an unauthenticated write is refused, whatever it says of itself. */
  lemma NoSetUpWithAccounts(w: World, call: Call)
    requires w.accounts != map[]
    ensures SetUp(w, call).1 != Raised(Storing)
  {
  }

  /** A stored `admz` password keeps authenticating through a pass, whatever fails, except exactly
      under the conditions of `Clobbers`. */
  lemma AdmzKeepsWorking(w: World, call: Call)
    requires AdmzWorks(w)
    ensures AdmzWorks(Onboard(w, call).0) <==> !Clobbers(w, call)
  {
    AdmzBreaksWhenStoringRaises(w, call);
    if w.stored.Some? && w.stored.value.pair.username == OWN_ACCOUNT && call.env.removeFails && PreflightPasses(call) {
      var start := w.(asked := [], turn := 0);
      if !AsksStored(w, call) {
        BeyondStoredRaises(start, call);
      } else if !call.env.answers(0) {
        BeyondStoredRaises(Check(start, w.stored.value.pair, call.env).0, call);
      }
    }
  }

  function RunPasses(w: World, calls: seq<Call>): World
    decreases |calls|
  {
    if calls == [] then w else RunPasses(Onboard(w, calls[0]).0, calls[1..])
  }

  /** The stored `admz` works now and after each of the passes. */
  predicate WorksAllAlong(w: World, calls: seq<Call>)
    decreases |calls|
  {
    AdmzWorks(w) && (calls != [] ==> WorksAllAlong(Onboard(w, calls[0]).0, calls[1..]))
  }

  /** No pass of the sequence meets what would leave the stored `admz` stale. */
  predicate NeverClobbers(w: World, calls: seq<Call>)
    decreases |calls|
  {
    calls != [] ==> !Clobbers(w, calls[0]) && NeverClobbers(Onboard(w, calls[0]).0, calls[1..])
  }

  /** Over any sequence of passes with any operation failing, the stored `admz` works all along exactly
      when no pass clobbers it. */
  lemma {:induction false} AdmzWorksAllAlong(w: World, calls: seq<Call>)
    requires AdmzWorks(w)
    ensures WorksAllAlong(w, calls) <==> NeverClobbers(w, calls)
    decreases |calls|
  {
    if calls != [] {
      AdmzKeepsWorking(w, calls[0]);
      if !Clobbers(w, calls[0]) {
        AdmzWorksAllAlong(Onboard(w, calls[0]).0, calls[1..]);
      }
    }
  }

  /** In particular while the registry can remove an account. */
  lemma {:induction false} AdmzWorksOverAllPasses(w: World, calls: seq<Call>)
    requires AdmzWorks(w) && forall c <- calls :: !c.env.removeFails
    ensures AdmzWorks(RunPasses(w, calls))
    decreases |calls|
  {
    if calls != [] {
      assert calls[0] in calls;
      AdmzKeepsWorking(w, calls[0]);
      AdmzWorksOverAllPasses(Onboard(w, calls[0]).0, calls[1..]);
    }
  }

  /** No root or entry secret is ever newly stored: whatever the registry holds after any passes was
      there at the start, or is `admz` with a password generated in one of them. */
  lemma {:induction false} OnlyAdmzIsEverStored(w: World, calls: seq<Call>)
    ensures var after := RunPasses(w, calls);
            || after.stored == w.stored || after.stored == None
            || exists c <- calls :: after.stored == Some(OwnAccount(c.env))
    decreases |calls|
  {
    if calls != [] {
      PassEffect(w, calls[0]);
      var next := Onboard(w, calls[0]).0;
      OnlyAdmzIsEverStored(next, calls[1..]);
      var after := RunPasses(next, calls[1..]);
      if c :| c in calls[1..] && after.stored == Some(OwnAccount(c.env)) {
        assert c in calls;
      } else if after.stored == next.stored && next.stored != w.stored && next.stored != None {
        assert calls[0] in calls;
      }
    }
  }

  /** Two such passes: the device does not answer the check of its stored `admz`, or answers everything
      and the registry cannot be read. The fleet root password gets in, its add-user resets `admz`,
      and the registry cannot remove the old row. */
  lemma ClobberedAdmz(readFails: bool)
    ensures var w := World(map["root" := "r", "admz" := "a"], Some(Account(Pair("admz", "a"), true)),
                           Reading(false, None, "", None, None, Some("r")), [], 0);
            var env := Env(t => readFails || t > 0, false, true, readFails, true, false, false, "b");
            var call := Call(false, true, false, true, true, true, true, 1.0, "s", true, env);
            AdmzWorks(w) && !AdmzWorks(Onboard(w, call).0)
  {
    var settings := Reading(false, None, "", None, None, Some("r"));
    var w := World(map["root" := "r", "admz" := "a"], Some(Account(Pair("admz", "a"), true)), settings, [], 0);
    var env := Env(t => readFails || t > 0, false, true, readFails, true, false, false, "b");
    var call := Call(false, true, false, true, true, true, true, 1.0, "s", true, env);
    var root := Credential(Pair("root", "r"), FLEET_ROOT_LABEL, true);
    assert StoredRows(settings) == [] && Entries(settings) == [];
    assert AttemptOrder(settings) == [root];
    var entered := if readFails then 1 else 2;
    assert GetsInAt(w.accounts, [root], entered, call.env) == Some(entered);
    AdmzKeepsWorking(w, call);
  }

  // ---- how often a device is asked --------------------------------------------------------------------

  predicate AllRefused(asked: seq<Asked>) {
    forall i :: 0 <= i < |asked| ==> asked[i].answer == Refused
  }

  predicate AsksAbout(asked: seq<Asked>, p: Pair) {
    exists i :: 0 <= i < |asked| && asked[i].pair == p
  }

  /** What the loop asks: each candidate at most once, never the pair already refused, no further
      after the first answer that is not a refusal; and which outcomes that can lead to. */
  ghost predicate LoopAsks(loop: seq<Asked>, cands: seq<Credential>, refused: Option<Pair>, o: Outcome) {
    && |loop| <= |cands|
    && (forall i :: 0 <= i < |loop| ==> refused != Some(loop[i].pair) && HasPair(cands, loop[i].pair))
    && (forall i, j :: 0 <= i < j < |loop| ==> loop[i].pair != loop[j].pair && loop[i].answer == Refused)
    && (o == CredentialsNeeded(EntryExhausted) ==>
          && AllRefused(loop)
          && forall k :: 0 <= k < |cands| ==> refused == Some(cands[k].pair) || AsksAbout(loop, cands[k].pair))
    && (o == CredentialsNeeded(Unreachable) <==> loop != [] && loop[|loop| - 1].answer == NoAnswer)
  }

  lemma OneMoreAsked(first: Asked, rest: seq<Asked>, cands: seq<Credential>, refused: Option<Pair>, o: Outcome)
    requires cands != [] && Distinct(cands) && first.pair == cands[0].pair && first.answer == Refused
    requires refused != Some(first.pair) && LoopAsks(rest, cands[1..], refused, o)
    ensures LoopAsks([first] + rest, cands, refused, o)
  {
    var loop := [first] + rest;
    assert forall i :: 0 < i < |loop| ==> loop[i] == rest[i - 1];
    forall i | 0 <= i < |rest|
      ensures rest[i].pair != first.pair && HasPair(cands, rest[i].pair)
    {
      var k :| 0 <= k < |cands[1..]| && cands[1..][k].pair == rest[i].pair;
      assert cands[k + 1].pair == rest[i].pair;
    }
    assert HasPair(cands, first.pair);
    if o == CredentialsNeeded(EntryExhausted) {
      forall k | 0 <= k < |cands|
        ensures refused == Some(cands[k].pair) || AsksAbout(loop, cands[k].pair)
      {
        if k == 0 {
          assert loop[0].pair == cands[k].pair;
        } else {
          assert cands[1..][k - 1] == cands[k];
          if refused != Some(cands[k].pair) {
            var i :| 0 <= i < |rest| && rest[i].pair == cands[k].pair;
            assert loop[i + 1].pair == cands[k].pair;
          }
        }
      }
    }
  }

  lemma OneSkipped(loop: seq<Asked>, cands: seq<Credential>, p: Pair, o: Outcome)
    requires cands != [] && cands[0].pair == p && LoopAsks(loop, cands[1..], Some(p), o)
    ensures LoopAsks(loop, cands, Some(p), o)
  {
    assert forall k :: 0 < k < |cands| ==> cands[1..][k - 1] == cands[k];
    forall i | 0 <= i < |loop|
      ensures HasPair(cands, loop[i].pair)
    {
      var k :| 0 <= k < |cands[1..]| && cands[1..][k].pair == loop[i].pair;
      assert cands[k + 1].pair == loop[i].pair;
    }
  }

  lemma LastAsked(a: Asked, cands: seq<Credential>, refused: Option<Pair>, o: Outcome)
    requires cands != [] && a.pair == cands[0].pair && refused != Some(a.pair)
    requires o == CredentialsNeeded(Unreachable) <==> a.answer == NoAnswer
    requires o != CredentialsNeeded(EntryExhausted)
    ensures LoopAsks([a], cands, refused, o)
  {
  }

  lemma {:induction false} CandidatesAsk(w: World, cands: seq<Credential>, refused: Option<Pair>, call: Call)
    returns (loop: seq<Asked>)
    requires Distinct(cands)
    ensures TryCandidates(w, cands, refused, call).0.asked == w.asked + loop
    ensures LoopAsks(loop, cands, refused, TryCandidates(w, cands, refused, call).1)
    decreases |cands|
  {
    if cands == [] {
      return [];
    }
    assert Distinct(cands[1..]);
    var (w1, answer) := Check(w, cands[0].pair, call.env);
    var asked := Asked(cands[0].pair, answer);
    if refused == Some(cands[0].pair) {
      loop := CandidatesAsk(w, cands[1..], refused, call);
      OneSkipped(loop, cands, cands[0].pair, TryCandidates(w, cands, refused, call).1);
    } else if answer == Refused {
      var rest := CandidatesAsk(w1, cands[1..], refused, call);
      loop := [asked] + rest;
      assert w1.asked + rest == w.asked + loop;
      OneMoreAsked(asked, rest, cands, refused, TryCandidates(w, cands, refused, call).1);
    } else {
      loop := [asked];
      LastAsked(asked, cands, refused, TryCandidates(w, cands, refused, call).1);
    }
  }

  lemma SetUpAsksNothing(w: World, call: Call)
    ensures SetUp(w, call).0.asked == w.asked && !SetUp(w, call).1.CredentialsNeeded?
  {
  }

  lemma TryEntriesAsks(w: World, refused: Option<Pair>, call: Call) returns (loop: seq<Asked>)
    ensures TryEntries(w, refused, call).0.asked == w.asked + loop
    ensures LoopAsks(loop, AttemptOrder(w.settings), refused, TryEntries(w, refused, call).1)
    ensures TryEntries(w, refused, call).1 == CredentialsNeeded(EntryExhausted) ==> AttemptOrder(w.settings) != []
  {
    if call.env.settingsFail || AttemptOrder(w.settings) == [] {
      assert w.asked + [] == w.asked;
      return [];
    }
    AttemptOrderIsBounded(w.settings);
    loop := CandidatesAsk(w, AttemptOrder(w.settings), refused, call);
  }

  lemma BeyondStoredAsks(w: World, refused: Option<Pair>, call: Call) returns (loop: seq<Asked>)
    ensures BeyondStored(w, refused, call).0.asked == w.asked + loop
    ensures LoopAsks(loop, AttemptOrder(w.settings), refused, BeyondStored(w, refused, call).1)
    ensures BeyondStored(w, refused, call).1 == CredentialsNeeded(EntryExhausted) ==> AttemptOrder(w.settings) != []
  {
    var asked := w.(turn := w.turn + 1);
    if call.env.answers(w.turn) && call.env.claimsSetup {
      SetUpAsksNothing(asked, call);
      return [];
    }
    loop := TryEntriesAsks(asked, refused, call);
  }

  /** What one pass may ask of a device. */
  ghost predicate PassAsks(asked: seq<Asked>, order: seq<Credential>, o: Outcome) {
    && |asked| <= 1 + |order|
    && (forall i, j :: 0 <= i < j < |asked| && asked[i].answer == Refused ==> asked[j].pair != asked[i].pair)
    && (forall i :: 0 < i < |asked| - 1 ==> asked[i].answer == Refused)
    && (o == CredentialsNeeded(EntryExhausted) ==>
          order != [] && forall k :: 0 <= k < |order| ==> WasRefused(asked, order[k].pair))
  }

  predicate WasRefused(asked: seq<Asked>, p: Pair) {
    exists i :: 0 <= i < |asked| && asked[i] == Asked(p, Refused)
  }

  lemma ExhaustedWithoutStored(loop: seq<Asked>, order: seq<Credential>)
    requires LoopAsks(loop, order, None, CredentialsNeeded(EntryExhausted))
    ensures forall k :: 0 <= k < |order| ==> WasRefused(loop, order[k].pair)
  {
    forall k | 0 <= k < |order|
      ensures WasRefused(loop, order[k].pair)
    {
      assert AsksAbout(loop, order[k].pair);
      var i :| 0 <= i < |loop| && loop[i].pair == order[k].pair;
      assert loop[i] == Asked(order[k].pair, Refused);
    }
  }

  lemma StoredThenLoop(first: Asked, loop: seq<Asked>, order: seq<Credential>, o: Outcome)
    requires LoopAsks(loop, order, if first.answer == Refused then Some(first.pair) else None, o)
    requires o == CredentialsNeeded(EntryExhausted) ==> order != []
    ensures PassAsks([first] + loop, order, o)
  {
    var asked := [first] + loop;
    assert forall i :: 0 < i < |asked| ==> asked[i] == loop[i - 1];
    if o == CredentialsNeeded(EntryExhausted) {
      forall k | 0 <= k < |order|
        ensures WasRefused(asked, order[k].pair)
      {
        if first == Asked(order[k].pair, Refused) {
          assert asked[0] == first;
        } else {
          var i :| 0 <= i < |loop| && loop[i].pair == order[k].pair;
          assert asked[i + 1] == Asked(order[k].pair, Refused);
        }
      }
    }
  }

  lemma LoopAlone(loop: seq<Asked>, order: seq<Credential>, o: Outcome)
    requires LoopAsks(loop, order, None, o) && (o == CredentialsNeeded(EntryExhausted) ==> order != [])
    ensures PassAsks(loop, order, o)
  {
    if o == CredentialsNeeded(EntryExhausted) {
      ExhaustedWithoutStored(loop, order);
    }
  }

  /** One pass checks at most five pairs, so makes at most ten credentialed operations; a pair the
      device has refused is not put to it again; it stops at the first answer of the loop that is
      not a refusal; and it reports the entries exhausted only when every candidate was refused. */
  lemma PassAsksSparingly(world: World, call: Call)
    ensures var (after, o) := Onboard(world, call);
            PassAsks(after.asked, AttemptOrder(world.settings), o) && |after.asked| <= 2 + MAX_ATTEMPTS_PER_PASS
  {
    var w := world.(asked := [], turn := 0);
    AttemptOrderIsBounded(world.settings);
    if PreflightPasses(call) {
      if AsksStored(w, call) {
        StoredAsks(w, call);
      } else {
        var loop := BeyondStoredAsks(w, None, call);
        assert w.asked + loop == loop;
        LoopAlone(loop, AttemptOrder(w.settings), Onboard(world, call).1);
      }
    }
  }

  lemma StoredAsks(w: World, call: Call)
    requires w.stored.Some? && w.asked == []
    ensures var (after, o) := TryStored(w, w.stored.value, call);
            PassAsks(after.asked, AttemptOrder(w.settings), o)
  {
    var (w1, answer) := Check(w, w.stored.value.pair, call.env);
    var first := Asked(w.stored.value.pair, answer);
    assert w1.asked == [first];
    if answer == Accepted {
      assert TryStored(w, w.stored.value, call).0.asked == [first];
    } else {
      var refused := if answer == Refused then Some(first.pair) else None;
      var loop := BeyondStoredAsks(w1, refused, call);
      StoredThenLoop(first, loop, AttemptOrder(w.settings), BeyondStored(w1, refused, call).1);
    }
  }

  // ---- a pass that failed halfway -------------------------------------------------------------------------

  /** The device takes the fleet root password as root. */
  predicate RootHoldsFleetPassword(w: World) {
    RootPassword(w).Some? && Authenticates(w.accounts, Pair(ROOT, RootPassword(w).value))
  }

  /** The device answers everything, and truthfully says whether it needs setup. */
  ghost predicate Reachable(w: World, call: Call) {
    PreflightPasses(call) && (forall t: nat :: call.env.answers(t)) && call.env.claimsSetup == (w.accounts == map[])
  }

  predicate NothingInTheWay(w: World, call: Call) {
    && call.approved && !call.env.removeFails && !call.env.addFails && !call.env.settingsFail
    && (OWN_ACCOUNT in w.accounts ==> call.env.overwrites)
  }

  lemma RootGoesFirst(r: Reading)
    requires r.rootPassword.Some? && r.rootPassword.value != ""
    ensures AttemptOrder(r) != [] && AttemptOrder(r)[0].pair == Pair(ROOT, r.rootPassword.value)
  {
    AttemptOrderIsBounded(r);
  }

  /** With root set and the device answering, a pass never ends asking for credentials: the first
      candidate is the root pair, and step 1 cannot have seen it refused. */
  lemma RootAlwaysGetsIn(w: World, call: Call)
    requires RootHoldsFleetPassword(w) && Reachable(w, call)
    ensures var o := Onboard(w, call).1;
            || o.AlreadyCredentialed? || o.OwnAccountCreated?
            || o == OwnAccountFailed || o == ApprovalRequired || o.Raised?
    ensures NothingInTheWay(w, call) ==>
              Onboard(w, call).1.AlreadyCredentialed? || Onboard(w, call).1.OwnAccountCreated?
  {
    var start := w.(asked := [], turn := 0);
    RootGoesFirst(w.settings);
    if AsksStored(start, call) {
      var (w1, answer) := Check(start, start.stored.value.pair, call.env);
      if answer == Refused {
        RootGetsIn(w1, Some(start.stored.value.pair), call);
      }
    } else {
      RootGetsIn(start, None, call);
    }
  }

  lemma RootGetsIn(w: World, refused: Option<Pair>, call: Call)
    requires RootHoldsFleetPassword(w) && Reachable(w, call)
    requires refused.Some? ==> !Authenticates(w.accounts, refused.value)
    ensures var o := BeyondStored(w, refused, call).1;
            && (o.OwnAccountCreated? || o == OwnAccountFailed || o == ApprovalRequired || o.Raised?)
            && (NothingInTheWay(w, call) ==> o.OwnAccountCreated?)
  {
    RootGoesFirst(w.settings);
    assert w.accounts != map[];
  }

  /** A half-provisioned device is always retryable: when a pass set root but not `admz`, or could
      not record it, the next pass with the same root password and an answering device gets in. */
  lemma HalfProvisionedIsRetryable(w: World, call: Call, retry: Call)
    requires w.accounts == map[] && Reachable(Onboard(w, call).0, retry)
    requires Onboard(w, call).1 == FactoryFailed(OwnAccountWriteFailed) || Onboard(w, call).1 == Raised(Storing)
    ensures RootHoldsFleetPassword(Onboard(w, call).0)
    ensures var o := Onboard(Onboard(w, call).0, retry).1;
            || o.AlreadyCredentialed? || o.OwnAccountCreated?
            || o == OwnAccountFailed || o == ApprovalRequired || o.Raised?
  {
    PassEffect(w, call);
    RootAlwaysGetsIn(Onboard(w, call).0, retry);
  }

  // ---- the next pass --------------------------------------------------------------------------------------

  /** The last check made was answered with a yes. */
  predicate LastAccepted(asked: seq<Asked>) {
    asked != [] && asked[|asked| - 1].answer == Accepted
  }

  /** When the loop got in, the candidate that did is noted, whatever came of the account write. */
  lemma {:induction false} LoopNotesWhatGotIn(w: World, cands: seq<Credential>, refused: Option<Pair>, call: Call)
    returns (c: Credential)
    requires var asked := TryCandidates(w, cands, refused, call).0.asked;
             |asked| > |w.asked| && LastAccepted(asked)
    ensures var after := TryCandidates(w, cands, refused, call).0;
            && c in cands && c.pair == after.asked[|after.asked| - 1].pair
            && after.settings == Noted(w, c, call).settings
    decreases |cands|
  {
    var (w1, answer) := Check(w, cands[0].pair, call.env);
    if refused == Some(cands[0].pair) {
      c := LoopNotesWhatGotIn(w, cands[1..], refused, call);
    } else if answer == Refused {
      if |TryCandidates(w1, cands[1..], refused, call).0.asked| == |w1.asked| {
        LoopAsksAtEnd(w1, cands[1..], refused, call);
      }
      c := LoopNotesWhatGotIn(w1, cands[1..], refused, call);
    } else {
      c := cands[0];
    }
  }

  /** The loop only adds to what was asked. */
  lemma {:induction false} LoopAsksAtEnd(w: World, cands: seq<Credential>, refused: Option<Pair>, call: Call)
    ensures w.asked <= TryCandidates(w, cands, refused, call).0.asked
    decreases |cands|
  {
    if cands != [] {
      var (w1, answer) := Check(w, cands[0].pair, call.env);
      if refused == Some(cands[0].pair) {
        LoopAsksAtEnd(w, cands[1..], refused, call);
      } else if answer == Refused {
        LoopAsksAtEnd(w1, cands[1..], refused, call);
      }
    }
  }

  /** The pass got in through its loop: its last check was accepted, and it was not the stored pair's. */
  predicate GotInByLoop(w: World, call: Call) {
    var asked := Onboard(w, call).0.asked;
    LastAccepted(asked) && (|asked| >= 2 || !AsksStored(w, call))
  }

  lemma BeyondStoredNotes(w: World, refused: Option<Pair>, call: Call) returns (c: Credential)
    requires var asked := BeyondStored(w, refused, call).0.asked; |asked| > |w.asked| && LastAccepted(asked)
    ensures IsNoted(w, BeyondStored(w, refused, call).0, c, call)
  {
    var asked := w.(turn := w.turn + 1);
    SetUpAsksNothing(asked, call);
    c := TryEntriesNotes(asked, refused, call);
  }

  lemma TryEntriesNotes(w: World, refused: Option<Pair>, call: Call) returns (c: Credential)
    requires var asked := TryEntries(w, refused, call).0.asked; |asked| > |w.asked| && LastAccepted(asked)
    ensures IsNoted(w, TryEntries(w, refused, call).0, c, call)
  {
    var cands := AttemptOrder(w.settings);
    assert TryEntries(w, refused, call).0 == TryCandidates(w, cands, refused, call).0;
    c := LoopNotesWhatGotIn(w, cands, refused, call);
  }

  lemma TryStoredNotes(w: World, call: Call) returns (c: Credential)
    requires w.stored.Some? && w.asked == []
    requires var asked := TryStored(w, w.stored.value, call).0.asked; |asked| >= 2 && LastAccepted(asked)
    ensures IsNoted(w, TryStored(w, w.stored.value, call).0, c, call)
  {
    var (w1, answer) := Check(w, w.stored.value.pair, call.env);
    if answer == Accepted {
      StoredAloneIsAsked(w, call);
    }
    c := BeyondStoredNotes(w1, if answer == Refused then Some(w.stored.value.pair) else None, call);
    NotedFromStart(w, w1, TryStored(w, w.stored.value, call).0, c, call);
  }

  /** A pass is its preflight and then one of two ways. */
  lemma WaysOfAPass(world: World, call: Call)
    ensures var w := world.(asked := [], turn := 0);
            Onboard(world, call) ==
              if !PreflightPasses(call) then (w, Onboard(world, call).1)
              else if AsksStored(w, call) then TryStored(w, w.stored.value, call)
              else BeyondStored(w, None, call)
  {
  }

  /** `c` is the credential the last check let in, and it has been noted. */
  predicate IsNoted(w: World, after: World, c: Credential, call: Call) {
    && c in AttemptOrder(w.settings) && after.settings == Noted(w, c, call).settings
    && LastAccepted(after.asked) && c.pair == after.asked[|after.asked| - 1].pair
  }

  lemma NotedFromStart(world: World, w: World, after: World, c: Credential, call: Call)
    requires w.settings == world.settings && IsNoted(w, after, c, call)
    ensures IsNoted(world, after, c, call)
  {
  }

  lemma PassNotes(world: World, call: Call) returns (c: Credential)
    requires GotInByLoop(world, call)
    ensures IsNoted(world, Onboard(world, call).0, c, call)
  {
    var w := world.(asked := [], turn := 0);
    WaysOfAPass(world, call);
    if AsksStored(w, call) {
      c := TryStoredNotes(w, call);
    } else {
      c := BeyondStoredNotes(w, None, call);
    }
    NotedFromStart(world, w, Onboard(world, call).0, c, call);
  }

  lemma StoredAloneIsAsked(w: World, call: Call)
    requires w.stored.Some? && w.asked == [] && Check(w, w.stored.value.pair, call.env).1 == Accepted
    ensures |TryStored(w, w.stored.value, call).0.asked| == 1
  {
  }

  /** Whatever the outcome (the gate, an account made, the account write refused, the registry raising),
      the entry credential that got in heads the entries of the next pass, unless an earlier row
      shares its fingerprint. */
  lemma CredentialThatGotInGoesFirst(w: World, call: Call)
    requires GotInByLoop(w, call) && call.historyWritable && LaterThanAll(w.settings.history, call.now)
    ensures var after := Onboard(w, call).0;
            var p := after.asked[|after.asked| - 1].pair;
            FleetRootAttempt(w.settings) == [] || FleetRootAttempt(w.settings)[0].pair != p ==>
              && Entries(after.settings) != []
              && (Entries(after.settings)[0].pair == p <==>
                    NoEarlierClash(StoredRows(w.settings), SaltFor(w.settings, call.freshSalt), p))
  {
    var c := PassNotes(w, call);
    AttemptOrderIsBounded(w.settings);
    if FleetRootAttempt(w.settings) == [] || FleetRootAttempt(w.settings)[0].pair != c.pair {
      EntryIsAStoredCredential(w.settings, c);
      SuccessComesFirst(w.settings, c, call.now, call.freshSalt);
    }
  }

  lemma EntryIsAStoredCredential(r: Reading, c: Credential)
    requires c in Entries(r)
    ensures !r.promptAlways && !c.fleetRoot && HasPair(StoredRows(r), c.pair)
  {
    EntriesComeFromRows(r, c);
  }
}

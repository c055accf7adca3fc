/** Writing accounts to a device and recording the one that is kept. The device is a table of
    users and passwords whose operations succeed with their effect or fail with none. */
module Provisioning {
  import opened EntryCredentials
  import opened Wrappers

  const OWN_ACCOUNT := "admz"
  const ROOT := "root"

  /** The registry's `default` account for the device. */
  datatype Account = Account(pair: Pair, generatedByAdmz: bool)

  datatype Answer = Accepted | Refused | NoAnswer
  datatype Asked = Asked(pair: Pair, answer: Answer)

  /** `asked` are the credential checks of this pass and `turn` counts its device operations. */
  datatype World = World(
    accounts: map<string, string>, stored: Option<Account>, settings: Reading, asked: seq<Asked>, turn: nat)

  /** What one pass meets. `answers(t)`: the device answers its `t`-th operation. `claimsSetup`: asked
      without a credential, it says that it needs setup, true or not. `overwrites`: its firmware
      lets add-user reset the password of a user that exists. The rest are the database's failures:
      reading the stored account, letting go of it and adding one, and reading the settings. */
  datatype Env = Env(
    answers: nat -> bool, claimsSetup: bool, overwrites: bool,
    readFails: bool, removeFails: bool, addFails: bool, settingsFail: bool, newPassword: string)

  // ---- device operations ----------------------------------------------------------------------

  predicate Authenticates(accounts: map<string, string>, p: Pair) {
    p.username in accounts && accounts[p.username] == p.password
  }

  /** Up to two device operations ask one question; only a real answer is a refusal. */
  function Check(w: World, p: Pair, env: Env): (World, Answer) {
    var answer := if !env.answers(w.turn) then NoAnswer else if Authenticates(w.accounts, p) then Accepted else Refused;
    (w.(asked := w.asked + [Asked(p, answer)], turn := w.turn + 1), answer)
  }

  /** Whether the device lets the caller in: as somebody, or as nobody while it has no account. */
  predicate LetsIn(accounts: map<string, string>, auth: Option<Pair>) {
    if auth.Some? then Authenticates(accounts, auth.value) else accounts == map[]
  }

  function AddUser(w: World, p: Pair, auth: Option<Pair>, env: Env): (World, bool) {
    var ok := env.answers(w.turn) && LetsIn(w.accounts, auth) && (p.username in w.accounts ==> env.overwrites);
    (w.(accounts := if ok then w.accounts[p.username := p.password] else w.accounts, turn := w.turn + 1), ok)
  }

  function UpdateUser(w: World, p: Pair, auth: Pair, env: Env): (World, bool) {
    var ok := env.answers(w.turn) && Authenticates(w.accounts, auth) && p.username in w.accounts;
    (w.(accounts := if ok then w.accounts[p.username := p.password] else w.accounts, turn := w.turn + 1), ok)
  }

  // ---- the registry -----------------------------------------------------------------------------

  /** The old account is removed before the new one is added; either may raise. */
  function StoreProvisionedCreds(w: World, account: Account, env: Env): (World, bool) {
    if w.stored.Some? && env.removeFails then (w, false)
    else if env.addFails then (w.(stored := None), false)
    else (w.(stored := Some(account)), true)
  }

  // ---- provisioning -----------------------------------------------------------------------------

  datatype Adopted = Created | DeviceRefused | StoreRaised

  function OwnAccount(env: Env): Account {
    Account(Pair(OWN_ACCOUNT, env.newPassword), true)
  }

  /** Use a credential that works to create the program's own account, and store only that. */
  function AdoptWithAdmzAccount(w: World, entry: Pair, env: Env): (World, Adopted) {
    var (w1, ok) := AddUser(w, Pair(OWN_ACCOUNT, env.newPassword), Some(entry), env);
    if !ok then (w1, DeviceRefused)
    else
      var (w2, kept) := StoreProvisionedCreds(w1, OwnAccount(env), env);
      (w2, if kept then Created else StoreRaised)
  }

  /** The fleet root password, when one is set. */
  function RootPassword(w: World): Option<string> {
    match w.settings.rootPassword
    case None => None
    case Some(password) => if password == "" then None else Some(password)
  }

  datatype Rotation = Rotated(ok: bool) | NothingToRotateTo | RotationRaised

  /** Reset the account the caller came in on to the fleet root password, when there is one. */
  function RotateRootToBreakGlass(w: World, entry: Pair, env: Env): (World, Rotation) {
    if env.settingsFail then (w, RotationRaised)
    else if RootPassword(w).None? then (w, NothingToRotateTo)
    else
      var (w', ok) := UpdateUser(w, Pair(entry.username, RootPassword(w).value), entry, env);
      (w', Rotated(ok))
  }

  datatype Provisioned =
    | Done
    | Unattended
    | SettingsRaised
    | NoRootPassword
    | RootWriteFailed
    | OwnAccountWriteFailed
    | StoringRaised

  /** A factory-default device gets root first and then the program's own account. */
  function ProvisionFactoryDefault(w: World, attended: bool, env: Env): (World, Provisioned) {
    if !attended then (w, Unattended)
    else if env.settingsFail then (w, SettingsRaised)
    else if RootPassword(w).None? then (w, NoRootPassword)
    else
      var root := Pair(ROOT, RootPassword(w).value);
      var (w1, ok) := AddUser(w, root, None, env);
      if !ok then (w1, RootWriteFailed)
      else
        var (w2, adopted) := AdoptWithAdmzAccount(w1, root, env);
        (w2, match adopted
             case Created => Done
             case DeviceRefused => OwnAccountWriteFailed
             case StoreRaised => StoringRaised)
  }

  /** Unattended, nothing is asked of the device and nothing written. */
  lemma UnattendedIsRefused(w: World, env: Env)
    ensures ProvisionFactoryDefault(w, false, env) == (w, Unattended)
  {
  }

  // ---- the same, step by step ---------------------------------------------------------------------

  class Site {
    var accounts: map<string, string>
    var stored: Option<Account>
    var settings: Reading
    var asked: seq<Asked>
    var turn: nat

    function State(): World
      reads this
    {
      World(accounts, stored, settings, asked, turn)
    }

    constructor (w: World)
      ensures State() == w
    {
      accounts, stored, settings, asked, turn := w.accounts, w.stored, w.settings, w.asked, w.turn;
    }

    method ConfirmCredentials(p: Pair, env: Env) returns (answer: Answer)
      modifies this
      ensures (State(), answer) == Check(old(State()), p, env)
    {
      if !env.answers(turn) {
        answer := NoAnswer;
      } else if p.username in accounts && accounts[p.username] == p.password {
        answer := Accepted;
      } else {
        answer := Refused;
      }
      asked, turn := asked + [Asked(p, answer)], turn + 1;
    }

    method AddUserOnHost(p: Pair, auth: Option<Pair>, env: Env) returns (ok: bool)
      modifies this
      ensures (State(), ok) == AddUser(old(State()), p, auth, env)
    {
      ok := env.answers(turn) && LetsIn(accounts, auth) && (p.username in accounts ==> env.overwrites);
      if ok {
        accounts := accounts[p.username := p.password];
      }
      turn := turn + 1;
    }

    method UpdateUserOnHost(p: Pair, auth: Pair, env: Env) returns (ok: bool)
      modifies this
      ensures (State(), ok) == UpdateUser(old(State()), p, auth, env)
    {
      ok := env.answers(turn) && Authenticates(accounts, auth) && p.username in accounts;
      if ok {
        accounts := accounts[p.username := p.password];
      }
      turn := turn + 1;
    }

    method StoreCreds(account: Account, env: Env) returns (kept: bool)
      modifies this
      ensures (State(), kept) == StoreProvisionedCreds(old(State()), account, env)
    {
      if stored.Some? {
        if env.removeFails {
          return false;
        }
        stored := None;
      }
      if env.addFails {
        return false;
      }
      stored := Some(account);
      return true;
    }

    method Adopt(entry: Pair, env: Env) returns (adopted: Adopted)
      modifies this
      ensures (State(), adopted) == AdoptWithAdmzAccount(old(State()), entry, env)
    {
      var ok := AddUserOnHost(Pair(OWN_ACCOUNT, env.newPassword), Some(entry), env);
      if !ok {
        return DeviceRefused;
      }
      var kept := StoreCreds(Account(Pair(OWN_ACCOUNT, env.newPassword), true), env);
      return if kept then Created else StoreRaised;
    }

    method Rotate(entry: Pair, env: Env) returns (rotated: Rotation)
      modifies this
      ensures (State(), rotated) == RotateRootToBreakGlass(old(State()), entry, env)
    {
      if env.settingsFail {
        return RotationRaised;
      }
      var breakGlass := RootPassword(State());
      if breakGlass.None? {
        return NothingToRotateTo;
      }
      var ok := UpdateUserOnHost(Pair(entry.username, breakGlass.value), entry, env);
      return Rotated(ok);
    }

    method Provision(attended: bool, env: Env) returns (r: Provisioned)
      modifies this
      ensures (State(), r) == ProvisionFactoryDefault(old(State()), attended, env)
    {
      if !attended {
        return Unattended;
      }
      if env.settingsFail {
        return SettingsRaised;
      }
      var password := RootPassword(State());
      if password.None? {
        return NoRootPassword;
      }
      var root := Pair(ROOT, password.value);
      var ok := AddUserOnHost(root, None, env);
      if !ok {
        return RootWriteFailed;
      }
      var adopted := Adopt(root, env);
      return match adopted
        case Created => Done
        case DeviceRefused => OwnAccountWriteFailed
        case StoreRaised => StoringRaised;
    }
  }
}

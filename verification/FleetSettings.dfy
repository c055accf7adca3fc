/** Fleet settings: secrets encrypted at rest, legacy plaintext migrated in place, and a key file
    that may change or fail underneath. Encryption is symbolic: a token remembers the key, the
    random value and the text that made it, and only its own key opens it. */
module FleetSettings {
  import opened Wrappers

  type KeyId = nat

  /** A value exactly as stored. */
  datatype Raw = Text(text: string) | Token(key: KeyId, nonce: nat, plain: string)
  type Table = map<string, Raw>

  /** The settings the store encrypts itself, in the order the sweep visits them. */
  const STORE_ENCRYPTED: seq<string> :=
    ["acs_webhook_token", "default_password", "entry_credentials", "entry_credentials_history",
     "fleet_root_password", "gemini_api_key"]

  const CAPABILITY_KEYS: set<string> :=
    {"acs_firebird_enabled", "event_ingest_enabled", "acs_event_ingest_enabled", "survey_mode_enabled"}

  predicate IsStoreEncrypted(name: string) {
    name in STORE_ENCRYPTED
  }

  const TOKEN_PREFIX := "gAAAAA"
  const MIN_TOKEN_LEN := 100

  /** Every token has the shape; so does a text that imitates it. */
  predicate LooksEncrypted(raw: Raw) {
    raw.Token? || (TOKEN_PREFIX <= raw.text && |raw.text| >= MIN_TOKEN_LEN)
  }

  /** What one call meets: the key file (`None`: unusable), whether the database can be read and
      written, and the random value a token made now would carry. A missing key file is created,
      so it is just another key. */
  datatype Env = Env(key: Option<KeyId>, canRead: bool, canWrite: bool, nonce: nat)

  /** The text behind a stored value, and whether it is legacy plaintext to be rewritten. */
  function ReadStored(stored: Option<Raw>, key: Option<KeyId>): (Option<string>, bool) {
    if stored.None? || stored.value == Text("") then (None, false)
    else match stored.value
      case Text(text) => if LooksEncrypted(Text(text)) then (None, false) else (Some(text), true)
      case Token(k, _, plain) => (if key == Some(k) then Some(plain) else None, false)
  }

  function Find(table: Table, name: string): Option<Raw> {
    if name in table then Some(table[name]) else None
  }

  predicate NeedsMigration(name: string, raw: Raw) {
    IsStoreEncrypted(name) && raw.Text? && raw.text != "" && !LooksEncrypted(raw)
  }

  /** What a read does to the table: at most, one legacy plaintext becomes a token. */
  function AfterRead(table: Table, name: string, env: Env): Table {
    if env.canRead && env.canWrite && env.key.Some? && name in table && NeedsMigration(name, table[name])
    then table[name := Token(env.key.value, env.nonce, table[name].text)]
    else table
  }

  /** What a reader holding `key` is told. */
  function ReadAs(table: Table, name: string, key: Option<KeyId>): Option<string> {
    if IsStoreEncrypted(name) then ReadStored(Find(table, name), key).0
    else match Find(table, name)
      case None => None
      case Some(Text(text)) => Some(text)
      case Some(Token(_, _, plain)) => Some(plain)
  }

  datatype Failure = Unreadable | Unwritable | NoKey | CapabilityWriteBypass

  /** The settings kept encrypted, and the shape of what is stored for them. */
  lemma WhatIsEncrypted(name: string, text: string)
    ensures IsStoreEncrypted(name) <==>
            name in {"acs_webhook_token", "default_password", "entry_credentials", "entry_credentials_history",
                     "fleet_root_password", "gemini_api_key"}
    ensures LooksEncrypted(Text(text)) <==> |text| >= 100 && text[..6] == "gAAAAA"
  {
  }

  /** A setting no key is declared for never holds a token. */
  ghost predicate Sound(table: Table) {
    forall name :: name in table && table[name].Token? ==> IsStoreEncrypted(name)
  }

  /** What a `set` stores, when it succeeds. */
  function Sealed(name: string, value: string, env: Env): Result<Raw, Failure> {
    if !(IsStoreEncrypted(name) && value != "") then Ok(Text(value))
    else if env.key.None? then Err(NoKey)
    else Ok(Token(env.key.value, env.nonce, value))
  }

  /** The four settings that switch a capability. */
  predicate TurnsACapability(name: string) {
    || name == "acs_firebird_enabled" || name == "event_ingest_enabled"
    || name == "acs_event_ingest_enabled" || name == "survey_mode_enabled"
  }

  class FleetSettingsStore {
    var table: Table

    constructor ()
      ensures table == map[]
    {
      table := map[];
    }

    method GetWithMigrationFlag(name: string, env: Env) returns (r: Result<(Option<string>, bool), Failure>)
      requires Sound(table)
      modifies this
      ensures Sound(table) && table == AfterRead(old(table), name, env)
      ensures if env.canRead then r.Ok? else r == Err(Unreadable)
      ensures r.Ok? ==> r.value == (ReadAs(old(table), name, env.key), table != old(table))
    {
      if !env.canRead {
        return Err(Unreadable);
      }
      var raw := if name in table then Some(table[name]) else None;
      if !IsStoreEncrypted(name) {
        return Ok((if raw.None? then None else Some(raw.value.text), false));
      }
      var (plain, needsMigration) := ReadStored(raw, env.key);
      var migrated := false;
      if needsMigration {
        // Encrypting or writing may fail; the read still succeeds.
        if env.key.Some? && env.canWrite {
          table := table[name := Token(env.key.value, env.nonce, plain.value)];
          migrated := true;
          assert table[name] != old(table)[name];
        }
      }
      return Ok((plain, migrated));
    }

    method Get(name: string, env: Env) returns (r: Result<Option<string>, Failure>)
      requires Sound(table)
      modifies this
      ensures Sound(table) && table == AfterRead(old(table), name, env)
      ensures r == if env.canRead then Ok(ReadAs(old(table), name, env.key)) else Err(Unreadable)
    {
      var read := GetWithMigrationFlag(name, env);
      return match read case Ok((plain, _)) => Ok(plain) case Err(e) => Err(e);
    }

    method Set(name: string, value: string, sanctioned: bool, env: Env) returns (r: Result<(), Failure>)
      requires Sound(table)
      modifies this
      ensures Sound(table) && table == AfterSet(old(table), name, value, sanctioned, env)
      ensures r == if TurnsACapability(name) && !sanctioned then Err(CapabilityWriteBypass)
                   else if IsStoreEncrypted(name) && value != "" && env.key.None? then Err(NoKey)
                   else if !env.canWrite then Err(Unwritable)
                   else Ok(())
      ensures r.Err? ==> table == old(table)
    {
      if name in CAPABILITY_KEYS && !sanctioned {
        return Err(CapabilityWriteBypass);
      }
      var stored := Text(value);
      if IsStoreEncrypted(name) && value != "" {
        if env.key.None? {
          return Err(NoKey);
        }
        stored := Token(env.key.value, env.nonce, value);
      }
      if !env.canWrite {
        return Err(Unwritable);
      }
      table := table[name := stored];
      return Ok(());
    }

    method Delete(name: string) returns (existed: bool)
      requires Sound(table)
      modifies this
      ensures Sound(table) && table == old(table) - {name} && existed == (name in old(table))
    {
      existed := name in table;
      table := table - {name};
    }

    /** The display path: every value decrypted, unreadable secrets empty, nothing migrated. */
    method ListAll(env: Env) returns (all: map<string, string>)
      requires Sound(table)
      ensures all.Keys == table.Keys
      ensures forall name :: name in table ==>
        all[name] == match ReadAs(table, name, env.key) case Some(text) => text case None => ""
    {
      all := map[];
      var todo := table.Keys;
      while todo != {}
        invariant todo <= table.Keys && all.Keys == table.Keys - todo
        invariant forall name :: name in all ==>
          all[name] == match ReadAs(table, name, env.key) case Some(text) => text case None => ""
        decreases todo
      {
        var name :| name in todo;
        todo := todo - {name};
        if IsStoreEncrypted(name) {
          var (plain, _) := ReadStored(Some(table[name]), env.key);
          all := all[name := if plain.Some? then plain.value else ""];
        } else {
          all := all[name := table[name].text];
        }
      }
    }

    /** The sweep at startup, one declared setting after another, each meeting its own conditions. */
    method MigrateEncryptedSettings(envs: seq<Env>) returns (checked: nat, migrated: nat, failed: nat)
      requires Sound(table) && |envs| == |STORE_ENCRYPTED|
      modifies this
      ensures Sound(table) && table == Swept(old(table), envs, |STORE_ENCRYPTED|)
      ensures checked == |STORE_ENCRYPTED|
      ensures migrated == CountMigrated(old(table), envs, |STORE_ENCRYPTED|)
      ensures failed == CountUnread(envs, |STORE_ENCRYPTED|)
    {
      checked, migrated, failed := 0, 0, 0;
      for i := 0 to |STORE_ENCRYPTED|
        invariant Sound(table) && table == Swept(old(table), envs, i)
        invariant checked == i && migrated == CountMigrated(old(table), envs, i) && failed == CountUnread(envs, i)
      {
        checked := checked + 1;
        forall j | 0 <= j < i
          ensures STORE_ENCRYPTED[j] != STORE_ENCRYPTED[i]
        {
          DeclaredOnce(j, i);
        }
        SweptLeavesTheRest(old(table), envs, i, STORE_ENCRYPTED[i]);
        var read := GetWithMigrationFlag(STORE_ENCRYPTED[i], envs[i]);
        match read
        case Err(_) => failed := failed + 1;
        case Ok((_, wasMigrated)) =>
          if wasMigrated {
            migrated := migrated + 1;
          }
      }
    }
  }

  function AfterSet(table: Table, name: string, value: string, sanctioned: bool, env: Env): Table {
    if (name in CAPABILITY_KEYS && !sanctioned) || !env.canWrite || Sealed(name, value, env).Err? then table
    else table[name := Sealed(name, value, env).value]
  }

  // ---- the sweep -----------------------------------------------------------------------------

  function Swept(table: Table, envs: seq<Env>, n: nat): Table
    requires n <= |envs| == |STORE_ENCRYPTED|
  {
    if n == 0 then table else AfterRead(Swept(table, envs, n - 1), STORE_ENCRYPTED[n - 1], envs[n - 1])
  }

  predicate WillMigrate(table: Table, name: string, env: Env) {
    env.canRead && env.canWrite && env.key.Some? && name in table && NeedsMigration(name, table[name])
  }

  function CountMigrated(table: Table, envs: seq<Env>, n: nat): nat
    requires n <= |envs| == |STORE_ENCRYPTED|
  {
    if n == 0 then 0
    else CountMigrated(table, envs, n - 1) + if WillMigrate(table, STORE_ENCRYPTED[n - 1], envs[n - 1]) then 1 else 0
  }

  function CountUnread(envs: seq<Env>, n: nat): nat
    requires n <= |envs| == |STORE_ENCRYPTED|
  {
    if n == 0 then 0 else CountUnread(envs, n - 1) + if envs[n - 1].canRead then 0 else 1
  }

  lemma DeclaredOnce(i: nat, j: nat)
    requires i < j < |STORE_ENCRYPTED|
    ensures STORE_ENCRYPTED[i] != STORE_ENCRYPTED[j]
  {
    assert |STORE_ENCRYPTED[0]| == 17 && |STORE_ENCRYPTED[1]| == 16 && |STORE_ENCRYPTED[2]| == 17;
    assert |STORE_ENCRYPTED[3]| == 25 && |STORE_ENCRYPTED[4]| == 19 && |STORE_ENCRYPTED[5]| == 14;
    assert STORE_ENCRYPTED[0][0] == 'a' && STORE_ENCRYPTED[2][0] == 'e';
  }

  /** Before its turn a setting is as it was. */
  lemma {:induction false} SweptLeavesTheRest(table: Table, envs: seq<Env>, n: nat, name: string)
    requires n <= |envs| == |STORE_ENCRYPTED|
    requires forall i :: 0 <= i < n ==> STORE_ENCRYPTED[i] != name
    ensures Find(Swept(table, envs, n), name) == Find(table, name)
  {
    if n > 0 {
      SweptLeavesTheRest(table, envs, n - 1, name);
    }
  }

  lemma {:induction false} SweptKeepsDone(table: Table, envs: seq<Env>, m: nat, n: nat, name: string)
    requires m <= n <= |envs| == |STORE_ENCRYPTED|
    requires forall i :: m <= i < n ==> STORE_ENCRYPTED[i] != name
    ensures Find(Swept(table, envs, n), name) == Find(Swept(table, envs, m), name)
    decreases n
  {
    if m < n {
      SweptKeepsDone(table, envs, m, n - 1, name);
    }
  }

  /** The sweep is one read of every declared setting under its own conditions, and nothing else. */
  lemma SweepIsOneReadEach(table: Table, envs: seq<Env>, name: string)
    requires |envs| == |STORE_ENCRYPTED|
    ensures IsStoreEncrypted(name) ==>
            exists i :: 0 <= i < |envs| && STORE_ENCRYPTED[i] == name
              && Find(Swept(table, envs, |envs|), name) == Find(AfterRead(table, name, envs[i]), name)
    ensures !IsStoreEncrypted(name) ==> Find(Swept(table, envs, |envs|), name) == Find(table, name)
  {
    if IsStoreEncrypted(name) {
      var i :| 0 <= i < |STORE_ENCRYPTED| && STORE_ENCRYPTED[i] == name;
      forall j | 0 <= j < |STORE_ENCRYPTED| && j != i
        ensures STORE_ENCRYPTED[j] != name
      {
        DeclaredOnce(if i < j then i else j, if i < j then j else i);
      }
      SweptLeavesTheRest(table, envs, i, name);
      SweptKeepsDone(table, envs, i + 1, |envs|, name);
      assert Swept(table, envs, i + 1) == AfterRead(Swept(table, envs, i), name, envs[i]);
      assert Find(AfterRead(Swept(table, envs, i), name, envs[i]), name) == Find(AfterRead(table, name, envs[i]), name);
    } else {
      SweptLeavesTheRest(table, envs, |envs|, name);
    }
  }

  predicate Untroubled(envs: seq<Env>) {
    forall e <- envs :: e.canRead && e.canWrite && e.key.Some?
  }

  /** A sweep that nothing goes wrong in leaves every declared secret encrypted, except a text
      that itself looks like a token: that one stays, and reads as unset. */
  lemma UntroubledSweepLeavesNoPlaintext(table: Table, envs: seq<Env>, name: string)
    requires |envs| == |STORE_ENCRYPTED| && Untroubled(envs)
    requires IsStoreEncrypted(name) && name in table && table[name] != Text("")
    ensures var after := Swept(table, envs, |envs|);
            && name in after
            && (after[name].Text? <==> table[name].Text? && LooksEncrypted(table[name]))
            && (after[name].Text? ==> forall key :: ReadAs(after, name, key) == None)
  {
    SweepIsOneReadEach(table, envs, name);
    var i :| 0 <= i < |envs| && STORE_ENCRYPTED[i] == name
      && Find(Swept(table, envs, |envs|), name) == Find(AfterRead(table, name, envs[i]), name);
    assert envs[i] in envs;
  }

  /** A second sweep finds nothing left to convert, whatever it meets. */
  lemma SecondSweepMigratesNothing(table: Table, envs: seq<Env>, again: seq<Env>)
    requires |envs| == |again| == |STORE_ENCRYPTED| && Untroubled(envs)
    ensures CountMigrated(Swept(table, envs, |envs|), again, |again|) == 0
  {
    NothingLeft(table, envs, again, |again|);
  }

  lemma {:induction false} NothingLeft(table: Table, envs: seq<Env>, again: seq<Env>, n: nat)
    requires |envs| == |again| == |STORE_ENCRYPTED| && Untroubled(envs) && n <= |again|
    ensures CountMigrated(Swept(table, envs, |envs|), again, n) == 0
  {
    if n > 0 {
      NothingLeft(table, envs, again, n - 1);
      var name := STORE_ENCRYPTED[n - 1];
      SweepIsOneReadEach(table, envs, name);
      var i :| 0 <= i < |envs| && STORE_ENCRYPTED[i] == name
        && Find(Swept(table, envs, |envs|), name) == Find(AfterRead(table, name, envs[i]), name);
      assert envs[i] in envs;
      assert !WillMigrate(Swept(table, envs, |envs|), name, again[n - 1]);
    }
  }

  // ---- whole runs ------------------------------------------------------------------------------

  /** What any caller may do, each call with the key file and the database as it finds them. */
  datatype Op =
    | Read(name: string, env: Env)
    | Write(name: string, value: string, sanctioned: bool, env: Env)
    | Remove(name: string)
    | Listing(env: Env)
    | Sweep(envs: seq<Env>)

  predicate WellFormed(op: Op) {
    op.Sweep? ==> |op.envs| == |STORE_ENCRYPTED|
  }

  function Apply(table: Table, op: Op): Table
    requires WellFormed(op)
  {
    match op
    case Read(name, env) => AfterRead(table, name, env)
    case Write(name, value, sanctioned, env) => AfterSet(table, name, value, sanctioned, env)
    case Remove(name) => table - {name}
    case Listing(_) => table
    case Sweep(envs) => Swept(table, envs, |STORE_ENCRYPTED|)
  }

  function Run(table: Table, ops: seq<Op>): Table
    requires forall op <- ops :: WellFormed(op)
    decreases |ops|
  {
    if ops == [] then table else Run(Apply(table, ops[0]), ops[1..])
  }

  predicate Changes(op: Op, name: string) {
    (op.Write? || op.Remove?) && op.name == name
  }

  /** The stored value is the same, or it was legacy plaintext and is now a token of that text. */
  ghost predicate SameSecret(name: string, before: Option<Raw>, after: Option<Raw>) {
    || after == before
    || (before.Some? && NeedsMigration(name, before.value)
        && after.Some? && after.value.Token? && after.value.plain == before.value.text)
  }

  lemma StepKeepsSecret(table: Table, op: Op, name: string)
    requires WellFormed(op) && !Changes(op, name)
    ensures SameSecret(name, Find(table, name), Find(Apply(table, op), name))
  {
    if op.Sweep? {
      SweepIsOneReadEach(table, op.envs, name);
    }
  }

  /** Over every run of reads, listings, sweeps and writes to other settings, with the key file
      and the database changing arbitrarily, a stored value is kept: it can only turn from
      legacy plaintext into a token of the same text, once. */
  lemma {:induction false} RunKeepsSecrets(table: Table, ops: seq<Op>, name: string)
    requires forall op <- ops :: WellFormed(op) && !Changes(op, name)
    ensures SameSecret(name, Find(table, name), Find(Run(table, ops), name))
    decreases |ops|
  {
    if ops != [] {
      assert ops[0] in ops;
      StepKeepsSecret(table, ops[0], name);
      RunKeepsSecrets(Apply(table, ops[0]), ops[1..], name);
    }
  }

  /** So a token nothing could read in the meantime is still there, and its key still opens it. */
  lemma RestoringTheKeyRecoversTheValue(table: Table, ops: seq<Op>, name: string)
    requires forall op <- ops :: WellFormed(op) && !Changes(op, name)
    requires IsStoreEncrypted(name) && name in table && table[name].Token?
    ensures Find(Run(table, ops), name) == Some(table[name])
    ensures forall key :: ReadAs(Run(table, ops), name, key)
                          == if key == Some(table[name].key) then Some(table[name].plain) else None
  {
    RunKeepsSecrets(table, ops, name);
  }

  /** Migration keeps the value: whoever could read a legacy secret before the run can read the
      same text after it, under the key that was in use when it was migrated. */
  lemma MigrationKeepsTheValue(table: Table, ops: seq<Op>, name: string)
    requires forall op <- ops :: WellFormed(op) && !Changes(op, name)
    requires name in table && NeedsMigration(name, table[name])
    ensures var after := Run(table, ops);
            && name in after
            && (after[name].Text? ==> forall key :: ReadAs(after, name, key) == Some(table[name].text))
            && (after[name].Token? ==> ReadAs(after, name, Some(after[name].key)) == Some(table[name].text))
  {
    RunKeepsSecrets(table, ops, name);
  }

  /** What was set is what is read back, whatever happened before and however much to other settings
      since: by anyone for a plain setting, and for a secret by whoever holds the key it was set under,
      except that setting a secret to the empty text unsets it. */
  lemma SetThenGet(
    table: Table, before: seq<Op>, name: string, value: string, sanctioned: bool, env: Env, ops: seq<Op>,
    key: Option<KeyId>)
    requires (forall op <- before :: WellFormed(op)) && forall op <- ops :: WellFormed(op) && !Changes(op, name)
    requires sanctioned || !TurnsACapability(name)
    requires env.canWrite && (IsStoreEncrypted(name) && value != "" ==> env.key.Some?)
    ensures ReadAs(Run(Apply(Run(table, before), Write(name, value, sanctioned, env)), ops), name, key)
         == if IsStoreEncrypted(name) && (value == "" || key != env.key) then None else Some(value)
  {
    RunKeepsSecrets(AfterSet(Run(table, before), name, value, sanctioned, env), ops, name);
  }

  /** And what was deleted is gone, for whoever reads. */
  lemma DeleteThenGet(table: Table, before: seq<Op>, name: string, ops: seq<Op>, key: Option<KeyId>)
    requires (forall op <- before :: WellFormed(op)) && forall op <- ops :: WellFormed(op) && !Changes(op, name)
    ensures ReadAs(Run(Apply(Run(table, before), Remove(name)), ops), name, key) == None
  {
    RunKeepsSecrets(Run(table, before) - {name}, ops, name);
  }

  // ---- the sweep's counts -----------------------------------------------------------------------------

  /** The sweep converts this setting: it can be read and written, and holds legacy plaintext. */
  predicate Converts(table: Table, name: string, env: Env) {
    && env.canRead && env.canWrite && env.key.Some? && name in table && table[name].Text? && table[name].text != ""
    && !(|table[name].text| >= 100 && table[name].text[..6] == "gAAAAA")
  }

  predicate ConvertsAt(table: Table, envs: seq<Env>, i: nat)
    requires i < |envs| == |STORE_ENCRYPTED|
  {
    Converts(table, STORE_ENCRYPTED[i], envs[i])
  }

  lemma WillMigrateIsConverts(table: Table, envs: seq<Env>, i: nat)
    requires i < |envs| == |STORE_ENCRYPTED|
    ensures WillMigrate(table, STORE_ENCRYPTED[i], envs[i]) <==> ConvertsAt(table, envs, i)
  {
    var name := STORE_ENCRYPTED[i];
    assert IsStoreEncrypted(name);
    if name in table && table[name].Text? {
      WhatIsEncrypted(name, table[name].text);
    }
  }

  lemma OneMorePlace(chosen: set<nat>, n: nat, more: bool)
    requires forall i: nat :: i in chosen ==> i < n
    ensures |chosen + if more then {n} else {}| == |chosen| + if more then 1 else 0
  {
    if more {
      assert n !in chosen;
    } else {
      assert chosen + {} == chosen;
    }
  }

  lemma {:induction false} MigratedAreCounted(table: Table, envs: seq<Env>, n: nat) returns (chosen: set<nat>)
    requires n <= |envs| == |STORE_ENCRYPTED|
    ensures forall i: nat :: i in chosen <==> i < n && ConvertsAt(table, envs, i)
    ensures CountMigrated(table, envs, n) == |chosen|
  {
    chosen := {};
    if n > 0 {
      var before := MigratedAreCounted(table, envs, n - 1);
      WillMigrateIsConverts(table, envs, n - 1);
      OneMorePlace(before, n - 1, ConvertsAt(table, envs, n - 1));
      chosen := before + if ConvertsAt(table, envs, n - 1) then {n - 1} else {};
    }
  }

  lemma {:induction false} UnreadAreCounted(envs: seq<Env>, n: nat) returns (chosen: set<nat>)
    requires n <= |envs| == |STORE_ENCRYPTED|
    ensures forall i: nat :: i in chosen <==> i < n && !envs[i].canRead
    ensures CountUnread(envs, n) == |chosen|
  {
    chosen := {};
    if n > 0 {
      var before := UnreadAreCounted(envs, n - 1);
      OneMorePlace(before, n - 1, !envs[n - 1].canRead);
      chosen := before + if envs[n - 1].canRead then {} else {n - 1};
    }
  }

  /** The sweep's counts are of the settings it converts and of those it cannot read. */
  lemma CountsAreOfSettings(table: Table, envs: seq<Env>) returns (converted: set<nat>, unread: set<nat>)
    requires |envs| == |STORE_ENCRYPTED|
    ensures forall i: nat :: i in converted <==> i < |envs| && ConvertsAt(table, envs, i)
    ensures forall i: nat :: i in unread <==> i < |envs| && !envs[i].canRead
    ensures CountMigrated(table, envs, |envs|) == |converted| && CountUnread(envs, |envs|) == |unread|
  {
    converted := MigratedAreCounted(table, envs, |envs|);
    unread := UnreadAreCounted(envs, |envs|);
  }
}

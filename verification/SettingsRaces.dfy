/** Reading a setting is two statements, the SELECT and the write that migrates what it found, and
    another process may change the setting in between. */
module SettingsRaces {
  import opened FleetSettings
  import opened Wrappers

  /** A reader that found legacy plaintext and is about to write it back encrypted. */
  datatype Reader = Reader(name: string, text: string)

  /** `drawn` is the next random value: every token made so far carries a smaller one. */
  datatype State = State(table: Table, readers: map<nat, Reader>, drawn: nat)

  datatype Step =
    | Select(task: nat, name: string)
    | WriteBack(task: nat, env: Env)
    | Put(name: string, value: string, sanctioned: bool, env: Env)
    | Drop(name: string)

  predicate CanMigrate(env: Env) {
    env.canWrite && env.key.Some?
  }

  function DoWriteBack(s: State, task: nat, env: Env): State
    requires task in s.readers
  {
    var r := s.readers[task];
    var done := s.(readers := s.readers - {task});
    if !CanMigrate(env) then done
    else done.(table := s.table[r.name := Token(env.key.value, s.drawn, r.text)], drawn := s.drawn + 1)
  }

  /** From one statement to the next; a step that cannot be taken changes nothing. */
  function Next(s: State, step: Step): State {
    match step
    case Select(task, name) =>
      if task !in s.readers && name in s.table && NeedsMigration(name, s.table[name])
      then s.(readers := s.readers[task := Reader(name, s.table[name].text)]) else s
    case WriteBack(task, env) => if task in s.readers then DoWriteBack(s, task, env) else s
    case Put(name, value, sanctioned, env) =>
      s.(table := AfterSet(s.table, name, value, sanctioned, env.(nonce := s.drawn)), drawn := s.drawn + 1)
    case Drop(name) => s.(table := s.table - {name})
  }

  function RunSteps(s: State, steps: seq<Step>): State
    decreases |steps|
  {
    if steps == [] then s else RunSteps(Next(s, steps[0]), steps[1..])
  }

  /** Every token is older than the next random value. */
  ghost predicate Dated(s: State) {
    forall name :: name in s.table && s.table[name].Token? ==> s.table[name].nonce < s.drawn
  }

  lemma NextKeepsDated(s: State, step: Step)
    requires Dated(s)
    ensures Dated(Next(s, step)) && s.drawn <= Next(s, step).drawn
  {
  }

  /** The two statements with nothing in between are the read taken as one step. */
  lemma UndisturbedReadIsOneStep(s: State, task: nat, name: string, env: Env)
    requires task !in s.readers && env.canRead
    ensures Next(Next(s, Select(task, name)), WriteBack(task, env)).table
         == AfterRead(s.table, name, env.(nonce := s.drawn))
    ensures Next(Next(s, Select(task, name)), WriteBack(task, env)).readers == s.readers
  {
    assert s.readers[task := Reader(name, "")] - {task} == s.readers;
    if name in s.table && NeedsMigration(name, s.table[name]) {
      assert s.readers[task := Reader(name, s.table[name].text)] - {task} == s.readers;
    }
  }

  // ---- which changes are lost ------------------------------------------------------------------------

  predicate IsChange(step: Step, name: string) {
    (step.Put? || step.Drop?) && step.name == name
  }

  /** The setting holds nothing that a read would migrate: so it is after every `set` and every
      `delete` of it. */
  predicate Settled(s: State, name: string) {
    name in s.table ==> !NeedsMigration(name, s.table[name])
  }

  predicate Succeeds(s: State, step: Step)
    requires step.Put? || step.Drop?
  {
    step.Put? ==>
      (step.name in CAPABILITY_KEYS ==> step.sanctioned) && step.env.canWrite
      && Sealed(step.name, step.value, step.env.(nonce := s.drawn)).Ok?
  }

  lemma ChangesSettle(s: State, step: Step)
    requires (step.Put? || step.Drop?) && Succeeds(s, step)
    ensures Settled(Next(s, step), step.name)
  {
  }

  /** Somewhere in the run a reader that is waiting to migrate `name` writes it back. */
  predicate IsWrittenBack(s: State, steps: seq<Step>, name: string)
    decreases |steps|
  {
    && steps != []
    && (|| WritesBack(s, steps[0], name)
        || IsWrittenBack(Next(s, steps[0]), steps[1..], name))
  }

  predicate WritesBack(s: State, step: Step, name: string) {
    && step.WriteBack? && step.task in s.readers && s.readers[step.task].name == name
    && CanMigrate(step.env)
  }

  /** `text` is what a reader waiting on `name` would write back. */
  ghost predicate Waiting(s: State, name: string, text: string) {
    exists task :: task in s.readers && s.readers[task] == Reader(name, text)
  }

  lemma StepOnSettled(s: State, step: Step, name: string)
    requires Dated(s) && Settled(s, name) && !IsChange(step, name)
    ensures Settled(Next(s, step), name)
    ensures forall text :: Waiting(Next(s, step), name, text) ==> Waiting(s, name, text)
    ensures if WritesBack(s, step, name)
            then Find(Next(s, step).table, name)
                 == Some(Token(step.env.key.value, s.drawn, s.readers[step.task].text))
                 && Next(s, step).drawn == s.drawn + 1
            else Find(Next(s, step).table, name) == Find(s.table, name)
  {
    forall text | Waiting(Next(s, step), name, text)
      ensures Waiting(s, name, text)
    {
      var task :| task in Next(s, step).readers && Next(s, step).readers[task] == Reader(name, text);
      assert task in s.readers && s.readers[task] == Reader(name, text);
    }
  }

  /** What a run without changes of a settled setting leaves: itself, or a newer token of a text that
      was waiting to be written back. */
  lemma {:induction false} RunOnSettled(s: State, steps: seq<Step>, name: string)
    requires Dated(s) && Settled(s, name) && forall step <- steps :: !IsChange(step, name)
    ensures var after := Find(RunSteps(s, steps).table, name);
            if IsWrittenBack(s, steps, name)
            then after.Some? && after.value.Token? && after.value.nonce >= s.drawn
                 && Waiting(s, name, after.value.plain)
            else after == Find(s.table, name)
    decreases |steps|
  {
    if steps != [] {
      var (step, next) := (steps[0], Next(s, steps[0]));
      assert step in steps;
      StepOnSettled(s, step, name);
      NextKeepsDated(s, step);
      RunOnSettled(next, steps[1..], name);
      if WritesBack(s, step, name) {
        assert Waiting(s, name, s.readers[step.task].text);
      }
    }
  }

  /** Exactly when a `set` or a `delete` is lost: the setting holds what it left, whatever everybody
      does to other settings, if and only if no reader that had found the legacy text before the
      change writes it back after it; and if one does, that text is what the setting holds again. */
  lemma ChangeIsLostIff(s: State, change: Step, steps: seq<Step>)
    requires Dated(s) && (change.Put? || change.Drop?) && Succeeds(s, change)
    requires forall step <- steps :: !IsChange(step, change.name)
    ensures var (changed, name) := (Next(s, change), change.name);
            var after := Find(RunSteps(changed, steps).table, name);
            && (after == Find(changed.table, name) <==> !IsWrittenBack(changed, steps, name))
            && (after != Find(changed.table, name) ==>
                  after.Some? && after.value.Token? && Waiting(s, name, after.value.plain))
  {
    ChangesSettle(s, change);
    NextKeepsDated(s, change);
    var changed := Next(s, change);
    RunOnSettled(changed, steps, change.name);
    assert changed.readers == s.readers;
    var after := Find(RunSteps(changed, steps).table, change.name);
    if after.Some? && after.value.Token? && Waiting(changed, change.name, after.value.plain) {
      assert Waiting(s, change.name, after.value.plain);
    }
  }

  /** Such a run: the new secret is gone and the old one is back, and so it is after a delete. */
  lemma OldSecretComesBack(drop: bool)
    ensures var name := "gemini_api_key";
            var s := State(map[name := Text("old")], map[], 0);
            var env := Env(Some(1), true, true, 0);
            var change := if drop then Drop(name) else Put(name, "new", false, env);
            ReadAs(RunSteps(s, [Select(7, name), change, WriteBack(7, env)]).table, name, Some(1)) == Some("old")
  {
    var name := "gemini_api_key";
    var env := Env(Some(1), true, true, 0);
    var s := State(map[name := Text("old")], map[], 0);
    var change := if drop then Drop(name) else Put(name, "new", false, env);
    var steps := [Select(7, name), change, WriteBack(7, env)];
    assert STORE_ENCRYPTED[5] == name && IsStoreEncrypted(name);
    var s1 := Next(s, steps[0]);
    assert s1.readers[7] == Reader(name, "old");
    var s2 := Next(s1, change);
    assert s2.readers == s1.readers;
    var s3 := Next(s2, steps[2]);
    assert s3.table[name].Token? && s3.table[name].plain == "old" && s3.table[name].key == 1;
    assert steps[1..] == [change, steps[2]] && steps[1..][1..] == [steps[2]] && steps[1..][1..][1..] == [];
    assert RunSteps(s2, [steps[2]]) == s3;
    assert RunSteps(s1, steps[1..]) == s3;
  }

  // ---- readers alone ---------------------------------------------------------------------------------

  function TextOf(raw: Raw): string {
    if raw.Text? then raw.text else raw.plain
  }

  /** Every reader waiting on `name` holds the text that the setting has. */
  ghost predicate ReadersAgree(s: State, name: string) {
    name in s.table && forall text :: Waiting(s, name, text) ==> text == TextOf(s.table[name])
  }

  lemma StepKeepsText(s: State, step: Step, name: string)
    requires ReadersAgree(s, name) && !IsChange(step, name)
    ensures name in Next(s, step).table && TextOf(Next(s, step).table[name]) == TextOf(s.table[name])
    ensures ReadersAgree(Next(s, step), name)
  {
    if WritesBack(s, step, name) {
      assert Waiting(s, name, s.readers[step.task].text);
    }
    forall text | Waiting(Next(s, step), name, text)
      ensures text == TextOf(s.table[name])
    {
      var task :| task in Next(s, step).readers && Next(s, step).readers[task] == Reader(name, text);
      if task in s.readers && s.readers[task] == Reader(name, text) {
        assert Waiting(s, name, text);
      } else {
        assert step == Select(task, name);
      }
    }
  }

  /** Readers do not hurt one another: any number of reads interleaved statement by statement, with
      changes of other settings, keeps the text of a setting that nobody changes. */
  lemma {:induction false} ReadersAloneKeepTheText(s: State, steps: seq<Step>, name: string)
    requires ReadersAgree(s, name) && forall step <- steps :: !IsChange(step, name)
    ensures name in RunSteps(s, steps).table
    ensures TextOf(RunSteps(s, steps).table[name]) == TextOf(s.table[name])
    decreases |steps|
  {
    if steps != [] {
      assert steps[0] in steps;
      StepKeepsText(s, steps[0], name);
      ReadersAloneKeepTheText(Next(s, steps[0]), steps[1..], name);
    }
  }
}

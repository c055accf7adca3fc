/** Adding to and removing from the stored entry list, each removal bound to the exact list the
    operator was shown. Secrets are encrypted at rest; no two encryptions give the same text. */
module EntryListWrites {
  import opened EntryCredentials
  import opened Text
  import opened Wrappers

  type KeyId = nat

  /** A setting as stored. A sealed one carries the random value of its encryption. */
  datatype Cell<V> = Unset | Empty | Clear(value: V) | Sealed(key: KeyId, nonce: nat, value: V)

  /** What one call meets: the key file, whether the database takes writes, and whether it stops
      taking them after the first. */
  datatype Env = Env(key: Option<KeyId>, canWrite: bool, interrupted: bool)

  function Plain<V>(c: Cell<V>, key: Option<KeyId>): Option<V> {
    match c
    case Unset => None
    case Empty => None
    case Clear(v) => Some(v)
    case Sealed(k, _, v) => if key == Some(k) then Some(v) else None
  }

  /** The settings involved; `nextRandom` is the next random value, larger than all used before. */
  datatype Store = Store(
    list: Cell<ListText>, legacyPassword: Cell<string>, legacyUser: string, promptAlways: bool, nextRandom: nat)

  predicate Migrates<V>(c: Cell<V>, env: Env) {
    c.Clear? && env.key.Some? && env.canWrite
  }

  /** Reading the list re-writes legacy plaintext encrypted, when it can. */
  function AfterReadList(s: Store, env: Env): Store {
    if Migrates(s.list, env)
    then s.(list := Sealed(env.key.value, s.nextRandom, s.list.value), nextRandom := s.nextRandom + 1)
    else s
  }

  function AfterReadLegacy(s: Store, env: Env): Store {
    if Migrates(s.legacyPassword, env)
    then s.(legacyPassword := Sealed(env.key.value, s.nextRandom, s.legacyPassword.value),
            nextRandom := s.nextRandom + 1)
    else s
  }

  predicate AllComplete(items: seq<Item>) {
    forall i :: 0 <= i < |items| ==> IsComplete(items[i])
  }

  /** A stored list exists that cannot be read in full. */
  predicate Unreadable(c: Cell<ListText>, key: Option<KeyId>) {
    var raw: Option<ListText> := Plain(c, key);
    if raw.None? then c.Sealed?
    else raw.value.NotAList? || (raw.value.JsonList? && !AllComplete(raw.value.items))
  }

  function Legacy(s: Store, key: Option<KeyId>): Option<Pair> {
    var password: Option<string> := Plain(s.legacyPassword, key);
    if password.None? || password.value == "" then None
    else Some(Pair(if s.legacyUser != "" then s.legacyUser else "root", password.value))
  }

  function ItemsOf(creds: seq<Credential>): seq<Item> {
    seq(|creds|, i requires 0 <= i < |creds| => Entry(creds[i].pair.username, creds[i].pair.password, creds[i].note))
  }

  datatype Refusal = PromptAlways | Incomplete | CapReached | ListUnreadable | Stale
  datatype Outcome = Added | AlreadyThere | Removed(pair: Pair, legacy: bool) | Refused(why: Refusal) | WriteFailed

  /** Storing a secret: it fails without a key or a writable database. */
  predicate CanSeal(env: Env) {
    env.key.Some? && env.canWrite
  }

  function WithList(s: Store, creds: seq<Credential>, env: Env): Store
    requires CanSeal(env)
  {
    s.(list := Sealed(env.key.value, s.nextRandom, JsonList(ItemsOf(creds))), nextRandom := s.nextRandom + 1)
  }

  /** What an add leaves behind. */
  function Add(s: Store, username: string, password: string, note: string, env: Env): (Store, Outcome) {
    var pair := Pair(Strip(username), password);
    if s.promptAlways then (s, Refused(PromptAlways))
    else if pair.username == "" || password == "" then (s, Refused(Incomplete))
    else
      var s1 := AfterReadList(s, env);
      if Unreadable(s.list, env.key) then (s1, Refused(ListUnreadable))
      else
        var existing := Parse(Plain(s.list, env.key));
        if HasPair(existing, pair) then (s1, AlreadyThere)
        else
          var s2 := AfterReadLegacy(s1, env);
          var legacy := Legacy(s, env.key);
          if legacy == Some(pair) then (s2, AlreadyThere)
          else if |existing| + (if legacy.Some? then 1 else 0) >= MAX_STORED then (s2, Refused(CapReached))
          else if !CanSeal(env) then (s2, WriteFailed)
          else (WithList(s2, existing + [Credential(pair, note, false)], env), Added)
  }

  /** The change token: it stands for the three settings exactly as stored. */
  datatype Revision = Revision(list: Cell<ListText>, legacyPassword: Cell<string>, legacyUser: string)

  function RevisionOf(s: Store): Revision {
    Revision(s.list, s.legacyPassword, s.legacyUser)
  }

  /** The legacy pair: the password goes first, so an interrupted removal leaves a username alone,
      which is no credential. */
  function RemoveLegacy(s: Store, pair: Pair, env: Env): (Store, Outcome) {
    if !env.canWrite then (s, WriteFailed)
    else if env.interrupted then (s.(legacyPassword := Unset), WriteFailed)
    else (s.(legacyPassword := Unset, legacyUser := ""), Removed(pair, true))
  }

  function RemoveAt(s: Store, at: int, env: Env): (Store, Outcome) {
    var s' := AfterReadList(s, env);
    var existing := Parse(Plain(s.list, env.key));
    if Unreadable(s.list, env.key) then (s', Refused(ListUnreadable))
    else if !(0 <= at < |existing|) then (s', Refused(Stale))
    else if !CanSeal(env) then (s', WriteFailed)
    else (WithList(s', existing[..at] + existing[at + 1..], env), Removed(existing[at].pair, false))
  }

  function Remove(s: Store, position: int, revision: Revision, env: Env): (Store, Outcome) {
    var s' := AfterReadLegacy(s, env);
    var legacy := Legacy(s, env.key);
    if revision != RevisionOf(s) then (s, Refused(Stale))
    else if legacy.None? then RemoveAt(s', position, env)
    else if position == 0 then RemoveLegacy(s', legacy.value, env)
    else RemoveAt(s', position - 1, env)
  }

  // ---- the settings as the program changes them ---------------------------------------------------

  class EntryListStore {
    var list: Cell<ListText>
    var legacyPassword: Cell<string>
    var legacyUser: string
    var promptAlways: bool
    var nextRandom: nat

    function State(): Store
      reads this
    {
      Store(list, legacyPassword, legacyUser, promptAlways, nextRandom)
    }

    method GetList(env: Env) returns (raw: Option<ListText>)
      modifies this
      ensures State() == AfterReadList(old(State()), env) && raw == Plain(old(list), env.key)
    {
      raw := Plain(list, env.key);
      if Migrates(list, env) {
        list, nextRandom := Sealed(env.key.value, nextRandom, list.value), nextRandom + 1;
      }
    }

    method GetLegacyPassword(env: Env) returns (raw: Option<string>)
      modifies this
      ensures State() == AfterReadLegacy(old(State()), env) && raw == Plain(old(legacyPassword), env.key)
    {
      raw := Plain(legacyPassword, env.key);
      if Migrates(legacyPassword, env) {
        legacyPassword, nextRandom := Sealed(env.key.value, nextRandom, legacyPassword.value), nextRandom + 1;
      }
    }

    /** The list read for a write: refused unless it can be read in full. */
    method StoredList(env: Env) returns (r: Result<seq<Credential>, Refusal>)
      modifies this
      ensures State() == AfterReadList(old(State()), env)
      ensures r == if Unreadable(old(list), env.key) then Err(ListUnreadable) else Ok(Parse(Plain(old(list), env.key)))
    {
      var stored := list;
      var raw := GetList(env);
      if Unreadable(stored, env.key) {
        return Err(ListUnreadable);
      }
      return Ok(Parse(raw));
    }

    method WriteList(creds: seq<Credential>, env: Env) returns (written: bool)
      modifies this
      ensures written == CanSeal(env)
      ensures State() == if CanSeal(env) then WithList(old(State()), creds, env) else old(State())
    {
      if !(env.key.Some? && env.canWrite) {
        return false;
      }
      list, nextRandom := Sealed(env.key.value, nextRandom, JsonList(ItemsOf(creds))), nextRandom + 1;
      return true;
    }

    method AddEntryCredential(username: string, password: string, note: string, env: Env) returns (outcome: Outcome)
      modifies this
      ensures (State(), outcome) == Add(old(State()), username, password, note, env)
    {
      if promptAlways {
        return Refused(PromptAlways);
      }
      var pair := Pair(Strip(username), password);
      if pair.username == "" || password == "" {
        return Refused(Incomplete);
      }
      var stored := StoredList(env);
      if stored.Err? {
        return Refused(stored.error);
      }
      var existing := stored.value;
      var i := 0;
      while i < |existing|
        invariant 0 <= i <= |existing|
        invariant forall k :: 0 <= k < i ==> existing[k].pair != pair
        invariant State() == AfterReadList(old(State()), env)
      {
        if existing[i].pair == pair {
          return AlreadyThere;
        }
        i := i + 1;
      }
      var legacy := Legacy(State(), env.key);
      var raw := GetLegacyPassword(env);
      if legacy == Some(pair) {
        return AlreadyThere;
      }
      var total := |existing| + if legacy.Some? then 1 else 0;
      if total >= MAX_STORED {
        return Refused(CapReached);
      }
      var written := WriteList(existing + [Credential(pair, note, false)], env);
      return if written then Added else WriteFailed;
    }

    method DeleteLegacyPair(pair: Pair, env: Env) returns (outcome: Outcome)
      modifies this
      ensures (State(), outcome) == RemoveLegacy(old(State()), pair, env)
    {
      if !env.canWrite {
        return WriteFailed;
      }
      legacyPassword := Unset;
      if env.interrupted {
        return WriteFailed;
      }
      legacyUser := "";
      return Removed(pair, true);
    }

    method RemoveRow(at: int, env: Env) returns (outcome: Outcome)
      modifies this
      ensures (State(), outcome) == RemoveAt(old(State()), at, env)
    {
      var stored := StoredList(env);
      if stored.Err? {
        return Refused(stored.error);
      }
      var existing := stored.value;
      if !(0 <= at < |existing|) {
        return Refused(Stale);
      }
      var written := WriteList(existing[..at] + existing[at + 1..], env);
      return if written then Removed(existing[at].pair, false) else WriteFailed;
    }

    method RemoveEntryCredential(position: int, revision: Revision, env: Env) returns (outcome: Outcome)
      modifies this
      ensures (State(), outcome) == Remove(old(State()), position, revision, env)
    {
      if revision != RevisionOf(State()) {
        return Refused(Stale);
      }
      var legacy := Legacy(State(), env.key);
      var raw := GetLegacyPassword(env);
      var at := position;
      if legacy.Some? {
        if position == 0 {
          outcome := DeleteLegacyPair(legacy.value, env);
          return;
        }
        at := at - 1;
      }
      outcome := RemoveRow(at, env);
    }
  }

  // ---- what a write does and does not change --------------------------------------------------------

  /** The cell holds what it held: the same text, at most now encrypted. */
  ghost predicate Kept<V>(before: Cell<V>, after: Cell<V>) {
    after == before || (before.Clear? && after.Sealed? && after.value == before.value)
  }

  predicate Whole(creds: seq<Credential>) {
    forall i :: 0 <= i < |creds| ==> creds[i].pair.username != "" && creds[i].pair.password != "" && !creds[i].fleetRoot
  }

  lemma {:induction false} ParsedIsWhole(items: seq<Item>)
    ensures Whole(ParseItems(items))
    ensures AllComplete(items) ==> |ParseItems(items)| == |items|
    decreases |items|
  {
    if items != [] {
      ParsedIsWhole(items[..|items| - 1]);
    }
  }

  /** What is written is what is read back, every credential of it. */
  lemma {:induction false} WrittenListReadsBack(creds: seq<Credential>)
    requires Whole(creds)
    ensures AllComplete(ItemsOf(creds)) && ParseItems(ItemsOf(creds)) == creds
    decreases |creds|
  {
    if creds != [] {
      var n := |creds| - 1;
      WrittenListReadsBack(creds[..n]);
      assert ItemsOf(creds)[..n] == ItemsOf(creds[..n]);
      assert creds == creds[..n] + [creds[n]];
    }
  }

  /** The list as a reader sees it is whole. */
  lemma ReadListIsWhole(c: Cell<ListText>, key: Option<KeyId>)
    ensures Whole(Parse(Plain(c, key)))
  {
    var raw := Plain(c, key);
    if raw.Some? && raw.value.JsonList? {
      ParsedIsWhole(raw.value.items);
    }
  }

  /** Rewriting the list stores exactly the credentials it was given. */
  lemma WithListHolds(s: Store, creds: seq<Credential>, env: Env)
    requires CanSeal(env) && Whole(creds)
    ensures Parse(Plain(WithList(s, creds, env).list, env.key)) == creds
  {
    WrittenListReadsBack(creds);
  }

  /** An add that is refused, redundant or fails changes nothing; one that succeeds read the list
      in full, appends exactly the new pair, and leaves at most three credentials to be tried. */
  lemma AddChangesOnlyTheList(s: Store, username: string, password: string, note: string, env: Env)
    ensures var (after, outcome) := Add(s, username, password, note, env);
            && Kept(s.legacyPassword, after.legacyPassword) && after.legacyUser == s.legacyUser
            && (outcome != Added ==> Kept(s.list, after.list))
            && (outcome == Added ==>
                  && !Unreadable(s.list, env.key)
                  && var (were, are) := (Parse(Plain(s.list, env.key)), Parse(Plain(after.list, env.key)));
                     && are == were + [Credential(Pair(Strip(username), password), note, false)]
                     && !HasPair(were, Pair(Strip(username), password))
                     && |are| + (if Legacy(s, env.key).Some? then 1 else 0) <= MAX_STORED)
  {
    var (after, outcome) := Add(s, username, password, note, env);
    if outcome == Added {
      var longer := Parse(Plain(s.list, env.key)) + [Credential(Pair(Strip(username), password), note, false)];
      ReadListIsWhole(s.list, env.key);
      WithListHolds(AfterReadLegacy(AfterReadList(s, env), env), longer, env);
    }
  }

  /** Taking out a listed row leaves exactly the others; refused or failed, it leaves all. */
  lemma RemoveAtTakesOneRow(s: Store, at: int, env: Env)
    ensures var (after, outcome) := RemoveAt(s, at, env);
            && after.legacyPassword == s.legacyPassword && after.legacyUser == s.legacyUser
            && (!outcome.Removed? ==> Kept(s.list, after.list))
            && (outcome.Removed? ==>
                  var rows := Parse(Plain(s.list, env.key));
                  && !Unreadable(s.list, env.key) && 0 <= at < |rows| && outcome == Removed(rows[at].pair, false)
                  && Parse(Plain(after.list, env.key)) == rows[..at] + rows[at + 1..])
  {
    if RemoveAt(s, at, env).1.Removed? {
      var rows := Parse(Plain(s.list, env.key));
      ReadListIsWhole(s.list, env.key);
      WithListHolds(AfterReadList(s, env), rows[..at] + rows[at + 1..], env);
    }
  }

  /** The list row a position points to, once the legacy pair is counted. */
  function ListIndex(s: Store, key: Option<KeyId>, position: int): int {
    if Legacy(s, key).Some? then position - 1 else position
  }

  /** A removal that is refused or fails keeps every credential, unless the database stopped
      between the two halves of the legacy pair, whose password is then already gone. */
  lemma FailedRemovalKeepsEverything(s: Store, position: int, revision: Revision, env: Env)
    requires !Remove(s, position, revision, env).1.Removed?
    ensures var (after, outcome) := Remove(s, position, revision, env);
            && Kept(s.list, after.list) && after.legacyUser == s.legacyUser
            && (Kept(s.legacyPassword, after.legacyPassword)
                || (outcome == WriteFailed && env.interrupted && position == 0 && after.legacyPassword == Unset))
  {
    RemoveAtTakesOneRow(AfterReadLegacy(s, env), ListIndex(s, env.key, position), env);
  }

  lemma ReadingLegacyKeepsAll(s: Store, env: Env)
    ensures var read := AfterReadLegacy(s, env);
            && Kept(s.legacyPassword, read.legacyPassword) && read.legacyUser == s.legacyUser && read.list == s.list
  {
  }

  lemma RemovalIsOfEitherKind(s: Store, position: int, revision: Revision, env: Env)
    requires Remove(s, position, revision, env).1.Removed?
    ensures Remove(s, position, revision, env) ==
              if Remove(s, position, revision, env).1.legacy
              then RemoveLegacy(AfterReadLegacy(s, env), Legacy(s, env.key).value, env)
              else RemoveAt(AfterReadLegacy(s, env), ListIndex(s, env.key, position), env)
    ensures Remove(s, position, revision, env).1.legacy ==> position == 0 && Legacy(s, env.key).Some?
  {
  }

  /** One that succeeds takes either the legacy pair, both halves, or exactly one listed row. */
  lemma RemovalTakesOneCredential(s: Store, position: int, revision: Revision, env: Env)
    requires Remove(s, position, revision, env).1.Removed?
    ensures var (after, outcome) := Remove(s, position, revision, env);
            if outcome.legacy then
              && position == 0 && Legacy(s, env.key) == Some(outcome.pair)
              && after.legacyPassword == Unset && after.legacyUser == "" && after.list == s.list
            else
              var (at, rows) := (ListIndex(s, env.key, position), Parse(Plain(s.list, env.key)));
              && !Unreadable(s.list, env.key) && 0 <= at < |rows| && outcome.pair == rows[at].pair
              && Parse(Plain(after.list, env.key)) == rows[..at] + rows[at + 1..]
              && Kept(s.legacyPassword, after.legacyPassword) && after.legacyUser == s.legacyUser
  {
    RemovalIsOfEitherKind(s, position, revision, env);
    ReadingLegacyKeepsAll(s, env);
    if !Remove(s, position, revision, env).1.legacy {
      RemoveAtTakesOneRow(AfterReadLegacy(s, env), ListIndex(s, env.key, position), env);
    }
  }

  // ---- the row shown is the row removed -------------------------------------------------------------

  /** Where a position on the page points. */
  datatype Slot = LegacySlot | ListSlot(index: int)

  function SlotAt(s: Store, key: Option<KeyId>, position: int): Slot {
    if Legacy(s, key).None? then ListSlot(position)
    else if position == 0 then LegacySlot
    else ListSlot(position - 1)
  }

  /** What a page rendered under `key` shows. */
  function ShownRows(s: Store, key: Option<KeyId>): seq<Credential> {
    StoredRows(Reading(s.promptAlways, Plain(s.list, key), s.legacyUser, Plain(s.legacyPassword, key), None, None))
  }

  /** A position shows the row its slot holds. */
  lemma ShownRowIsInItsSlot(s: Store, key: Option<KeyId>, position: int)
    requires 0 <= position < |ShownRows(s, key)|
    ensures match SlotAt(s, key, position)
            case LegacySlot => Some(ShownRows(s, key)[position].pair) == Legacy(s, key)
            case ListSlot(i) =>
              && Plain(s.list, key).Some?
              && 0 <= i < |Parse(Plain(s.list, key))| && ShownRows(s, key)[position] == Parse(Plain(s.list, key))[i]
  {
  }

  /** Nobody wrote the settings between two reads of them; a read may have encrypted them. */
  ghost predicate OnlyRead(before: Store, after: Store) {
    && Kept(before.list, after.list) && Kept(before.legacyPassword, after.legacyPassword)
    && before.legacyUser == after.legacyUser
  }

  /** A page is put together from several reads: its rows from the settings as each was found, `seen`
      under `seenKey`, and its revision, last, from the settings `noted`. A removal acts only while
      the settings are still exactly those noted, and takes the row that they have at the position
      when it reads them. If nobody wrote them while the page was put together, that is the slot
      shown precisely if the legacy pair is readable now just when it was readable then, and the
      pair it takes is then the one shown. */
  lemma RemovalTakesTheShownRow(
    seen: Store, seenKey: Option<KeyId>, noted: Store, s: Store, position: int, env: Env)
    requires 0 <= position < |ShownRows(seen, seenKey)|
    requires Remove(s, position, RevisionOf(noted), env).1.Removed?
    ensures RevisionOf(s) == RevisionOf(noted)
    ensures position < |ShownRows(noted, env.key)|
    ensures Remove(s, position, RevisionOf(noted), env).1.pair == ShownRows(noted, env.key)[position].pair
    ensures OnlyRead(seen, noted) ==>
              && (SlotAt(s, env.key, position) == SlotAt(seen, seenKey, position)
                  <==> Legacy(s, env.key).Some? == Legacy(seen, seenKey).Some?)
              && (Legacy(s, env.key).Some? == Legacy(seen, seenKey).Some? ==>
                    Remove(s, position, RevisionOf(noted), env).1.pair == ShownRows(seen, seenKey)[position].pair)
  {
    assert RevisionOf(s) == RevisionOf(noted);
    RemovedPairIsInItsSlot(s, position, RevisionOf(noted), env);
    ShownRowIsInItsSlot(noted, env.key, position);
    if OnlyRead(seen, noted) {
      ShownRowIsInItsSlot(seen, seenKey, position);
      KeptReadsTheSame(seen.list, noted.list, seenKey, env.key);
      KeptReadsTheSame(seen.legacyPassword, noted.legacyPassword, seenKey, env.key);
    }
  }

  /** With a write in between it can be another row: the page shows one, its revision is already that
      of a list without it. */
  lemma WriteBehindThePageShiftsTheRow()
    ensures var (a, b) := (Entry("root", "a", ""), Entry("root", "b", ""));
            var seen := Store(Sealed(1, 0, JsonList([a, b])), Unset, "", false, 1);
            var noted := Store(Sealed(1, 1, JsonList([b])), Unset, "", false, 2);
            && ShownRows(seen, Some(1))[0].pair == Pair("root", "a")
            && Remove(noted, 0, RevisionOf(noted), Env(Some(1), true, false)).1 == Removed(Pair("root", "b"), false)
  {
    var (a, b) := (Entry("root", "a", ""), Entry("root", "b", ""));
    assert [a, b][..1] == [a] && [a][..0] == [] && [b][..0] == [];
    assert ParseItems([]) == [];
    assert ParseItems([a]) == [CredentialOf(a)] && ParseItems([b]) == [CredentialOf(b)];
    assert ParseItems([a, b]) == [CredentialOf(a), CredentialOf(b)];
  }

  lemma RemovedPairIsInItsSlot(s: Store, position: int, revision: Revision, env: Env)
    requires Remove(s, position, revision, env).1.Removed?
    ensures var pair := Remove(s, position, revision, env).1.pair;
            match SlotAt(s, env.key, position)
            case LegacySlot => Legacy(s, env.key) == Some(pair)
            case ListSlot(i) =>
              && Plain(s.list, env.key).Some?
              && 0 <= i < |Parse(Plain(s.list, env.key))| && pair == Parse(Plain(s.list, env.key))[i].pair
  {
  }

  lemma KeptReadsTheSame<V>(before: Cell<V>, after: Cell<V>, a: Option<KeyId>, b: Option<KeyId>)
    requires Kept(before, after)
    ensures Plain(before, a).Some? && Plain(after, b).Some? ==> Plain(before, a) == Plain(after, b)
  {
  }

  /** An add never makes a duplicate of anything shown, the legacy pair included: either the pair was
      already among the rows, or it becomes the new last one. */
  lemma AddNeverDuplicates(s: Store, username: string, password: string, note: string, env: Env)
    ensures var (after, outcome) := Add(s, username, password, note, env);
            var pair := Pair(Strip(username), password);
            && (outcome == AlreadyThere ==> HasPair(ShownRows(s, env.key), pair))
            && (outcome == Added ==>
                  && !HasPair(ShownRows(s, env.key), pair)
                  && ShownRows(after, env.key) == ShownRows(s, env.key) + [Credential(pair, note, false)])
  {
    var (after, outcome) := Add(s, username, password, note, env);
    var pair := Pair(Strip(username), password);
    LegacyRowThenList(s, env.key, pair);
    if outcome == Added {
      AddChangesOnlyTheList(s, username, password, note, env);
      AddedIsNotTheLegacyPair(s, username, password, note, env);
      AppendedRowIsLast(s, after, env.key, Credential(pair, note, false));
    }
  }

  lemma AppendedRowIsLast(s: Store, after: Store, key: Option<KeyId>, c: Credential)
    requires Legacy(after, key) == Legacy(s, key)
    requires Parse(Plain(after.list, key)) == Parse(Plain(s.list, key)) + [c]
    ensures ShownRows(after, key) == ShownRows(s, key) + [c]
  {
  }

  lemma AddedIsNotTheLegacyPair(s: Store, username: string, password: string, note: string, env: Env)
    requires Add(s, username, password, note, env).1 == Added
    ensures Legacy(s, env.key) != Some(Pair(Strip(username), password))
    ensures Legacy(Add(s, username, password, note, env).0, env.key) == Legacy(s, env.key)
  {
  }

  lemma LegacyRowThenList(s: Store, key: Option<KeyId>, p: Pair)
    ensures HasPair(ShownRows(s, key), p) <==> Legacy(s, key) == Some(p) || HasPair(Parse(Plain(s.list, key)), p)
  {
    var (rows, list) := (ShownRows(s, key), Parse(Plain(s.list, key)));
    if Legacy(s, key).Some? {
      var first := Credential(Legacy(s, key).value, LEGACY_LABEL, false);
      assert rows == [first] + list;
      HasPairOfCons(first, list, p);
    } else {
      assert rows == list;
    }
  }

  /** And without a write: the key file changes so that only the legacy pair becomes unreadable, while
      the list is still legacy plaintext. The revision still matches, positions shift by one, and
      the row after the shown one is removed. (One that becomes readable shifts them back.) */
  lemma ChangedKeyShiftsTheRow()
    ensures var items := JsonList([Entry("root", "a", ""), Entry("root", "b", "")]);
            var s := Store(Clear(items), Sealed(2, 0, "c"), "", false, 1);
            && ShownRows(s, Some(2))[1].pair == Pair("root", "a")
            && Remove(s, 1, RevisionOf(s), Env(Some(1), true, false)).1 == Removed(Pair("root", "b"), false)
  {
    var (a, b) := (Entry("root", "a", ""), Entry("root", "b", ""));
    assert [a, b][..1] == [a] && [a][..0] == [];
    assert ParseItems([]) == [];
    assert ParseItems([a]) == [CredentialOf(a)];
    assert ParseItems([a, b]) == [CredentialOf(a), CredentialOf(b)];
  }

  // ---- what an add and a removal come to, told beforehand --------------------------------------------------

  predicate IsFull(text: ListText) {
    match text
    case Blank => true
    case NotAList => false
    case JsonList(items) =>
      forall i :: 0 <= i < |items| ==> items[i].Entry? && items[i].username != "" && items[i].password != ""
  }

  /** The stored list, if there is one, can be decrypted and is a list of nothing but credentials. */
  predicate ReadsInFull(c: Cell<ListText>, key: Option<KeyId>) {
    match c
    case Unset => true
    case Empty => true
    case Clear(text) => IsFull(text)
    case Sealed(k, _, text) => key == Some(k) && IsFull(text)
  }

  lemma ReadableReadsInFull(c: Cell<ListText>, key: Option<KeyId>)
    ensures Unreadable(c, key) <==> !ReadsInFull(c, key)
  {
  }

  /** The default user's password can be decrypted and is not empty. */
  predicate HasLegacy(s: Store, key: Option<KeyId>) {
    match s.legacyPassword
    case Unset => false
    case Empty => false
    case Clear(password) => password != ""
    case Sealed(k, _, password) => key == Some(k) && password != ""
  }

  function Listed(s: Store, key: Option<KeyId>): seq<Credential> {
    Parse(Plain(s.list, key))
  }

  lemma ShownIsLegacyAndListed(s: Store, key: Option<KeyId>)
    ensures |ShownRows(s, key)| == |Listed(s, key)| + if HasLegacy(s, key) then 1 else 0
    ensures Legacy(s, key).Some? <==> HasLegacy(s, key)
  {
  }

  /** Every outcome of an add, by the first thing that stands in its way: the posture, an incomplete pair,
      a list that cannot be read in full, the pair among the rows shown, three rows shown, no key
      or no database to write with. */
  lemma AddIsDecidedBeforehand(s: Store, username: string, password: string, note: string, env: Env)
    ensures var (rows, pair) := (ShownRows(s, env.key), Pair(Strip(username), password));
            Add(s, username, password, note, env).1 ==
              if s.promptAlways then Refused(PromptAlways)
              else if pair.username == "" || password == "" then Refused(Incomplete)
              else if !ReadsInFull(s.list, env.key) then Refused(ListUnreadable)
              else if HasPair(rows, pair) then AlreadyThere
              else if |rows| >= 3 then Refused(CapReached)
              else if env.key.None? || !env.canWrite then WriteFailed
              else Added
  {
    ReadableReadsInFull(s.list, env.key);
    ShownIsLegacyAndListed(s, env.key);
    LegacyRowThenList(s, env.key, Pair(Strip(username), password));
  }

  /** And of a removal: another revision than the settings have, then for the legacy pair at position 0 a
      database that fails or stops, and for any other position the list, the place, the key and the
      database. */
  lemma RemovalIsDecidedBeforehand(s: Store, position: int, revision: Revision, env: Env)
    ensures var legacy := HasLegacy(s, env.key);
            var (at, listed) := (if legacy then position - 1 else position, Listed(s, env.key));
            Remove(s, position, revision, env).1 ==
              if revision != Revision(s.list, s.legacyPassword, s.legacyUser) then Refused(Stale)
              else if legacy && position == 0 then
                if !env.canWrite || env.interrupted then WriteFailed
                else Removed(ShownRows(s, env.key)[0].pair, true)
              else if !ReadsInFull(s.list, env.key) then Refused(ListUnreadable)
              else if at < 0 || at >= |listed| then Refused(Stale)
              else if env.key.None? || !env.canWrite then WriteFailed
              else Removed(listed[at].pair, false)
  {
    ReadableReadsInFull(s.list, env.key);
    ShownIsLegacyAndListed(s, env.key);
  }

  /** Reading encrypts: a list or password still in the clear is stored encrypted under the present key by
      any read of it that has one and can write, and is otherwise left as it is. */
  lemma ReadingEncrypts(s: Store, env: Env)
    ensures var after := Step(s, ReadOp(env));
            && (if s.list.Clear? && env.key.Some? && env.canWrite
                then after.list.Sealed? && after.list.key == env.key.value && after.list.value == s.list.value
                else after.list == s.list)
            && (if s.legacyPassword.Clear? && env.key.Some? && env.canWrite
                then after.legacyPassword.Sealed? && after.legacyPassword.key == env.key.value
                     && after.legacyPassword.value == s.legacyPassword.value
                else after.legacyPassword == s.legacyPassword)
            && after.legacyUser == s.legacyUser && after.promptAlways == s.promptAlways
  {
  }

  // ---- whole runs -------------------------------------------------------------------------------------

  /** Everything that can happen to the three settings: this program's own adds, removals and
      reads, and whatever other writers set or delete through the same store. */
  datatype Op =
    | AddOp(username: string, password: string, note: string, env: Env)
    | RemoveOp(position: int, revision: Revision, env: Env)
    | ReadOp(env: Env)
    | SetList(text: ListText, env: Env)
    | EmptyList
    | DeleteList
    | SetLegacyPassword(password: string, env: Env)
    | DeleteLegacyPassword
    | SetLegacyUser(username: string)
    | SetPosture(on: bool)

  function Step(s: Store, op: Op): Store {
    match op
    case AddOp(username, password, note, env) => Add(s, username, password, note, env).0
    case RemoveOp(position, revision, env) => Remove(s, position, revision, env).0
    case ReadOp(env) => AfterReadLegacy(AfterReadList(s, env), env)
    case SetList(text, env) =>
      if CanSeal(env) then s.(list := Sealed(env.key.value, s.nextRandom, text), nextRandom := s.nextRandom + 1) else s
    case EmptyList => s.(list := Empty)
    case DeleteList => s.(list := Unset)
    case SetLegacyPassword(password, env) =>
      if password == "" then s.(legacyPassword := Empty)
      else if CanSeal(env) then
        s.(legacyPassword := Sealed(env.key.value, s.nextRandom, password), nextRandom := s.nextRandom + 1)
      else s
    case DeleteLegacyPassword => s.(legacyPassword := Unset)
    case SetLegacyUser(username) => s.(legacyUser := username)
    case SetPosture(on) => s.(promptAlways := on)
  }

  /** What other writers leave behind, as anybody reads it: a secret they set is read back under the key it
      was set under and by no other, unless there was no key or nothing could be written; an emptied
      or deleted one by nobody; and nothing else changes. */
  lemma OtherWritersInFull(s: Store, text: ListText, password: string, username: string, on: bool, env: Env)
    ensures var t := Step(s, SetList(text, env));
            && (env.key.Some? && env.canWrite ==>
                  forall key :: Plain(t.list, key) == if key == env.key then Some(text) else None)
            && (env.key.None? || !env.canWrite ==> t == s)
            && t.(list := s.list, nextRandom := s.nextRandom) == s
    ensures var t := Step(s, SetLegacyPassword(password, env));
            && (password != "" && env.key.Some? && env.canWrite ==>
                  forall key :: Plain(t.legacyPassword, key) == if key == env.key then Some(password) else None)
            && (password != "" && (env.key.None? || !env.canWrite) ==> t == s)
            && (password == "" ==> t.legacyPassword == Empty)
            && t.(legacyPassword := s.legacyPassword, nextRandom := s.nextRandom) == s
    ensures Step(s, EmptyList) == s.(list := Empty) && Step(s, DeleteList) == s.(list := Unset)
    ensures Step(s, DeleteLegacyPassword) == s.(legacyPassword := Unset)
    ensures Step(s, SetLegacyUser(username)) == s.(legacyUser := username)
    ensures Step(s, SetPosture(on)) == s.(promptAlways := on)
  {
  }

  function Run(s: Store, ops: seq<Op>): Store
    decreases |ops|
  {
    if ops == [] then s else Run(Step(s, ops[0]), ops[1..])
  }

  /** Random values in use have been drawn. */
  predicate Drawn<V>(c: Cell<V>, nextRandom: nat) {
    c.Sealed? ==> c.nonce < nextRandom
  }

  predicate Sound(s: Store) {
    Drawn(s.list, s.nextRandom) && Drawn(s.legacyPassword, s.nextRandom)
  }

  /** This cell held `was` and never will again. */
  predicate Gone<V(==)>(was: Cell<V>, now: Cell<V>, nextRandom: nat) {
    (was.Clear? || (was.Sealed? && was.nonce < nextRandom)) && now != was
  }

  /** Either of the two secrets the token stands for is gone for good. */
  predicate Spent(revision: Revision, s: Store) {
    || Gone(revision.list, s.list, s.nextRandom)
    || Gone(revision.legacyPassword, s.legacyPassword, s.nextRandom)
  }

  /** Every change to a cell keeps it, empties it, or seals it under a value not used before. */
  ghost predicate Moves<V>(before: Cell<V>, after: Cell<V>, drawn: nat, nextRandom: nat) {
    after == before || after == Unset || after == Empty || (after.Sealed? && drawn <= after.nonce < nextRandom)
  }

  lemma StepMoves(s: Store, op: Op)
    ensures var after := Step(s, op);
            && s.nextRandom <= after.nextRandom
            && Moves(s.list, after.list, s.nextRandom, after.nextRandom)
            && Moves(s.legacyPassword, after.legacyPassword, s.nextRandom, after.nextRandom)
  {
    match op
    case AddOp(username, password, note, env) => AddMoves(s, username, password, note, env);
    case RemoveOp(position, revision, env) => RemoveMoves(s, position, revision, env);
    case _ =>
  }

  lemma AddMoves(s: Store, username: string, password: string, note: string, env: Env)
    ensures var after := Add(s, username, password, note, env).0;
            && s.nextRandom <= after.nextRandom
            && Moves(s.list, after.list, s.nextRandom, after.nextRandom)
            && Moves(s.legacyPassword, after.legacyPassword, s.nextRandom, after.nextRandom)
  {
  }

  lemma RemoveAtMoves(s: Store, at: int, env: Env)
    ensures var after := RemoveAt(s, at, env).0;
            && s.nextRandom <= after.nextRandom && after.legacyPassword == s.legacyPassword
            && Moves(s.list, after.list, s.nextRandom, after.nextRandom)
  {
  }

  lemma RemoveMoves(s: Store, position: int, revision: Revision, env: Env)
    ensures var after := Remove(s, position, revision, env).0;
            && s.nextRandom <= after.nextRandom
            && Moves(s.list, after.list, s.nextRandom, after.nextRandom)
            && Moves(s.legacyPassword, after.legacyPassword, s.nextRandom, after.nextRandom)
  {
    RemoveAtMoves(AfterReadLegacy(s, env), ListIndex(s, env.key, position), env);
  }

  lemma {:induction false} SpentStaysSpent(s: Store, revision: Revision, ops: seq<Op>)
    requires Sound(s) && Spent(revision, s)
    ensures Sound(Run(s, ops)) && Spent(revision, Run(s, ops))
    decreases |ops|
  {
    if ops != [] {
      StepMoves(s, ops[0]);
      SpentStaysSpent(Step(s, ops[0]), revision, ops[1..]);
    }
  }

  lemma RemovalSpendsItsRevision(s: Store, position: int, revision: Revision, env: Env)
    requires Sound(s) && Remove(s, position, revision, env).1.Removed?
    ensures var after := Remove(s, position, revision, env).0; Sound(after) && Spent(revision, after)
  {
    RemoveMoves(s, position, revision, env);
    RemovalTakesOneCredential(s, position, revision, env);
  }

  /** Two removals carrying the same revision cannot both succeed, whatever happens in between:
      a form resubmitted by a reload removes nothing. */
  lemma OneRemovalPerRevision(
    s: Store, revision: Revision, first: int, env: Env, between: seq<Op>, second: int, again: Env)
    requires Sound(s) && Remove(s, first, revision, env).1.Removed?
    ensures Remove(Run(Remove(s, first, revision, env).0, between), second, revision, again).1 == Refused(Stale)
  {
    RemovalSpendsItsRevision(s, first, revision, env);
    SpentStaysSpent(Remove(s, first, revision, env).0, revision, between);
  }

  /** A list no step of a run can read in full: every key file in use is the wrong one, or it
      holds something that is not a complete credential. */
  ghost predicate NeverReadInFull(c: Cell<ListText>, ops: seq<Op>) {
    || (c.Sealed? && forall op <- ops :: (op.AddOp? || op.RemoveOp? || op.ReadOp?) ==> op.env.key != Some(c.key))
    || ((c.Clear? || c.Sealed?) && (c.value.NotAList? || (c.value.JsonList? && !AllComplete(c.value.items))))
  }

  lemma UnreadableRemovalFails(s: Store, position: int, revision: Revision, env: Env)
    requires Unreadable(s.list, env.key)
    ensures Kept(s.list, Remove(s, position, revision, env).0.list)
  {
    if Remove(s, position, revision, env).1.Removed? {
      RemovalTakesOneCredential(s, position, revision, env);
    } else {
      FailedRemovalKeepsEverything(s, position, revision, env);
    }
  }

  /** Such a list is never rewritten: unless a writer sets or deletes the list itself, it is there
      after any number of adds, removals, reads and writes of the other settings, the same text, at
      most encrypted; restoring the right key recovers it. */
  lemma {:induction false} UnreadableListIsNeverRewritten(s: Store, ops: seq<Op>)
    requires forall op <- ops :: !op.SetList? && !op.EmptyList? && !op.DeleteList?
    requires NeverReadInFull(s.list, ops)
    ensures Kept(s.list, Run(s, ops).list)
    decreases |ops|
  {
    if ops != [] {
      assert ops[0] in ops;
      var op := ops[0];
      assert op.AddOp? || op.RemoveOp? ==> Unreadable(s.list, op.env.key);
      match op {
        case AddOp(username, password, note, env) => AddChangesOnlyTheList(s, username, password, note, env);
        case RemoveOp(position, revision, env) => UnreadableRemovalFails(s, position, revision, env);
        case _ =>
      }
      assert Kept(s.list, Step(s, op).list);
      UnreadableListIsNeverRewritten(Step(s, op), ops[1..]);
    }
  }
}

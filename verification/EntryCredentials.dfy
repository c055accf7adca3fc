/** Which credentials one onboarding pass may try, and in what order. */
module EntryCredentials {
  import opened Wrappers

  datatype Pair = Pair(username: string, password: string)
  datatype Credential = Credential(pair: Pair, note: string, fleetRoot: bool)

  const FLEET_ROOT_LABEL := "fleet root password"
  const LEGACY_LABEL := "fleet default"
  const MAX_STORED := 3
  const MAX_ATTEMPTS_PER_PASS := MAX_STORED

  // ---- what is stored -------------------------------------------------------------------------

  /** One element of the stored JSON list: a credential, or anything else (a half-written pair,
      another kind of value). */
  datatype Item = Entry(username: string, password: string, note: string) | Junk

  /** The text stored as the entry list, as the JSON reader sees it. */
  datatype ListText = Blank | JsonList(items: seq<Item>) | NotAList

  predicate IsComplete(item: Item) {
    item.Entry? && item.username != "" && item.password != ""
  }

  function CredentialOf(item: Item): Credential
    requires IsComplete(item)
  {
    Credential(Pair(item.username, item.password), item.note, false)
  }

  function ParseItems(items: seq<Item>): seq<Credential>
    decreases |items|
  {
    if items == [] then []
    else ParseItems(items[..|items| - 1])
         + if IsComplete(items[|items| - 1]) then [CredentialOf(items[|items| - 1])] else []
  }

  function Parse(raw: Option<ListText>): seq<Credential> {
    if raw.Some? && raw.value.JsonList? then ParseItems(raw.value.items) else []
  }

  /** Everything one pass reads from the settings; a secret that cannot be decrypted reads as
      `None`. The history maps a fingerprint to the time of its last success. */
  datatype History = History(salt: string, lastSuccess: map<string, real>)
  datatype Reading = Reading(
    promptAlways: bool, list: Option<ListText>, legacyUser: string, legacyPassword: Option<string>,
    history: Option<History>, rootPassword: Option<string>)

  function LegacyPair(r: Reading): Pair
    requires r.legacyPassword.Some?
  {
    Pair(if r.legacyUser != "" then r.legacyUser else "root", r.legacyPassword.value)
  }

  /** The rows the settings page shows: the legacy pair first when set, duplicates kept. */
  function StoredRows(r: Reading): seq<Credential> {
    (if r.legacyPassword.Some? && r.legacyPassword.value != ""
     then [Credential(LegacyPair(r), LEGACY_LABEL, false)] else [])
    + Parse(r.list)
  }

  predicate HasPair(rows: seq<Credential>, p: Pair) {
    exists i :: 0 <= i < |rows| && rows[i].pair == p
  }

  /** Each pair once, where it first stands. */
  function Deduped(rows: seq<Credential>): seq<Credential>
    decreases |rows|
  {
    if rows == [] then []
    else
      var (before, last) := (rows[..|rows| - 1], rows[|rows| - 1]);
      if HasPair(before, last.pair) then Deduped(before) else Deduped(before) + [last]
  }

  predicate Distinct(rows: seq<Credential>) {
    forall i, j :: 0 <= i < j < |rows| ==> rows[i].pair != rows[j].pair
  }

  lemma {:induction false} DedupedKeepsEachPairOnce(rows: seq<Credential>)
    ensures Distinct(Deduped(rows))
    ensures forall p :: HasPair(Deduped(rows), p) <==> HasPair(rows, p)
    ensures forall c :: c in Deduped(rows) ==> c in rows
    decreases |rows|
  {
    if rows != [] {
      var (before, last) := (rows[..|rows| - 1], rows[|rows| - 1]);
      assert rows == before + [last];
      DedupedKeepsEachPairOnce(before);
      forall p
        ensures HasPair(Deduped(rows), p) <==> HasPair(rows, p)
      {
        HasPairOfSnoc(before, last, p);
        HasPairOfSnoc(Deduped(before), last, p);
      }
      if !HasPair(before, last.pair) {
        assert !HasPair(Deduped(before), last.pair);
      }
    }
  }

  lemma HasPairOfSnoc(rows: seq<Credential>, c: Credential, p: Pair)
    ensures HasPair(rows + [c], p) <==> HasPair(rows, p) || c.pair == p
  {
    assert (rows + [c])[|rows|] == c;
    if HasPair(rows, p) {
      var i :| 0 <= i < |rows| && rows[i].pair == p;
      assert (rows + [c])[i] == rows[i];
    }
  }

  lemma HasPairOfCons(c: Credential, rows: seq<Credential>, p: Pair)
    ensures HasPair([c] + rows, p) <==> c.pair == p || HasPair(rows, p)
  {
    assert ([c] + rows)[0] == c;
    if HasPair(rows, p) {
      var i :| 0 <= i < |rows| && rows[i].pair == p;
      assert ([c] + rows)[i + 1] == rows[i];
    }
  }

  // ---- recency --------------------------------------------------------------------------------

  /** What the keyed hash is taken over; the hash itself is taken to be injective. */
  function Fingerprint(salt: string, p: Pair): string {
    salt + p.username + "\0" + p.password
  }

  predicate NulFree(s: string) {
    forall i :: 0 <= i < |s| ==> s[i] != '\0'
  }

  lemma OnlyNulIsBetween(a: string, b: string, i: nat)
    requires NulFree(a) && NulFree(b) && i < |a + "\0" + b|
    ensures (a + "\0" + b)[i] == '\0' <==> i == |a|
  {
    var s := a + "\0" + b;
    if i < |a| {
      assert s[i] == a[i];
    } else if i > |a| {
      assert s[i] == b[i - |a| - 1];
    }
  }

  lemma NulFreePairIsAlone(salt: string, p: Pair, q: Pair)
    requires NulFree(p.username) && NulFree(p.password) && Fingerprint(salt, q) == Fingerprint(salt, p)
    ensures q == p
  {
    var (u, v) := (q.username + "\0" + q.password, p.username + "\0" + p.password);
    assert Fingerprint(salt, q) == salt + u && Fingerprint(salt, p) == salt + v;
    assert u == (salt + u)[|salt|..] == (salt + v)[|salt|..] == v;
    assert u[|q.username|] == '\0';
    OnlyNulIsBetween(p.username, p.password, |q.username|);
    SameSplit(q.username, q.password, p.username, p.password);
  }

  lemma SameSplit(a: string, x: string, b: string, y: string)
    requires a + "\0" + x == b + "\0" + y && |a| == |b|
    ensures a == b && x == y
  {
    var s, t := a + "\0" + x, b + "\0" + y;
    assert a == s[..|a|] == t[..|b|] == b;
    assert x == s[|a| + 1..] == t[|b| + 1..] == y;
  }

  /** The pair that splits `p` at a NUL of its own instead of the one put between its halves. */
  function OtherSplit(p: Pair): (q: Pair)
    requires !(NulFree(p.username) && NulFree(p.password))
  {
    if !NulFree(p.username) then
      var i := FirstNul(p.username);
      Pair(p.username[..i], p.username[i + 1..] + "\0" + p.password)
    else
      var i := FirstNul(p.password);
      Pair(p.username + "\0" + p.password[..i], p.password[i + 1..])
  }

  function FirstNul(s: string): (i: nat)
    requires !NulFree(s)
    ensures i < |s| && s[i] == '\0' && NulFree(s[..i])
  {
    if s[0] == '\0' then 0
    else
      assert !NulFree(s[1..]) by {
        var k :| 0 <= k < |s| && s[k] == '\0';
        assert s[1..][k - 1] == '\0';
      }
      var i := 1 + FirstNul(s[1..]);
      assert forall k :: 0 < k < i ==> s[..i][k] == s[1..][..i - 1][k - 1];
      i
  }

  lemma OtherSplitClashes(salt: string, p: Pair)
    requires !(NulFree(p.username) && NulFree(p.password))
    ensures OtherSplit(p) != p && Fingerprint(salt, OtherSplit(p)) == Fingerprint(salt, p)
  {
    if !NulFree(p.username) {
      var i := FirstNul(p.username);
      var (a, b) := (p.username[..i], p.username[i + 1..]);
      assert p.username == a + "\0" + b;
      assert salt + a + "\0" + (b + "\0" + p.password) == salt + (a + "\0" + b) + "\0" + p.password;
    } else {
      var i := FirstNul(p.password);
      var (a, b) := (p.password[..i], p.password[i + 1..]);
      assert p.password == a + "\0" + b;
      assert salt + (p.username + "\0" + a) + "\0" + b == salt + p.username + "\0" + (a + "\0" + b);
    }
  }

  /** A pair has its fingerprint to itself exactly when neither half holds a NUL. */
  lemma FingerprintNamesOnePair(salt: string, p: Pair)
    ensures (forall q :: Fingerprint(salt, q) == Fingerprint(salt, p) ==> q == p)
            <==> NulFree(p.username) && NulFree(p.password)
  {
    if NulFree(p.username) && NulFree(p.password) {
      forall q | Fingerprint(salt, q) == Fingerprint(salt, p)
        ensures q == p
      {
        NulFreePairIsAlone(salt, p, q);
      }
    } else {
      OtherSplitClashes(salt, p);
    }
  }

  function When(h: History, p: Pair): real {
    if Fingerprint(h.salt, p) in h.lastSuccess then h.lastSuccess[Fingerprint(h.salt, p)] else 0.0
  }

  /** Put `c` in front of everything that is not more recent. */
  function InsertByTime(c: Credential, sorted: seq<Credential>, h: History): seq<Credential>
    decreases |sorted|
  {
    if sorted == [] || When(h, c.pair) >= When(h, sorted[0].pair) then [c] + sorted
    else [sorted[0]] + InsertByTime(c, sorted[1..], h)
  }

  function SortByTime(rows: seq<Credential>, h: History): seq<Credential>
    decreases |rows|
  {
    if rows == [] then [] else InsertByTime(rows[0], SortByTime(rows[1..], h), h)
  }

  function RecentFirst(rows: seq<Credential>, h: Option<History>): seq<Credential> {
    if h.None? || h.value.lastSuccess == map[] then rows else SortByTime(rows, h.value)
  }

  predicate NewestFirst(rows: seq<Credential>, h: History) {
    forall i, j :: 0 <= i < j < |rows| ==> When(h, rows[i].pair) >= When(h, rows[j].pair)
  }

  /** The rows last successful at exactly `t`, in their order. */
  function AtTime(rows: seq<Credential>, h: History, t: real): seq<Credential>
    decreases |rows|
  {
    if rows == [] then []
    else (if When(h, rows[0].pair) == t then [rows[0]] else []) + AtTime(rows[1..], h, t)
  }

  /** A stable sort, newest first: rows of equal time keep their order and none is lost or added. */
  ghost predicate IsStableSort(sorted: seq<Credential>, rows: seq<Credential>, h: History) {
    NewestFirst(sorted, h) && forall t :: AtTime(sorted, h, t) == AtTime(rows, h, t)
  }

  lemma {:induction false} InsertKeepsOrder(c: Credential, sorted: seq<Credential>, h: History)
    requires NewestFirst(sorted, h)
    ensures NewestFirst(InsertByTime(c, sorted, h), h)
    ensures forall x :: x in InsertByTime(c, sorted, h) <==> x == c || x in sorted
    decreases |sorted|
  {
    if sorted != [] && When(h, c.pair) < When(h, sorted[0].pair) {
      var (first, rest) := (sorted[0], InsertByTime(c, sorted[1..], h));
      assert forall i, j :: 0 <= i < j < |sorted[1..]| ==>
               sorted[1..][i] == sorted[i + 1] && sorted[1..][j] == sorted[j + 1];
      InsertKeepsOrder(c, sorted[1..], h);
      assert forall x :: x in sorted <==> x == first || x in sorted[1..];
      forall j | 0 <= j < |rest|
        ensures When(h, first.pair) >= When(h, rest[j].pair)
      {
        assert rest[j] in rest;
        if rest[j] != c {
          var k :| 0 <= k < |sorted[1..]| && sorted[1..][k] == rest[j];
          assert sorted[k + 1] == rest[j];
        }
      }
      ConsIsNewestFirst(first, rest, h);
    } else {
      forall j | 0 <= j < |sorted|
        ensures When(h, c.pair) >= When(h, sorted[j].pair)
      {
      }
      ConsIsNewestFirst(c, sorted, h);
    }
  }

  lemma ConsIsNewestFirst(c: Credential, rest: seq<Credential>, h: History)
    requires NewestFirst(rest, h) && forall j :: 0 <= j < |rest| ==> When(h, c.pair) >= When(h, rest[j].pair)
    ensures NewestFirst([c] + rest, h)
  {
    var rows := [c] + rest;
    forall i, j | 0 <= i < j < |rows|
      ensures When(h, rows[i].pair) >= When(h, rows[j].pair)
    {
      assert rows[j] == rest[j - 1];
      if i > 0 {
        assert rows[i] == rest[i - 1];
      }
    }
  }

  lemma {:induction false} InsertIsStable(c: Credential, sorted: seq<Credential>, h: History, t: real)
    ensures AtTime(InsertByTime(c, sorted, h), h, t)
         == (if When(h, c.pair) == t then [c] else []) + AtTime(sorted, h, t)
    decreases |sorted|
  {
    if sorted == [] || When(h, c.pair) >= When(h, sorted[0].pair) {
      assert ([c] + sorted)[1..] == sorted;
    } else {
      InsertIsStable(c, sorted[1..], h, t);
      var rest := InsertByTime(c, sorted[1..], h);
      assert ([sorted[0]] + rest)[1..] == rest;
    }
  }

  lemma {:induction false} SortIsStable(rows: seq<Credential>, h: History)
    ensures IsStableSort(SortByTime(rows, h), rows, h)
    ensures forall x :: x in SortByTime(rows, h) <==> x in rows
    decreases |rows|
  {
    if rows != [] {
      SortIsStable(rows[1..], h);
      var sorted := SortByTime(rows[1..], h);
      InsertKeepsOrder(rows[0], sorted, h);
      forall t
        ensures AtTime(SortByTime(rows, h), h, t) == AtTime(rows, h, t)
      {
        InsertIsStable(rows[0], sorted, h, t);
      }
      assert forall x :: x in rows <==> x == rows[0] || x in rows[1..];
    }
  }

  lemma {:induction false} AtTimeMembers(rows: seq<Credential>, h: History, c: Credential)
    ensures c in AtTime(rows, h, When(h, c.pair)) <==> c in rows
    decreases |rows|
  {
    if rows != [] {
      AtTimeMembers(rows[1..], h, c);
      assert c in rows <==> c == rows[0] || c in rows[1..];
    }
  }

  lemma SameTopTime(a: seq<Credential>, b: seq<Credential>, h: History)
    requires NewestFirst(a, h) && NewestFirst(b, h) && a != [] && b != []
    requires a[0] in b && b[0] in a
    ensures When(h, a[0].pair) == When(h, b[0].pair)
  {
  }

  /** Two sorted lists with the same rows at each time start with the same row. */
  lemma SameHead(a: seq<Credential>, b: seq<Credential>, h: History)
    requires NewestFirst(a, h) && NewestFirst(b, h) && a != [] && b != []
    requires forall t :: AtTime(a, h, t) == AtTime(b, h, t)
    ensures a[0] == b[0]
  {
    AtTimeMembers(a, h, a[0]);
    AtTimeMembers(b, h, a[0]);
    AtTimeMembers(b, h, b[0]);
    AtTimeMembers(a, h, b[0]);
    SameTopTime(a, b, h);
    assert AtTime(a, h, When(h, a[0].pair))[0] == a[0];
    assert AtTime(b, h, When(h, b[0].pair))[0] == b[0];
  }

  lemma SameTail(a: seq<Credential>, b: seq<Credential>, h: History, t: real)
    requires a != [] && b != [] && a[0] == b[0] && AtTime(a, h, t) == AtTime(b, h, t)
    ensures AtTime(a[1..], h, t) == AtTime(b[1..], h, t)
  {
    var front := if When(h, a[0].pair) == t then [a[0]] else [];
    assert AtTime(a, h, t)[|front|..] == AtTime(a[1..], h, t);
    assert AtTime(b, h, t)[|front|..] == AtTime(b[1..], h, t);
  }

  /** There is only one stable sort of a list. */
  lemma {:induction false} StableSortIsUnique(a: seq<Credential>, b: seq<Credential>, h: History)
    requires NewestFirst(a, h) && NewestFirst(b, h)
    requires forall t :: AtTime(a, h, t) == AtTime(b, h, t)
    ensures a == b
    decreases |a|
  {
    if a == [] {
      if b != [] {
        AtTimeMembers(b, h, b[0]);
        AtTimeMembers(a, h, b[0]);
      }
    } else {
      AtTimeMembers(a, h, a[0]);
      AtTimeMembers(b, h, a[0]);
      SameHead(a, b, h);
      forall t
        ensures AtTime(a[1..], h, t) == AtTime(b[1..], h, t)
      {
        SameTail(a, b, h, t);
      }
      TailIsNewestFirst(a, h);
      TailIsNewestFirst(b, h);
      StableSortIsUnique(a[1..], b[1..], h);
      assert a == [a[0]] + a[1..] && b == [b[0]] + b[1..];
    }
  }

  lemma TailIsNewestFirst(rows: seq<Credential>, h: History)
    requires rows != [] && NewestFirst(rows, h)
    ensures NewestFirst(rows[1..], h)
  {
  }

  // ---- the pass ---------------------------------------------------------------------------------

  function ListEntryCredentials(r: Reading): seq<Credential> {
    if r.promptAlways then [] else RecentFirst(Deduped(StoredRows(r)), r.history)
  }

  /** The entry credentials within the bound of one pass. */
  function Entries(r: Reading): seq<Credential> {
    var creds := ListEntryCredentials(r);
    if |creds| > MAX_ATTEMPTS_PER_PASS then creds[..MAX_ATTEMPTS_PER_PASS] else creds
  }

  /** The program's own attempt; the prompt-always posture does not suppress it. */
  function FleetRootAttempt(r: Reading): seq<Credential> {
    if r.rootPassword.None? || r.rootPassword.value == "" then []
    else [Credential(Pair("root", r.rootPassword.value), FLEET_ROOT_LABEL, true)]
  }

  function Without(rows: seq<Credential>, p: Pair): seq<Credential>
    decreases |rows|
  {
    if rows == [] then []
    else (if rows[0].pair == p then [] else [rows[0]]) + Without(rows[1..], p)
  }

  function InOrder(fleetRoot: seq<Credential>, entries: seq<Credential>): seq<Credential> {
    if fleetRoot == [] then entries else fleetRoot + Without(entries, fleetRoot[0].pair)
  }

  function AttemptOrder(r: Reading): seq<Credential> {
    InOrder(FleetRootAttempt(r), Entries(r))
  }

  lemma {:induction false} WithoutKeepsTheRest(rows: seq<Credential>, p: Pair)
    ensures |Without(rows, p)| <= |rows|
    ensures forall c :: c in Without(rows, p) <==> c in rows && c.pair != p
    ensures Distinct(rows) ==> Distinct(Without(rows, p))
    decreases |rows|
  {
    if rows != [] {
      WithoutKeepsTheRest(rows[1..], p);
      assert forall c :: c in rows <==> c == rows[0] || c in rows[1..];
      var rest := Without(rows[1..], p);
      if Distinct(rows) {
        assert Distinct(rows[1..]);
        forall i | 0 <= i < |rest|
          ensures rest[i].pair != rows[0].pair
        {
          assert rest[i] in rows[1..];
          var k :| 0 <= k < |rows[1..]| && rows[1..][k] == rest[i];
          assert rows[k + 1] == rest[i];
        }
      }
    }
  }

  lemma {:induction false} SortKeepsDistinct(rows: seq<Credential>, h: History)
    requires Distinct(rows)
    ensures Distinct(SortByTime(rows, h))
    decreases |rows|
  {
    if rows != [] {
      assert Distinct(rows[1..]);
      SortKeepsDistinct(rows[1..], h);
      SortIsStable(rows[1..], h);
      var sorted := SortByTime(rows[1..], h);
      forall i | 0 <= i < |sorted|
        ensures sorted[i].pair != rows[0].pair
      {
        assert sorted[i] in rows[1..];
        var k :| 0 <= k < |rows[1..]| && rows[1..][k] == sorted[i];
        assert rows[k + 1] == sorted[i];
      }
      InsertKeepsDistinct(rows[0], sorted, h);
    }
  }

  lemma {:induction false} InsertKeepsDistinct(c: Credential, sorted: seq<Credential>, h: History)
    requires Distinct(sorted) && forall i :: 0 <= i < |sorted| ==> sorted[i].pair != c.pair
    ensures Distinct(InsertByTime(c, sorted, h))
    ensures forall p :: HasPair(InsertByTime(c, sorted, h), p) ==> p == c.pair || HasPair(sorted, p)
    decreases |sorted|
  {
    if sorted == [] || When(h, c.pair) >= When(h, sorted[0].pair) {
      var r := [c] + sorted;
      assert forall i :: 0 < i < |r| ==> r[i] == sorted[i - 1];
    } else {
      InsertKeepsDistinct(c, sorted[1..], h);
      var rest := InsertByTime(c, sorted[1..], h);
      var r := [sorted[0]] + rest;
      assert forall i :: 0 < i < |r| ==> r[i] == rest[i - 1];
      forall i | 0 <= i < |rest|
        ensures rest[i].pair == c.pair || HasPair(sorted[1..], rest[i].pair)
      {
        assert HasPair(rest, rest[i].pair);
      }
      assert forall k :: 0 <= k < |sorted[1..]| ==> sorted[1..][k] == sorted[k + 1];
    }
  }

  lemma EntriesAreDistinct(r: Reading)
    ensures Distinct(Entries(r)) && |Entries(r)| <= MAX_ATTEMPTS_PER_PASS
  {
    DedupedKeepsEachPairOnce(StoredRows(r));
    if r.history.Some? {
      SortKeepsDistinct(Deduped(StoredRows(r)), r.history.value);
    }
  }

  /** `sub` is `whole` with some rows left out. */
  predicate InTheOrderOf(sub: seq<Credential>, whole: seq<Credential>)
    decreases |whole|
  {
    if sub == [] then true
    else if whole == [] then false
    else InTheOrderOf(if sub[0] == whole[0] then sub[1..] else sub, whole[1..])
  }

  lemma {:induction false} OwnOrder(rows: seq<Credential>)
    ensures InTheOrderOf(rows, rows)
    decreases |rows|
  {
    if rows != [] {
      OwnOrder(rows[1..]);
    }
  }

  lemma {:induction false} WithoutKeepsTheOrder(rows: seq<Credential>, p: Pair)
    ensures InTheOrderOf(Without(rows, p), rows)
    decreases |rows|
  {
    if rows != [] {
      WithoutKeepsTheOrder(rows[1..], p);
      var rest := Without(rows[1..], p);
      if rows[0].pair == p {
        assert Without(rows, p) == rest;
        WithoutKeepsTheRest(rows[1..], p);
        assert rest != [] ==> rest[0] in rest;
      } else {
        assert ([rows[0]] + rest)[1..] == rest;
      }
    }
  }

  lemma InOrderIsDistinct(root: Credential, entries: seq<Credential>)
    requires Distinct(entries)
    ensures Distinct(InOrder([root], entries)) && |InOrder([root], entries)| <= 1 + |entries|
    ensures InOrder([root], entries)[0] == root
    ensures forall c :: c in InOrder([root], entries) <==> c == root || (c in entries && c.pair != root.pair)
  {
    WithoutKeepsTheRest(entries, root.pair);
    var rest := Without(entries, root.pair);
    var order := InOrder([root], entries);
    assert order == [root] + rest;
    forall i | 0 <= i < |rest|
      ensures rest[i].pair != root.pair
    {
      assert rest[i] in rest;
    }
    assert forall i :: 0 < i < |order| ==> order[i] == rest[i - 1];
  }

  /** One pass: no pair twice, at most four attempts, the fleet root attempt first when it is
      configured and never crowded out, and then exactly the bounded entries other than it, in
      their order. */
  lemma AttemptOrderIsBounded(r: Reading)
    ensures var (root, entries, order) := (FleetRootAttempt(r), Entries(r), AttemptOrder(r));
            && Distinct(order) && |order| <= 4 && |entries| <= 3
            && (root == [] <==> r.rootPassword.None? || r.rootPassword.value == "")
            && (root != [] ==>
                  order != [] && root == [order[0]]
                  && order[0] == Credential(Pair("root", r.rootPassword.value), "fleet root password", true))
            && (forall c :: c in order <==> c in root || (c in entries && (root == [] || c.pair != root[0].pair)))
            && InTheOrderOf(order[|root|..], entries)
  {
    EntriesAreDistinct(r);
    if FleetRootAttempt(r) != [] {
      InOrderIsDistinct(FleetRootAttempt(r)[0], Entries(r));
      assert FleetRootAttempt(r) == [FleetRootAttempt(r)[0]];
      WithoutKeepsTheOrder(Entries(r), FleetRootAttempt(r)[0].pair);
      assert AttemptOrder(r)[1..] == Without(Entries(r), FleetRootAttempt(r)[0].pair);
    } else {
      assert AttemptOrder(r)[0..] == Entries(r);
      OwnOrder(Entries(r));
    }
  }

  /** A history that cannot be read is one without successes, under whatever salt. */
  function HistoryOf(r: Reading): History {
    if r.history.Some? then r.history.value else History("", map[])
  }

  /** The entry part of a pass, without naming the sort: nothing under the prompt-always posture,
      otherwise any newest-first stable order of the deduplicated rows, cut to three. */
  lemma EntriesAreTheFirstOfTheStableSort(r: Reading, sorted: seq<Credential>)
    requires IsStableSort(sorted, if r.promptAlways then [] else Deduped(StoredRows(r)), HistoryOf(r))
    ensures Entries(r) == if |sorted| > 3 then sorted[..3] else sorted
  {
    var (rows, h) := (if r.promptAlways then [] else Deduped(StoredRows(r)), HistoryOf(r));
    if r.promptAlways || h.lastSuccess == map[] {
      forall i, j | 0 <= i < j < |rows|
        ensures When(h, rows[i].pair) >= When(h, rows[j].pair)
      {
      }
      StableSortIsUnique(sorted, rows, h);
    } else {
      SortIsStable(rows, h);
      forall t
        ensures AtTime(sorted, h, t) == AtTime(SortByTime(rows, h), h, t)
      {
        assert AtTime(sorted, h, t) == AtTime(rows, h, t);
      }
      StableSortIsUnique(sorted, SortByTime(rows, h), h);
    }
  }

  /** `seen` are the pairs of the first `n` rows. */
  ghost predicate Collects(seen: set<Pair>, rows: seq<Credential>, n: nat)
    requires n <= |rows|
  {
    forall p :: p in seen <==> HasPair(rows[..n], p)
  }

  lemma CollectsOneMore(seen: set<Pair>, rows: seq<Credential>, n: nat)
    requires n < |rows| && Collects(seen, rows, n)
    ensures Collects(seen + {rows[n].pair}, rows, n + 1)
    ensures rows[n].pair in seen ==> Collects(seen, rows, n + 1)
  {
    assert rows[..n + 1] == rows[..n] + [rows[n]];
    forall p
      ensures HasPair(rows[..n + 1], p) <==> p in seen || rows[n].pair == p
    {
      HasPairOfSnoc(rows[..n], rows[n], p);
    }
  }

  lemma DedupedOneMore(rows: seq<Credential>, n: nat)
    requires n < |rows|
    ensures Deduped(rows[..n + 1])
         == if HasPair(rows[..n], rows[n].pair) then Deduped(rows[..n]) else Deduped(rows[..n]) + [rows[n]]
  {
    assert rows[..n + 1][..n] == rows[..n];
  }

  /** The rows are gathered one by one, keeping the pairs seen so far. */
  method ListCredentials(r: Reading) returns (creds: seq<Credential>)
    ensures creds == ListEntryCredentials(r)
  {
    if r.promptAlways {
      return [];
    }
    var rows := StoredRows(r);
    creds := [];
    var seen: set<Pair> := {};
    for i := 0 to |rows|
      invariant creds == Deduped(rows[..i]) && Collects(seen, rows, i)
    {
      DedupedOneMore(rows, i);
      CollectsOneMore(seen, rows, i);
      if rows[i].pair !in seen {
        seen := seen + {rows[i].pair};
        creds := creds + [rows[i]];
      }
    }
    assert rows[..|rows|] == rows;
    creds := RecentFirst(creds, r.history);
  }

  // ---- remembering what worked --------------------------------------------------------------------

  predicate IsStored(rows: seq<Credential>, salt: string, fingerprint: string) {
    exists i :: 0 <= i < |rows| && Fingerprint(salt, rows[i].pair) == fingerprint
  }

  /** The salt of the history, or the new one where there is none to go on with. */
  function SaltFor(r: Reading, freshSalt: string): string {
    if r.history.Some? && r.history.value.salt != "" then r.history.value.salt else freshSalt
  }

  /** The history after `c` got in at `now`; `None` leaves the stored history alone. An absent or
      malformed history starts afresh under `freshSalt`. */
  function NoteSuccess(r: Reading, c: Credential, now: real, freshSalt: string): Option<History> {
    var known := if r.history.Some? && r.history.value.salt != "" then r.history.value.lastSuccess else map[];
    var h := History(SaltFor(r, freshSalt), known);
    var fp := Fingerprint(h.salt, c.pair);
    if c.fleetRoot || !IsStored(StoredRows(r), h.salt, fp) then None
    else
      var kept := map f | f in h.lastSuccess && IsStored(StoredRows(r), h.salt, f) :: h.lastSuccess[f];
      Some(History(h.salt, kept[fp := now]))
  }

  ghost predicate LaterThanAll(h: Option<History>, now: real) {
    0.0 < now && (h.Some? ==> forall f :: f in h.value.lastSuccess ==> h.value.lastSuccess[f] < now)
  }

  /** The first row with this fingerprint. */
  function FirstPrinted(rows: seq<Credential>, salt: string, fp: string): Option<Credential>
    decreases |rows|
  {
    if rows == [] then None
    else
      var (before, last) := (FirstPrinted(rows[..|rows| - 1], salt, fp), rows[|rows| - 1]);
      if before.Some? then before else if Fingerprint(salt, last.pair) == fp then Some(last) else None
  }

  /** No row before the pair's first has its fingerprint: nothing can be mistaken for it. */
  ghost predicate NoEarlierClash(rows: seq<Credential>, salt: string, p: Pair) {
    exists i :: 0 <= i < |rows| && rows[i].pair == p
      && forall j :: 0 <= j < i ==> Fingerprint(salt, rows[j].pair) != Fingerprint(salt, p)
  }

  lemma {:induction false} FirstPrintedIsFirst(rows: seq<Credential>, salt: string, fp: string)
    ensures FirstPrinted(rows, salt, fp).Some? <==> IsStored(rows, salt, fp)
    ensures FirstPrinted(rows, salt, fp).Some? ==>
              exists i :: 0 <= i < |rows| && rows[i] == FirstPrinted(rows, salt, fp).value
                && Fingerprint(salt, rows[i].pair) == fp
                && forall j :: 0 <= j < i ==> Fingerprint(salt, rows[j].pair) != fp
    decreases |rows|
  {
    if rows != [] {
      var n := |rows| - 1;
      FirstPrintedIsFirst(rows[..n], salt, fp);
      if IsStored(rows[..n], salt, fp) {
        var i :| 0 <= i < n && Fingerprint(salt, rows[..n][i].pair) == fp;
        assert Fingerprint(salt, rows[i].pair) == fp;
      } else {
        assert forall j :: 0 <= j < n ==> rows[..n][j] == rows[j];
        assert IsStored(rows, salt, fp) ==> Fingerprint(salt, rows[n].pair) == fp;
      }
    }
  }

  lemma NoEarlierClashIsFirstPrinted(rows: seq<Credential>, salt: string, p: Pair)
    requires HasPair(rows, p)
    ensures IsStored(rows, salt, Fingerprint(salt, p))
    ensures FirstPrinted(rows, salt, Fingerprint(salt, p)).Some?
    ensures NoEarlierClash(rows, salt, p) <==> FirstPrinted(rows, salt, Fingerprint(salt, p)).value.pair == p
  {
    FirstPrintedIsFirst(rows, salt, Fingerprint(salt, p));
  }

  lemma {:induction false} DedupedKeepsFirstPrinted(rows: seq<Credential>, salt: string, fp: string)
    ensures FirstPrinted(Deduped(rows), salt, fp) == FirstPrinted(rows, salt, fp)
    decreases |rows|
  {
    if rows != [] {
      var (before, last) := (rows[..|rows| - 1], rows[|rows| - 1]);
      DedupedKeepsFirstPrinted(before, salt, fp);
      if HasPair(before, last.pair) {
        if Fingerprint(salt, last.pair) == fp {
          NoEarlierClashIsFirstPrinted(before, salt, last.pair);
        }
      } else {
        assert (Deduped(before) + [last])[..|Deduped(before)|] == Deduped(before);
      }
    }
  }

  lemma {:induction false} AtTimeOfSnoc(rows: seq<Credential>, c: Credential, h: History, t: real)
    ensures AtTime(rows + [c], h, t) == AtTime(rows, h, t) + if When(h, c.pair) == t then [c] else []
    decreases |rows|
  {
    if rows == [] {
      assert ([] + [c])[1..] == [];
    } else {
      assert (rows + [c])[1..] == rows[1..] + [c];
      AtTimeOfSnoc(rows[1..], c, h, t);
    }
  }

  /** Only one fingerprint has succeeded at `now`: the first row of that time is its first row. */
  lemma {:induction false} FirstAtTimeIsFirstPrinted(rows: seq<Credential>, h: History, fp: string, now: real)
    requires forall p :: When(h, p) == now <==> Fingerprint(h.salt, p) == fp
    ensures match FirstPrinted(rows, h.salt, fp)
            case None => AtTime(rows, h, now) == []
            case Some(c) => AtTime(rows, h, now) != [] && AtTime(rows, h, now)[0] == c
    decreases |rows|
  {
    if rows != [] {
      var (before, last) := (rows[..|rows| - 1], rows[|rows| - 1]);
      assert rows == before + [last];
      FirstAtTimeIsFirstPrinted(before, h, fp, now);
      AtTimeOfSnoc(before, last, h, now);
    }
  }

  /** The row heading a newest-first list is the first of its own time. */
  lemma HeadIsFirstAtItsTime(rows: seq<Credential>, h: History, now: real, c: Credential)
    requires NewestFirst(rows, h) && AtTime(rows, h, now) != [] && AtTime(rows, h, now)[0] == c
    requires forall p :: When(h, p) <= now
    ensures rows != [] && rows[0] == c
  {
    assert c in AtTime(rows, h, now);
    AtTimeHolds(rows, h, now, c);
  }

  lemma {:induction false} AtTimeHolds(rows: seq<Credential>, h: History, t: real, c: Credential)
    requires c in AtTime(rows, h, t)
    ensures c in rows && When(h, c.pair) == t
    decreases |rows|
  {
    if c in AtTime(rows[1..], h, t) {
      AtTimeHolds(rows[1..], h, t, c);
    }
  }

  lemma NotedTimes(r: Reading, c: Credential, now: real, freshSalt: string)
    requires !c.fleetRoot && HasPair(StoredRows(r), c.pair) && LaterThanAll(r.history, now)
    ensures NoteSuccess(r, c, now, freshSalt).Some?
    ensures var h := NoteSuccess(r, c, now, freshSalt).value;
            && h.lastSuccess != map[]
            && (forall p :: When(h, p) <= now)
            && forall p :: When(h, p) == now <==> Fingerprint(h.salt, p) == Fingerprint(h.salt, c.pair)
  {
    var rows := StoredRows(r);
    var i :| 0 <= i < |rows| && rows[i].pair == c.pair;
    var h := NoteSuccess(r, c, now, freshSalt).value;
    assert Fingerprint(h.salt, c.pair) in h.lastSuccess;
  }

  /** What is noted of a success: nothing for the fleet root or for a pair that is no longer stored; else its
      fingerprint at this time, beside those known before that still are a stored row's. A history
      without a salt counts as none, and a new one takes the salt drawn for it. */
  lemma NoteInFull(r: Reading, c: Credential, now: real, freshSalt: string)
    ensures var (noted, known) := (NoteSuccess(r, c, now, freshSalt), r.history.Some? && r.history.value.salt != "");
            var salt := if known then r.history.value.salt else freshSalt;
            && (noted.None? <==>
                  c.fleetRoot
                  || forall row :: row in StoredRows(r) ==> Fingerprint(salt, row.pair) != Fingerprint(salt, c.pair))
            && (noted.Some? ==>
                  && noted.value.salt == salt
                  && forall f :: f in noted.value.lastSuccess <==>
                       || f == Fingerprint(salt, c.pair)
                       || (known && f in r.history.value.lastSuccess
                           && exists row :: row in StoredRows(r) && Fingerprint(salt, row.pair) == f))
            && (noted.Some? ==>
                  forall f :: f in noted.value.lastSuccess ==>
                    noted.value.lastSuccess[f]
                    == if f == Fingerprint(salt, c.pair) then now else r.history.value.lastSuccess[f])
  {
    var salt := SaltFor(r, freshSalt);
    forall f
      ensures IsStored(StoredRows(r), salt, f) <==>
              exists row :: row in StoredRows(r) && Fingerprint(salt, row.pair) == f
    {
      StoredIsInARow(StoredRows(r), salt, f);
    }
  }

  lemma StoredIsInARow(rows: seq<Credential>, salt: string, f: string)
    ensures IsStored(rows, salt, f) <==> exists row :: row in rows && Fingerprint(salt, row.pair) == f
  {
    if row :| row in rows && Fingerprint(salt, row.pair) == f {
      var i :| 0 <= i < |rows| && rows[i] == row;
      assert Fingerprint(salt, rows[i].pair) == f;
    }
    if IsStored(rows, salt, f) {
      var i :| 0 <= i < |rows| && Fingerprint(salt, rows[i].pair) == f;
      assert rows[i] in rows;
    }
  }

  /** The rows as stored: the default user's pair, under `root` if it has no name, when it has a
      password, and then every complete entry of the list, in order. */
  lemma StoredRowsInFull(r: Reading)
    ensures var first := r.legacyPassword.Some? && r.legacyPassword.value != "";
            && StoredRows(r) == (if first
                                 then [Credential(Pair(if r.legacyUser == "" then "root" else r.legacyUser,
                                                       r.legacyPassword.value), "fleet default", false)]
                                 else []) + Parse(r.list)
            && (r.list.None? || r.list.value.Blank? || r.list.value.NotAList? ==> Parse(r.list) == [])
            && (r.list.Some? && r.list.value.JsonList? ==> AreTheComplete(Parse(r.list), r.list.value.items))
  {
    if r.list.Some? && r.list.value.JsonList? {
      ParsedAreTheComplete(r.list.value.items);
    }
  }

  /** The credentials of exactly the items that are entries with a user name and a password, in order. */
  ghost predicate AreTheComplete(rows: seq<Credential>, items: seq<Item>)
    decreases |items|
  {
    if items == [] then rows == []
    else
      var (n, item) := (|items| - 1, items[|items| - 1]);
      if item.Entry? && item.username != "" && item.password != "" then
        && rows != []
        && rows[|rows| - 1] == Credential(Pair(item.username, item.password), item.note, false)
        && AreTheComplete(rows[..|rows| - 1], items[..n])
      else AreTheComplete(rows, items[..n])
  }

  lemma {:induction false} ParsedAreTheComplete(items: seq<Item>)
    ensures AreTheComplete(ParseItems(items), items)
    decreases |items|
  {
    if items != [] {
      var before := ParseItems(items[..|items| - 1]);
      ParsedAreTheComplete(items[..|items| - 1]);
      if IsComplete(items[|items| - 1]) {
        assert ParseItems(items)[..|before|] == before;
      } else {
        assert ParseItems(items) == before;
      }
    }
  }

  /** Wherever it was stored, past the bound included, the pair that just got in heads the entry
      list of the next pass, unless an earlier row shares its fingerprint: that one then heads it.
      And a removed credential leaves no fingerprint behind. */
  lemma SuccessComesFirst(r: Reading, c: Credential, now: real, freshSalt: string)
    requires !r.promptAlways && !c.fleetRoot && HasPair(StoredRows(r), c.pair) && LaterThanAll(r.history, now)
    ensures var noted := NoteSuccess(r, c, now, freshSalt);
            && noted.Some? && noted.value.salt == SaltFor(r, freshSalt)
            && (forall f :: f in noted.value.lastSuccess ==> IsStored(StoredRows(r), noted.value.salt, f))
            && var next := r.(history := noted);
               && Entries(next) != []
               && Fingerprint(noted.value.salt, Entries(next)[0].pair) == Fingerprint(noted.value.salt, c.pair)
               && (Entries(next)[0].pair == c.pair <==> NoEarlierClash(StoredRows(r), noted.value.salt, c.pair))
  {
    var rows := StoredRows(r);
    var i :| 0 <= i < |rows| && rows[i].pair == c.pair;
    NotedTimes(r, c, now, freshSalt);
    var noted := NoteSuccess(r, c, now, freshSalt);
    var h := noted.value;
    assert StoredRows(r.(history := noted)) == rows;
    NotedRowHeads(rows, h, c.pair, now);
    NoEarlierClashIsFirstPrinted(rows, h.salt, c.pair);
  }

  lemma NotedRowHeads(rows: seq<Credential>, h: History, p: Pair, now: real)
    requires HasPair(rows, p) && forall q :: When(h, q) <= now
    requires forall q :: When(h, q) == now <==> Fingerprint(h.salt, q) == Fingerprint(h.salt, p)
    ensures var sorted := SortByTime(Deduped(rows), h);
            && sorted != [] && Some(sorted[0]) == FirstPrinted(rows, h.salt, Fingerprint(h.salt, p))
            && Fingerprint(h.salt, sorted[0].pair) == Fingerprint(h.salt, p)
  {
    var fp := Fingerprint(h.salt, p);
    NoEarlierClashIsFirstPrinted(rows, h.salt, p);
    FirstPrintedIsFirst(rows, h.salt, fp);
    DedupedKeepsFirstPrinted(rows, h.salt, fp);
    FirstAtTimeIsFirstPrinted(Deduped(rows), h, fp, now);
    SortIsStable(Deduped(rows), h);
    var sorted := SortByTime(Deduped(rows), h);
    assert AtTime(sorted, h, now) == AtTime(Deduped(rows), h, now);
    HeadIsFirstAtItsTime(sorted, h, now, FirstPrinted(rows, h.salt, fp).value);
  }

  // ---- what the settings page shows ---------------------------------------------------------------

  /** Row `i` is one a pass tries: its pair is within the bound, and this is where it first stands. */
  predicate IsTried(rows: seq<Credential>, entries: seq<Credential>, i: nat)
    requires i < |rows|
  {
    HasPair(entries, rows[i].pair) && !HasPair(rows[..i], rows[i].pair)
  }

  method PairsOf(rows: seq<Credential>) returns (pairs: set<Pair>)
    ensures Collects(pairs, rows, |rows|)
  {
    pairs := {};
    for i := 0 to |rows|
      invariant Collects(pairs, rows, i)
    {
      CollectsOneMore(pairs, rows, i);
      pairs := pairs + {rows[i].pair};
    }
  }

  ghost predicate FlagsTried(flags: seq<bool>, rows: seq<Credential>, entries: seq<Credential>) {
    |flags| <= |rows| && forall i :: 0 <= i < |flags| ==> flags[i] == IsTried(rows, entries, i)
  }

  lemma FlagIsRight(tried: set<Pair>, seen: set<Pair>, rows: seq<Credential>, entries: seq<Credential>, i: nat)
    requires i < |rows| && Collects(tried, entries, |entries|) && Collects(seen, rows, i)
    ensures (rows[i].pair in tried && rows[i].pair !in seen) == IsTried(rows, entries, i)
  {
    assert entries[..|entries|] == entries;
  }

  lemma FlagsOneMore(flags: seq<bool>, flag: bool, rows: seq<Credential>, entries: seq<Credential>)
    requires |flags| < |rows| && FlagsTried(flags, rows, entries) && flag == IsTried(rows, entries, |flags|)
    ensures FlagsTried(flags + [flag], rows, entries)
  {
  }

  method FlagRows(rows: seq<Credential>, entries: seq<Credential>) returns (flags: seq<bool>)
    ensures |flags| == |rows| && FlagsTried(flags, rows, entries)
  {
    var tried := PairsOf(entries);
    var seen: set<Pair> := {};
    flags := [];
    for i := 0 to |rows|
      invariant |flags| == i && FlagsTried(flags, rows, entries)
      invariant Collects(seen, rows, i)
    {
      var flag := rows[i].pair in tried && rows[i].pair !in seen;
      FlagIsRight(tried, seen, rows, entries, i);
      FlagsOneMore(flags, flag, rows, entries);
      flags := flags + [flag];
      CollectsOneMore(seen, rows, i);
      seen := seen + {rows[i].pair};
    }
  }

  /** The flags beside the stored rows. */
  method DescribeTried(r: Reading) returns (storedTried: seq<bool>)
    ensures |storedTried| == |StoredRows(r)|
    ensures forall i :: 0 <= i < |storedTried| ==> storedTried[i] == IsTried(StoredRows(r), Entries(r), i)
  {
    storedTried := FlagRows(StoredRows(r), Entries(r));
  }

  /** The flags mark exactly the pairs a pass tries from the list, each at one row only. */
  lemma TriedFlagsMarkTheEntries(r: Reading)
    ensures var (rows, entries) := (StoredRows(r), Entries(r));
            && (forall i :: 0 <= i < |rows| && IsTried(rows, entries, i) ==> HasPair(entries, rows[i].pair))
            && (forall i, j :: 0 <= i < j < |rows| && IsTried(rows, entries, i) && IsTried(rows, entries, j) ==>
                  rows[i].pair != rows[j].pair)
            && (forall p :: HasPair(entries, p) ==>
                  exists i :: 0 <= i < |rows| && rows[i].pair == p && IsTried(rows, entries, i))
  {
    var (rows, entries) := (StoredRows(r), Entries(r));
    forall i, j | 0 <= i < j < |rows| && IsTried(rows, entries, i) && IsTried(rows, entries, j)
      ensures rows[i].pair != rows[j].pair
    {
      assert rows[..j][i] == rows[i];
    }
    forall p | HasPair(entries, p)
      ensures exists i :: 0 <= i < |rows| && rows[i].pair == p && IsTried(rows, entries, i)
    {
      EntryPairsAreStored(r, p);
      var i := FirstWith(rows, p);
      assert IsTried(rows, entries, i);
    }
  }

  lemma {:induction false} ParsedIsNotRoot(items: seq<Item>)
    ensures forall c :: c in ParseItems(items) ==> !c.fleetRoot
    decreases |items|
  {
    if items != [] {
      ParsedIsNotRoot(items[..|items| - 1]);
    }
  }

  lemma EntriesComeFromRows(r: Reading, c: Credential)
    requires c in Entries(r)
    ensures !r.promptAlways && !c.fleetRoot && c in StoredRows(r) && HasPair(StoredRows(r), c.pair)
  {
    var rows := Deduped(StoredRows(r));
    DedupedKeepsEachPairOnce(StoredRows(r));
    if r.history.Some? {
      SortIsStable(rows, r.history.value);
    }
    if r.list.Some? && r.list.value.JsonList? {
      ParsedIsNotRoot(r.list.value.items);
    }
    assert c in ListEntryCredentials(r);
    assert c in StoredRows(r);
    var k :| 0 <= k < |StoredRows(r)| && StoredRows(r)[k] == c;
  }

  lemma EntryPairsAreStored(r: Reading, p: Pair)
    requires HasPair(Entries(r), p)
    ensures HasPair(StoredRows(r), p)
  {
    var i :| 0 <= i < |Entries(r)| && Entries(r)[i].pair == p;
    EntriesComeFromRows(r, Entries(r)[i]);
  }

  function FirstWith(rows: seq<Credential>, p: Pair): (i: nat)
    requires HasPair(rows, p)
    ensures i < |rows| && rows[i].pair == p && !HasPair(rows[..i], p)
    decreases |rows|
  {
    var n := |rows| - 1;
    assert rows == rows[..n] + [rows[n]];
    HasPairOfSnoc(rows[..n], rows[n], p);
    if HasPair(rows[..n], p) then
      var i := FirstWith(rows[..n], p);
      assert rows[..n][..i] == rows[..i];
      i
    else n
  }
}

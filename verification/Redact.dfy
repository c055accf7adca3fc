/** Masking secrets in nested structures before they are shown, logged or audited. */
module Redact {
  import opened Text

  /** Text, any other leaf (numbers, booleans, nothing), mappings, and lists or tuples. */
  datatype Value =
    | Str(text: string)
    | Leaf(id: int)
    | Mapping(entries: map<string, Value>)
    | Items(values: seq<Value>, isTuple: bool)

  const MASK := "***"

  // ---- which keys are sensitive ---------------------------------------------------------------

  predicate IsDelimiter(c: char) {
    c == '_' || c == '-' || c == '.'
  }

  /** The part stands alone: between delimiters, or at an end of the key. */
  predicate StandsAt(s: string, part: string, i: nat) {
    && OccursAt(s, part, i)
    && (i == 0 || IsDelimiter(s[i - 1])) && (i + |part| == |s| || IsDelimiter(s[i + |part|]))
  }

  predicate ContainsDiscrete(s: string, part: string) {
    exists i: nat :: i <= |s| && StandsAt(s, part, i)
  }

  predicate IsSensitiveKey(key: string) {
    var k := Lower(key);
    || Contains(k, "password") || Contains(k, "passwd") || Contains(k, "secret") || Contains(k, "token")
    || Contains(k, "api_key") || Contains(k, "apikey") || Contains(k, "credential")
    || (Contains(k, "key") && k != "key")
    || ContainsDiscrete(k, "pat") || ContainsDiscrete(k, "pwd") || ContainsDiscrete(k, "pass")
  }

  /** The mask is an innocent name, so masking a name field declares nothing new. */
  lemma MaskIsNotSensitive()
    ensures !IsSensitiveKey(MASK)
  {
    assert Lower(MASK) == MASK;
    forall part: string, i: nat | part != "" && part[0] != '*'
      ensures !OccursAt(MASK, part, i)
    {
      if i + |part| <= |MASK| {
        assert MASK[i..i + |part|][0] == '*';
      }
    }
  }

  lemma OccursInside(a: string, word: string, b: string)
    requires Lower(word) == word
    ensures OccursAt(Lower(a + word + b), word, |a|)
  {
    var s := Lower(a + word + b);
    assert forall j :: 0 <= j < |word| ==> s[|a| + j] == LowerChar(word[j]) == word[j];
    assert s[|a|..|a| + |word|] == word;
  }

  /** The word stands alone in the name: `_`, `-` or `.` or nothing on either side of it. */
  ghost predicate StandsAlone(name: string, word: string) {
    exists a: string, b: string ::
      && name == a + word + b
      && (a == "" || a[|a| - 1] in {'_', '-', '.'}) && (b == "" || b[0] in {'_', '-', '.'})
  }

  /** A name that, in any case, carries a secret word anywhere, is a compound of `key`, or has a short
      spelling standing alone. */
  ghost predicate NamesASecret(name: string) {
    var k := Lower(name);
    || (exists word <- ["password", "passwd", "secret", "token", "api_key", "apikey", "credential"] :: Carries(k, word))
    || (Carries(k, "key") && k != "key")
    || (exists word <- ["pat", "pwd", "pass"] :: StandsAlone(k, word))
  }

  lemma PlaceStandsAlone(s: string, part: string, i: nat)
    requires StandsAt(s, part, i)
    ensures StandsAlone(s, part)
  {
    var (a, b) := (s[..i], s[i + |part|..]);
    assert s == a + part + b;
    assert a == "" || IsDelimiter(a[|a| - 1]);
    assert b == "" || IsDelimiter(b[0]);
  }

  lemma StandingAloneHasAPlace(s: string, a: string, part: string, b: string)
    requires s == a + part + b
    requires (a == "" || a[|a| - 1] in {'_', '-', '.'}) && (b == "" || b[0] in {'_', '-', '.'})
    ensures StandsAt(s, part, |a|)
  {
    assert s[|a|..|a| + |part|] == part;
    assert a != "" ==> s[|a| - 1] == a[|a| - 1];
    assert b != "" ==> s[|a| + |part|] == b[0];
  }

  lemma DiscreteStandsAlone(s: string, part: string)
    ensures ContainsDiscrete(s, part) <==> StandsAlone(s, part)
  {
    if i: nat :| i <= |s| && StandsAt(s, part, i) {
      PlaceStandsAlone(s, part, i);
    } else if StandsAlone(s, part) {
      var a: string, b: string :|
        s == a + part + b
        && (a == "" || a[|a| - 1] in {'_', '-', '.'}) && (b == "" || b[0] in {'_', '-', '.'});
      StandingAloneHasAPlace(s, a, part, b);
    }
  }

  /** Exactly the names of secrets are sensitive. */
  lemma SensitiveKeysNameSecrets(name: string)
    ensures IsSensitiveKey(name) <==> NamesASecret(name)
  {
    var k := Lower(name);
    LongWordsAreCarried(k);
    ContainsWhatItCarries(k, "key");
    DiscreteStandsAlone(k, "pat");
    DiscreteStandsAlone(k, "pwd");
    DiscreteStandsAlone(k, "pass");
  }

  lemma LongWordsAreCarried(k: string)
    ensures (Contains(k, "password") || Contains(k, "passwd") || Contains(k, "secret") || Contains(k, "token")
             || Contains(k, "api_key") || Contains(k, "apikey") || Contains(k, "credential"))
            <==> exists word <- ["password", "passwd", "secret", "token", "api_key", "apikey", "credential"] ::
                   Carries(k, word)
  {
    ContainsWhatItCarries(k, "password");
    ContainsWhatItCarries(k, "passwd");
    ContainsWhatItCarries(k, "secret");
    ContainsWhatItCarries(k, "token");
    ContainsWhatItCarries(k, "api_key");
    ContainsWhatItCarries(k, "apikey");
    ContainsWhatItCarries(k, "credential");
  }

  /** A key that carries one of the long words is sensitive wherever the word stands and however
      the rest is spelled; so is any compound of `key`. */
  lemma SecretWordsAreSensitive(a: string, word: string, b: string)
    requires word in {"password", "passwd", "secret", "token", "api_key", "apikey", "credential", "key"}
    ensures IsSensitiveKey(a + word + b) || Lower(a + word + b) == "key"
  {
    assert Lower(word) == word;
    OccursInside(a, word, b);
  }

  /** The short spellings count only between delimiters or at an end of the key. */
  lemma DiscreteWordsAreSensitive(a: string, word: string, b: string)
    requires word in {"pat", "pwd", "pass"}
    requires a == "" || IsDelimiter(a[|a| - 1])
    requires b == "" || IsDelimiter(b[0])
    ensures IsSensitiveKey(a + word + b)
  {
    assert Lower(word) == word;
    OccursInside(a, word, b);
    var s := Lower(a + word + b);
    assert a != "" ==> (a + word + b)[|a| - 1] == a[|a| - 1];
    assert b != "" ==> (a + word + b)[|a| + |word|] == b[0];
    assert StandsAt(s, word, |a|);
  }

  /** `key` names a setting; it is the one exempt spelling. */
  lemma BareKeyIsExempt()
    ensures !IsSensitiveKey("key")
  {
    assert Lower("key") == "key";
    forall part: string, i: nat | |part| >= 3 && part != "key"
      ensures !OccursAt("key", part, i)
    {
      if i + |part| <= 3 {
        assert "key"[i..i + |part|] == "key";
      }
    }
  }

  const NAME_FIELDS := ["key", "name", "setting", "setting_key", "param", "parameter", "field"]
  const VALUE_FIELDS := ["value", "val", "new_value", "setting_value"]

  predicate DeclaresSecret(m: map<string, Value>) {
    exists f <- NAME_FIELDS :: f in m && m[f].Str? && IsSensitiveKey(m[f].text)
  }

  /** The value fields a sibling name field declares secret. */
  function SiblingMasked(m: map<string, Value>): set<string> {
    if DeclaresSecret(m) then set f | f in VALUE_FIELDS && f in m else {}
  }

  predicate Hidden(m: map<string, Value>, k: string) {
    IsSensitiveKey(k) || k in SiblingMasked(m)
  }

  /** A field that must not be shown: its own name is a secret's, or it is one of the four value fields
      beside a name field, one of seven, whose text names a secret. */
  ghost predicate MustBeMasked(m: map<string, Value>, k: string) {
    || NamesASecret(k)
    || (k in {"value", "val", "new_value", "setting_value"}
        && exists f <- ["key", "name", "setting", "setting_key", "param", "parameter", "field"] ::
             f in m && m[f].Str? && NamesASecret(m[f].text))
  }

  lemma HiddenMustBeMasked(m: map<string, Value>, k: string)
    requires k in m
    ensures Hidden(m, k) <==> MustBeMasked(m, k)
  {
    SensitiveKeysNameSecrets(k);
    forall f | f in m && m[f].Str?
      ensures IsSensitiveKey(m[f].text) <==> NamesASecret(m[f].text)
    {
      SensitiveKeysNameSecrets(m[f].text);
    }
  }

  // ---- redaction ------------------------------------------------------------------------------

  function RedactStructure(v: Value, depth: nat, maxDepth: int): Value
    decreases maxDepth + 1 - depth
  {
    if depth > maxDepth then Str(MASK)
    else match v
      case Mapping(m) =>
        Mapping(map k | k in m :: if Hidden(m, k) then Str(MASK) else RedactStructure(m[k], depth + 1, maxDepth))
      case Items(values, _) =>
        Items(seq(|values|, i requires 0 <= i < |values| => RedactStructure(values[i], depth + 1, maxDepth)), false)
      case _ => v
  }

  /** A redacted text is the mask or what it was. */
  lemma RedactedTextIsOldOrMask(v: Value, depth: nat, maxDepth: int)
    requires RedactStructure(v, depth, maxDepth).Str?
    ensures RedactStructure(v, depth, maxDepth) == v || RedactStructure(v, depth, maxDepth).text == MASK
  {
  }

  lemma NoNewDeclarations(m: map<string, Value>, once: map<string, Value>)
    requires m.Keys == once.Keys
    requires forall k :: k in m && once[k].Str? ==> once[k] == m[k] || once[k].text == MASK
    ensures DeclaresSecret(once) ==> DeclaresSecret(m)
  {
    MaskIsNotSensitive();
  }

  /** Redaction rewrites name fields only to the mask, so it never makes a sibling look secret. */
  lemma MaskedFieldsStayWithin(m: map<string, Value>, depth: nat, maxDepth: int)
    requires depth <= maxDepth
    ensures var once := RedactStructure(Mapping(m), depth, maxDepth).entries;
            forall k :: Hidden(once, k) ==> Hidden(m, k)
  {
    var once := RedactStructure(Mapping(m), depth, maxDepth).entries;
    forall k | k in m && once[k].Str?
      ensures once[k] == m[k] || once[k].text == MASK
    {
      if !Hidden(m, k) {
        RedactedTextIsOldOrMask(m[k], depth + 1, maxDepth);
      }
    }
    NoNewDeclarations(m, once);
  }

  /** Field by field, a second pass over a redacted mapping changes nothing if it changes nothing
      in the fields it descends into. */
  lemma SecondPassOverMapping(m: map<string, Value>, depth: nat, maxDepth: int)
    requires depth <= maxDepth
    requires forall k :: k in m && !Hidden(m, k) ==>
      var r := RedactStructure(m[k], depth + 1, maxDepth); RedactStructure(r, depth + 1, maxDepth) == r
    ensures var r := RedactStructure(Mapping(m), depth, maxDepth); RedactStructure(r, depth, maxDepth) == r
  {
    var once := RedactStructure(Mapping(m), depth, maxDepth).entries;
    var twice := RedactStructure(Mapping(once), depth, maxDepth).entries;
    MaskedFieldsStayWithin(m, depth, maxDepth);
    assert RedactStructure(Str(MASK), depth + 1, maxDepth) == Str(MASK);
    forall k | k in m
      ensures twice[k] == once[k]
    {
    }
    assert twice == once;
  }

  /** What was masked once stays masked: the second pass finds no more to hide. */
  lemma {:induction false} RedactIsIdempotent(v: Value, depth: nat, maxDepth: int)
    ensures RedactStructure(RedactStructure(v, depth, maxDepth), depth, maxDepth) == RedactStructure(v, depth, maxDepth)
    decreases maxDepth + 1 - depth
  {
    if depth <= maxDepth && v.Items? {
      var once := RedactStructure(v, depth, maxDepth).values;
      forall i | 0 <= i < |v.values|
        ensures RedactStructure(once[i], depth + 1, maxDepth) == once[i]
      {
        RedactIsIdempotent(v.values[i], depth + 1, maxDepth);
      }
      assert RedactStructure(Items(once, false), depth, maxDepth).values == once;
    } else if depth <= maxDepth && v.Mapping? {
      forall k | k in v.entries && !Hidden(v.entries, k)
        ensures var r := RedactStructure(v.entries[k], depth + 1, maxDepth);
                RedactStructure(r, depth + 1, maxDepth) == r
      {
        RedactIsIdempotent(v.entries[k], depth + 1, maxDepth);
      }
      SecondPassOverMapping(v.entries, depth, maxDepth);
    }
  }

  // ---- what redaction hides, and what it does not ----------------------------------------------

  /** Each field that both mappings have must be masked in both or in neither. */
  ghost predicate MaskTheSame(m: map<string, Value>, n: map<string, Value>) {
    forall k :: k in m && k in n ==> (MustBeMasked(m, k) <==> MustBeMasked(n, k))
  }

  /** The two values agree wherever redaction looks: outside hidden fields, down to the cap. */
  ghost predicate Agree(a: Value, b: Value, depth: nat, maxDepth: int)
    decreases maxDepth + 1 - depth
  {
    depth > maxDepth ||
    match (a, b)
    case (Str(s), Str(t)) => s == t
    case (Leaf(x), Leaf(y)) => x == y
    case (Items(xs, _), Items(ys, _)) =>
      |xs| == |ys| && forall i :: 0 <= i < |xs| ==> Agree(xs[i], ys[i], depth + 1, maxDepth)
    case (Mapping(m), Mapping(n)) =>
      && m.Keys == n.Keys && MaskTheSame(m, n)
      && forall k :: k in m && !MustBeMasked(m, k) ==> Agree(m[k], n[k], depth + 1, maxDepth)
    case _ => false
  }

  /** The same fields are hidden at every mapping the two values share. */
  ghost predicate HideTheSame(a: Value, b: Value, depth: nat, maxDepth: int)
    decreases maxDepth + 1 - depth
  {
    depth > maxDepth ||
    match (a, b)
    case (Items(xs, _), Items(ys, _)) =>
      forall i :: 0 <= i < |xs| && i < |ys| ==> HideTheSame(xs[i], ys[i], depth + 1, maxDepth)
    case (Mapping(m), Mapping(n)) =>
      && MaskTheSame(m, n)
      && forall k :: k in m && k in n && !MustBeMasked(m, k) ==> HideTheSame(m[k], n[k], depth + 1, maxDepth)
    case _ => true
  }

  /** Noninterference and its converse: nothing under a hidden field reaches the result, and
      everything else does. */
  lemma {:induction false} RedactionShowsExactlyTheRest(a: Value, b: Value, depth: nat, maxDepth: int)
    ensures Agree(a, b, depth, maxDepth) <==>
            && RedactStructure(a, depth, maxDepth) == RedactStructure(b, depth, maxDepth)
            && HideTheSame(a, b, depth, maxDepth)
    decreases maxDepth + 1 - depth
  {
    if depth <= maxDepth {
      match (a, b)
      case (Items(xs, _), Items(ys, _)) => ItemsShowTheRest(xs, ys, a.isTuple, b.isTuple, depth, maxDepth);
      case (Mapping(m), Mapping(n)) => MappingsShowTheRest(m, n, depth, maxDepth);
      case _ =>
    }
  }

  lemma {:induction false} ItemsShowTheRest(
    xs: seq<Value>, ys: seq<Value>, xTuple: bool, yTuple: bool, depth: nat, maxDepth: int)
    requires depth <= maxDepth
    ensures Agree(Items(xs, xTuple), Items(ys, yTuple), depth, maxDepth) <==>
            && (RedactStructure(Items(xs, xTuple), depth, maxDepth)
                == RedactStructure(Items(ys, yTuple), depth, maxDepth))
            && HideTheSame(Items(xs, xTuple), Items(ys, yTuple), depth, maxDepth)
    decreases maxDepth + 1 - depth, 0
  {
    var rx := RedactStructure(Items(xs, xTuple), depth, maxDepth).values;
    var ry := RedactStructure(Items(ys, yTuple), depth, maxDepth).values;
    forall i | 0 <= i < |xs| && i < |ys|
      ensures Agree(xs[i], ys[i], depth + 1, maxDepth) <==>
              rx[i] == ry[i] && HideTheSame(xs[i], ys[i], depth + 1, maxDepth)
    {
      RedactionShowsExactlyTheRest(xs[i], ys[i], depth + 1, maxDepth);
    }
    if Agree(Items(xs, xTuple), Items(ys, yTuple), depth, maxDepth) {
      assert rx == ry;
    }
  }

  lemma {:induction false} MappingsShowTheRest(m: map<string, Value>, n: map<string, Value>, depth: nat, maxDepth: int)
    requires depth <= maxDepth
    ensures Agree(Mapping(m), Mapping(n), depth, maxDepth) <==>
            && RedactStructure(Mapping(m), depth, maxDepth) == RedactStructure(Mapping(n), depth, maxDepth)
            && HideTheSame(Mapping(m), Mapping(n), depth, maxDepth)
    decreases maxDepth + 1 - depth, 0
  {
    var rm := RedactStructure(Mapping(m), depth, maxDepth).entries;
    var rn := RedactStructure(Mapping(n), depth, maxDepth).entries;
    forall k | k in m
      ensures Hidden(m, k) <==> MustBeMasked(m, k)
    {
      HiddenMustBeMasked(m, k);
    }
    forall k | k in n
      ensures Hidden(n, k) <==> MustBeMasked(n, k)
    {
      HiddenMustBeMasked(n, k);
    }
    forall k | k in m && k in n && !Hidden(m, k) && !Hidden(n, k)
      ensures Agree(m[k], n[k], depth + 1, maxDepth) <==>
              rm[k] == rn[k] && HideTheSame(m[k], n[k], depth + 1, maxDepth)
    {
      RedactionShowsExactlyTheRest(m[k], n[k], depth + 1, maxDepth);
    }
    assert rm.Keys == m.Keys && rn.Keys == n.Keys;
    if Agree(Mapping(m), Mapping(n), depth, maxDepth) {
      assert rm == rn;
    }
  }

  // ---- what stands at each place of the result --------------------------------------------------

  datatype Step = Key(name: string) | Index(at: nat)

  predicate HasStep(v: Value, s: Step) {
    || (v.Mapping? && s.Key? && s.name in v.entries)
    || (v.Items? && s.Index? && s.at < |v.values|)
  }

  function Follow(v: Value, s: Step): Value
    requires HasStep(v, s)
  {
    if v.Mapping? then v.entries[s.name] else v.values[s.at]
  }

  predicate HasPath(v: Value, path: seq<Step>)
    decreases |path|
  {
    path == [] || (HasStep(v, path[0]) && HasPath(Follow(v, path[0]), path[1..]))
  }

  function Lookup(v: Value, path: seq<Step>): Value
    requires HasPath(v, path)
    decreases |path|
  {
    if path == [] then v else Lookup(Follow(v, path[0]), path[1..])
  }

  /** Some mapping along the path has to mask the field the path takes. */
  ghost predicate PassesHidden(v: Value, path: seq<Step>)
    requires HasPath(v, path)
    decreases |path|
  {
    path != [] &&
    ((v.Mapping? && MustBeMasked(v.entries, path[0].name)) || PassesHidden(Follow(v, path[0]), path[1..]))
  }

  lemma VisibleStepIsKept(v: Value, step: Step, depth: nat, maxDepth: int)
    requires HasStep(v, step) && depth < maxDepth && (v.Mapping? ==> !MustBeMasked(v.entries, step.name))
    ensures var r := RedactStructure(v, depth, maxDepth);
            HasStep(r, step) && Follow(r, step) == RedactStructure(Follow(v, step), depth + 1, maxDepth)
  {
    if v.Mapping? {
      HiddenMustBeMasked(v.entries, step.name);
    }
  }

  /** A place that no hidden field and no cap stands in front of is kept, with its redacted
      contents: leaves unchanged, mappings with all their keys, lists and tuples as lists of all their
      elements. */
  lemma {:induction false} VisiblePlacesAreKept(v: Value, path: seq<Step>, depth: nat, maxDepth: int)
    requires HasPath(v, path) && !PassesHidden(v, path) && depth + |path| <= maxDepth
    ensures var r := RedactStructure(v, depth, maxDepth);
            && HasPath(r, path)
            && Lookup(r, path) == RedactStructure(Lookup(v, path), depth + |path|, maxDepth)
            && (Lookup(v, path).Mapping? ==>
                Lookup(r, path).Mapping? && Lookup(r, path).entries.Keys == Lookup(v, path).entries.Keys)
            && (Lookup(v, path).Items? ==>
                Lookup(r, path).Items? && |Lookup(r, path).values| == |Lookup(v, path).values|
                && !Lookup(r, path).isTuple)
            && (Lookup(v, path).Str? || Lookup(v, path).Leaf? ==> Lookup(r, path) == Lookup(v, path))
    decreases |path|
  {
    if path != [] {
      VisiblePlacesAreKept(Follow(v, path[0]), path[1..], depth + 1, maxDepth);
      VisibleStepIsKept(v, path[0], depth, maxDepth);
    }
  }

  /** Everywhere in the result, a field that is hidden in the source mapping reads as the mask,
      and so does everything past the cap; no path reaches through either. */
  lemma {:induction false} HiddenPlacesReadAsTheMask(v: Value, path: seq<Step>, depth: nat, maxDepth: int)
    requires HasPath(v, path) && (PassesHidden(v, path) || depth + |path| > maxDepth)
    requires HasPath(RedactStructure(v, depth, maxDepth), path)
    ensures Lookup(RedactStructure(v, depth, maxDepth), path) == Str("***")
    decreases |path|
  {
    if path != [] {
      var r := RedactStructure(v, depth, maxDepth);
      assert depth <= maxDepth;
      if v.Mapping? {
        HiddenMustBeMasked(v.entries, path[0].name);
      }
      if v.Mapping? && Hidden(v.entries, path[0].name) {
        assert Follow(r, path[0]) == Str(MASK);
      } else {
        assert Follow(r, path[0]) == RedactStructure(Follow(v, path[0]), depth + 1, maxDepth);
        HiddenPlacesReadAsTheMask(Follow(v, path[0]), path[1..], depth + 1, maxDepth);
      }
    }
  }

  /** A setting's value is not shown beside its name: where a name field's text carries a secret word,
      every value field of the mapping reads as the mask, at any depth within the cap. */
  lemma ValueBesideASecretNameIsMasked(
    m: map<string, Value>, f: string, a: string, word: string, b: string, k: string, depth: nat, maxDepth: int)
    requires depth <= maxDepth && f in m && k in m && m[f] == Str(a + word + b)
    requires f in {"key", "name", "setting", "setting_key", "param", "parameter", "field"}
    requires k in {"value", "val", "new_value", "setting_value"}
    requires word in {"password", "passwd", "secret", "token", "api_key", "apikey", "credential"}
    ensures RedactStructure(Mapping(m), depth, maxDepth).entries[k] == Str("***")
  {
    SecretWordNamesASecret(a, word, b);
    MaskedBesideASecretName(m, f, k);
    HiddenMustBeMasked(m, k);
  }

  lemma SecretWordNamesASecret(a: string, word: string, b: string)
    requires word in {"password", "passwd", "secret", "token", "api_key", "apikey", "credential"}
    ensures NamesASecret(a + word + b)
  {
    SecretWordsAreSensitive(a, word, b);
    LongWordIsNotKey(a, word, b);
    SensitiveKeysNameSecrets(a + word + b);
  }

  lemma MaskedBesideASecretName(m: map<string, Value>, f: string, k: string)
    requires f in m && m[f].Str? && NamesASecret(m[f].text)
    requires f in {"key", "name", "setting", "setting_key", "param", "parameter", "field"}
    requires k in {"value", "val", "new_value", "setting_value"}
    ensures MustBeMasked(m, k)
  {
  }

  lemma LongWordIsNotKey(a: string, word: string, b: string)
    requires |word| > 3
    ensures Lower(a + word + b) != "key"
  {
    assert |Lower(a + word + b)| > 3;
  }

  /** And where no name field has such a text, a value field is shown, redacted inside. */
  lemma ValueBesideAnOrdinaryNameIsKept(m: map<string, Value>, k: string, depth: nat, maxDepth: int)
    requires depth <= maxDepth && k in m && !NamesASecret(k)
    requires forall f :: f in {"key", "name", "setting", "setting_key", "param", "parameter", "field"} ==>
               f in m && m[f].Str? ==> !NamesASecret(m[f].text)
    ensures RedactStructure(Mapping(m), depth, maxDepth).entries[k] == RedactStructure(m[k], depth + 1, maxDepth)
  {
    HiddenMustBeMasked(m, k);
  }
}

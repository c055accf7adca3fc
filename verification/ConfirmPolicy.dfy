/** The risk vocabulary, the confirmation level each word earns, and the level a whole plan earns. */
module ConfirmPolicy {
  import opened Wrappers

  datatype Level = NoConfirm | LlmConfirm | UrlOnly | UrlAndPassword

  /** The one severity scale. */
  function Strictness(level: Level): nat {
    match level
    case NoConfirm => 0
    case LlmConfirm => 1
    case UrlOnly => 2
    case UrlAndPassword => 3
  }

  predicate IsUrlLevel(level: Level) {
    level == UrlOnly || level == UrlAndPassword
  }

  const KNOWN_RISKS: set<string> := {"dangerous", "service-affecting", "normal", "read-only", "action", "read"}

  /** The default table; a word it does not hold earns a click, never a free run. */
  function DefaultLevel(risk: string): Level {
    if risk == "dangerous" then UrlAndPassword
    else if risk == "service-affecting" || risk == "action" then UrlOnly
    else if risk == "normal" || risk == "read-only" || risk == "read" then NoConfirm
    else UrlOnly
  }

  function RiskRank(risk: string): nat {
    Strictness(DefaultLevel(risk))
  }

  /** An operator's override is honoured only inside the closed vocabulary of levels. */
  function ParseLevel(word: string): Option<Level> {
    if word == "none" then Some(NoConfirm)
    else if word == "llm_confirm" then Some(LlmConfirm)
    else if word == "url_only" then Some(UrlOnly)
    else if word == "url_and_password" then Some(UrlAndPassword)
    else None
  }

  /** `overrides` holds the `confirm_level_<risk>` settings by risk word. */
  function ResolveConfirmation(overrides: map<string, string>, risk: string): Level {
    if risk in overrides && ParseLevel(overrides[risk]).Some?
    then ParseLevel(overrides[risk]).value
    else DefaultLevel(risk)
  }

  /** What an operator may choose for a risk word, and what each word earns by itself. */
  const LEVEL_WORDS: map<string, Level> :=
    map["none" := NoConfirm, "llm_confirm" := LlmConfirm, "url_only" := UrlOnly, "url_and_password" := UrlAndPassword]
  const LEVEL_TABLE: map<string, Level> :=
    map["dangerous" := UrlAndPassword, "service-affecting" := UrlOnly, "action" := UrlOnly,
        "normal" := NoConfirm, "read-only" := NoConfirm, "read" := NoConfirm]

  /** The level of a word: the operator's, if it is one of the four; else the table's; else a click. */
  lemma LevelsAreByTheTable(overrides: map<string, string>, risk: string)
    ensures ResolveConfirmation(overrides, risk) ==
              if risk in overrides && overrides[risk] in LEVEL_WORDS then LEVEL_WORDS[overrides[risk]]
              else if risk in LEVEL_TABLE then LEVEL_TABLE[risk]
              else UrlOnly
  {
  }

  /** The gate fails closed: an operation runs unconfirmed only for a word the table knows,
      or one an operator has explicitly set to `none`. */
  lemma UnconfirmedRunsAreDeclared(overrides: map<string, string>, risk: string)
    requires ResolveConfirmation(overrides, risk) == NoConfirm
    ensures (risk in overrides && overrides[risk] == "none") || risk in {"normal", "read-only", "read"}
  {
    if risk in overrides && ParseLevel(overrides[risk]).Some? {
      assert overrides[risk] == "none";
    }
  }

  /** A declared word can replace an unknown catalog word without softening it only if it ranks
      at least as high, and the only known words that do are these three. */
  lemma UnknownWordIsSoftenedByNothingMild(unknown: string, declared: string)
    requires unknown !in KNOWN_RISKS && declared in KNOWN_RISKS
    ensures RiskRank(declared) >= RiskRank(unknown) <==> declared in {"dangerous", "service-affecting", "action"}
  {
    assert DefaultLevel(unknown) == UrlOnly;
  }

  // ---- the level of a plan ------------------------------------------------------------------

  /** `level` is the strictest level any of `risks` earns, and `none` for a plan with no steps. */
  ghost predicate IsPlanLevel(overrides: map<string, string>, risks: seq<string>, level: Level) {
    && (forall r <- risks :: Strictness(ResolveConfirmation(overrides, r)) <= Strictness(level))
    && (level == NoConfirm || exists r <- risks :: ResolveConfirmation(overrides, r) == level)
  }

  function PlanLevel(overrides: map<string, string>, risks: seq<string>): (level: Level)
    ensures IsPlanLevel(overrides, risks, level)
  {
    if risks == [] then NoConfirm
    else
      var rest := PlanLevel(overrides, risks[1..]);
      var first := ResolveConfirmation(overrides, risks[0]);
      assert forall r <- risks :: r == risks[0] || r in risks[1..];
      if Strictness(first) > Strictness(rest) then first else rest
  }

  lemma PlanLevelIsUnique(overrides: map<string, string>, risks: seq<string>, a: Level, b: Level)
    requires IsPlanLevel(overrides, risks, a) && IsPlanLevel(overrides, risks, b)
    ensures a == b
  {
    assert Strictness(a) == Strictness(b) by {
      if a != NoConfirm {
        var r :| r in risks && ResolveConfirmation(overrides, r) == a;
        assert Strictness(a) <= Strictness(b);
      }
      if b != NoConfirm {
        var r :| r in risks && ResolveConfirmation(overrides, r) == b;
        assert Strictness(b) <= Strictness(a);
      }
    }
  }

  /** Some step of the plan earns `level`. */
  predicate Reaches(overrides: map<string, string>, risks: seq<string>, level: Level) {
    exists r <- risks :: ResolveConfirmation(overrides, r) == level
  }

  /** The order of strictness, in words: a password before a click before the model's own consent. */
  lemma PlanLevelInWords(overrides: map<string, string>, risks: seq<string>)
    ensures PlanLevel(overrides, risks) ==
              if Reaches(overrides, risks, UrlAndPassword) then UrlAndPassword
              else if Reaches(overrides, risks, UrlOnly) then UrlOnly
              else if Reaches(overrides, risks, LlmConfirm) then LlmConfirm
              else NoConfirm
  {
    assert IsPlanLevel(overrides, risks, PlanLevel(overrides, risks));
  }

  /** Reordering a plan's steps never changes the confirmation it needs. */
  lemma PlanLevelIgnoresOrder(overrides: map<string, string>, risks: seq<string>, shuffled: seq<string>)
    requires multiset(risks) == multiset(shuffled)
    ensures PlanLevel(overrides, risks) == PlanLevel(overrides, shuffled)
  {
    var level := PlanLevel(overrides, shuffled);
    assert forall r :: r in risks <==> r in multiset(risks);
    assert forall r :: r in shuffled <==> r in multiset(shuffled);
    assert IsPlanLevel(overrides, risks, level);
    PlanLevelIsUnique(overrides, risks, PlanLevel(overrides, risks), level);
  }

  /** A plan is never easier to run than the hardest of its parts. */
  lemma PlanLevelOfConcatenation(overrides: map<string, string>, a: seq<string>, b: seq<string>)
    ensures Strictness(PlanLevel(overrides, a + b))
         == if Strictness(PlanLevel(overrides, a)) >= Strictness(PlanLevel(overrides, b))
            then Strictness(PlanLevel(overrides, a)) else Strictness(PlanLevel(overrides, b))
  {
    var la, lb := PlanLevel(overrides, a), PlanLevel(overrides, b);
    var level := if Strictness(la) >= Strictness(lb) then la else lb;
    assert IsPlanLevel(overrides, a + b, level) by {
      if level != NoConfirm {
        var part := if level == la then a else b;
        var r :| r in part && ResolveConfirmation(overrides, r) == level;
        assert r in a + b;
      }
    }
    PlanLevelIsUnique(overrides, a + b, PlanLevel(overrides, a + b), level);
  }

  /** Step `k` is the first to reach `level`. */
  ghost predicate FirstToReach(overrides: map<string, string>, risks: seq<string>, level: Level, k: nat) {
    && k < |risks| && ResolveConfirmation(overrides, risks[k]) == level
    && forall j :: 0 <= j < k ==> Strictness(ResolveConfirmation(overrides, risks[j])) < Strictness(level)
  }

  /** `risk` is the word that set the level: the word of the first step that reaches it. */
  ghost predicate DrivenBy(overrides: map<string, string>, risks: seq<string>, level: Level, risk: string) {
    if level == NoConfirm then risk == "read-only"
    else exists k: nat :: FirstToReach(overrides, risks, level, k) && risk == risks[k]
  }

  method PlanLevelAndRisk(overrides: map<string, string>, risks: seq<string>) returns (level: Level, risk: string)
    ensures level == PlanLevel(overrides, risks)
    ensures DrivenBy(overrides, risks, level, risk)
  {
    level, risk := NoConfirm, "read-only";
    ghost var first := 0;
    for i := 0 to |risks|
      invariant forall j :: 0 <= j < i ==> Strictness(ResolveConfirmation(overrides, risks[j])) <= Strictness(level)
      invariant level == NoConfirm ==> risk == "read-only"
      invariant level != NoConfirm ==>
        first < i && FirstToReach(overrides, risks, level, first) && risk == risks[first]
    {
      var step := ResolveConfirmation(overrides, risks[i]);
      if Strictness(step) > Strictness(level) {
        level, risk, first := step, risks[i], i;
      }
    }
    PlanLevelIsUnique(overrides, risks, level, PlanLevel(overrides, risks));
  }

  // ---- what the plan gate decides -----------------------------------------------------------

  datatype PlanDecision =
    | PlanNotFound
    | RunPlan
    | AskForConsent(risk: string)
    | HoldForApproval(heldAt: Level, drivenBy: string)

  /** The gate over a whole plan; `plan` is `None` when the engine does not know the id. */
  method GatePlan(overrides: map<string, string>, plan: Option<seq<string>>, consent: bool) returns (d: PlanDecision)
    ensures d == PlanNotFound <==> plan == None
    ensures plan.Some? ==>
      var level := PlanLevel(overrides, plan.value);
      && (d == RunPlan <==> level == NoConfirm || (level == LlmConfirm && consent))
      && (d.AskForConsent? <==> level == LlmConfirm && !consent)
      && (d.HoldForApproval? <==> level in {UrlOnly, UrlAndPassword})
      && (d.AskForConsent? ==> DrivenBy(overrides, plan.value, level, d.risk))
      && (d.HoldForApproval? ==> d.heldAt == level && DrivenBy(overrides, plan.value, level, d.drivenBy))
  {
    if plan == None {
      return PlanNotFound;
    }
    var level, risk := PlanLevelAndRisk(overrides, plan.value);
    if level == NoConfirm {
      return RunPlan;
    }
    if level == LlmConfirm {
      return if consent then RunPlan else AskForConsent(risk);
    }
    return HoldForApproval(level, risk);
  }
}
